/**
  The whole store as a map from scope names to lists, one public operation at a time:
  validation, scope creation and its rollback, the write-event log, and the bulk
  operations (store.go, bulk.go, events.go, validation.go).
 */
module StoreSpec {
  import opened Types
  import opened Sums
  import opened ScopeSpec
  import opened BufferSpec

  datatype Held = Held(scope: Scope, writeTS: int)

  datatype Store = Store(
    scopes: map<string, Held>, total: int, items: int, count: int, writeTS: int, drops: nat)

  // ---- requests and their validation ----

  datatype Request =
    | AppendReq(scope: string, id: string, payload: Bytes, sq: nat, ts: int)
    | UpsertReq(scope: string, id: string, payload: Bytes, sq: nat, ts: int)
    | UpdateReq(scope: string, id: string, payload: Bytes, sq: nat, ts: int)
    | CounterReq(scope: string, id: string, inc: int)
    | DeleteReq(scope: string, id: string, sq: nat)
    | DeleteUpToReq(scope: string, maxSeq: nat)
    | DeleteScopeReq(scope: string)

  predicate ScopeOk(codec: Codec, scope: string) {
    scope != "" && codec.nameOk(scope)
  }

  predicate IdOrSeq(codec: Codec, id: string, sq: nat) {
    ((id != "") != (sq != 0)) && (id != "" ==> codec.nameOk(id))
  }

  // The size checkItemSize measures, before a seq or a time is assigned.
  function RequestSize(codec: Codec, scope: string, id: string, payload: Bytes): int {
    ItemSize(Item(scope, id, 0, 0, Plain(payload, codec.decodeString(payload))))
  }

  predicate WriteItemOk(codec: Codec, scope: string, id: string, payload: Bytes, sq: nat, ts: int, maxItemBytes: int) {
    && ScopeOk(codec, scope) && (id != "" ==> codec.nameOk(id)) && codec.payloadOk(payload)
    && sq == 0 && ts == 0 && RequestSize(codec, scope, id, payload) <= maxItemBytes
  }

  predicate Accepts(cfg: Config, r: Request) {
    match r
    case AppendReq(scope, id, payload, sq, ts) =>
      WriteItemOk(cfg.codec, scope, id, payload, sq, ts, cfg.MaxItemBytesFor(scope))
    case UpsertReq(scope, id, payload, sq, ts) =>
      !IsReserved(scope) && id != "" && WriteItemOk(cfg.codec, scope, id, payload, sq, ts, cfg.maxItemBytes)
    case UpdateReq(scope, id, payload, sq, ts) =>
      && ScopeOk(cfg.codec, scope) && !IsReserved(scope) && IdOrSeq(cfg.codec, id, sq)
      && cfg.codec.payloadOk(payload) && ts == 0 && RequestSize(cfg.codec, scope, id, payload) <= cfg.maxItemBytes
    case CounterReq(scope, id, inc) =>
      && ScopeOk(cfg.codec, scope) && !IsReserved(scope) && id != "" && cfg.codec.nameOk(id)
      && inc != 0 && InCounterRange(inc)
      && (cfg.maxItemBytes > 0 ==> ItemSize(Item(scope, id, 0, 0, Counter(inc))) <= cfg.maxItemBytes)
    case DeleteReq(scope, id, sq) => ScopeOk(cfg.codec, scope) && IdOrSeq(cfg.codec, id, sq)
    case DeleteUpToReq(scope, maxSeq) => ScopeOk(cfg.codec, scope) && maxSeq != 0
    case DeleteScopeReq(scope) => ScopeOk(cfg.codec, scope) && !IsReserved(scope)
  }

  predicate CreatesScope(r: Request) {
    r.AppendReq? || r.UpsertReq? || r.CounterReq?
  }

  function OpOf(cfg: Config, r: Request): Op
    requires !r.DeleteScopeReq?
  {
    match r
    case AppendReq(_, id, payload, _, _) => Append(id, payload, cfg.codec.decodeString(payload))
    case UpsertReq(_, id, payload, _, _) => Upsert(id, payload, cfg.codec.decodeString(payload))
    case UpdateReq(_, id, payload, sq, _) =>
      if id != "" then UpdateById(id, payload, cfg.codec.decodeString(payload))
      else UpdateBySeq(sq, payload, cfg.codec.decodeString(payload))
    case CounterReq(_, id, inc) => CounterAdd(id, inc)
    case DeleteReq(_, id, sq) => if id != "" then DeleteById(id) else DeleteBySeq(sq)
    case DeleteUpToReq(_, maxSeq) => DeleteUpTo(maxSeq)
  }

  // ---- one operation on one scope ----

  function EnvOf(cfg: Config, name: string): Env {
    Env(cfg, cfg.MaxItemsFor(name), name)
  }

  function SnapOf(st: Store, h: Held): Snap {
    Snap(h.scope, false, h.writeTS, st.total, st.items, st.writeTS)
  }

  function PutBack(st: Store, name: string, b: Snap): Store {
    st.(scopes := st.scopes[name := Held(b.scope, b.writeTS)], total := b.total, items := b.items, writeTS := b.storeTS)
  }

  function CallScope(cfg: Config, st: Store, name: string, op: Op, now: int): (Store, Result<Option<Reply>>)
    requires name in st.scopes
  {
    var (b, r) := Perform(EnvOf(cfg, name), SnapOf(st, st.scopes[name]), op, now);
    (PutBack(st, name, b), r)
  }

  // getOrCreateScopeTrackingCreated, for a scope that is not there.
  function CreateScope(st: Store, name: string, now: int): Store {
    st.(scopes := st.scopes[name := Held(EMPTY_SCOPE, now)], total := st.total + SCOPE_OVERHEAD, count := st.count + 1)
  }

  // cleanupIfEmptyAndUnused.
  function Rollback(st: Store, name: string): Store
    requires name in st.scopes
  {
    if st.scopes[name].scope.items != [] then st
    else st.(scopes := st.scopes - {name}, total := st.total - SCOPE_OVERHEAD, count := st.count - 1)
  }

  // deleteScope's locked phase.
  function DropScope(st: Store, name: string, now: int): Store
    requires name in st.scopes
  {
    var s := st.scopes[name].scope;
    st.(scopes := st.scopes - {name},
        total := st.total - (s.Bytes() + SCOPE_OVERHEAD),
        items := st.items - |s.items|,
        count := st.count - 1,
        writeTS := Max(st.writeTS, now))
  }

  /** A single-scope operation, up to the point where it would emit its event. */
  function Write(cfg: Config, st: Store, r: Request, now: int): (Store, Result<Option<Reply>>) {
    var name := r.scope;
    if !Accepts(cfg, r) then (st, Err(Invalid))
    else if r.DeleteScopeReq? then
      if name in st.scopes then (DropScope(st, name, now), Ok(Some(CountReply(|st.scopes[name].scope.items|))))
      else (st, Ok(None))
    else if name in st.scopes then CallScope(cfg, st, name, OpOf(cfg, r), now)
    else if !CreatesScope(r) then (st, Ok(None))
    else if !Admits(st.total, cfg.maxStoreBytes, SCOPE_OVERHEAD) then
      (st, Err(StoreFull(st.total, SCOPE_OVERHEAD, cfg.maxStoreBytes)))
    else
      var (st', result) := CallScope(cfg, CreateScope(st, name, now), name, OpOf(cfg, r), now);
      if result.Err? then (Rollback(st', name), result)
      else (if r.CounterReq? then st'.(writeTS := Max(st'.writeTS, now)) else st', result)
  }

  // ---- the event log ----

  /** The record an effective operation emits: what the caller asked for, not what it led to. */
  function EventOf(r: Request, reply: Reply, later: int): WriteEvent {
    match r
    case AppendReq(scope, id, payload, _, _) =>
      if reply.ItemReply? then WriteEvent("append", scope, id, reply.item.sq, reply.item.ts, Some(payload), None, 0)
      else WriteEvent("append", scope, id, 0, 0, Some(payload), None, 0)
    case UpsertReq(scope, id, payload, _, _) =>
      if reply.ItemReply? then WriteEvent("upsert", scope, id, reply.item.sq, reply.item.ts, Some(payload), None, 0)
      else WriteEvent("upsert", scope, id, 0, 0, Some(payload), None, 0)
    case UpdateReq(scope, id, payload, sq, _) => WriteEvent("update", scope, id, sq, 0, Some(payload), None, 0)
    case CounterReq(scope, id, inc) => WriteEvent("counter_add", scope, id, 0, 0, None, Some(inc), 0)
    case DeleteReq(scope, id, sq) => WriteEvent("delete", scope, id, sq, 0, None, None, 0)
    case DeleteUpToReq(scope, maxSeq) => WriteEvent("delete_up_to", scope, "", 0, 0, None, None, maxSeq)
    case DeleteScopeReq(scope) => WriteEvent("delete_scope", scope, "", 0, later, None, None, 0)
  }

  function WarmEvent(later: int): WriteEvent {
    WriteEvent("warm", "", "", 0, later, None, None, 0)
  }

  predicate EventsEnabled(cfg: Config, scope: string) {
    cfg.mode != Off && scope != EVENTS
  }

  // What emitEvent hands to json.Marshal.
  function Carried(cfg: Config, e: WriteEvent): WriteEvent {
    if cfg.mode == Notify then e.(payload := None) else e
  }

  /** emitEvent: a second append, into _events; whatever goes wrong there is counted, not returned. */
  function Emit(cfg: Config, st: Store, e: WriteEvent, now: int): Store
    decreases 1, 0
  {
    match cfg.codec.marshal(Carried(cfg, e))
    case None => st.(drops := st.drops + 1)
    case Some(body) =>
      var (st', r) := Single(cfg, st, AppendReq(EVENTS, "", body, 0, 0), now, now);
      if r.Err? then st'.(drops := st'.drops + 1) else st'
  }

  /** appendOne, upsertOne, counterAddOne, updateOne, deleteOne, deleteUpTo, deleteScope. */
  function Single(cfg: Config, st: Store, r: Request, now: int, later: int): (Store, Result<Option<Reply>>)
    decreases if r.scope == EVENTS then 0 else 2, 0
  {
    var (st', result) := Write(cfg, st, r, now);
    if result.Ok? && result.value.Some? && EventsEnabled(cfg, r.scope)
    then (Emit(cfg, st', EventOf(r, result.value.value, later), later), result)
    else (st', result)
  }

  // ---- bulk operations ----

  // One entry of the input map, in the order the map happens to be walked.
  datatype Entry = Entry(scope: string, items: seq<RawItem>)
  datatype RawItem = RawItem(scope: string, id: string, payload: Bytes, sq: nat, ts: int)

  predicate EntryOk(cfg: Config, e: Entry) {
    && ScopeOk(cfg.codec, e.scope) && !IsReserved(e.scope)
    && forall i :: 0 <= i < |e.items| ==>
         var x := e.items[i];
         WriteItemOk(cfg.codec, x.scope, x.id, x.payload, x.sq, x.ts, cfg.maxItemBytes) && x.scope == e.scope
  }

  function ToIncoming(codec: Codec, items: seq<RawItem>): (ins: seq<Incoming>)
    ensures |ins| == |items|
    ensures forall i :: 0 <= i < |ins| ==>
              ins[i] == Incoming(items[i].scope, items[i].id, items[i].payload, codec.decodeString(items[i].payload))
  {
    seq(|items|, i requires 0 <= i < |items| =>
      Incoming(items[i].scope, items[i].id, items[i].payload, codec.decodeString(items[i].payload)))
  }

  datatype Target = Target(name: string, scope: Scope)

  // Phase 1 of /warm and /rebuild: the first malformed entry ends it, over-full scopes are collected.
  ghost function Prepare(cfg: Config, batch: seq<Entry>, now: int, offenders: seq<string>, targets: seq<Target>): Result<seq<Target>>
    decreases |batch|
  {
    if batch == [] then (if offenders != [] then Err(ScopesFull(offenders)) else Ok(targets))
    else
      var e := batch[0];
      if !EntryOk(cfg, e) then Err(Invalid)
      else if |e.items| > cfg.scopeMaxItems then Prepare(cfg, batch[1..], now, offenders + [e.scope], targets)
      else if !DistinctIds(ToIncoming(cfg.codec, e.items)) then Err(Invalid)
      else
        var target := Target(e.scope, Built(cfg.codec, ToIncoming(cfg.codec, e.items), now));
        Prepare(cfg, batch[1..], now, offenders, targets + [target])
  }

  function OldScope(scopes: map<string, Held>, name: string): Scope {
    if name in scopes then scopes[name].scope else EMPTY_SCOPE
  }

  // What installing one target adds to each counter.
  function BytesOver(scopes: map<string, Held>): Target -> int {
    (t: Target) => t.scope.Bytes() - OldScope(scopes, t.name).Bytes() + if t.name in scopes then 0 else SCOPE_OVERHEAD
  }

  function ItemsOver(scopes: map<string, Held>): Target -> int {
    (t: Target) => |t.scope.items| - |OldScope(scopes, t.name).items|
  }

  function ScopesOver(scopes: map<string, Held>): Target -> int {
    (t: Target) => if t.name in scopes then 0 else 1
  }

  function Install(scopes: map<string, Held>, targets: seq<Target>, now: int): map<string, Held>
    decreases |targets|
  {
    if targets == [] then scopes
    else Install(scopes[targets[0].name := Held(targets[0].scope, now)], targets[1..], now)
  }

  function Warmed(cfg: Config, st: Store, targets: seq<Target>, now: int): Store {
    st.(scopes := Install(st.scopes, targets, now),
        total := st.total + Sum(targets, BytesOver(st.scopes)),
        items := st.items + Sum(targets, ItemsOver(st.scopes)),
        count := st.count + Sum(targets, ScopesOver(st.scopes)),
        writeTS := if targets == [] then st.writeTS else Max(st.writeTS, now))
  }

  /** replaceScopes: all targets or none. */
  ghost function Warm(cfg: Config, st: Store, batch: seq<Entry>, now: int, later: int): (Store, Result<nat>) {
    match Prepare(cfg, batch, now, [], [])
    case Err(e) => (st, Err(e))
    case Ok(targets) =>
      var delta := Sum(targets, BytesOver(st.scopes));
      if !Admits(st.total, cfg.maxStoreBytes, delta) then (st, Err(StoreFull(st.total, delta, cfg.maxStoreBytes)))
      else
        var st' := Warmed(cfg, st, targets, now);
        (if targets != [] && cfg.mode != Off then Emit(cfg, st', WarmEvent(later), later) else st', Ok(|targets|))
  }

  // initReservedScopesLocked.
  function WithReserved(st: Store): Store {
    CreateScope(CreateScope(st, EVENTS, st.writeTS), INBOX, st.writeTS)
  }

  function Wipe(st: Store, now: int): Store {
    WithReserved(Store(map[], 0, 0, 0, Max(st.writeTS, now), st.drops))
  }

  // Target as /rebuild installs it: without its id-byte counter (bulk.go:312-317).
  function Bare(t: Target): Target {
    t.(scope := t.scope.(idKeyBytes := 0))
  }

  function BareAll(targets: seq<Target>): (r: seq<Target>)
    ensures |r| == |targets| && forall i :: 0 <= i < |r| ==> r[i] == Bare(targets[i])
  {
    seq(|targets|, i requires 0 <= i < |targets| => Bare(targets[i]))
  }

  function TargetWeight(t: Target): int { t.scope.Bytes() + SCOPE_OVERHEAD }
  function TargetItems(t: Target): int { |t.scope.items| }

  /** rebuildAll: the input becomes the store, or nothing changes. */
  ghost function Rebuild(cfg: Config, st: Store, batch: seq<Entry>, now: int): (Store, Result<nat>) {
    match Prepare(cfg, batch, now, [], [])
    case Err(e) => (st, Err(e))
    case Ok(targets) =>
      var size := Sum(targets, TargetWeight);
      if size + RESERVED_OVERHEAD > cfg.maxStoreBytes then
        (st, Err(StoreFull(0, size + RESERVED_OVERHEAD, cfg.maxStoreBytes)))
      else
        (WithReserved(Store(Install(map[], BareAll(targets), now), size, Sum(targets, TargetItems), |targets|,
                            Max(st.writeTS, now), st.drops)), Ok(|targets|))
  }

  // ---- runs ----

  datatype Action =
    | Do(r: Request)
    | DoWarm(batch: seq<Entry>)
    | DoWipe
    | DoRebuild(batch: seq<Entry>)

  datatype Timed = Timed(a: Action, now: int, later: int)

  ghost function Act(cfg: Config, st: Store, x: Timed): Store {
    match x.a
    case Do(r) => Single(cfg, st, r, x.now, x.later).0
    case DoWarm(batch) => Warm(cfg, st, batch, x.now, x.later).0
    case DoWipe => Wipe(st, x.now)
    case DoRebuild(batch) => Rebuild(cfg, st, batch, x.now).0
  }

  ghost function ActAll(cfg: Config, st: Store, run: seq<Timed>): Store
    decreases |run|
  {
    if run == [] then st else Act(cfg, ActAll(cfg, st, run[..|run| - 1]), run[|run| - 1])
  }

  // A batch has one entry per name: it is a map.
  predicate OneEntryEach(batch: seq<Entry>) {
    forall i, j :: 0 <= i < j < |batch| ==> batch[i].scope != batch[j].scope
  }

  predicate Walkable(x: Timed) {
    match x.a
    case DoWarm(batch) => OneEntryEach(batch)
    case DoRebuild(batch) => OneEntryEach(batch)
    case _ => true
  }

  /** newStore: the reserved scopes, and no write yet. */
  const BOOT := WithReserved(Store(map[], 0, 0, 0, 0, 0))
}
