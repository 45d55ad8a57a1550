/** Replaying the full-mode event records onto a copy rebuilds every scope but _events. */
module Replay {
  import opened Types
  import opened Sums
  import opened ScopeSpec
  import opened ScopeLaws
  import opened BufferSpec
  import opened StoreSpec
  import opened StoreLaws
  import opened StoreWarm
  import opened StoreEvents

  // ---- scopes that agree on all but timestamps ----

  predicate Alike(a: seq<Item>, b: seq<Item>) {
    |a| == |b| && forall i :: 0 <= i < |a| ==> b[i] == a[i].(ts := b[i].ts)
  }

  predicate Like(a: Scope, b: Scope) {
    Alike(a.items, b.items) && a.lastSeq == b.lastSeq && a.idKeyBytes == b.idKeyBytes
  }

  lemma {:induction false} AlikeSums(a: seq<Item>, b: seq<Item>)
    requires Alike(a, b)
    ensures Sum(a, ItemSize) == Sum(b, ItemSize) && Sum(a, IdSize) == Sum(b, IdSize)
  {
    forall i | 0 <= i < |a| ensures ItemSize(a[i]) == ItemSize(b[i]) && IdSize(a[i]) == IdSize(b[i]) {
      assert b[i] == a[i].(ts := b[i].ts);
    }
    SumEq(a, b, ItemSize, ItemSize);
    SumEq(a, b, IdSize, IdSize);
  }

  lemma {:induction false} AlikeTail(a: seq<Item>, b: seq<Item>)
    requires Alike(a, b) && a != []
    ensures Alike(a[1..], b[1..])
  {
  }

  lemma {:induction false} AlikeScans(a: seq<Item>, b: seq<Item>, id: string, sq: nat)
    requires Alike(a, b)
    ensures IndexOfId(a, id) == IndexOfId(b, id) && IndexOfSeq(a, sq) == IndexOfSeq(b, sq)
    ensures Alike(Above(a, sq), Above(b, sq))
    decreases |a|
  {
    if a != [] {
      assert b[0] == a[0].(ts := b[0].ts);
      AlikeTail(a, b);
      AlikeScans(a[1..], b[1..], id, sq);
    }
  }

  ghost predicate LikeOutcome(x: Outcome, y: Outcome) {
    match x
    case Rejected(e) => y == Rejected(e)
    case Missed => y == Missed
    case Changed(next, _) => y.Changed? && Like(next, y.next)
  }

  lemma {:induction false} ReplaceLike(a: Scope, b: Scope, i: nat, body: Body, ta: int, tb: int)
    requires Like(a, b) && i < |a.items|
    ensures Like(Replace(a, i, body, ta), Replace(b, i, body, tb))
  {
  }

  lemma {:induction false} FreshLike(cfg: Config, name: string, a: Scope, b: Scope, id: string, body: Body, now: int, later: int)
    requires Like(a, b)
    ensures LikeOutcome(Fresh(EnvOf(cfg, name), a, id, body, now), Fresh(EnvOf(cfg.(mode := Off), name), b, id, body, later))
  {
  }

  lemma {:induction false} RemoveLike(a: Scope, b: Scope, i: nat)
    requires Like(a, b) && i < |a.items|
    ensures Like(RemoveAt(a, i), RemoveAt(b, i))
  {
    assert b.items[i] == a.items[i].(ts := b.items[i].ts);
  }

  lemma {:induction false} DrainLike(a: Scope, b: Scope, sq: nat)
    requires Like(a, b)
    ensures Like(Drain(a, sq), Drain(b, sq))
  {
    hide Above, Sum;
    AlikeScans(a.items, b.items, "", sq);
    AlikeSums(a.items, b.items);
    AlikeSums(Above(a.items, sq), Above(b.items, sq));
  }

  lemma {:induction false} AddLike(cfg: Config, name: string, a: Scope, b: Scope, i: nat, inc: int, now: int, later: int)
    requires Like(a, b) && i < |a.items|
    ensures LikeOutcome(AddToItem(EnvOf(cfg, name), a, i, inc, now), AddToItem(EnvOf(cfg.(mode := Off), name), b, i, inc, later))
  {
    assert b.items[i] == a.items[i].(ts := b.items[i].ts);
  }

  // Timestamps decide nothing, and neither does the events mode.
  lemma {:induction false} ApplyLike(cfg: Config, name: string, a: Scope, b: Scope, op: Op, now: int, later: int)
    requires Like(a, b)
    ensures LikeOutcome(Apply(EnvOf(cfg, name), a, op, now), Apply(EnvOf(cfg.(mode := Off), name), b, op, later))
  {
    hide IndexOfId, IndexOfSeq, Like, Alike, Fresh, AddToItem, Drain, RemoveAt;
    LikeLength(a, b);
    match op
    case Append(id, payload, pre) =>
      LikeScans(a, b, id, 0);
      FreshLike(cfg, name, a, b, id, Plain(payload, RenderBytes(cfg.codec, pre, payload)), now, later);
    case Upsert(id, payload, pre) =>
      LikeScans(a, b, id, 0);
      var body := Plain(payload, RenderBytes(cfg.codec, pre, payload));
      match IndexOfId(a.items, id) {
        case None => FreshLike(cfg, name, a, b, id, body, now, later);
        case Some(i) => ReplaceLike(a, b, i, body, now, later);
      }
    case UpdateById(id, payload, pre) =>
      LikeScans(a, b, id, 0);
      if IndexOfId(a.items, id).Some? {
        ReplaceLike(a, b, IndexOfId(a.items, id).value, Plain(payload, RenderBytes(cfg.codec, pre, payload)), now, later);
      }
    case UpdateBySeq(sq, payload, pre) =>
      LikeScans(a, b, "", sq);
      if IndexOfSeq(a.items, sq).Some? {
        var i := IndexOfSeq(a.items, sq).value;
        ReplaceLike(a, b, i, Plain(payload, RenderBytes(cfg.codec, pre, payload)), now, later);
        LikeAt(a, b, i);
        LikeAt(Replace(a, i, Plain(payload, RenderBytes(cfg.codec, pre, payload)), now),
               Replace(b, i, Plain(payload, RenderBytes(cfg.codec, pre, payload)), later), i);
      }
    case CounterAdd(id, inc) =>
      LikeScans(a, b, id, 0);
      match IndexOfId(a.items, id) {
        case None => FreshLike(cfg, name, a, b, id, Counter(inc), now, later);
        case Some(i) => AddLike(cfg, name, a, b, i, inc, now, later);
      }
    case DeleteById(id) =>
      LikeScans(a, b, id, 0);
      if IndexOfId(a.items, id).Some? { RemoveLike(a, b, IndexOfId(a.items, id).value); }
    case DeleteBySeq(sq) =>
      LikeScans(a, b, "", sq);
      if IndexOfSeq(a.items, sq).Some? { RemoveLike(a, b, IndexOfSeq(a.items, sq).value); }
    case DeleteUpTo(maxSeq) =>
      DrainLike(a, b, maxSeq);
      LikeLength(Drain(a, maxSeq), Drain(b, maxSeq));
  }

  lemma {:induction false} LikeLength(a: Scope, b: Scope)
    requires Like(a, b)
    ensures |a.items| == |b.items|
  {
  }

  lemma {:induction false} LikeAt(a: Scope, b: Scope, i: nat)
    requires Like(a, b) && i < |a.items|
    ensures i < |b.items| && ItemSize(a.items[i]) == ItemSize(b.items[i]) && a.items[i].scope == b.items[i].scope
  {
  }

  lemma {:induction false} LikeScans(a: Scope, b: Scope, id: string, sq: nat)
    requires Like(a, b)
    ensures IndexOfId(a.items, id) == IndexOfId(b.items, id) && IndexOfSeq(a.items, sq) == IndexOfSeq(b.items, sq)
  {
    AlikeScans(a.items, b.items, id, sq);
  }

  // ---- the replica ----

  function EventsOff(cfg: Config): Config {
    cfg.(mode := Off)
  }

  // The bytes of the log, and all the bytes charged beside them.
  function LogBytes(st: Store): int
    requires EVENTS in st.scopes
  {
    st.scopes[EVENTS].scope.Bytes()
  }

  function Outside(st: Store): int
    requires EVENTS in st.scopes
  {
    st.total - LogBytes(st)
  }

  /** The copy agrees with the original on everything but _events and timestamps. */
  ghost predicate Agrees(s: Store, r: Store) {
    && EVENTS in s.scopes && EVENTS in r.scopes
    && (forall n :: n != EVENTS ==> (n in s.scopes <==> n in r.scopes))
    && (forall n :: n != EVENTS && n in s.scopes ==> Like(s.scopes[n].scope, r.scopes[n].scope))
    && Outside(s) == Outside(r)
  }

  lemma {:induction false} LikeBytes(a: Scope, b: Scope)
    requires Like(a, b)
    ensures a.Bytes() == b.Bytes()
  {
    AlikeSums(a.items, b.items);
  }

  // A buffer call that the original accepts is accepted by the copy exactly if its growth fits there.
  lemma {:induction false} PerformLike(cfg: Config, name: string, a: Snap, b: Snap, op: Op, now: int, later: int)
    requires Like(a.scope, b.scope) && !a.detached && !b.detached
    requires Effective(Perform(EnvOf(cfg, name), a, op, now).1)
    ensures var (a', _) := Perform(EnvOf(cfg, name), a, op, now);
            var (b', rb) := Perform(EnvOf(EventsOff(cfg), name), b, op, later);
      && (Effective(rb) <==> Admits(b.total, cfg.maxStoreBytes, a'.total - a.total))
      && (Effective(rb) ==> Like(a'.scope, b'.scope) && b'.total - b.total == a'.total - a.total)
      && (!Effective(rb) ==> rb.Err?)
  {
    hide Apply, Like, Sum;
    ApplyLike(cfg, name, a.scope, b.scope, op, now, later);
    LikeBytes(a.scope, b.scope);
    LikeBytes(Apply(EnvOf(cfg, name), a.scope, op, now).next, Apply(EnvOf(EventsOff(cfg), name), b.scope, op, later).next);
  }

  lemma {:induction false} CallAgrees(cfg: Config, s: Store, r: Store, name: string, op: Op, now: int, later: int)
    requires Agrees(s, r) && name != EVENTS && name in s.scopes
    requires Effective(CallScope(cfg, s, name, op, now).1)
    ensures name in r.scopes
    ensures var (s', _) := CallScope(cfg, s, name, op, now);
            var (r', result) := CallScope(EventsOff(cfg), r, name, op, later);
      && (Effective(result) <==> Admits(r.total, cfg.maxStoreBytes, s'.total - s.total))
      && (Effective(result) ==> Agrees(s', r'))
      && (!Effective(result) ==> result.Err?)
  {
    hide Perform, Like, Scope.Bytes;
    PerformLike(cfg, name, SnapOf(s, s.scopes[name]), SnapOf(r, r.scopes[name]), op, now, later);
  }

  lemma {:induction false} StampAgrees(s: Store, r: Store, ts: int, tr: int)
    requires Agrees(s, r)
    ensures Agrees(s.(writeTS := ts), r.(writeTS := tr))
  {
  }

  lemma {:induction false} CreateAgrees(s: Store, r: Store, name: string, now: int, later: int)
    requires Agrees(s, r) && name !in s.scopes
    ensures Agrees(CreateScope(s, name, now), CreateScope(r, name, later))
  {
    hide Scope.Bytes;
  }

  lemma {:induction false} DropAgrees(s: Store, r: Store, name: string, now: int, later: int)
    requires Agrees(s, r) && name in s.scopes && name != EVENTS
    ensures Agrees(DropScope(s, name, now), DropScope(r, name, later))
    ensures DropScope(s, name, now).total < s.total
  {
    hide Scope.Bytes;
    SumNonNegative(s.scopes[name].scope.items);
    ScopeBytes(s.scopes[name].scope);
    LikeBytes(s.scopes[name].scope, r.scopes[name].scope);
  }

  lemma {:induction false} ScopeBytes(s: Scope)
    ensures s.Bytes() >= 0
  {
    SumNonNegative(s.items);
  }

  // Creating a scope is followed by an item, which has a size.
  lemma {:induction false} FirstItemGrows(cfg: Config, s: Store, x: Request, now: int)
    requires CreatesScope(x) && x.scope !in s.scopes
    requires Effective(CallScope(cfg, CreateScope(s, x.scope, now), x.scope, OpOf(cfg, x), now).1)
    ensures CallScope(cfg, CreateScope(s, x.scope, now), x.scope, OpOf(cfg, x), now).0.total > s.total + SCOPE_OVERHEAD
  {
    hide Apply, Sum;
    var env, op := EnvOf(cfg, x.scope), OpOf(cfg, x);
    FirstItem(env, op, now);
  }

  lemma {:induction false} FirstItem(env: Env, op: Op, now: int)
    requires op.Append? || op.Upsert? || op.CounterAdd?
    ensures Apply(env, EMPTY_SCOPE, op, now).Changed? ==>
              Apply(env, EMPTY_SCOPE, op, now).next.Bytes() > 0 == EMPTY_SCOPE.Bytes()
  {
    assert EMPTY_SCOPE.Bytes() == 0;
    ApplyShape(env, EMPTY_SCOPE, op, now);
    if Apply(env, EMPTY_SCOPE, op, now).Changed? {
      var next := Apply(env, EMPTY_SCOPE, op, now).next;
      var id, body :| IndexOfId(EMPTY_SCOPE.items, id).None? && next == Insert(EMPTY_SCOPE, env.name, id, body, now);
      InsertLaws(EMPTY_SCOPE, env.name, id, body, now);
    }
  }

  /** An effective write outside _events is effective on the copy exactly if its growth fits there; then they agree on. */
  lemma {:induction false} WriteAgrees(cfg: Config, s: Store, r: Store, x: Request, now: int, later: int)
    requires Agrees(s, r) && x.scope != EVENTS && Effective(Write(cfg, s, x, now).1)
    ensures var (s', _) := Write(cfg, s, x, now);
            var (r', result) := Write(EventsOff(cfg), r, x, later);
      && (Effective(result) <==> Admits(r.total, cfg.maxStoreBytes, s'.total - s.total))
      && (Effective(result) ==> Agrees(s', r'))
  {
    hide Agrees, CallScope, DropScope;
    SameRequest(cfg, x);
    AgreeNames(s, r, x.scope);
    hide Accepts, OpOf;
    if x.DeleteScopeReq? {
      DropAgrees(s, r, x.scope, now, later);
    } else if x.scope in s.scopes {
      CallAgrees(cfg, s, r, x.scope, OpOf(cfg, x), now, later);
    } else {
      CreateAgrees(s, r, x.scope, now, later);
      FirstItemGrows(cfg, s, x, now);
      var s0, r0 := CreateScope(s, x.scope, now), CreateScope(r, x.scope, later);
      CallAgrees(cfg, s0, r0, x.scope, OpOf(cfg, x), now, later);
      var (s1, _) := CallScope(cfg, s0, x.scope, OpOf(cfg, x), now);
      var (r1, result) := CallScope(EventsOff(cfg), r0, x.scope, OpOf(cfg, x), later);
      if Effective(result) { StampAgrees(s1, r1, Max(s1.writeTS, now), Max(r1.writeTS, later)); }
    }
  }

  lemma {:induction false} SameRequest(cfg: Config, x: Request)
    ensures Accepts(EventsOff(cfg), x) == Accepts(cfg, x)
    ensures !x.DeleteScopeReq? ==> OpOf(EventsOff(cfg), x) == OpOf(cfg, x)
  {
  }

  lemma {:induction false} AgreeNames(s: Store, r: Store, name: string)
    requires Agrees(s, r)
    ensures name != EVENTS ==> (name in s.scopes <==> name in r.scopes)
    ensures EVENTS in s.scopes && EVENTS in r.scopes
    ensures Outside(s) == Outside(r)
  {
  }

  // ---- what happens to _events on the original ----

  lemma {:induction false} EventsAgrees(cfg: Config, s: Store, r: Store, x: Request, now: int)
    requires Agrees(s, r) && x.scope == EVENTS
    ensures var s' := Write(cfg, s, x, now).0; Agrees(s', r) && Outside(s') == Outside(s)
  {
    hide Perform, Accepts, OpOf, Like, Sum;
    var (s', result) := Write(cfg, s, x, now);
    if !Effective(result) {
      FailureChangesNothing(cfg, s, x, now);
    } else {
      if x.DeleteScopeReq? { AcceptedDeletes(cfg, x); }
      PerformMoves(EnvOf(cfg, EVENTS), SnapOf(s, s.scopes[EVENTS]), OpOf(cfg, x), now);
    }
  }

  lemma {:induction false} EmitAgrees(cfg: Config, s: Store, r: Store, e: WriteEvent, now: int)
    requires Agrees(s, r)
    ensures var s' := Emit(cfg, s, e, now); Agrees(s', r) && Outside(s') == Outside(s)
  {
    hide Write, Carried, Like, Scope.Bytes;
    match cfg.codec.marshal(Carried(cfg, e))
    case None =>
    case Some(body) => EventsAgrees(cfg, s, r, AppendReq(EVENTS, "", body, 0, 0), now);
  }

  // ---- records and requests ----

  /** The request a replayer makes of one record. */
  function RequestOf(e: WriteEvent): Option<Request> {
    match e.payload
    case Some(payload) =>
      if e.op == "append" then Some(AppendReq(e.scope, e.id, payload, 0, 0))
      else if e.op == "upsert" then Some(UpsertReq(e.scope, e.id, payload, 0, 0))
      else if e.op == "update" then Some(UpdateReq(e.scope, e.id, payload, e.sq, 0))
      else None
    case None =>
      if e.op == "counter_add" && e.inc.Some? then Some(CounterReq(e.scope, e.id, e.inc.value))
      else if e.op == "delete" then Some(DeleteReq(e.scope, e.id, e.sq))
      else if e.op == "delete_up_to" then Some(DeleteUpToReq(e.scope, e.maxSeq))
      else if e.op == "delete_scope" then Some(DeleteScopeReq(e.scope))
      else None
  }

  /** A full-mode record says everything about an accepted request. */
  lemma {:induction false} RecordIsRequest(cfg: Config, x: Request, reply: Reply, later: int)
    requires Accepts(cfg, x) && cfg.mode == Full
    ensures RequestOf(Carried(cfg, EventOf(x, reply, later))) == Some(x)
  {
  }

  // Each request of a run, with the clock readings of its write and of its event.
  datatype Asked = Asked(x: Request, now: int, later: int)

  function Run(cfg: Config, s: Store, run: seq<Asked>): Store
    decreases |run|
  {
    if run == [] then s
    else var a := run[|run| - 1]; Single(cfg, Run(cfg, s, run[..|run| - 1]), a.x, a.now, a.later).0
  }

  // The record one request leaves in the log: none if it had no effect, or the event was dropped.
  function RecordsOf(cfg: Config, s: Store, a: Asked): seq<WriteEvent> {
    var (s', result) := Single(cfg, s, a.x, a.now, a.later);
    if Effective(result) && EventsEnabled(cfg, a.x.scope) && s'.drops == s.drops
    then [Carried(cfg, EventOf(a.x, result.value.value, a.later))] else []
  }

  function Log(cfg: Config, s: Store, run: seq<Asked>): seq<WriteEvent>
    decreases |run|
  {
    if run == [] then []
    else
      var before := run[..|run| - 1];
      Log(cfg, s, before) + RecordsOf(cfg, Run(cfg, s, before), run[|run| - 1])
  }

  /** Apply the records in order, events off, at any clock; None if one is refused or has no effect. */
  function Replayed(cfg: Config, r: Store, log: seq<WriteEvent>, clock: nat -> int): Option<Store>
    decreases |log|
  {
    if log == [] then Some(r)
    else
      var k := |log| - 1;
      match (Replayed(cfg, r, log[..k], clock), RequestOf(log[k]))
      case (Some(m), Some(x)) =>
        var (m', result) := Single(EventsOff(cfg), m, x, clock(k), clock(k));
        if Effective(result) then Some(m') else None
      case _ => None
  }

  lemma {:induction false} DropsOnlyGrow(cfg: Config, s: Store, a: Asked)
    requires EVENTS in s.scopes
    ensures var s' := Single(cfg, s, a.x, a.now, a.later).0; EVENTS in s'.scopes && s'.drops >= s.drops
  {
    hide Write, Emit, EventOf;
    WriteTakes(cfg, s, a.x, a.now);
    var (bare, plain) := Write(cfg, s, a.x, a.now);
    if Effective(plain) && EventsEnabled(cfg, a.x.scope) {
      EmitLands(cfg, bare, EventOf(a.x, plain.value.value, a.later), a.later);
    }
  }

  // The copy only ever changes by replaying, which leaves its _events alone.
  lemma {:induction false} ReplicaEvents(cfg: Config, r: Store, x: Request, now: int)
    requires EVENTS in r.scopes && x.scope != EVENTS
    ensures var r' := Write(cfg, r, x, now).0; EVENTS in r'.scopes && r'.scopes[EVENTS] == r.scopes[EVENTS]
  {
    hide Perform, Accepts, OpOf, Admits;
  }

  lemma {:induction false} EffectiveAccepted(cfg: Config, s: Store, x: Request, now: int)
    requires Effective(Write(cfg, s, x, now).1)
    ensures Accepts(cfg, x)
  {
    hide Accepts;
  }

  // What the copy needs to follow one step: if bytes outside the log grew, room for them beside its own log.
  ghost predicate RoomFor(limit: int, s: Store, s': Store, log: int) {
    EVENTS in s.scopes && EVENTS in s'.scopes && (Outside(s') > Outside(s) ==> Outside(s') + log <= limit)
  }

  /** One request on the original against its record, if any, on the copy. */
  lemma {:induction false} StepReplays(cfg: Config, s: Store, r: Store, a: Asked, when: int)
    requires cfg.mode == Full && Agrees(s, r)
    requires Single(cfg, s, a.x, a.now, a.later).0.drops == s.drops
    ensures var s' := Single(cfg, s, a.x, a.now, a.later).0;
            var records := RecordsOf(cfg, s, a);
      if records == [] then Agrees(s', r) && RoomFor(cfg.maxStoreBytes, s, s', LogBytes(r))
      else
        && |records| == 1 && RequestOf(records[0]) == Some(a.x)
        && var (r', result) := Single(EventsOff(cfg), r, a.x, when, when);
           && (Effective(result) <==> RoomFor(cfg.maxStoreBytes, s, s', LogBytes(r)))
           && (Effective(result) ==> Agrees(s', r') && EVENTS in r'.scopes && LogBytes(r') == LogBytes(r))
  {
    hide Write, Emit, EventOf, Agrees, Carried, RequestOf, Scope.Bytes;
    EventsNeverInterfere(cfg, s, a.x, a.now, a.later);
    AgreeNames(s, r, EVENTS);
    var (bare, plain) := Write(cfg, s, a.x, a.now);
    if !Effective(plain) {
      FailureChangesNothing(cfg, s, a.x, a.now);
    } else if a.x.scope == EVENTS {
      EventsAgrees(cfg, s, r, a.x, a.now);
      AgreeNames(bare, r, EVENTS);
    } else {
      WriteAgrees(cfg, s, r, a.x, a.now, when);
      ReplicaEvents(cfg, s, a.x, a.now);
      ReplicaEvents(EventsOff(cfg), r, a.x, when);
      EmitOutside(cfg, bare, EventOf(a.x, plain.value.value, a.later), a.later);
      if Effective(Write(EventsOff(cfg), r, a.x, when).1) {
        EmitAgrees(cfg, bare, Write(EventsOff(cfg), r, a.x, when).0, EventOf(a.x, plain.value.value, a.later), a.later);
      }
      EffectiveAccepted(cfg, s, a.x, a.now);
      RecordIsRequest(cfg, a.x, plain.value.value, a.later);
    }
  }

  lemma {:induction false} EmitOutside(cfg: Config, s: Store, e: WriteEvent, now: int)
    requires EVENTS in s.scopes
    ensures var s' := Emit(cfg, s, e, now); EVENTS in s'.scopes && Outside(s') == Outside(s)
  {
    hide Emit, Carried;
    CopyAgrees(s);
    EmitAgrees(cfg, s, s, e, now);
    AgreeNames(Emit(cfg, s, e, now), s, EVENTS);
  }

  lemma {:induction false} CopyAgrees(s: Store)
    requires EVENTS in s.scopes
    ensures Agrees(s, s)
  {
  }

  /** Room at every step of a run for a copy whose log holds the given bytes. */
  ghost predicate RoomAlong(cfg: Config, s: Store, run: seq<Asked>, log: int) {
    forall k :: 0 <= k < |run| ==> RoomFor(cfg.maxStoreBytes, Run(cfg, s, run[..k]), Run(cfg, s, run[..k + 1]), log)
  }

  lemma {:induction false} RoomSplit(cfg: Config, s: Store, run: seq<Asked>, log: int)
    requires run != []
    ensures var before := run[..|run| - 1];
      RoomAlong(cfg, s, run, log) <==>
        RoomAlong(cfg, s, before, log) && RoomFor(cfg.maxStoreBytes, Run(cfg, s, before), Run(cfg, s, run), log)
  {
    hide RoomFor, Run;
    var before := run[..|run| - 1];
    assert forall k :: 0 <= k <= |before| ==> before[..k] == run[..k];
    assert run[..|run|] == run;
    var last := |run| - 1;
    assert RoomFor(cfg.maxStoreBytes, Run(cfg, s, run[..last]), Run(cfg, s, run[..last + 1]), log)
        == RoomFor(cfg.maxStoreBytes, Run(cfg, s, before), Run(cfg, s, run), log);
    forall k | 0 <= k < |before|
      ensures RoomFor(cfg.maxStoreBytes, Run(cfg, s, run[..k]), Run(cfg, s, run[..k + 1]), log)
           == RoomFor(cfg.maxStoreBytes, Run(cfg, s, before[..k]), Run(cfg, s, before[..k + 1]), log)
    {
    }
  }

  /**
    Replay: run any requests on a store in full mode with no event dropped, and apply its
    records in order to a copy with events off. Nothing is refused exactly if, at every step
    that made bytes outside _events grow, those bytes fit beside the log the copy started
    with; and then the copy ends with the same scopes, items, seqs, counters and lastSeqs
    outside _events, timestamps aside.
   */
  lemma {:induction false} ReplayExactlyWhen(cfg: Config, s: Store, r: Store, run: seq<Asked>, clock: nat -> int)
    requires cfg.mode == Full && Agrees(s, r)
    requires Run(cfg, s, run).drops == s.drops
    ensures EVENTS in r.scopes
    ensures var end := Replayed(cfg, r, Log(cfg, s, run), clock);
      && (end.Some? <==> RoomAlong(cfg, s, run, LogBytes(r)))
      && (end.Some? ==> Agrees(Run(cfg, s, run), end.value) && EVENTS in end.value.scopes && LogBytes(end.value) == LogBytes(r))
    decreases |run|
  {
    hide Single, Agrees, RequestOf, RoomAlong, RoomFor, Scope.Bytes, Replayed, Run, Log, RecordsOf, LogBytes;
    AgreeNames(s, r, EVENTS);
    if run == [] {
      NoSteps(cfg, s, r, clock);
    } else {
      var before, a := run[..|run| - 1], run[|run| - 1];
      var m := Run(cfg, s, before);
      LastStep(cfg, s, run);
      DropsNeverFall(cfg, s, before);
      DropsOnlyGrow(cfg, m, a);
      ReplayExactlyWhen(cfg, s, r, before, clock);
      RoomSplit(cfg, s, run, LogBytes(r));
      var log, records := Log(cfg, s, before), RecordsOf(cfg, m, a);
      ReplayedNext(cfg, r, log, records, clock);
      var rest := Replayed(cfg, r, log, clock);
      if rest.Some? {
        StepReplays(cfg, m, rest.value, a, clock(|log|));
      }
    }
  }

  lemma {:induction false} LastStep(cfg: Config, s: Store, run: seq<Asked>)
    requires run != []
    ensures var before, a := run[..|run| - 1], run[|run| - 1];
            var m := Run(cfg, s, before);
      && Run(cfg, s, run) == Single(cfg, m, a.x, a.now, a.later).0
      && Log(cfg, s, run) == Log(cfg, s, before) + RecordsOf(cfg, m, a)
      && |RecordsOf(cfg, m, a)| <= 1
  {
    hide Single;
  }

  // Replaying one more record, or none.
  lemma {:induction false} ReplayedNext(cfg: Config, r: Store, log: seq<WriteEvent>, records: seq<WriteEvent>, clock: nat -> int)
    requires |records| <= 1
    ensures var rest, next := Replayed(cfg, r, log, clock), Replayed(cfg, r, log + records, clock);
      if records == [] then next == rest
      else if rest.Some? && RequestOf(records[0]).Some? then
        var (m, result) := Single(EventsOff(cfg), rest.value, RequestOf(records[0]).value, clock(|log|), clock(|log|));
        next == if Effective(result) then Some(m) else None
      else next == None
  {
    hide Single, RequestOf;
    var longer := log + records;
    if records == [] {
      assert longer == log;
    } else {
      assert longer[..|log|] == log && longer[|log|] == records[0];
    }
  }

  lemma {:induction false} NoSteps(cfg: Config, s: Store, r: Store, clock: nat -> int)
    ensures forall log :: RoomAlong(cfg, s, [], log)
    ensures Run(cfg, s, []) == s && Replayed(cfg, r, Log(cfg, s, []), clock) == Some(r)
  {
  }

  lemma {:induction false} DropsNeverFall(cfg: Config, s: Store, run: seq<Asked>)
    requires EVENTS in s.scopes
    ensures EVENTS in Run(cfg, s, run).scopes && Run(cfg, s, run).drops >= s.drops
    decreases |run|
  {
    hide Single;
    if run != [] {
      DropsNeverFall(cfg, s, run[..|run| - 1]);
      DropsOnlyGrow(cfg, Run(cfg, s, run[..|run| - 1]), run[|run| - 1]);
    }
  }

  // ---- when a caller need not look at sizes ----

  // The copy keeps an empty _events, or nothing is removed from the original's.
  predicate Harmless(r: Store, x: Request) {
    x.scope == EVENTS ==> x.AppendReq? || (EVENTS in r.scopes && r.scopes[EVENTS].scope.items == [])
  }

  ghost predicate HarmlessRun(r: Store, run: seq<Asked>) {
    forall i :: 0 <= i < |run| ==> Harmless(r, run[i].x)
  }

  lemma {:induction false} AppendGrows(cfg: Config, s: Store, x: Request, now: int)
    requires EVENTS in s.scopes && x.AppendReq? && x.scope == EVENTS && Effective(Write(cfg, s, x, now).1)
    ensures var s' := Write(cfg, s, x, now).0; EVENTS in s'.scopes && LogBytes(s') >= LogBytes(s)
  {
    hide Insert;
    assert x.sq == 0 && x.ts == 0;
    AppendLands(cfg, s, EVENTS, x.id, x.payload, now);
    InsertLaws(s.scopes[EVENTS].scope, EVENTS, x.id, Plain(x.payload, cfg.codec.decodeString(x.payload)), now);
  }

  lemma {:induction false} EmitGrows(cfg: Config, s: Store, e: WriteEvent, now: int)
    requires EVENTS in s.scopes
    ensures var s' := Emit(cfg, s, e, now); EVENTS in s'.scopes && LogBytes(s') >= LogBytes(s)
  {
    hide Write, Carried, Scope.Bytes;
    match cfg.codec.marshal(Carried(cfg, e))
    case None =>
    case Some(body) =>
      var x := AppendReq(EVENTS, "", body, 0, 0);
      if Effective(Write(cfg, s, x, now).1) { AppendGrows(cfg, s, x, now); } else { FailureChangesNothing(cfg, s, x, now); }
  }

  // An effective write that grows the store was admitted by its cap.
  lemma {:induction false} GrowthAdmitted(cfg: Config, s: Store, x: Request, now: int)
    requires Effective(Write(cfg, s, x, now).1)
    ensures Write(cfg, s, x, now).0.total > s.total ==> Write(cfg, s, x, now).0.total <= cfg.maxStoreBytes
  {
    hide Apply, Accepts, Sum;
    if x.DeleteScopeReq? {
      if x.scope in s.scopes { ScopeBytes(s.scopes[x.scope].scope); }
    } else if x.scope !in s.scopes && CreatesScope(x) {
      if Effective(CallScope(cfg, CreateScope(s, x.scope, now), x.scope, OpOf(cfg, x), now).1) { FirstItemGrows(cfg, s, x, now); }
    }
  }

  // The original's log stays at least as large as the copy's, and so every step leaves room.
  lemma {:induction false} HarmlessStep(cfg: Config, s: Store, r: Store, a: Asked)
    requires EVENTS in s.scopes && EVENTS in r.scopes && Harmless(r, a.x) && LogBytes(s) >= LogBytes(r)
    ensures var s' := Single(cfg, s, a.x, a.now, a.later).0;
      EVENTS in s'.scopes && LogBytes(s') >= LogBytes(r) && RoomFor(cfg.maxStoreBytes, s, s', LogBytes(r))
  {
    hide Write, Emit, EventOf, Scope.Bytes;
    var (bare, plain) := Write(cfg, s, a.x, a.now);
    if !Effective(plain) {
      FailureChangesNothing(cfg, s, a.x, a.now);
    } else if a.x.scope == EVENTS {
      CopyAgrees(s);
      EventsAgrees(cfg, s, s, a.x, a.now);
      AgreeNames(bare, s, EVENTS);
      if a.x.AppendReq? { AppendGrows(cfg, s, a.x, a.now); } else { EmptyLog(r); ScopeBytes(bare.scopes[EVENTS].scope); }
    } else {
      GrowthAdmitted(cfg, s, a.x, a.now);
      ReplicaEvents(cfg, s, a.x, a.now);
      if EventsEnabled(cfg, a.x.scope) {
        EmitOutside(cfg, bare, EventOf(a.x, plain.value.value, a.later), a.later);
        EmitGrows(cfg, bare, EventOf(a.x, plain.value.value, a.later), a.later);
      }
    }
  }

  lemma {:induction false} EmptyLog(r: Store)
    requires EVENTS in r.scopes && r.scopes[EVENTS].scope.items == []
    ensures LogBytes(r) == 0
  {
  }

  lemma {:induction false} HarmlessRoom(cfg: Config, s: Store, r: Store, run: seq<Asked>)
    requires EVENTS in s.scopes && EVENTS in r.scopes && HarmlessRun(r, run) && LogBytes(s) >= LogBytes(r)
    ensures RoomAlong(cfg, s, run, LogBytes(r))
    ensures EVENTS in Run(cfg, s, run).scopes && LogBytes(Run(cfg, s, run)) >= LogBytes(r)
    decreases |run|
  {
    hide Single, Harmless, RoomAlong, RoomFor, Scope.Bytes;
    if run == [] {
      NoSteps(cfg, s, r, _ => 0);
    } else {
      HarmlessRoom(cfg, s, r, run[..|run| - 1]);
      HarmlessStep(cfg, Run(cfg, s, run[..|run| - 1]), r, run[|run| - 1]);
      RoomSplit(cfg, s, run, LogBytes(r));
    }
  }

  /** A copy with an empty _events, or a log that is never drained, is enough: then no run is refused. */
  lemma {:induction false} ReplayRebuilds(cfg: Config, s: Store, r: Store, run: seq<Asked>, clock: nat -> int)
    requires cfg.mode == Full && Agrees(s, r) && LogBytes(r) <= LogBytes(s) && HarmlessRun(r, run)
    requires Run(cfg, s, run).drops == s.drops
    ensures var end := Replayed(cfg, r, Log(cfg, s, run), clock);
      end.Some? && Agrees(Run(cfg, s, run), end.value)
  {
    hide Agrees, Run, Log, Replayed, HarmlessRun, RoomAlong, Scope.Bytes;
    AgreeNames(s, r, EVENTS);
    HarmlessRoom(cfg, s, r, run);
    ReplayExactlyWhen(cfg, s, r, run, clock);
  }

  /** From a state whose _events is empty (boot, /wipe, /rebuild), an exact copy will do, whatever is drained. */
  lemma {:induction false} ReplayFromReset(cfg: Config, s: Store, run: seq<Asked>, clock: nat -> int)
    requires cfg.mode == Full && EVENTS in s.scopes && s.scopes[EVENTS].scope.items == []
    requires Run(cfg, s, run).drops == s.drops
    ensures var end := Replayed(cfg, s, Log(cfg, s, run), clock);
      && end.Some?
      && forall n :: n != EVENTS ==>
           && (n in end.value.scopes <==> n in Run(cfg, s, run).scopes)
           && (n in end.value.scopes ==> Like(Run(cfg, s, run).scopes[n].scope, end.value.scopes[n].scope))
  {
    hide Run, Log, Replayed, Scope.Bytes;
    CopyAgrees(s);
    ReplayRebuilds(cfg, s, s, run, clock);
  }

  /** From any state within the cap (after /warm, say), an exact copy follows exactly if every prefix of the run fits. */
  lemma {:induction false} ReplayOntoExactCopy(cfg: Config, s: Store, run: seq<Asked>, clock: nat -> int)
    requires cfg.mode == Full && EVENTS in s.scopes && s.total <= cfg.maxStoreBytes
    requires Run(cfg, s, run).drops == s.drops
    ensures forall k :: 0 <= k <= |run| ==> EVENTS in Run(cfg, s, run[..k]).scopes
    ensures Replayed(cfg, s, Log(cfg, s, run), clock).Some?
       <==> forall k :: 0 <= k <= |run| ==> Outside(Run(cfg, s, run[..k])) + LogBytes(s) <= cfg.maxStoreBytes
  {
    hide Run, Log, Replayed, Scope.Bytes;
    CopyAgrees(s);
    ReplayExactlyWhen(cfg, s, s, run, clock);
    forall k | 0 <= k <= |run| ensures EVENTS in Run(cfg, s, run[..k]).scopes { DropsNeverFall(cfg, s, run[..k]); }
    if RoomAlong(cfg, s, run, LogBytes(s)) {
      forall k | 0 <= k <= |run| ensures Outside(Run(cfg, s, run[..k])) + LogBytes(s) <= cfg.maxStoreBytes {
        PrefixFits(cfg, s, run, k);
      }
    }
  }

  lemma {:induction false} PrefixFits(cfg: Config, s: Store, run: seq<Asked>, k: nat)
    requires EVENTS in s.scopes && s.total <= cfg.maxStoreBytes && k <= |run|
    requires RoomAlong(cfg, s, run, LogBytes(s))
    ensures EVENTS in Run(cfg, s, run[..k]).scopes
    ensures Outside(Run(cfg, s, run[..k])) + LogBytes(s) <= cfg.maxStoreBytes
    decreases k
  {
    hide Single, Scope.Bytes;
    if k == 0 {
      assert Run(cfg, s, run[..0]) == s;
    } else {
      PrefixFits(cfg, s, run, k - 1);
      assert RoomFor(cfg.maxStoreBytes, Run(cfg, s, run[..k - 1]), Run(cfg, s, run[..k - 1 + 1]), LogBytes(s));
    }
  }

  // ---- when records outweigh the log ----

  predicate MayGrow(x: Request) {
    x.AppendReq? || x.UpsertReq? || x.UpdateReq? || x.CounterReq?
  }

  lemma {:induction false} OnlyTheseGrow(cfg: Config, s: Store, x: Request, now: int)
    requires Effective(Write(cfg, s, x, now).1) && !MayGrow(x)
    ensures Write(cfg, s, x, now).0.total <= s.total
  {
    hide Accepts, Apply, Sum, OpOf;
    if x.DeleteScopeReq? {
      ScopeBytes(s.scopes[x.scope].scope);
    } else {
      RemovalShrinks(EnvOf(cfg, x.scope), s.scopes[x.scope].scope, OpOf(cfg, x), now);
      RemovalOp(cfg, x);
    }
  }

  lemma {:induction false} RemovalOp(cfg: Config, x: Request)
    requires !MayGrow(x) && !x.DeleteScopeReq?
    ensures var op := OpOf(cfg, x); op.DeleteById? || op.DeleteBySeq? || op.DeleteUpTo?
  {
  }

  lemma {:induction false} RemovalShrinks(env: Env, s: Scope, op: Op, now: int)
    ensures (op.DeleteById? || op.DeleteBySeq? || op.DeleteUpTo?) && Apply(env, s, op, now).Changed? ==>
              Apply(env, s, op, now).next.Bytes() <= s.Bytes()
  {
    hide IndexOfId, IndexOfSeq, Above, Sum, RemoveAt;
    match op
    case DeleteById(id) => if IndexOfId(s.items, id).Some? { RemoveLaws(s, IndexOfId(s.items, id).value); }
    case DeleteBySeq(sq) => if IndexOfSeq(s.items, sq).Some? { RemoveLaws(s, IndexOfSeq(s.items, sq).value); }
    case DeleteUpTo(maxSeq) => AboveLighter(s.items, maxSeq);
    case _ =>
  }

  lemma {:induction false} AboveLighter(items: seq<Item>, cursor: nat)
    ensures Sum(Above(items, cursor), ItemSize) <= Sum(items, ItemSize)
  {
    if items != [] {
      AboveLighter(items[1..], cursor);
      if items[0].sq > cursor {
        SumConcat([items[0]], Above(items[1..], cursor), ItemSize);
        SumOne(items[0], ItemSize);
      }
    }
  }

  // Every record of a request that may grow the store takes at least as many bytes as the log holds.
  ghost predicate Outweighs(cfg: Config, log: int) {
    forall x, reply, later :: MayGrow(x) && Accepts(cfg, x) ==> Weighs(cfg, EventOf(x, reply, later), log)
  }

  // The item that takes this record, if it can be marshalled, has at least so many bytes.
  predicate Weighs(cfg: Config, e: WriteEvent, log: int) {
    match cfg.codec.marshal(Carried(cfg, e))
    case Some(body) => 55 + |body| >= log
    case None => true
  }

  // The record landed, so the original holds it beside everything else.
  lemma {:induction false} RecordFits(cfg: Config, s: Store, e: WriteEvent, now: int, log: int)
    requires EVENTS in s.scopes && Emit(cfg, s, e, now).drops == s.drops && Weighs(cfg, e, log)
    ensures var s' := Emit(cfg, s, e, now);
      && EVENTS in s'.scopes && LogBytes(s') >= LogBytes(s) + log
      && s'.total <= cfg.maxStoreBytes
  {
    hide Write, Carried, Insert, Scope.Bytes;
    EmitLands(cfg, s, e, now);
    var body := cfg.codec.marshal(Carried(cfg, e)).value;
    var x := AppendReq(EVENTS, "", body, 0, 0);
    AppendLands(cfg, s, EVENTS, "", body, now);
    if !Effective(Write(cfg, s, x, now).1) { FailureChangesNothing(cfg, s, x, now); }
    InsertLaws(s.scopes[EVENTS].scope, EVENTS, "", Plain(body, cfg.codec.decodeString(body)), now);
    CopyAgrees(s);
    EmitAgrees(cfg, s, s, e, now);
    AgreeNames(Emit(cfg, s, e, now), s, EVENTS);
    GrowthAdmitted(cfg, s, x, now);
  }

  lemma {:induction false} OutweighedStep(cfg: Config, s: Store, a: Asked, log: int)
    requires cfg.mode == Full && EVENTS in s.scopes && Outweighs(cfg, log)
    requires Single(cfg, s, a.x, a.now, a.later).0.drops == s.drops
    ensures RoomFor(cfg.maxStoreBytes, s, Single(cfg, s, a.x, a.now, a.later).0, log)
  {
    hide Write, Emit, EventOf, Scope.Bytes, Weighs, Accepts;
    WriteTakes(cfg, s, a.x, a.now);
    var (bare, plain) := Write(cfg, s, a.x, a.now);
    if !Effective(plain) {
      FailureChangesNothing(cfg, s, a.x, a.now);
    } else if a.x.scope == EVENTS {
      CopyAgrees(s);
      EventsAgrees(cfg, s, s, a.x, a.now);
      AgreeNames(bare, s, EVENTS);
    } else {
      var e := EventOf(a.x, plain.value.value, a.later);
      ReplicaEvents(cfg, s, a.x, a.now);
      EmitOutside(cfg, bare, e, a.later);
      EffectiveAccepted(cfg, s, a.x, a.now);
      if MayGrow(a.x) {
        RecordFits(cfg, bare, e, a.later, log);
        ScopeBytes(bare.scopes[EVENTS].scope);
      } else {
        OnlyTheseGrow(cfg, s, a.x, a.now);
      }
    }
  }

  lemma {:induction false} OutweighedRun(cfg: Config, s: Store, run: seq<Asked>, log: int)
    requires cfg.mode == Full && EVENTS in s.scopes && Outweighs(cfg, log)
    requires Run(cfg, s, run).drops == s.drops
    ensures RoomAlong(cfg, s, run, log)
    decreases |run|
  {
    hide Single, Outweighs, RoomAlong, RoomFor, Run;
    if run == [] {
      NoSteps(cfg, s, s, _ => 0);
    } else {
      var before, a := run[..|run| - 1], run[|run| - 1];
      LastStep(cfg, s, run);
      DropsNeverFall(cfg, s, before);
      DropsOnlyGrow(cfg, Run(cfg, s, before), a);
      OutweighedRun(cfg, s, before, log);
      OutweighedStep(cfg, Run(cfg, s, before), a, log);
      RoomSplit(cfg, s, run, log);
    }
  }

  /** A log that no growing record undercuts is never in the way: the original had room for that record. */
  lemma {:induction false} ReplayPastSmallLog(cfg: Config, s: Store, r: Store, run: seq<Asked>, clock: nat -> int)
    requires cfg.mode == Full && Agrees(s, r) && Outweighs(cfg, LogBytes(r))
    requires Run(cfg, s, run).drops == s.drops
    ensures var end := Replayed(cfg, r, Log(cfg, s, run), clock);
      end.Some? && Agrees(Run(cfg, s, run), end.value)
  {
    hide Agrees, Run, Log, Replayed, Scope.Bytes, Outweighs, RoomAlong;
    AgreeNames(s, r, EVENTS);
    OutweighedRun(cfg, s, run, LogBytes(r));
    ReplayExactlyWhen(cfg, s, r, run, clock);
  }
}
