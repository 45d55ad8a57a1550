/**
  What each public operation accepts, answers and leaves, field by field: the requests with
  their limits spelled out, the list of ScopeMeaning, and the counters of the store.
 */
module StoreMeaning {
  import opened Types
  import opened Sums
  import opened ScopeSpec
  import opened ScopeLaws
  import opened ScopeMeaning
  import opened BufferSpec
  import opened StoreSpec
  import opened StoreLaws
  import opened StoreEvents

  // ---- limits ----

  // The largest item a scope takes: its own cap, the inbox cap, or the larger of the two and a record around it.
  function ItemCap(cfg: Config, scope: string): int {
    if scope == "_inbox" then cfg.inboxMaxItemBytes
    else if scope == "_events" then
      var larger := if cfg.inboxMaxItemBytes > cfg.maxItemBytes then cfg.inboxMaxItemBytes else cfg.maxItemBytes;
      if larger > 0x7fff_ffff_ffff_ffff - 1024 then 0x7fff_ffff_ffff_ffff else larger + 1024
    else cfg.maxItemBytes
  }

  // The number of items a scope takes; 0 stands for any number.
  function CountCap(cfg: Config, scope: string): nat {
    if scope == "_inbox" then cfg.inboxMaxItems else if scope == "_events" then 0 else cfg.scopeMaxItems
  }

  lemma {:induction false} CapsMean(cfg: Config, scope: string)
    ensures cfg.MaxItemBytesFor(scope) == ItemCap(cfg, scope) && cfg.MaxItemsFor(scope) == CountCap(cfg, scope)
  {
  }

  // ---- what is accepted ----

  predicate NameFits(cfg: Config, scope: string) {
    scope != "" && cfg.codec.nameOk(scope)
  }

  predicate UserScope(scope: string) {
    scope != "_events" && scope != "_inbox"
  }

  predicate PayloadFits(cfg: Config, scope: string, id: string, payload: Bytes, cap: int) {
    && cfg.codec.payloadOk(payload)
    && 48 + |scope| + |id| + |payload|
       + (match cfg.codec.decodeString(payload) case Some(text) => |text| case None => 0) <= cap
  }

  predicate FieldsFit(cfg: Config, r: Request) {
    match r
    case AppendReq(scope, id, payload, sq, ts) =>
      (id == "" || cfg.codec.nameOk(id)) && sq == 0 && ts == 0 && PayloadFits(cfg, scope, id, payload, ItemCap(cfg, scope))
    case UpsertReq(scope, id, payload, sq, ts) =>
      && UserScope(scope) && id != "" && cfg.codec.nameOk(id) && sq == 0 && ts == 0
      && PayloadFits(cfg, scope, id, payload, cfg.maxItemBytes)
    case UpdateReq(scope, id, payload, sq, ts) =>
      && UserScope(scope) && ts == 0 && PayloadFits(cfg, scope, id, payload, cfg.maxItemBytes)
      && (if sq == 0 then id != "" && cfg.codec.nameOk(id) else id == "")
    case CounterReq(scope, id, inc) =>
      && UserScope(scope) && id != "" && cfg.codec.nameOk(id) && inc != 0 && CounterFits(inc)
      && (cfg.maxItemBytes <= 0 || 104 + |scope| + |id| <= cfg.maxItemBytes)
    case DeleteReq(_, id, sq) => if sq == 0 then id != "" && cfg.codec.nameOk(id) else id == ""
    case DeleteUpToReq(_, maxSeq) => maxSeq > 0
    case DeleteScopeReq(scope) => UserScope(scope)
  }

  /** Exactly which requests pass validation (validation.go). */
  lemma {:induction false} AcceptsExactlyWhen(cfg: Config, r: Request)
    ensures Accepts(cfg, r) <==> NameFits(cfg, r.scope) && FieldsFit(cfg, r)
  {
    CapsMean(cfg, r.scope);
  }

  // ---- what a write leaves ----

  function Old(st: Store, name: string): Scope {
    if name in st.scopes then st.scopes[name].scope else Scope([], 0, 0)
  }

  // What a new list costs: its growth, and 1024 bytes for a scope that was not there.
  function Cost(st: Store, name: string, next: Scope): int {
    next.Bytes() - Old(st, name).Bytes() + if name in st.scopes then 0 else 1024
  }

  predicate Affordable(cfg: Config, st: Store, name: string, next: Scope) {
    Cost(st, name, next) <= 0 || st.total + Cost(st, name, next) <= cfg.maxStoreBytes
  }

  /** The list took the place of the old one, the counters moved with it, and nothing else did. */
  predicate Landed(st: Store, st': Store, name: string, next: Scope, scopeTS: int, storeTS: int) {
    st' == Store(st.scopes[name := Held(next, scopeTS)], st.total + Cost(st, name, next),
                 st.items + |next.items| - |Old(st, name).items|,
                 st.count + (if name in st.scopes then 0 else 1), storeTS, st.drops)
  }

  function Later(ts: int, now: int): int { if now > ts then now else ts }

  /** An effective write: what it leaves, what it answers, and the stamps it moves. */
  predicate Done(st: Store, r: Request, now: int, after: (Store, Result<Option<Reply>>), next: Scope, reply: Reply) {
    && after.1 == Ok(Some(reply))
    && if r.CounterReq? && r.scope in st.scopes
       then Landed(st, after.0, r.scope, next, st.scopes[r.scope].writeTS, st.writeTS)
       else Landed(st, after.0, r.scope, next, now, Later(st.writeTS, now))
  }

  predicate NoRoom(st: Store, after: (Store, Result<Option<Reply>>)) {
    after.0 == st && after.1.Err? && after.1.error.StoreFull?
  }

  predicate Refused(st: Store, after: (Store, Result<Option<Reply>>), e: Error) {
    after == (st, Err(e))
  }

  predicate Miss(st: Store, after: (Store, Result<Option<Reply>>)) {
    after == (st, Ok(None))
  }

  // Done if there is room for it, refused for lack of room if not.
  predicate DoneIfRoom(cfg: Config, st: Store, r: Request, now: int, after: (Store, Result<Option<Reply>>), next: Scope, reply: Reply) {
    if Affordable(cfg, st, r.scope, next) then Done(st, r, now, after, next, reply) else NoRoom(st, after)
  }

  predicate Creating(r: Request) {
    match r
    case AppendReq(_, _, _, _, _) => true
    case UpsertReq(_, _, _, _, _) => true
    case CounterReq(_, _, _) => true
    case _ => false
  }

  // The write on the list, as Apply has it, becomes the write on the store.
  lemma {:induction false} WriteFollows(cfg: Config, st: Store, r: Request, now: int)
    requires Accepts(cfg, r) && !r.DeleteScopeReq? && (r.scope in st.scopes || Creating(r))
    ensures var after := Write(cfg, st, r, now);
      match Apply(EnvOf(cfg, r.scope), Old(st, r.scope), OpOf(cfg, r), now)
      case Changed(next, reply) =>
        (r.scope in st.scopes || next.Bytes() > 0) ==> DoneIfRoom(cfg, st, r, now, after, next, reply)
      case Missed => r.scope in st.scopes ==> Miss(st, after)
      case Rejected(e) =>
        if r.scope in st.scopes || st.total + 1024 <= cfg.maxStoreBytes then Refused(st, after, e) else NoRoom(st, after)
  {
    hide Apply, Accepts, Sum;
    EmptyBytes();
    hide Scope.Bytes;
    if r.scope in st.scopes {
      assert st.scopes[r.scope := st.scopes[r.scope]] == st.scopes;
    } else {
      var st0 := CreateScope(st, r.scope, now);
      assert st0.scopes[r.scope := st0.scopes[r.scope]] == st0.scopes;
      assert st0.scopes - {r.scope} == st.scopes;
    }
  }

  lemma {:induction false} EmptyBytes()
    ensures Scope([], 0, 0).Bytes() == 0 && EMPTY_SCOPE == Scope([], 0, 0)
  {
  }

  // ---- the single writes ----

  // The list with one more item.
  function With(s: Scope, x: Item): Scope {
    Scope(s.items + [x], s.lastSeq + 1, s.idKeyBytes + |x.id|)
  }

  // The list with another item in one place.
  function WithAt(s: Scope, i: nat, x: Item): Scope
    requires i < |s.items|
  {
    Scope(s.items[i := x], s.lastSeq, s.idKeyBytes)
  }

  lemma {:induction false} WithWeighs(s: Scope, x: Item)
    ensures With(s, x).Bytes() == s.Bytes() + ItemSize(x) && ItemSize(x) >= 48
  {
    SumAppend(s.items, x, ItemSize);
  }

  // Rewriting one place is the list with another item there.
  lemma {:induction false} RewriteIs(s: Scope, next: Scope, i: nat, body: Body, ts: int)
    requires i < |s.items| && Rewrites(s, next, i, body, ts)
    ensures next == WithAt(s, i, s.items[i].(body := body, ts := ts))
  {
    assert next.items == WithAt(s, i, s.items[i].(body := body, ts := ts)).items;
  }

  function NewPlain(cfg: Config, s: Scope, scope: string, id: string, payload: Bytes, now: int): Item {
    Item(scope, id, s.lastSeq + 1, now, Plain(payload, cfg.codec.decodeString(payload)))
  }

  predicate AtCap(cfg: Config, s: Scope, scope: string) {
    CountCap(cfg, scope) != 0 && |s.items| >= CountCap(cfg, scope)
  }

  /** An accepted /append: one more item, in a scope made for it if there is none. */
  lemma {:induction false} AppendTakes(cfg: Config, st: Store, r: Request, now: int)
    requires r.AppendReq? && Accepts(cfg, r) && WellFormed(Old(st, r.scope))
    ensures var s, after := Old(st, r.scope), Write(cfg, st, r, now);
            var x := NewPlain(cfg, s, r.scope, r.id, r.payload, now);
      if AtCap(cfg, s, r.scope) then Refused(st, after, ScopeFull(|s.items|, CountCap(cfg, r.scope)))
      else if !NoId(s, r.id) then Refused(st, after, DuplicateId)
      else DoneIfRoom(cfg, st, r, now, after, With(s, x), ItemReply(x, true))
  {
    hide Apply, Write, Accepts, WellFormed, Scope.Bytes, NoId, DoneIfRoom, Done, Landed;
    var s := Old(st, r.scope);
    CapsMean(cfg, r.scope);
    AppendMeans(EnvOf(cfg, r.scope), s, r.id, r.payload, cfg.codec.decodeString(r.payload), now);
    WriteFollows(cfg, st, r, now);
    EmptyBytes();
    WithWeighs(s, NewPlain(cfg, s, r.scope, r.id, r.payload, now));
    if r.scope !in st.scopes { NothingThere(r.id); }
  }

  lemma {:induction false} NothingThere(id: string)
    ensures NoId(Scope([], 0, 0), id) && WellFormed(Scope([], 0, 0))
  {
  }

  /** An accepted /upsert: the item with the id takes the payload, or a new one does. */
  lemma {:induction false} UpsertTakes(cfg: Config, st: Store, r: Request, now: int)
    requires r.UpsertReq? && Accepts(cfg, r) && WellFormed(Old(st, r.scope))
    ensures var s, after := Old(st, r.scope), Write(cfg, st, r, now);
            var x := NewPlain(cfg, s, r.scope, r.id, r.payload, now);
      && (forall i: nat :: IdAt(s, i, r.id) ==>
            var y := s.items[i].(body := x.body, ts := now);
            DoneIfRoom(cfg, st, r, now, after, WithAt(s, i, y), ItemReply(y, false)))
      && (NoId(s, r.id) && AtCap(cfg, s, r.scope) ==> Refused(st, after, ScopeFull(|s.items|, CountCap(cfg, r.scope))))
      && (NoId(s, r.id) && !AtCap(cfg, s, r.scope) ==> DoneIfRoom(cfg, st, r, now, after, With(s, x), ItemReply(x, true)))
  {
    hide Apply, Write, Accepts, WellFormed, Scope.Bytes, NoId, DoneIfRoom, Done, Landed, Rewrites;
    var s := Old(st, r.scope);
    var x := NewPlain(cfg, s, r.scope, r.id, r.payload, now);
    CapsMean(cfg, r.scope);
    UpsertMeans(EnvOf(cfg, r.scope), s, r.id, r.payload, cfg.codec.decodeString(r.payload), now);
    WriteFollows(cfg, st, r, now);
    EmptyBytes();
    WithWeighs(s, x);
    if r.scope !in st.scopes { NothingThere(r.id); }
    forall i: nat | IdAt(s, i, r.id)
      ensures var y := s.items[i].(body := x.body, ts := now);
        DoneIfRoom(cfg, st, r, now, Write(cfg, st, r, now), WithAt(s, i, y), ItemReply(y, false))
    {
      RewriteIs(s, Apply(EnvOf(cfg, r.scope), s, OpOf(cfg, r), now).next, i, x.body, now);
    }
  }

  // What an item weighs with another payload.
  function WeightWith(cfg: Config, x: Item, payload: Bytes): int {
    48 + |x.scope| + |x.id| + |payload| + match cfg.codec.decodeString(payload) case Some(text) => |text| case None => 0
  }

  /** An accepted /update: the payload of the item addressed; a miss if there is none, or no scope. */
  lemma {:induction false} UpdateTakes(cfg: Config, st: Store, r: Request, now: int)
    requires r.UpdateReq? && Accepts(cfg, r) && WellFormed(Old(st, r.scope))
    ensures var s, after := Old(st, r.scope), Write(cfg, st, r, now);
            var body := Plain(r.payload, cfg.codec.decodeString(r.payload));
      && (r.scope !in st.scopes ==> Miss(st, after))
      && (r.sq == 0 && NoId(s, r.id) ==> Miss(st, after))
      && (r.sq != 0 && NoSeq(s, r.sq) ==> Miss(st, after))
      && (forall i: nat :: r.sq == 0 && IdAt(s, i, r.id) ==>
            DoneIfRoom(cfg, st, r, now, after, WithAt(s, i, s.items[i].(body := body, ts := now)), CountReply(1)))
      && (forall i: nat :: r.sq != 0 && SeqAt(s, i, r.sq) ==>
            if WeightWith(cfg, s.items[i], r.payload) > ItemCap(cfg, s.items[i].scope) then Refused(st, after, Invalid)
            else DoneIfRoom(cfg, st, r, now, after, WithAt(s, i, s.items[i].(body := body, ts := now)), CountReply(1)))
  {
    hide Apply, Accepts, WellFormed, Scope.Bytes, NoId, NoSeq, DoneIfRoom, Done, Landed, Rewrites, CallScope;
    var s, env := Old(st, r.scope), EnvOf(cfg, r.scope);
    var body := Plain(r.payload, cfg.codec.decodeString(r.payload));
    AcceptsExactlyWhen(cfg, r);
    UpdateIdMeans(env, s, r.id, r.payload, cfg.codec.decodeString(r.payload), now);
    UpdateSeqMeans(env, s, r.sq, r.payload, cfg.codec.decodeString(r.payload), now);
    if r.scope in st.scopes {
      WriteFollows(cfg, st, r, now);
      hide Write;
      forall i: nat | i < |s.items| ensures cfg.MaxItemBytesFor(s.items[i].scope) == ItemCap(cfg, s.items[i].scope) {
        CapsMean(cfg, s.items[i].scope);
      }
      forall i: nat | (if r.sq == 0 then IdAt(s, i, r.id) else SeqAt(s, i, r.sq)) && Apply(env, s, OpOf(cfg, r), now).Changed?
        ensures Apply(env, s, OpOf(cfg, r), now).next == WithAt(s, i, s.items[i].(body := body, ts := now))
      {
        RewriteIs(s, Apply(env, s, OpOf(cfg, r), now).next, i, body, now);
      }
    }
  }

  /** An accepted /counter_add: the counter, or the integer a payload reads as, moves by inc; or a new counter is made. */
  lemma {:induction false} CounterAddTakes(cfg: Config, st: Store, r: Request, now: int)
    requires r.CounterReq? && Accepts(cfg, r) && WellFormed(Old(st, r.scope))
    ensures var s, after := Old(st, r.scope), Write(cfg, st, r, now);
            var x := Item(r.scope, r.id, s.lastSeq + 1, now, Counter(r.inc));
      && (NoId(s, r.id) && AtCap(cfg, s, r.scope) ==> Refused(st, after, ScopeFull(|s.items|, CountCap(cfg, r.scope))))
      && (NoId(s, r.id) && !AtCap(cfg, s, r.scope) ==> DoneIfRoom(cfg, st, r, now, after, With(s, x), ValueReply(r.inc, true)))
      && (forall i: nat :: IdAt(s, i, r.id) ==>
            match StartsFrom(EnvOf(cfg, r.scope), s.items[i])
            case None => Refused(st, after, CounterPayload)
            case Some(v) =>
              if !CounterFits(v + r.inc) then Refused(st, after, CounterOverflow(v, r.inc))
              else DoneIfRoom(cfg, st, r, now, after, WithAt(s, i, Counted(s.items[i], v + r.inc, now)), ValueReply(v + r.inc, false)))
  {
    hide Apply, Write, Accepts, WellFormed, Scope.Bytes, NoId, DoneIfRoom, Done, Landed, Rewrites, StartsFrom, CounterFits;
    var s, env := Old(st, r.scope), EnvOf(cfg, r.scope);
    CapsMean(cfg, r.scope);
    CounterAddMeans(env, s, r.id, r.inc, now);
    WriteFollows(cfg, st, r, now);
    EmptyBytes();
    WithWeighs(s, Item(r.scope, r.id, s.lastSeq + 1, now, Counter(r.inc)));
    if r.scope !in st.scopes { NothingThere(r.id); }
    forall i: nat | IdAt(s, i, r.id) && StartsFrom(env, s.items[i]).Some? && CounterFits(StartsFrom(env, s.items[i]).value + r.inc)
      ensures Apply(env, s, OpOf(cfg, r), now).next == WithAt(s, i, Counted(s.items[i], StartsFrom(env, s.items[i]).value + r.inc, now))
    {
      var y := Counted(s.items[i], StartsFrom(env, s.items[i]).value + r.inc, now);
      RewriteIs(s, Apply(env, s, OpOf(cfg, r), now).next, i, y.body, y.ts);
    }
  }

  // An item as a counter; the time of one that was a counter already does not go back.
  function Counted(x: Item, v: int, now: int): Item {
    x.(body := Counter(v), ts := if x.body.Counter? && x.ts > now then x.ts else now)
  }

  // ---- the deletes ----

  // The list without one item.
  function Without(s: Scope, i: nat): Scope
    requires i < |s.items|
  {
    Scope(s.items[..i] + s.items[i + 1..], s.lastSeq, if |s.items| == 1 then 0 else s.idKeyBytes - |s.items[i].id|)
  }

  lemma {:induction false} DropIs(s: Scope, next: Scope, i: nat)
    requires Drops(s, next, i)
    ensures next == Without(s, i) && next.Bytes() <= s.Bytes()
  {
    assert next.items == s.items[..i] + s.items[i + 1..];
    SumRemove(s.items, i, ItemSize);
  }

  /** An accepted /delete: the item addressed goes; a miss if there is none, or no scope. There is always room for it. */
  lemma {:induction false} DeleteTakes(cfg: Config, st: Store, r: Request, now: int)
    requires r.DeleteReq? && Accepts(cfg, r) && WellFormed(Old(st, r.scope))
    ensures var s, after := Old(st, r.scope), Write(cfg, st, r, now);
      && (r.scope !in st.scopes ==> Miss(st, after))
      && (r.sq == 0 && NoId(s, r.id) ==> Miss(st, after))
      && (r.sq != 0 && NoSeq(s, r.sq) ==> Miss(st, after))
      && (forall i: nat :: (if r.sq == 0 then IdAt(s, i, r.id) else SeqAt(s, i, r.sq)) ==>
            Done(st, r, now, after, Without(s, i), CountReply(1)))
  {
    hide Apply, Accepts, WellFormed, Scope.Bytes, NoId, NoSeq, Done, Landed, CallScope, Drops;
    var s, env := Old(st, r.scope), EnvOf(cfg, r.scope);
    AcceptsExactlyWhen(cfg, r);
    DeleteIdMeans(env, s, r.id, now);
    DeleteSeqMeans(env, s, r.sq, now);
    if r.scope in st.scopes {
      WriteFollows(cfg, st, r, now);
      hide Write;
      forall i: nat | if r.sq == 0 then IdAt(s, i, r.id) else SeqAt(s, i, r.sq)
        ensures Done(st, r, now, Write(cfg, st, r, now), Without(s, i), CountReply(1))
      {
        DropIs(s, Apply(env, s, OpOf(cfg, r), now).next, i);
      }
    }
  }

  /** An accepted /delete_up_to: the items at or below the cursor go; a miss if there are none, or no scope. */
  lemma {:induction false} DeleteUpToTakes(cfg: Config, st: Store, r: Request, k: nat, now: int)
    requires r.DeleteUpToReq? && Accepts(cfg, r) && WellFormed(Old(st, r.scope)) && CutAt(Old(st, r.scope).items, r.maxSeq, k)
    ensures var s, after := Old(st, r.scope), Write(cfg, st, r, now);
      if k == 0 then Miss(st, after)
      else
        && after.1 == Ok(Some(CountReply(k)))
        && r.scope in after.0.scopes && after.0.scopes[r.scope].scope.items == s.items[k..]
        && Done(st, r, now, after, after.0.scopes[r.scope].scope, CountReply(k))
        && after.0.scopes[r.scope].scope.lastSeq == s.lastSeq
  {
    hide Apply, Accepts, WellFormed, CallScope, Sum;
    var s, env := Old(st, r.scope), EnvOf(cfg, r.scope);
    DeleteUpToMeans(env, s, r.maxSeq, k, now);
    if r.scope in st.scopes {
      WriteFollows(cfg, st, r, now);
      hide Write;
      SumSplit(s.items, k, ItemSize);
      SumNonNegative(s.items[..k]);
    }
  }

  /** An accepted /delete_scope: the scope goes with its items, its bytes and its 1024; a miss if there is none. */
  lemma {:induction false} DeleteScopeTakes(cfg: Config, st: Store, r: Request, now: int)
    requires r.DeleteScopeReq? && Accepts(cfg, r)
    ensures var after := Write(cfg, st, r, now);
      if r.scope !in st.scopes then Miss(st, after)
      else
        var s := st.scopes[r.scope].scope;
        after == (Store(st.scopes - {r.scope}, st.total - s.Bytes() - 1024, st.items - |s.items|, st.count - 1,
                        Later(st.writeTS, now), st.drops), Ok(Some(CountReply(|s.items|))))
  {
    hide Accepts, Sum;
  }

  /** And what is not accepted is refused, whatever is stored. */
  lemma {:induction false} OthersRefused(cfg: Config, st: Store, r: Request, now: int)
    requires !Accepts(cfg, r)
    ensures Refused(st, Write(cfg, st, r, now), Invalid)
  {
    hide Accepts;
  }
}
