/** What every public operation keeps: exact counters, the byte cap, item size caps, order. */
module StoreLaws {
  import opened Types
  import opened Sums
  import opened ScopeSpec
  import opened ScopeLaws
  import opened BufferSpec
  import opened StoreSpec

  // ---- sums over the scope map ----

  ghost function MapSum(m: map<string, Held>, f: Held -> int): int
    decreases |m|
  {
    if m == map[] then 0
    else
      var k :| k in m;
      Smaller(m, k);
      f(m[k]) + MapSum(m - {k}, f)
  }

  lemma {:induction false} Smaller<V>(m: map<string, V>, k: string)
    requires k in m
    ensures |m - {k}| == |m| - 1
  {
    assert (m - {k}).Keys == m.Keys - {k};
    assert |(m - {k}).Keys| == |m.Keys| - 1;
  }

  lemma {:induction false} MapSumRemove(m: map<string, Held>, f: Held -> int, k: string)
    requires k in m
    ensures MapSum(m, f) == f(m[k]) + MapSum(m - {k}, f)
    decreases |m|
  {
    var j :| j in m && MapSum(m, f) == f(m[j]) + MapSum(m - {j}, f);
    if j != k {
      Smaller(m, j);
      Smaller(m, k);
      MapSumRemove(m - {j}, f, k);
      MapSumRemove(m - {k}, f, j);
      assert m - {j} - {k} == m - {k} - {j};
    }
  }

  lemma {:induction false} MapSumPut(m: map<string, Held>, f: Held -> int, k: string, v: Held)
    ensures MapSum(m[k := v], f) == MapSum(m, f) - (if k in m then f(m[k]) else 0) + f(v)
  {
    MapSumRemove(m[k := v], f, k);
    assert m[k := v] - {k} == m - {k};
    if k in m { MapSumRemove(m, f, k); } else { assert m - {k} == m; }
  }

  function Weight(h: Held): int { h.scope.Bytes() + SCOPE_OVERHEAD }
  function Count(h: Held): int { |h.scope.items| }

  // ---- the invariant ----

  /** Each O(1) counter is the sum it stands for. */
  ghost predicate Balanced(st: Store) {
    && st.total == MapSum(st.scopes, Weight)
    && st.items == MapSum(st.scopes, Count)
    && st.count == |st.scopes|
  }

  /** A stored item names its scope, respects the item cap of that scope, and passed validation. */
  predicate ItemOk(cfg: Config, name: string, x: Item) {
    && x.scope == name && ItemSize(x) <= cfg.MaxItemBytesFor(name) && (x.id != "" ==> cfg.codec.nameOk(x.id))
    && match x.body
       case Plain(payload, render) => cfg.codec.payloadOk(payload) && render == cfg.codec.decodeString(payload)
       case Counter(v) => InCounterRange(v)
  }

  predicate NamedOk(cfg: Config, name: string) {
    IsReserved(name) || ScopeOk(cfg.codec, name)
  }

  predicate Fits(cfg: Config, name: string, s: Scope) {
    && NamedOk(cfg, name)
    && (forall i :: 0 <= i < |s.items| ==> ItemOk(cfg, name, s.items[i]))
    && (cfg.MaxItemsFor(name) > 0 ==> |s.items| <= cfg.MaxItemsFor(name))
  }

  ghost predicate Tidy(cfg: Config, st: Store) {
    && EVENTS in st.scopes && INBOX in st.scopes
    && forall n :: n in st.scopes ==> WellFormed(st.scopes[n].scope) && Fits(cfg, n, st.scopes[n].scope)
  }

  ghost predicate Good(cfg: Config, st: Store) {
    Balanced(st) && Tidy(cfg, st) && st.total <= cfg.maxStoreBytes
  }

  // ---- one scope ----

  lemma {:induction false} RenderIsDecoded(codec: Codec, payload: Bytes)
    ensures RenderBytes(codec, codec.decodeString(payload), payload) == codec.decodeString(payload)
  {
  }

  // No accepted request leaves an item above the cap of its scope.
  lemma {:induction false} ApplyFits(cfg: Config, s: Scope, r: Request, now: int)
    requires Accepts(cfg, r) && !r.DeleteScopeReq? && Fits(cfg, r.scope, s) && cfg.maxItemBytes > 0
    requires Apply(EnvOf(cfg, r.scope), s, OpOf(cfg, r), now).Changed?
    ensures Fits(cfg, r.scope, Apply(EnvOf(cfg, r.scope), s, OpOf(cfg, r), now).next)
  {
    hide IndexOfId, IndexOfSeq, Above;
    if r.DeleteUpToReq? || r.DeleteReq? {
      RemovalFits(cfg, s, r, now);
    }
  }

  lemma {:induction false} RemovalFits(cfg: Config, s: Scope, r: Request, now: int)
    requires r.DeleteUpToReq? || r.DeleteReq?
    requires Fits(cfg, r.scope, s) && Apply(EnvOf(cfg, r.scope), s, OpOf(cfg, r), now).Changed?
    ensures Fits(cfg, r.scope, Apply(EnvOf(cfg, r.scope), s, OpOf(cfg, r), now).next)
  {
    hide IndexOfId, IndexOfSeq, Above, ItemOk;
    var next := Apply(EnvOf(cfg, r.scope), s, OpOf(cfg, r), now).next;
    if r.DeleteUpToReq? {
      AboveKeeps(s.items, r.maxSeq);
    }
    forall i | 0 <= i < |next.items| ensures next.items[i] in s.items {}
  }

  lemma {:induction false} AboveKeeps(items: seq<Item>, cursor: nat)
    ensures forall x :: x in Above(items, cursor) ==> x in items
  {
    if items != [] { AboveKeeps(items[1..], cursor); }
  }

  // A buffer call moves the shared counters by what it moves the list.
  lemma {:induction false} PerformMoves(env: Env, b: Snap, op: Op, now: int)
    requires !b.detached
    ensures var (b', r) := Perform(env, b, op, now);
      && b'.total - b.total == b'.scope.Bytes() - b.scope.Bytes()
      && b'.items - b.items == |b'.scope.items| - |b.scope.items|
      && (b'.scope == b.scope || Apply(env, b.scope, op, now) == Changed(b'.scope, Apply(env, b.scope, op, now).reply))
      && (b.total <= env.cfg.maxStoreBytes ==> b'.total <= env.cfg.maxStoreBytes)
      && (r.Err? || r.value.None? ==> b' == b)
  {
    hide Apply, Sum;
  }

  // ---- one operation ----

  lemma {:induction false} CallGood(cfg: Config, st: Store, r: Request, now: int)
    requires Good(cfg, st) && cfg.maxItemBytes > 0
    requires Accepts(cfg, r) && !r.DeleteScopeReq? && r.scope in st.scopes
    ensures Good(cfg, CallScope(cfg, st, r.scope, OpOf(cfg, r), now).0)
  {
    hide Perform, Apply, WellFormed, Fits, Sum, OpOf, Accepts;
    var name, env, op := r.scope, EnvOf(cfg, r.scope), OpOf(cfg, r);
    var h := st.scopes[name];
    PerformMoves(env, SnapOf(st, h), op, now);
    var (st', _) := CallScope(cfg, st, name, op, now);
    var h' := st'.scopes[name];
    MapSumPut(st.scopes, Weight, name, h');
    MapSumPut(st.scopes, Count, name, h');
    assert st'.scopes.Keys == st.scopes.Keys;
    if h'.scope != h.scope {
      ApplyKeepsOrder(env, h.scope, op, now);
      ApplyFits(cfg, h.scope, r, now);
    }
  }

  lemma {:induction false} CreateBalanced(st: Store, name: string, now: int)
    requires Balanced(st) && name !in st.scopes
    ensures Balanced(CreateScope(st, name, now))
  {
    assert EMPTY_SCOPE.Bytes() == 0;
    hide Sum, MapSum;
    MapSumPut(st.scopes, Weight, name, Held(EMPTY_SCOPE, now));
    MapSumPut(st.scopes, Count, name, Held(EMPTY_SCOPE, now));
    assert CreateScope(st, name, now).scopes.Keys == st.scopes.Keys + {name};
  }

  lemma {:induction false} CreateGood(cfg: Config, st: Store, name: string, now: int)
    requires Good(cfg, st) && name !in st.scopes && st.total + SCOPE_OVERHEAD <= cfg.maxStoreBytes && NamedOk(cfg, name)
    ensures Good(cfg, CreateScope(st, name, now))
  {
    hide Balanced;
    CreateBalanced(st, name, now);
  }

  lemma {:induction false} DropGood(cfg: Config, st: Store, name: string, now: int)
    requires Good(cfg, st) && name in st.scopes && !IsReserved(name)
    ensures Good(cfg, DropScope(st, name, now))
  {
    hide Sum, MapSum, Fits, WellFormed;
    SumNonNegative(st.scopes[name].scope.items);
    MapSumRemove(st.scopes, Weight, name);
    MapSumRemove(st.scopes, Count, name);
    Smaller(st.scopes, name);
  }

  /** An operation that fails, or misses, leaves everything as it was. */
  lemma {:induction false} FailureChangesNothing(cfg: Config, st: Store, r: Request, now: int)
    requires var result := Write(cfg, st, r, now).1; result.Err? || result.value.None?
    ensures Write(cfg, st, r, now).0 == st
  {
    hide Apply, OpOf, Accepts, Sum, Perform;
    var name := r.scope;
    if Accepts(cfg, r) && !r.DeleteScopeReq? {
      var op := OpOf(cfg, r);
      if name in st.scopes {
        PerformMoves(EnvOf(cfg, name), SnapOf(st, st.scopes[name]), op, now);
        assert st.scopes[name := st.scopes[name]] == st.scopes;
      } else if CreatesScope(r) && Admits(st.total, cfg.maxStoreBytes, SCOPE_OVERHEAD) {
        var st0 := CreateScope(st, name, now);
        PerformMoves(EnvOf(cfg, name), SnapOf(st0, st0.scopes[name]), op, now);
        assert st0.scopes[name := st0.scopes[name]] == st0.scopes;
        assert st0.scopes - {name} == st.scopes;
        CreatorsAnswer(cfg, r, name, SnapOf(st0, st0.scopes[name]), now);
      }
    }
  }

  // The operations that create scopes never answer with a miss.
  lemma {:induction false} CreatorsAnswer(cfg: Config, r: Request, name: string, b: Snap, now: int)
    requires CreatesScope(r) && !b.detached
    ensures var result := Perform(EnvOf(cfg, name), b, OpOf(cfg, r), now).1; result.Ok? ==> result.value.Some?
  {
    hide IndexOfId, Sum;
  }

  lemma {:induction false} WriteGood(cfg: Config, st: Store, r: Request, now: int)
    requires Good(cfg, st) && cfg.maxItemBytes > 0
    ensures Good(cfg, Write(cfg, st, r, now).0)
  {
    hide Good, Perform, OpOf, Accepts, Sum;
    var (st', result) := Write(cfg, st, r, now);
    if result.Err? || result.value.None? {
      FailureChangesNothing(cfg, st, r, now);
    } else if r.DeleteScopeReq? {
      AcceptedDeletes(cfg, r);
      DropGood(cfg, st, r.scope, now);
    } else if r.scope in st.scopes {
      CallGood(cfg, st, r, now);
    } else {
      GoodParts(cfg, st);
      AcceptedName(cfg, r);
      CreateGood(cfg, st, r.scope, now);
      var st0 := CreateScope(st, r.scope, now);
      CallGood(cfg, st0, r, now);
      StampGood(cfg, CallScope(cfg, st0, r.scope, OpOf(cfg, r), now).0, st'.writeTS);
    }
  }

  lemma {:induction false} AcceptedDeletes(cfg: Config, r: Request)
    requires Accepts(cfg, r) && r.DeleteScopeReq?
    ensures !IsReserved(r.scope)
  {
  }

  lemma {:induction false} AcceptedName(cfg: Config, r: Request)
    requires Accepts(cfg, r)
    ensures NamedOk(cfg, r.scope)
  {
  }

  lemma {:induction false} GoodParts(cfg: Config, st: Store)
    requires Good(cfg, st)
    ensures Balanced(st) && Tidy(cfg, st) && st.total <= cfg.maxStoreBytes
  {
  }

  lemma {:induction false} StampGood(cfg: Config, st: Store, ts: int)
    requires Good(cfg, st)
    ensures Good(cfg, st.(writeTS := ts))
  {
  }

  lemma {:induction false} SingleGood(cfg: Config, st: Store, r: Request, now: int, later: int)
    requires Good(cfg, st) && cfg.maxItemBytes > 0
    ensures Good(cfg, Single(cfg, st, r, now, later).0)
    decreases if r.scope == EVENTS then 0 else 2
  {
    hide Good, Write;
    WriteGood(cfg, st, r, now);
    var (st', result) := Write(cfg, st, r, now);
    if result.Ok? && result.value.Some? && EventsEnabled(cfg, r.scope) {
      EmitGood(cfg, st', EventOf(r, result.value.value, later), later);
    }
  }

  lemma {:induction false} EmitGood(cfg: Config, st: Store, e: WriteEvent, now: int)
    requires Good(cfg, st) && cfg.maxItemBytes > 0
    ensures Good(cfg, Emit(cfg, st, e, now))
    decreases 1
  {
    hide Good, Single, Carried;
    match cfg.codec.marshal(Carried(cfg, e))
    case None => DropsGood(cfg, st, st.drops + 1);
    case Some(body) =>
      SingleGood(cfg, st, AppendReq(EVENTS, "", body, 0, 0), now, now);
      var st' := Single(cfg, st, AppendReq(EVENTS, "", body, 0, 0), now, now).0;
      DropsGood(cfg, st', st'.drops + 1);
  }

  lemma {:induction false} DropsGood(cfg: Config, st: Store, drops: nat)
    requires Good(cfg, st)
    ensures Good(cfg, st.(drops := drops))
  {
  }
}
