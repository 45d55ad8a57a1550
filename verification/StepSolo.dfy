/**
  An operation that runs alone does in steps what the store specification does at once: the
  lookup, the shard section, the buffer section and the rollback add up to StoreSpec.Write.
 */
module StepSolo {
  import opened Types
  import opened Sums
  import opened ScopeSpec
  import opened BufferSpec
  import opened Steps
  import opened StepStructure
  import opened StepSafety
  import opened StepHolds
  import opened StepRollback
  import StoreSpec

  predicate Quiet(s: Sys) {
    forall t :: 0 <= t < |s.threads| ==> s.threads[t].Idle?
  }

  /** The scopes under their names, and the three counters. */
  ghost predicate SameStore(s: Sys, st: StoreSpec.Store) {
    && s.maps.Keys == st.scopes.Keys
    && (forall n :: n in s.maps ==> s.maps[n] < |s.bufs| && s.bufs[s.maps[n]].scope == st.scopes[n].scope)
    && s.total == st.total && s.items == st.items && s.scopes == st.count
  }

  // One thread starts something and goes on with it until nothing is left to do.
  predicate SoloRun(run: Schedule, t: nat, first: Action, now: int) {
    && run != [] && run[0] == (t, first)
    && forall i :: 0 < i < |run| ==> run[i].0 == t && (run[i].1 == Continue(now) || run[i].1.Sweep?)
  }

  /** Alone from a quiet state, the operation is done and the state is quiet again. */
  ghost predicate Becomes(w: World, s: Sys, t: nat, first: Action, now: int, s': Sys) {
    exists run :: SoloRun(run, t, first, now) && Steps.Exec(w, s, run) == Some(s') && Quiet(s')
  }

  // On the way there.
  ghost predicate Reaches(w: World, s: Sys, t: nat, first: Action, now: int, m: Sys) {
    exists run :: SoloRun(run, t, first, now) && Steps.Exec(w, s, run) == Some(m)
  }

  lemma {:induction false} Starts(w: World, s: Sys, t: nat, first: Action, now: int)
    requires Enabled(w, s, t, first)
    ensures Reaches(w, s, t, first, now, Do(w, s, t, first))
  {
    hide Enabled, Do;
    var run: Schedule := [(t, first)];
    assert run[..0] == [];
    assert Steps.Exec(w, s, run[..0]) == Some(s);
    assert SoloRun(run, t, first, now) && Steps.Exec(w, s, run) == Some(Do(w, s, t, first));
  }

  lemma {:induction false} GoesOn(w: World, s: Sys, t: nat, first: Action, now: int, m: Sys)
    requires Reaches(w, s, t, first, now, m) && Enabled(w, m, t, Continue(now))
    ensures Reaches(w, s, t, first, now, Do(w, m, t, Continue(now)))
  {
    hide Enabled, Do;
    var run :| SoloRun(run, t, first, now) && Steps.Exec(w, s, run) == Some(m);
    var longer := run + [(t, Continue(now))];
    assert longer[..|longer| - 1] == run;
    assert SoloRun(longer, t, first, now) && Steps.Exec(w, s, longer) == Some(Do(w, m, t, Continue(now)));
  }

  // A reset goes on buffer by buffer.
  lemma {:induction false} SweepsOn(w: World, s: Sys, t: nat, first: Action, now: int, m: Sys, b: nat)
    requires Reaches(w, s, t, first, now, m) && Enabled(w, m, t, Sweep(b))
    ensures Reaches(w, s, t, first, now, Do(w, m, t, Sweep(b)))
  {
    hide Enabled, Do;
    var run :| SoloRun(run, t, first, now) && Steps.Exec(w, s, run) == Some(m);
    var longer := run + [(t, Sweep(b))];
    assert longer[..|longer| - 1] == run;
    assert SoloRun(longer, t, first, now) && Steps.Exec(w, s, longer) == Some(Do(w, m, t, Sweep(b)));
  }

  lemma {:induction false} Arrives(w: World, s: Sys, t: nat, first: Action, now: int, s': Sys)
    requires Reaches(w, s, t, first, now, s') && Quiet(s')
    ensures Becomes(w, s, t, first, now, s')
  {
    hide Steps.Exec, Quiet;
  }

  // In a quiet state nobody holds a shard or a buffer, and what is mapped is live.
  lemma {:induction false} QuietMeans(w: World, s: Sys)
    requires Inv(w, s) && Quiet(s)
    ensures forall k :: ShardFree(w, s, k)
    ensures forall i :: 0 <= i < |s.bufs| ==> s.bufs[i].hold.Free?
    ensures forall n :: n in s.maps ==>
      s.maps[n] < |s.bufs| && s.bufs[s.maps[n]].name == n && !s.bufs[s.maps[n]].detached && s.bufs[s.maps[n]].linked
  {
    hide Accounted, Capped;
    forall i | 0 <= i < |s.bufs| ensures s.bufs[i].hold.Free? { assert BufOk(s, i); }
    forall n | n in s.maps ensures !s.bufs[s.maps[n]].detached && s.bufs[s.maps[n]].linked { assert BufOk(s, s.maps[n]); }
  }

  // The same with one thread at work.
  function Busy(s: Sys, t: nat, pc: Pc): Sys
    requires t < |s.threads|
  {
    s.(threads := s.threads[t := pc])
  }

  // ---- on a scope that is there ----

  function Outcome1(w: World, s: Sys, b: nat, op: Op, now: int): Outcome
    requires b < |s.bufs|
  {
    Execute(Env(w.cfg, w.cfg.MaxItemsFor(s.bufs[b].name), s.bufs[b].name), s.bufs[b].scope, op, now, s.total)
  }

  // What a lone writer with a pointer does, if it did not make the buffer.
  lemma {:induction false} WritesAlone(w: World, s0: Sys, s: Sys, t: nat, first: Action, now: int, b: nat, op: Op, created: bool)
    requires t < |s.threads| && Quiet(s) && b < |s.bufs| && s.bufs[b].hold.Free? && !s.bufs[b].detached
    requires Reaches(w, s0, t, first, now, Busy(s, t, Ready(b, op, created)))
    ensures match Outcome1(w, s, b, op, now)
      case Rejected(_) => Reaches(w, s0, t, first, now, Busy(s, t, if created then Failed(b, s.bufs[b].name) else Idle))
      case Missed => Reaches(w, s0, t, first, now, Busy(s, t, Idle))
      case Changed(next, _) => exists s' ::
        && Reaches(w, s0, t, first, now, s') && Quiet(s')
        && s'.maps == s.maps && s'.scopes == s.scopes && s'.total == s.total + next.Bytes() - s.bufs[b].scope.Bytes()
        && s'.items == s.items + |next.items| - |s.bufs[b].scope.items|
        && s'.bufs == s.bufs[b := s.bufs[b].(scope := next)]
  {
    hide Execute, Reaches, Sum, Scope.Bytes;
    var s1 := Busy(s, t, Ready(b, op, created));
    var s2 := Do(w, s1, t, Continue(now));
    GoesOn(w, s0, t, first, now, s1);
    if Outcome1(w, s, b, op, now).Changed? {
      GoesOn(w, s0, t, first, now, s2);
      var s3 := Do(w, s2, t, Continue(now));
      assert s3.bufs == s.bufs[b := s.bufs[b].(scope := Outcome1(w, s, b, op, now).next)];
    } else {
      var left := if created && Outcome1(w, s, b, op, now).Rejected? then Failed(b, s.bufs[b].name) else Idle;
      assert s2.threads == s.threads[t := left];
      assert s2 == Busy(s, t, left);
    }
  }

  // The list outcome of a request, as the buffer call of the store has it.
  lemma {:induction false} CallIs(cfg: Config, st: StoreSpec.Store, n: string, op: Op, now: int)
    requires n in st.scopes
    ensures var (st', r) := StoreSpec.CallScope(cfg, st, n, op, now);
      && st'.scopes.Keys == st.scopes.Keys && st'.count == st.count
      && (forall k :: k in st.scopes && k != n ==> st'.scopes[k] == st.scopes[k])
      && match Execute(Env(cfg, cfg.MaxItemsFor(n), n), st.scopes[n].scope, op, now, st.total)
         case Changed(next, _) =>
           && r.Ok? && st'.scopes[n].scope == next && st'.total == st.total + next.Bytes() - st.scopes[n].scope.Bytes()
           && st'.items == st.items + |next.items| - |st.scopes[n].scope.items|
         case Missed => r.Ok? && st'.scopes[n] == st.scopes[n] && st'.total == st.total && st'.items == st.items
         case Rejected(_) => r.Err? && st'.scopes[n] == st.scopes[n] && st'.total == st.total && st'.items == st.items
  {
    hide Apply, Sum;
  }

  lemma {:induction false} Same(s: Sys, t: nat)
    requires t < |s.threads| && s.threads[t].Idle?
    ensures Busy(s, t, Idle) == s
  {
    assert s.threads[t := Idle] == s.threads;
  }

  /** A lone write to a scope that is there. */
  lemma {:induction false} WritesThere(w: World, s: Sys, st: StoreSpec.Store, t: nat, n: string, op: Op, now: int)
    requires Inv(w, s) && Quiet(s) && SameStore(s, st) && t < |s.threads| && n in s.maps
    ensures exists s' ::
      Becomes(w, s, t, Start(n, op), now, s') && SameStore(s', StoreSpec.CallScope(w.cfg, st, n, op, now).0)
  {
    hide Inv, Execute, Reaches, Becomes, Sum, Scope.Bytes, StoreSpec.CallScope;
    QuietMeans(w, s);
    CallIs(w.cfg, st, n, op, now);
    Same(s, t);
    Starts(w, s, t, Start(n, op), now);
    var b := s.maps[n];
    WritesAlone(w, s, s, t, Start(n, op), now, b, op, false);
    if Outcome1(w, s, b, op, now).Changed? {
      var s' :| Reaches(w, s, t, Start(n, op), now, s') && Quiet(s')
        && s'.maps == s.maps && s'.scopes == s.scopes && s'.total == s.total + Outcome1(w, s, b, op, now).next.Bytes() - s.bufs[b].scope.Bytes()
        && s'.items == s.items + |Outcome1(w, s, b, op, now).next.items| - |s.bufs[b].scope.items|
        && s'.bufs == s.bufs[b := s.bufs[b].(scope := Outcome1(w, s, b, op, now).next)];
      Arrives(w, s, t, Start(n, op), now, s');
      OneMoved(s, st, n, s', StoreSpec.CallScope(w.cfg, st, n, op, now).0);
    } else {
      Arrives(w, s, t, Start(n, op), now, s);
      NoneMoved(s, st, n, StoreSpec.CallScope(w.cfg, st, n, op, now).0);
    }
  }

  lemma {:induction false} OneMoved(s: Sys, st: StoreSpec.Store, n: string, s': Sys, st': StoreSpec.Store)
    requires SameStore(s, st) && n in s.maps && s'.maps == s.maps && s'.scopes == s.scopes && st'.count == st.count
    requires forall k :: k in s.maps ==> s.bufs[s.maps[k]].name == k
    requires st'.scopes.Keys == st.scopes.Keys && forall k :: k in st.scopes && k != n ==> st'.scopes[k] == st.scopes[k]
    requires s'.bufs == s.bufs[s.maps[n] := s.bufs[s.maps[n]].(scope := st'.scopes[n].scope)]
    requires s'.total == st'.total && s'.items == st'.items
    ensures SameStore(s', st')
  {
    forall k | k in s'.maps ensures s'.maps[k] < |s'.bufs| && s'.bufs[s'.maps[k]].scope == st'.scopes[k].scope {
      if k != n { assert s.maps[k] != s.maps[n]; }
    }
  }

  lemma {:induction false} NoneMoved(s: Sys, st: StoreSpec.Store, n: string, st': StoreSpec.Store)
    requires SameStore(s, st) && n in s.maps && st'.count == st.count && st'.total == st.total && st'.items == st.items
    requires st'.scopes.Keys == st.scopes.Keys && forall k :: k in st.scopes ==> st'.scopes[k] == st.scopes[k]
    ensures SameStore(s, st')
  {
  }

  // ---- on a scope that is not there ----

  // The state once the empty scope is made and counted, nobody at work.
  function WithEmpty(s: Sys, n: string): Sys {
    s.(bufs := s.bufs + [NewBuf(n, EMPTY_SCOPE)], maps := s.maps[n := |s.bufs|], total := s.total + SCOPE_OVERHEAD, scopes := s.scopes + 1)
  }

  lemma {:induction false} MakesAlone(w: World, s: Sys, t: nat, n: string, op: Op, now: int)
    requires Inv(w, s) && Quiet(s) && t < |s.threads| && n !in s.maps && Creates(op)
    ensures if Admits(s.total, w.cfg.maxStoreBytes, SCOPE_OVERHEAD)
            then Reaches(w, s, t, Start(n, op), now, Busy(WithEmpty(s, n), t, Ready(|s.bufs|, op, true)))
            else Reaches(w, s, t, Start(n, op), now, s)
  {
    hide Inv, Reaches, Sum;
    QuietMeans(w, s);
    Starts(w, s, t, Start(n, op), now);
    var s1 := Busy(s, t, Missing(n, op));
    OthersFree(w, s, t, Missing(n, op));
    GoesOn(w, s, t, Start(n, op), now, s1);
    var s2 := Do(w, s1, t, Continue(now));
    if Admits(s.total, w.cfg.maxStoreBytes, SCOPE_OVERHEAD) {
      GoesOn(w, s, t, Start(n, op), now, s2);
      assert Do(w, s2, t, Continue(now)).threads == s.threads[t := Ready(|s.bufs|, op, true)];
      assert Do(w, s2, t, Continue(now)) == Busy(WithEmpty(s, n), t, Ready(|s.bufs|, op, true));
    } else {
      assert s2.threads == s.threads[t := Idle];
      Same(s, t);
    }
  }

  // A thread that holds no shard leaves all of them free.
  lemma {:induction false} OthersFree(w: World, s: Sys, t: nat, pc: Pc)
    requires Quiet(s) && t < |s.threads| && (pc.Missing? || pc.Failed?)
    ensures forall k :: ShardFree(w, Busy(s, t, pc), k)
  {
  }

  lemma {:induction false} EmptySame(w: World, s: Sys, st: StoreSpec.Store, n: string, now: int)
    requires Inv(w, s) && SameStore(s, st) && n !in s.maps
    ensures SameStore(WithEmpty(s, n), StoreSpec.CreateScope(st, n, now))
    ensures forall k :: k in WithEmpty(s, n).maps ==> WithEmpty(s, n).maps[k] < |WithEmpty(s, n).bufs| && WithEmpty(s, n).bufs[WithEmpty(s, n).maps[k]].name == k
  {
    hide Accounted, Capped, PcOk, Exclusive, BufOk;
  }

  // A lone write that is refused takes back the scope it made.
  lemma {:induction false} UndoesAlone(w: World, s: Sys, t: nat, first: Action, now: int, n: string)
    requires Inv(w, s) && Quiet(s) && t < |s.threads| && n !in s.maps && w.shardOf(n) < SHARDS
    requires Reaches(w, s, t, first, now, Busy(WithEmpty(s, n), t, Failed(|s.bufs|, n)))
    ensures exists s' ::
      && Becomes(w, s, t, first, now, s') && s'.maps == s.maps && s'.total == s.total && s'.items == s.items && s'.scopes == s.scopes
      && |s'.bufs| == |s.bufs| + 1 && s'.bufs[..|s.bufs|] == s.bufs
  {
    hide Inv, Reaches, Becomes, Sum;
    var base, b := WithEmpty(s, n), |s.bufs|;
    var s1 := Busy(base, t, Failed(b, n));
    OthersFree(w, base, t, Failed(b, n));
    GoesOn(w, s, t, first, now, s1);
    var s2 := Do(w, s1, t, Continue(now));
    assert s2 == Busy(base, t, RollingBack(b, n)) by { assert s2.threads == base.threads[t := RollingBack(b, n)]; }
    GoesOn(w, s, t, first, now, s2);
    var s3 := Do(w, s2, t, Continue(now));
    EmptyWeight();
    assert s3.maps == s.maps;
    Arrives(w, s, t, first, now, s3);
  }

  lemma {:induction false} EmptyWeight()
    ensures EMPTY_SCOPE.Bytes() == 0
  {
  }

  // The scope is made and the write accepted.
  lemma {:induction false} LandsNew(w: World, s: Sys, st: StoreSpec.Store, t: nat, n: string, op: Op, now: int)
    requires Inv(w, s) && Quiet(s) && SameStore(s, st) && t < |s.threads| && n !in s.maps && Creates(op)
    requires Admits(s.total, w.cfg.maxStoreBytes, SCOPE_OVERHEAD)
    requires Outcome1(w, WithEmpty(s, n), |s.bufs|, op, now).Changed?
    ensures exists s' ::
      Becomes(w, s, t, Start(n, op), now, s') && SameStore(s', StoreSpec.CallScope(w.cfg, StoreSpec.CreateScope(st, n, now), n, op, now).0)
  {
    hide Inv, Execute, Reaches, Becomes, Sum, Scope.Bytes, StoreSpec.CallScope;
    var first, base, b, st0 := Start(n, op), WithEmpty(s, n), |s.bufs|, StoreSpec.CreateScope(st, n, now);
    MakesAlone(w, s, t, n, op, now);
    EmptySame(w, s, st, n, now);
    CallIs(w.cfg, st0, n, op, now);
    WritesAlone(w, s, base, t, first, now, b, op, true);
    var s' :| Reaches(w, s, t, first, now, s') && Quiet(s')
      && s'.maps == base.maps && s'.scopes == base.scopes
      && s'.total == base.total + Outcome1(w, base, b, op, now).next.Bytes() - base.bufs[b].scope.Bytes()
      && s'.items == base.items + |Outcome1(w, base, b, op, now).next.items| - |base.bufs[b].scope.items|
      && s'.bufs == base.bufs[b := base.bufs[b].(scope := Outcome1(w, base, b, op, now).next)];
    Arrives(w, s, t, first, now, s');
    OneMoved(base, st0, n, s', StoreSpec.CallScope(w.cfg, st0, n, op, now).0);
  }

  // The scope is made, the write refused, and the scope taken back.
  lemma {:induction false} UndoneNew(w: World, s: Sys, st: StoreSpec.Store, t: nat, n: string, op: Op, now: int)
    requires Inv(w, s) && Quiet(s) && SameStore(s, st) && t < |s.threads| && n !in s.maps && Creates(op)
    requires Admits(s.total, w.cfg.maxStoreBytes, SCOPE_OVERHEAD)
    requires !Outcome1(w, WithEmpty(s, n), |s.bufs|, op, now).Changed?
    ensures exists s' :: Becomes(w, s, t, Start(n, op), now, s') && SameStore(s', st)
    ensures Execute(EnvOn(w, n), EMPTY_SCOPE, op, now, st.total + SCOPE_OVERHEAD).Rejected?
  {
    hide Inv, Execute, Reaches, Becomes, Sum, Scope.Bytes;
    var first, base := Start(n, op), WithEmpty(s, n);
    MakesAlone(w, s, t, n, op, now);
    WritesAlone(w, s, base, t, first, now, |s.bufs|, op, true);
    CreatorsNeverMiss(EnvOn(w, n), EMPTY_SCOPE, op, now, base.total);
    ShardInRange(w, s, n);
    UndoesAlone(w, s, t, first, now, n);
    var s' :| Becomes(w, s, t, first, now, s') && s'.maps == s.maps && s'.total == s.total && s'.items == s.items
      && s'.scopes == s.scopes && |s'.bufs| == |s.bufs| + 1 && s'.bufs[..|s.bufs|] == s.bufs;
    SameBufs(s, st, s', st);
  }

  // What the specification makes of such a write, stamps aside.
  lemma {:induction false} NewIs(w: World, st: StoreSpec.Store, r: StoreSpec.Request, now: int)
    requires r.scope !in st.scopes && StoreSpec.Accepts(w.cfg, r) && !r.DeleteScopeReq? && StoreSpec.CreatesScope(r)
    ensures var n, op, after := r.scope, StoreSpec.OpOf(w.cfg, r), StoreSpec.Write(w.cfg, st, r, now).0;
      if !Admits(st.total, w.cfg.maxStoreBytes, SCOPE_OVERHEAD) then after == st
      else match Execute(EnvOn(w, n), EMPTY_SCOPE, op, now, st.total + SCOPE_OVERHEAD)
        case Changed(_, _) => after == StoreSpec.CallScope(w.cfg, StoreSpec.CreateScope(st, n, now), n, op, now).0.(writeTS := after.writeTS)
        case Rejected(_) =>
          && after.scopes.Keys == st.scopes.Keys && (forall k :: k in st.scopes ==> after.scopes[k] == st.scopes[k])
          && after.total == st.total && after.items == st.items && after.count == st.count
        case Missed => true
  {
    hide Execute, StoreSpec.CallScope, StoreSpec.Accepts, StoreSpec.OpOf, Scope.Bytes, StoreSpec.Rollback;
    var n, op := r.scope, StoreSpec.OpOf(w.cfg, r);
    CallIs(w.cfg, StoreSpec.CreateScope(st, n, now), n, op, now);
    if Execute(EnvOn(w, n), EMPTY_SCOPE, op, now, st.total + SCOPE_OVERHEAD).Rejected? {
      RolledBack(w, st, n, op, now);
    }
  }

  // The rollback of the specification leaves the store it found.
  lemma {:induction false} RolledBack(w: World, st: StoreSpec.Store, n: string, op: Op, now: int)
    requires n !in st.scopes && Execute(EnvOn(w, n), EMPTY_SCOPE, op, now, st.total + SCOPE_OVERHEAD).Rejected?
    ensures var (st', r) := StoreSpec.CallScope(w.cfg, StoreSpec.CreateScope(st, n, now), n, op, now);
      r.Err? && n in st'.scopes && var back := StoreSpec.Rollback(st', n);
      && back.scopes.Keys == st.scopes.Keys && (forall k :: k in st.scopes ==> back.scopes[k] == st.scopes[k])
      && back.total == st.total && back.items == st.items && back.count == st.count
  {
    hide Execute, StoreSpec.CallScope, Scope.Bytes;
    CallIs(w.cfg, StoreSpec.CreateScope(st, n, now), n, op, now);
  }

  /** A lone write to a scope that is not there. */
  lemma {:induction false} WritesNew(w: World, s: Sys, st: StoreSpec.Store, t: nat, r: StoreSpec.Request, now: int)
    requires Inv(w, s) && Quiet(s) && SameStore(s, st) && t < |s.threads| && r.scope !in s.maps
    requires StoreSpec.Accepts(w.cfg, r) && !r.DeleteScopeReq? && Creates(StoreSpec.OpOf(w.cfg, r)) && StoreSpec.CreatesScope(r)
    ensures exists s' ::
      Becomes(w, s, t, Start(r.scope, StoreSpec.OpOf(w.cfg, r)), now, s') && SameStore(s', StoreSpec.Write(w.cfg, st, r, now).0)
  {
    hide Inv, Execute, Reaches, Becomes, Sum, Scope.Bytes, Quiet, Creates;
    hide StoreSpec.CallScope, StoreSpec.Accepts, StoreSpec.OpOf, StoreSpec.Write, StoreSpec.CreatesScope;
    var n, op := r.scope, StoreSpec.OpOf(w.cfg, r);
    var first, st', st1 := Start(n, op), StoreSpec.Write(w.cfg, st, r, now).0, StoreSpec.CallScope(w.cfg, StoreSpec.CreateScope(st, n, now), n, op, now).0;
    NewIs(w, st, r, now);
    if !Admits(s.total, w.cfg.maxStoreBytes, SCOPE_OVERHEAD) {
      MakesAlone(w, s, t, n, op, now);
      Arrives(w, s, t, first, now, s);
    } else if Outcome1(w, WithEmpty(s, n), |s.bufs|, op, now).Changed? {
      LandsNew(w, s, st, t, n, op, now);
      var s' :| Becomes(w, s, t, first, now, s') && SameStore(s', st1);
      SameCounts(s', st1, st');
    } else {
      UndoneNew(w, s, st, t, n, op, now);
      var s' :| Becomes(w, s, t, first, now, s') && SameStore(s', st);
      SameAgain(s', st, st');
    }
  }

  lemma {:induction false} SameAgain(s: Sys, st: StoreSpec.Store, st': StoreSpec.Store)
    requires SameStore(s, st)
    requires st'.scopes.Keys == st.scopes.Keys && (forall k :: k in st.scopes ==> st'.scopes[k] == st.scopes[k])
    requires st'.total == st.total && st'.items == st.items && st'.count == st.count
    ensures SameStore(s, st')
  {
  }

  function EnvOn(w: World, n: string): Env { Env(w.cfg, w.cfg.MaxItemsFor(n), n) }

  lemma {:induction false} ShardInRange(w: World, s: Sys, n: string)
    requires Inv(w, s)
    ensures w.shardOf(n) < SHARDS
  {
    hide Accounted, Capped, PcOk, Exclusive, BufOk;
  }

  // Stamps are not compared.
  lemma {:induction false} SameCounts(s: Sys, a: StoreSpec.Store, b: StoreSpec.Store)
    requires SameStore(s, a) && b == a.(writeTS := b.writeTS)
    ensures SameStore(s, b)
  {
  }

  lemma {:induction false} SameBufs(s: Sys, st: StoreSpec.Store, s': Sys, st': StoreSpec.Store)
    requires SameStore(s, st) && s'.maps == s.maps && s'.total == s.total && s'.items == s.items && s'.scopes == s.scopes
    requires |s.bufs| <= |s'.bufs| && s'.bufs[..|s.bufs|] == s.bufs
    requires st'.scopes.Keys == st.scopes.Keys && (forall k :: k in st.scopes ==> st'.scopes[k] == st.scopes[k])
    requires st'.total == st.total && st'.items == st.items && st'.count == st.count
    ensures SameStore(s', st')
  {
    forall i | 0 <= i < |s.bufs| ensures s'.bufs[i] == s.bufs[i] { assert s'.bufs[..|s.bufs|][i] == s.bufs[i]; }
  }

  // ---- any single request ----

  function FirstStep(cfg: Config, r: StoreSpec.Request): Action {
    if r.DeleteScopeReq? then StartDelete(r.scope) else Start(r.scope, StoreSpec.OpOf(cfg, r))
  }

  lemma {:induction false} DropsAlone(w: World, s: Sys, st: StoreSpec.Store, t: nat, n: string, now: int)
    requires Inv(w, s) && Quiet(s) && SameStore(s, st) && t < |s.threads| && !IsReserved(n) && n in s.maps
    ensures exists s' :: Becomes(w, s, t, StartDelete(n), now, s') && SameStore(s', StoreSpec.DropScope(st, n, now))
  {
    hide Inv, Reaches, Becomes, Sum, Scope.Bytes;
    QuietMeans(w, s);
    Starts(w, s, t, StartDelete(n), now);
    var s1 := Busy(s, t, Deleting(n));
    GoesOn(w, s, t, StartDelete(n), now, s1);
    var s2 := Do(w, s1, t, Continue(now));
    Arrives(w, s, t, StartDelete(n), now, s2);
    var st' := StoreSpec.DropScope(st, n, now);
    forall k | k in s2.maps ensures s2.maps[k] < |s2.bufs| && s2.bufs[s2.maps[k]].scope == st'.scopes[k].scope {
      assert s.maps[k] != s.maps[n];
    }
  }

  lemma {:induction false} Creators(cfg: Config, r: StoreSpec.Request)
    requires !r.DeleteScopeReq?
    ensures Creates(StoreSpec.OpOf(cfg, r)) <==> StoreSpec.CreatesScope(r)
  {
  }

  // What finds no scope, and makes none, is over at once.
  lemma {:induction false} MissesAlone(w: World, s: Sys, t: nat, first: Action, now: int)
    requires Inv(w, s) && Quiet(s) && t < |s.threads|
    requires
      || (first.Start? && first.name !in s.maps && !Creates(first.op))
      || (first.StartDelete? && first.name !in s.maps && !IsReserved(first.name))
    ensures Becomes(w, s, t, first, now, s)
  {
    hide Inv, Reaches, Becomes, Sum;
    QuietMeans(w, s);
    Starts(w, s, t, first, now);
    Arrives(w, s, t, first, now, s);
  }

  /**
    From any quiet state that invariant and interleavings allow, a validated request that
    runs alone ends in a quiet state with exactly the scopes, bytes, items and scope count
    that the store specification gives it.
   */
  lemma {:induction false} SoloWrite(w: World, s: Sys, st: StoreSpec.Store, t: nat, r: StoreSpec.Request, now: int)
    requires Inv(w, s) && Quiet(s) && SameStore(s, st) && t < |s.threads| && StoreSpec.Accepts(w.cfg, r)
    ensures exists s' :: Becomes(w, s, t, FirstStep(w.cfg, r), now, s') && SameStore(s', StoreSpec.Write(w.cfg, st, r, now).0)
  {
    hide Inv, Becomes, Quiet, SameStore, Creates, StoreSpec.OpOf, StoreSpec.CallScope, StoreSpec.CreatesScope, StoreSpec.DropScope;
    NamesAgree(s, st, r.scope);
    if r.DeleteScopeReq? {
      Deletable(w.cfg, r);
      if r.scope in s.maps {
        DropsAlone(w, s, st, t, r.scope, now);
        assert StoreSpec.Write(w.cfg, st, r, now).0 == StoreSpec.DropScope(st, r.scope, now);
      } else {
        MissesAlone(w, s, t, StartDelete(r.scope), now);
        assert StoreSpec.Write(w.cfg, st, r, now).0 == st;
        assert Becomes(w, s, t, FirstStep(w.cfg, r), now, s);
      }
    } else {
      hide StoreSpec.Accepts;
      var op := StoreSpec.OpOf(w.cfg, r);
      Creators(w.cfg, r);
      if r.scope in s.maps {
        WritesThere(w, s, st, t, r.scope, op, now);
        assert StoreSpec.Write(w.cfg, st, r, now).0 == StoreSpec.CallScope(w.cfg, st, r.scope, op, now).0;
      } else if Creates(op) {
        WritesNew(w, s, st, t, r, now);
      } else {
        MissesAlone(w, s, t, Start(r.scope, op), now);
        assert StoreSpec.Write(w.cfg, st, r, now).0 == st;
        assert Becomes(w, s, t, FirstStep(w.cfg, r), now, s);
      }
    }
  }

  lemma {:induction false} Deletable(cfg: Config, r: StoreSpec.Request)
    requires StoreSpec.Accepts(cfg, r) && r.DeleteScopeReq?
    ensures !IsReserved(r.scope)
  {
  }

  lemma {:induction false} NamesAgree(s: Sys, st: StoreSpec.Store, n: string)
    requires SameStore(s, st)
    ensures n in s.maps <==> n in st.scopes
  {
  }
}
