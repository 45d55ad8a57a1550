/** What holds in every state any interleaving can reach, and what every step keeps. */
module StepSafety {
  import opened Types
  import opened Sums
  import opened ScopeSpec
  import opened Steps
  import opened StepStructure
  import opened StepAccounts

  // ---- the invariant ----

  lemma {:induction false} BootStructure(w: World, s: Sys)
    requires Boot(w, s)
    ensures Structure(w, s)
  {
    hide NewMaps;
    var whole := Whole([]);
    WholeDistinct([], 0);
    forall i | 0 <= i < |s.bufs| ensures BufOk(s, i) {
      assert s.bufs[i] == NewBuf(whole[i].0, whole[i].1);
      assert s.maps[whole[i].0] == 0 + i;
    }
  }

  lemma {:induction false} BootBooks(w: World, s: Sys)
    requires Boot(w, s)
    ensures Books(w, s)
  {
    assert EMPTY_SCOPE.Bytes() == 0;
    assert Sum<(string, Scope)>([], BatchCharge) == 0 && Sum<(string, Scope)>([], BatchItems) == 0;
    hide Sum;
    WholeSums([]);
    SumEq(s.bufs, Whole([]), Charge, BatchCharge);
    SumEq(s.bufs, Whole([]), ChargeItems, BatchItems);
    SumCount(s.bufs);
    SumZero(s.bufs, Credit);
    SumZero(s.threads, Pending);
    SumZero(s.threads, Uncounted);
  }

  lemma {:induction false} Parts(w: World, s: Sys, t: nat)
    requires Structure(w, s) && t < |s.threads|
    ensures MapsOk(s) && PcOk(w, s.bufs, s.maps, t, s.threads[t])
    ensures forall i :: 0 <= i < |s.bufs| ==> BufOk(s, i)
    ensures forall n :: w.shardOf(n) < SHARDS
  {
  }

  // Starting an operation.
  lemma {:induction false} StartKeeps(w: World, s: Sys, t: nat, a: Action)
    requires Inv(w, s) && Enabled(w, s, t, a) && !a.Continue? && !a.Sweep?
    ensures Inv(w, Do(w, s, t, a))
  {
    hide Structure, Accounted, Capped, Sum, Cover, Exclusive;
    Parts(w, s, t);
    MoveOk(w, s, Do(w, s, t, a), t);
    MoveBooks(w, s, Do(w, s, t, a), t);
  }

  // Steps that take a shard lock, or give one up, and touch nothing but the byte counter.
  lemma {:induction false} LockKeeps(w: World, s: Sys, t: nat, now: int)
    requires Inv(w, s) && Enabled(w, s, t, Continue(now))
    requires s.threads[t].Missing? || s.threads[t].Failed? || s.threads[t].WarmLocking? || s.threads[t].ResetLocking?
    ensures Inv(w, Do(w, s, t, Continue(now)))
  {
    hide Structure, Accounted, Capped, Sum, Exclusive;
    Parts(w, s, t);
    var s' := Do(w, s, t, Continue(now));
    MoveOk(w, s, s', t);
    if s.threads[t].Missing? {
      ReserveScopeBooks(w, s, t, s.threads[t].name, s.threads[t].op);
    } else {
      MoveBooks(w, s, s', t);
    }
  }

  // Steps of a writer that changes one buffer.
  lemma {:induction false} WriteKeeps(w: World, s: Sys, t: nat, now: int)
    requires Inv(w, s) && Enabled(w, s, t, Continue(now))
    requires s.threads[t].Inserting? || s.threads[t].Ready? || s.threads[t].Writing?
    ensures Inv(w, Do(w, s, t, Continue(now)))
  {
    hide Structure, Accounted, Capped, Sum, Execute;
    Parts(w, s, t);
    var s' := Do(w, s, t, Continue(now));
    match s.threads[t]
    case Inserting(name, op) =>
      InsertOk(w, s, t, name, op);
      InsertBooks(w, s, t, name, op);
    case Ready(b, op, created) =>
      ReserveBooks(w, s, t, b, op, created, now);
      if s'.threads[t].Writing? {
        HoldOk(w, s, s', t, b);
      } else {
        MoveOk(w, s, s', t);
      }
    case Writing(b) =>
      CommitBooks(w, s, t, b);
      HoldOk(w, s, s', t, b);
  }

  // Steps that take a scope out of the map, or find that they may not.
  lemma {:induction false} UnlinkKeeps(w: World, s: Sys, t: nat, now: int)
    requires Inv(w, s) && Enabled(w, s, t, Continue(now))
    requires s.threads[t].RollingBack? || s.threads[t].Deleting?
    ensures Inv(w, Do(w, s, t, Continue(now)))
  {
    hide Structure, Accounted, Capped, Sum;
    Parts(w, s, t);
    var s' := Do(w, s, t, Continue(now));
    var name := s.threads[t].name;
    var b := s.maps[name];
    assert BufOk(s, b);
    if s.threads[t].RollingBack? && s.bufs[b].scope.items != [] {
      MoveOk(w, s, s', t);
      MoveBooks(w, s, s', t);
    } else {
      UnlinkOk(w, s, t, b, name);
      UnlinkBooks(w, s, t, b, name);
    }
  }

  lemma {:induction false} WarmKeeps(w: World, s: Sys, t: nat, now: int)
    requires Inv(w, s) && Enabled(w, s, t, Continue(now))
    requires s.threads[t].WarmReading? || s.threads[t].WarmWriting?
    ensures Inv(w, Do(w, s, t, Continue(now)))
  {
    hide Structure, Accounted, Capped, Sum, Exclusive;
    Parts(w, s, t);
    var s' := Do(w, s, t, Continue(now));
    match s.threads[t]
    case WarmReading(plans, rest, cover) =>
      if rest != [] {
        WarmReadOk(w, s, t, plans, rest, cover);
        WarmReadBooks(w, s, t, plans, rest, cover);
      } else {
        WarmReserveBooks(w, s, t, plans, cover);
        WarmReserveOk(w, s, t, plans, cover);
      }
    case WarmWriting(plans, added, cover) =>
      if plans != [] {
        WarmCommitOk(w, s, t, plans, added, cover);
        WarmCommitBooks(w, s, t, plans, added, cover);
      } else {
        WarmFinishBooks(w, s, t, added, cover);
        MoveOk(w, s, s', t);
      }
  }

  lemma {:induction false} WarmReserveOk(w: World, s: Sys, t: nat, plans: seq<Plan>, cover: set<nat>)
    requires Structure(w, s) && t < |s.threads| && s.threads[t] == WarmReading(plans, [], cover)
    ensures Structure(w, DoWarmReserve(w, s, t, plans, cover))
  {
    hide Structure, Sum, Exclusive;
    Parts(w, s, t);
    if Admits(s.total, w.cfg.maxStoreBytes, Sum(plans, PlanDelta)) {
      MoveOk(w, s, DoWarmReserve(w, s, t, plans, cover), t);
    } else {
      WarmRefusedOk(w, s, t, plans, cover);
    }
  }

  lemma {:induction false} ResetKeeps(w: World, s: Sys, t: nat, a: Action)
    requires Inv(w, s) && Enabled(w, s, t, a) && s.threads[t].ResetSweeping?
    ensures Inv(w, Do(w, s, t, a))
  {
    hide Structure, Accounted, Capped, Sum, DoSwap;
    Parts(w, s, t);
    if a.Sweep? {
      SweepOk(w, s, t, a.b);
      SweepBooks(w, s, a.b);
    } else {
      SwapOk(w, s, t, s.threads[t].batch);
      SwapBooks(w, s, t, s.threads[t].batch);
    }
  }

  lemma {:induction false} StepKeeps(w: World, s: Sys, t: nat, a: Action)
    requires Inv(w, s) && Enabled(w, s, t, a)
    ensures Inv(w, Do(w, s, t, a))
  {
    hide Inv, Do;
    if s.threads[t].ResetSweeping? {
      ResetKeeps(w, s, t, a);
    } else if !a.Continue? {
      StartKeeps(w, s, t, a);
    } else {
      match s.threads[t]
      case Missing(_, _) => LockKeeps(w, s, t, a.now);
      case Failed(_, _) => LockKeeps(w, s, t, a.now);
      case WarmLocking(_, _) => LockKeeps(w, s, t, a.now);
      case ResetLocking(_, _) => LockKeeps(w, s, t, a.now);
      case RollingBack(_, _) => UnlinkKeeps(w, s, t, a.now);
      case Deleting(_) => UnlinkKeeps(w, s, t, a.now);
      case WarmReading(_, _, _) => WarmKeeps(w, s, t, a.now);
      case WarmWriting(_, _, _) => WarmKeeps(w, s, t, a.now);
      case Inserting(_, _) => WriteKeeps(w, s, t, a.now);
      case Ready(_, _, _) => WriteKeeps(w, s, t, a.now);
      case Writing(_) => WriteKeeps(w, s, t, a.now);
      case _ =>
    }
  }

  lemma {:induction false} RunKeeps(w: World, s: Sys, run: Schedule)
    requires Inv(w, s)
    ensures Exec(w, s, run).Some? ==> Inv(w, Exec(w, s, run).value)
    decreases |run|
  {
    hide Inv, Do, Enabled;
    if run != [] {
      var last := |run| - 1;
      RunKeeps(w, s, run[..last]);
      if Exec(w, s, run).Some? {
        StepKeeps(w, Exec(w, s, run[..last]).value, run[last].0, run[last].1);
      }
    }
  }

  lemma {:induction false} Reached(w: World, s: Sys)
    requires Reachable(w, s)
    ensures Inv(w, s)
  {
    hide Exec, Structure, Accounted, Capped;
    var start, run :| Boot(w, start) && Exec(w, start, run) == Some(s);
    BootStructure(w, start);
    BootBooks(w, start);
    RunKeeps(w, start, run);
  }
}
