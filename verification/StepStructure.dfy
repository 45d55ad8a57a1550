/** Locks, maps, pointers and detachment: the structural half of the step invariant. */
module StepStructure {
  import opened Types
  import opened Sums
  import opened ScopeSpec
  import opened Steps

  ghost predicate OneThread(s: Sys, s': Sys, t: nat) {
    t < |s.threads| == |s'.threads| && s'.threads == s.threads[t := s'.threads[t]]
  }

  // One name looks the same in both states to a thread that holds its shard.
  ghost predicate SameName(s: Sys, s': Sys, n: string) {
    && (n in s.maps <==> n in s'.maps)
    && (n in s.maps ==>
          && s'.maps[n] == s.maps[n] && s.maps[n] < |s.bufs| <= |s'.bufs|
          && s'.bufs[s.maps[n]].window == s.bufs[s.maps[n]].window)
  }

  // What a step of thread t may change under the feet of the others.
  ghost predicate Guarded(w: World, s: Sys, s': Sys, t: nat) {
    && OneThread(s, s', t)
    && |s.bufs| <= |s'.bufs|
    && (forall i :: 0 <= i < |s.bufs| ==> s'.bufs[i].name == s.bufs[i].name)
    && (forall i :: 0 <= i < |s.bufs| && s.bufs[i].hold.Held? && s.bufs[i].hold.owner != t ==>
          s'.bufs[i].hold == s.bufs[i].hold)
    && (forall n :: SameName(s, s', n) || Holds(w, s.threads[t], w.shardOf(n)))
  }

  // A thread only takes shard locks that nobody holds.
  ghost predicate Polite(w: World, s: Sys, s': Sys, t: nat) {
    && OneThread(s, s', t)
    && (forall k :: Holds(w, s'.threads[t], k) && !Holds(w, s.threads[t], k) ==> ShardFree(w, s, k))
  }

  lemma {:induction false} PlansKept(w: World, s: Sys, s': Sys, t: nat, u: nat, plans: seq<Plan>, cover: set<nat>)
    requires Structure(w, s) && Guarded(w, s, s', t) && u < |s.threads| && u != t
    requires forall k :: k in cover ==> Holds(w, s.threads[u], k)
    requires PlansOk(w, s.bufs, s.maps, plans, cover)
    ensures PlansOk(w, s'.bufs, s'.maps, plans, cover)
  {
    forall i | 0 <= i < |plans| ensures PlanOk(w, s'.bufs, s'.maps, plans[i], cover) {
      var n := plans[i].name;
      assert PlanOk(w, s.bufs, s.maps, plans[i], cover);
      assert Holds(w, s.threads[u], w.shardOf(n));
      assert !Holds(w, s.threads[t], w.shardOf(n));
      assert SameName(s, s', n);
    }
  }

  lemma {:induction false} OtherKept(w: World, s: Sys, s': Sys, t: nat, u: nat)
    requires Structure(w, s) && Guarded(w, s, s', t) && u < |s.threads| && u != t
    ensures PcOk(w, s'.bufs, s'.maps, u, s'.threads[u])
  {
    var pc := s.threads[u];
    assert PcOk(w, s.bufs, s.maps, u, pc);
    match pc
    case Inserting(name, _) =>
      assert Holds(w, pc, w.shardOf(name)) && SameName(s, s', name);
    case RollingBack(_, name) =>
      assert Holds(w, pc, w.shardOf(name)) && SameName(s, s', name);
    case Deleting(name) =>
      assert Holds(w, pc, w.shardOf(name)) && SameName(s, s', name);
    case Writing(b) =>
      assert s'.bufs[b].hold == s.bufs[b].hold;
    case WarmReading(plans, _, cover) => PlansKept(w, s, s', t, u, plans, cover);
    case WarmWriting(plans, _, cover) => PlansKept(w, s, s', t, u, plans, cover);
    case _ =>
  }

  lemma {:induction false} ExclusionKept(w: World, s: Sys, s': Sys, t: nat)
    requires Exclusive(w, s) && Polite(w, s, s', t)
    ensures Exclusive(w, s')
  {
    forall a, b, k | 0 <= a < |s'.threads| && 0 <= b < |s'.threads| && a != b && Holds(w, s'.threads[a], k)
      ensures !Holds(w, s'.threads[b], k)
    {
      if Holds(w, s'.threads[t], k) && !Holds(w, s.threads[t], k) { assert ShardFree(w, s, k); }
    }
  }

  /** Assemble the structure of the new state from the parts a step has to check. */
  lemma {:induction false} Assemble(w: World, s: Sys, s': Sys, t: nat)
    requires Structure(w, s) && Guarded(w, s, s', t) && Polite(w, s, s', t)
    requires MapsOk(s') && (forall i :: 0 <= i < |s'.bufs| ==> BufOk(s', i))
    requires PcOk(w, s'.bufs, s'.maps, t, s'.threads[t])
    ensures Structure(w, s')
  {
    forall u | 0 <= u < |s'.threads| ensures PcOk(w, s'.bufs, s'.maps, u, s'.threads[u]) {
      if u != t { OtherKept(w, s, s', t, u); }
    }
    ExclusionKept(w, s, s', t);
  }

  // A thread that moves without touching buffers or maps.
  lemma {:induction false} MoveOk(w: World, s: Sys, s': Sys, t: nat)
    requires Structure(w, s) && Polite(w, s, s', t) && s'.bufs == s.bufs && s'.maps == s.maps
    requires !s.threads[t].Writing? && !s.threads[t].ResetSweeping?
    requires PcOk(w, s.bufs, s.maps, t, s'.threads[t])
    ensures Structure(w, s')
  {
    forall i | 0 <= i < |s'.bufs| ensures BufOk(s', i) {
      assert BufOk(s, i);
      SweepKept(s, s', t);
    }
    assert Guarded(w, s, s', t) by {
      forall n ensures SameName(s, s', n) {}
    }
    Assemble(w, s, s', t);
  }

  lemma {:induction false} SweepKept(s: Sys, s': Sys, t: nat)
    requires OneThread(s, s', t)
    requires s.threads[t].ResetSweeping? ==> s'.threads[t].ResetSweeping?
    ensures Sweeping(s) ==> Sweeping(s')
  {
    if Sweeping(s) {
      var u :| 0 <= u < |s.threads| && s.threads[u].ResetSweeping?;
      assert s'.threads[u].ResetSweeping?;
    }
  }

  // ---- one lemma per step that changes buffers or maps ----

  lemma {:induction false} InsertOk(w: World, s: Sys, t: nat, name: string, op: Op)
    requires Structure(w, s) && t < |s.threads| && s.threads[t] == Inserting(name, op)
    ensures Structure(w, DoInsert(s, t, name, op))
  {
    var s' := DoInsert(s, t, name, op);
    assert PcOk(w, s.bufs, s.maps, t, s.threads[t]);
    forall i | 0 <= i < |s'.bufs| ensures BufOk(s', i) {
      if i < |s.bufs| { assert BufOk(s, i); SweepKept(s, s', t); }
    }
    forall n ensures SameName(s, s', n) || Holds(w, s.threads[t], w.shardOf(n)) {}
    Assemble(w, s, s', t);
  }

  // Taking or releasing the lock of one buffer.
  lemma {:induction false} HoldOk(w: World, s: Sys, s': Sys, t: nat, b: nat)
    requires Structure(w, s) && OneThread(s, s', t) && b < |s.bufs| == |s'.bufs| && s'.maps == s.maps
    requires s'.bufs == s.bufs[b := s.bufs[b].(scope := s'.bufs[b].scope, hold := s'.bufs[b].hold)]
    requires !s.threads[t].ResetSweeping? && forall k :: !Holds(w, s.threads[t], k) && !Holds(w, s'.threads[t], k)
    requires
      || (s.bufs[b].hold.Free? && !s.bufs[b].detached && !s.threads[t].Writing?
          && s'.threads[t] == Writing(b) && s'.bufs[b].hold.Held? && s'.bufs[b].hold.owner == t)
      || (s.threads[t] == Writing(b) && s'.bufs[b].hold.Free? && s'.threads[t].Idle?)
    ensures Structure(w, s')
  {
    assert PcOk(w, s.bufs, s.maps, t, s.threads[t]);
    assert BufOk(s, b);
    forall i | 0 <= i < |s'.bufs| ensures BufOk(s', i) {
      assert BufOk(s, i);
      SweepKept(s, s', t);
    }
    forall n ensures SameName(s, s', n) {}
    Assemble(w, s, s', t);
  }

  lemma {:induction false} UnlinkOk(w: World, s: Sys, t: nat, b: nat, name: string)
    requires Structure(w, s) && t < |s.threads| && name in s.maps && s.maps[name] == b && b < |s.bufs|
    requires s.bufs[b].hold.Free? && (s.threads[t].RollingBack? || s.threads[t].Deleting?)
    requires Holds(w, s.threads[t], w.shardOf(name))
    ensures Structure(w, Unlink(s, t, b, name))
  {
    var s' := Unlink(s, t, b, name);
    assert BufOk(s, b);
    forall i | 0 <= i < |s'.bufs| ensures BufOk(s', i) {
      assert BufOk(s, i);
      SweepKept(s, s', t);
    }
    forall n ensures SameName(s, s', n) || Holds(w, s.threads[t], w.shardOf(n)) {}
    Assemble(w, s, s', t);
  }

  // The plans a /warm holds stay good while it works under its own shard locks.
  lemma {:induction false} ReadPlans(w: World, s: Sys, t: nat, plans: seq<Plan>, rest: Batch, cover: set<nat>)
    requires t < |s.threads| && rest != [] && MapsOk(s)
    requires PcOk(w, s.bufs, s.maps, t, WarmReading(plans, rest, cover))
    ensures var s' := DoWarmRead(s, t, plans, rest, cover); PcOk(w, s'.bufs, s'.maps, t, s'.threads[t])
  {
    var s' := DoWarmRead(s, t, plans, rest, cover);
    var name := rest[0].0;
    assert w.shardOf(name) in Cover(w, rest);
    var plans' := s'.threads[t].plans;
    forall i | 0 <= i < |plans'| ensures PlanOk(w, s'.bufs, s'.maps, plans'[i], cover) {
      if i < |plans| {
        assert PlanOk(w, s.bufs, s.maps, plans[i], cover) && plans[i].name != name;
      }
    }
    assert Cover(w, rest[1..]) <= cover by {
      forall c | c in Cover(w, rest[1..]) ensures c in Cover(w, rest) {
        var i :| 0 <= i < |rest[1..]| && c == w.shardOf(rest[1..][i].0);
        assert rest[i + 1] == rest[1..][i];
      }
    }
  }

  lemma {:induction false} WarmReadOk(w: World, s: Sys, t: nat, plans: seq<Plan>, rest: Batch, cover: set<nat>)
    requires Structure(w, s) && t < |s.threads| && s.threads[t] == WarmReading(plans, rest, cover) && rest != []
    requires MapsOk(s)
    ensures Structure(w, DoWarmRead(s, t, plans, rest, cover))
  {
    hide PlansOk;
    var s' := DoWarmRead(s, t, plans, rest, cover);
    var name := rest[0].0;
    assert PcOk(w, s.bufs, s.maps, t, s.threads[t]);
    assert w.shardOf(name) in Cover(w, rest);
    forall i | 0 <= i < |s'.bufs| ensures BufOk(s', i) {
      assert BufOk(s, i);
      SweepKept(s, s', t);
    }
    forall n ensures SameName(s, s', n) || Holds(w, s.threads[t], w.shardOf(n)) {
      if n in s.maps && name in s.maps && s.maps[n] == s.maps[name] { assert n == name; }
    }
    ReadPlans(w, s, t, plans, rest, cover);
    Assemble(w, s, s', t);
  }

  lemma {:induction false} WarmRefusedOk(w: World, s: Sys, t: nat, plans: seq<Plan>, cover: set<nat>)
    requires Structure(w, s) && t < |s.threads| && s.threads[t] == WarmReading(plans, [], cover)
    ensures Structure(w, At(s, t, Idle).(bufs := CloseWindows(w, s.bufs, cover)))
  {
    var s' := At(s, t, Idle).(bufs := CloseWindows(w, s.bufs, cover));
    forall i | 0 <= i < |s'.bufs| ensures BufOk(s', i) {
      assert BufOk(s, i);
      SweepKept(s, s', t);
    }
    forall n ensures SameName(s, s', n) || Holds(w, s.threads[t], w.shardOf(n)) {}
    Assemble(w, s, s', t);
  }

  lemma {:induction false} CommitPlans(w: World, s: Sys, t: nat, plans: seq<Plan>, added: nat, cover: set<nat>)
    requires t < |s.threads| && plans != [] && MapsOk(s)
    requires PcOk(w, s.bufs, s.maps, t, WarmWriting(plans, added, cover))
    ensures var s' := DoWarmCommit(s, t, plans, added, cover); PcOk(w, s'.bufs, s'.maps, t, s'.threads[t])
  {
    var s' := DoWarmCommit(s, t, plans, added, cover);
    forall i | 0 <= i < |plans[1..]| ensures PlanOk(w, s'.bufs, s'.maps, plans[1..][i], cover) {
      assert plans[1..][i] == plans[i + 1];
      assert PlanOk(w, s.bufs, s.maps, plans[i + 1], cover) && plans[i + 1].name != plans[0].name;
    }
  }

  // A commit touches one name, whose shard it holds.
  lemma {:induction false} CommitNames(w: World, s: Sys, t: nat, plans: seq<Plan>, added: nat, cover: set<nat>, n: string)
    requires t < |s.threads| && plans != [] && MapsOk(s)
    requires w.shardOf(plans[0].name) in cover && s.threads[t] == WarmWriting(plans, added, cover)
    ensures SameName(s, DoWarmCommit(s, t, plans, added, cover), n) || Holds(w, s.threads[t], w.shardOf(n))
  {
    if n in s.maps && plans[0].name in s.maps && s.maps[n] == s.maps[plans[0].name] { assert n == plans[0].name; }
  }

  lemma {:induction false} CommitBuf(s: Sys, t: nat, plans: seq<Plan>, added: nat, cover: set<nat>, i: nat)
    requires t < |s.threads| && plans != [] && MapsOk(s) && s.threads[t].WarmWriting?
    requires i < |s.bufs| ==> BufOk(s, i)
    requires i < |DoWarmCommit(s, t, plans, added, cover).bufs|
    ensures BufOk(DoWarmCommit(s, t, plans, added, cover), i)
  {
    if i < |s.bufs| { SweepKept(s, DoWarmCommit(s, t, plans, added, cover), t); }
  }

  lemma {:induction false} WarmCommitOk(w: World, s: Sys, t: nat, plans: seq<Plan>, added: nat, cover: set<nat>)
    requires Structure(w, s) && t < |s.threads| && s.threads[t] == WarmWriting(plans, added, cover) && plans != []
    requires Unheld(s, plans[0].name)
    ensures Structure(w, DoWarmCommit(s, t, plans, added, cover))
  {
    hide BufOk, SameName;
    var s' := DoWarmCommit(s, t, plans, added, cover);
    assert PcOk(w, s.bufs, s.maps, t, s.threads[t]);
    assert PlanOk(w, s.bufs, s.maps, plans[0], cover);
    CommitPlans(w, s, t, plans, added, cover);
    hide PlansOk;
    forall i | 0 <= i < |s'.bufs| ensures BufOk(s', i) { CommitBuf(s, t, plans, added, cover, i); }
    forall n ensures SameName(s, s', n) || Holds(w, s.threads[t], w.shardOf(n)) {
      CommitNames(w, s, t, plans, added, cover, n);
    }
    Assemble(w, s, s', t);
  }

  lemma {:induction false} SweepOk(w: World, s: Sys, t: nat, b: nat)
    requires Structure(w, s) && t < |s.threads| && s.threads[t].ResetSweeping?
    requires b < |s.bufs| && s.bufs[b].linked && s.bufs[b].hold.Free?
    ensures Structure(w, DoSweep(s, b))
  {
    var s' := DoSweep(s, b);
    assert PcOk(w, s.bufs, s.maps, t, s.threads[t]);
    assert s'.threads[t].ResetSweeping?;
    forall i | 0 <= i < |s'.bufs| ensures BufOk(s', i) {
      assert BufOk(s, i);
    }
    forall n ensures SameName(s, s', n) {}
    Assemble(w, s, s', t);
  }

  // Whoever owes something to a counter, or sweeps, holds a shard lock.
  lemma {:induction false} DebtorsHold(w: World, s: Sys, u: nat)
    requires Structure(w, s) && u < |s.threads|
    ensures Pending(s.threads[u]) != 0 || Uncounted(s.threads[u]) != 0 || s.threads[u].ResetSweeping? ==>
              exists k: nat :: k < SHARDS && Holds(w, s.threads[u], k)
  {
    assert PcOk(w, s.bufs, s.maps, u, s.threads[u]);
    match s.threads[u]
    case ResetSweeping(_) => assert Holds(w, s.threads[u], 0);
    case Inserting(name, _) => assert Holds(w, s.threads[u], w.shardOf(name));
    case WarmWriting(plans, added, cover) =>
      if plans != [] {
        assert PlanOk(w, s.bufs, s.maps, plans[0], cover);
        assert Holds(w, s.threads[u], w.shardOf(plans[0].name));
      } else if cover != {} {
        var c :| c in cover;
        assert Holds(w, s.threads[u], c);
      }
    case _ =>
  }

  // While a thread sweeps, no other thread holds any shard, and none owes anything.
  lemma {:induction false} SweeperAlone(w: World, s: Sys, t: nat, u: nat)
    requires Structure(w, s) && t < |s.threads| && s.threads[t].ResetSweeping?
    requires u < |s.threads| && u != t
    ensures Pending(s.threads[u]) == 0 && Uncounted(s.threads[u]) == 0 && !s.threads[u].ResetSweeping?
  {
    forall k | 0 <= k < SHARDS ensures !Holds(w, s.threads[u], k) {
      assert Holds(w, s.threads[t], k);
    }
    DebtorsHold(w, s, u);
  }

  lemma {:induction false} WholeDistinct(batch: Batch, base: nat)
    requires DistinctNames(batch)
    ensures forall i, j :: 0 <= i < j < |Whole(batch)| ==> Whole(batch)[i].0 != Whole(batch)[j].0
    ensures forall i :: 0 <= i < |Whole(batch)| ==> NewMaps(Whole(batch), base)[Whole(batch)[i].0] == base + i
  {
    var whole := Whole(batch);
    forall i, j | 0 <= i < j < |whole| ensures whole[i].0 != whole[j].0 {
      if i < |batch| { assert whole[i] == batch[i] && !IsReserved(batch[i].0); }
      if j < |batch| { assert whole[j] == batch[j]; }
    }
  }

  // Once everything linked is detached, nothing is held and nothing old survives.
  lemma {:induction false} AllSwept(w: World, s: Sys)
    requires Structure(w, s)
    requires forall i :: 0 <= i < |s.bufs| && s.bufs[i].linked ==> s.bufs[i].detached
    ensures forall i :: 0 <= i < |s.bufs| ==> s.bufs[i].detached && s.bufs[i].hold.Free?
  {
    forall i | 0 <= i < |s.bufs| ensures s.bufs[i].detached && s.bufs[i].hold.Free? {
      assert BufOk(s, i);
    }
  }

  lemma {:induction false} JoinedAt<T>(xs: seq<T>, ys: seq<T>, i: nat)
    requires i < |xs| + |ys|
    ensures (xs + ys)[i] == if i < |xs| then xs[i] else ys[i - |xs|]
  {
  }

  // The buffer at each position after the swap.
  lemma {:induction false} SwappedAt(s: Sys, t: nat, batch: Batch, i: nat)
    requires t < |s.threads| && i < |s.bufs| + |batch| + 2
    ensures var s' := DoSwap(s, t, batch);
      && |s'.bufs| == |s.bufs| + |batch| + 2
      && s'.bufs[i] == if i < |s.bufs| then s.bufs[i].(linked := false, window := None)
                       else NewBuf(Whole(batch)[i - |s.bufs|].0, Whole(batch)[i - |s.bufs|].1)
  {
    hide NewMaps, Sum, Unlinked, NewBufs;
    var whole := Whole(batch);
    assert |whole| == |batch| + 2;
    hide Whole;
    JoinedAt(Unlinked(s.bufs), NewBufs(whole), i);
    assert DoSwap(s, t, batch).bufs == Unlinked(s.bufs) + NewBufs(whole);
  }

  lemma {:induction false} SwapMapsOk(s: Sys, t: nat, batch: Batch)
    requires t < |s.threads|
    ensures MapsOk(DoSwap(s, t, batch))
  {
    hide NewMaps, Sum, Unlinked, NewBufs;
    var s' := DoSwap(s, t, batch);
    assert s'.maps == NewMaps(Whole(batch), |s.bufs|);
    hide DoSwap;
    forall n | n in s'.maps ensures s'.maps[n] < |s'.bufs| && s'.bufs[s'.maps[n]].name == n {
      SwappedAt(s, t, batch, s'.maps[n]);
    }
  }

  lemma {:induction false} SwapBufOk(s: Sys, t: nat, batch: Batch, i: nat)
    requires t < |s.threads| && DistinctNames(batch)
    requires forall k :: 0 <= k < |s.bufs| ==> s.bufs[k].detached && s.bufs[k].hold.Free?
    requires i < |DoSwap(s, t, batch).bufs|
    ensures BufOk(DoSwap(s, t, batch), i)
  {
    hide NewMaps, Sum, Unlinked, NewBufs;
    var s' := DoSwap(s, t, batch);
    assert s'.maps == NewMaps(Whole(batch), |s.bufs|) && |s'.bufs| == |s.bufs| + |batch| + 2;
    hide DoSwap;
    WholeDistinct(batch, |s.bufs|);
    SwappedAt(s, t, batch, i);
    if i >= |s.bufs| {
      var name := Whole(batch)[i - |s.bufs|].0;
      assert s'.maps[name] == i;
    }
  }

  lemma {:induction false} SwapBufsOk(s: Sys, t: nat, batch: Batch)
    requires t < |s.threads| && DistinctNames(batch)
    requires forall i :: 0 <= i < |s.bufs| ==> s.bufs[i].detached && s.bufs[i].hold.Free?
    ensures var s' := DoSwap(s, t, batch);
            MapsOk(s') && forall i :: 0 <= i < |s'.bufs| ==> BufOk(s', i)
  {
    hide BufOk, MapsOk, DoSwap;
    SwapMapsOk(s, t, batch);
    forall i: nat | i < |DoSwap(s, t, batch).bufs| ensures BufOk(DoSwap(s, t, batch), i) {
      SwapBufOk(s, t, batch, i);
    }
  }

  lemma {:induction false} SwapGuarded(w: World, s: Sys, t: nat, batch: Batch)
    requires t < |s.threads| && s.threads[t] == ResetSweeping(batch)
    requires forall n :: w.shardOf(n) < SHARDS
    requires forall i :: 0 <= i < |s.bufs| ==> s.bufs[i].hold.Free?
    ensures Guarded(w, s, DoSwap(s, t, batch), t) && Polite(w, s, DoSwap(s, t, batch), t)
  {
    hide NewMaps, Sum, SameName, ShardFree;
    var s' := DoSwap(s, t, batch);
    forall i | 0 <= i < |s.bufs| ensures s'.bufs[i].name == s.bufs[i].name {
      assert s'.bufs[i] == Unlinked(s.bufs)[i];
    }
    forall n ensures Holds(w, s.threads[t], w.shardOf(n)) {}
  }

  lemma {:induction false} SwapOk(w: World, s: Sys, t: nat, batch: Batch)
    requires Structure(w, s) && t < |s.threads| && s.threads[t] == ResetSweeping(batch)
    requires forall i :: 0 <= i < |s.bufs| && s.bufs[i].linked ==> s.bufs[i].detached
    ensures Structure(w, DoSwap(s, t, batch))
  {
    hide BufOk, MapsOk, Guarded, Polite, NewMaps, NewBufs, Unlinked, Sum, Whole, Exclusive, Holds;
    assert PcOk(w, s.bufs, s.maps, t, s.threads[t]);
    AllSwept(w, s);
    SwapBufsOk(s, t, batch);
    SwapGuarded(w, s, t, batch);
    Assemble(w, s, DoSwap(s, t, batch), t);
  }
}
