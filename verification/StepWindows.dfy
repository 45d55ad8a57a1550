/** Which buffers have an open /warm window: the ones a running /warm has read and not yet committed. */
module StepWindows {
  import opened Types
  import opened Sums
  import opened ScopeSpec
  import opened Steps
  import opened StepStructure
  import opened StepSafety
  import opened StepTheorems

  ghost predicate Owns(pc: Pc, name: string) {
    (pc.WarmReading? || pc.WarmWriting?) && exists i :: 0 <= i < |pc.plans| && pc.plans[i].name == name
  }

  ghost predicate Owned(s: Sys, name: string) {
    exists t :: 0 <= t < |s.threads| && Owns(s.threads[t], name)
  }

  ghost predicate WindowOk(s: Sys, i: nat)
    requires i < |s.bufs|
  {
    s.bufs[i].window.Some? ==> s.bufs[i].linked && Owned(s, s.bufs[i].name)
  }

  ghost predicate WindowsOk(s: Sys) {
    forall i :: 0 <= i < |s.bufs| ==> WindowOk(s, i)
  }

  // An owner holds the shard of every name in its plans.
  lemma {:induction false} OwnerHolds(w: World, s: Sys, u: nat, name: string)
    requires Structure(w, s) && u < |s.threads| && Owns(s.threads[u], name)
    ensures Holds(w, s.threads[u], w.shardOf(name))
  {
    hide Exclusive, MapsOk, BufOk;
    assert PcOk(w, s.bufs, s.maps, u, s.threads[u]);
    var i :| 0 <= i < |s.threads[u].plans| && s.threads[u].plans[i].name == name;
    assert PlanOk(w, s.bufs, s.maps, s.threads[u].plans[i], s.threads[u].cover);
  }

  // A thread that is not in /warm leaves the owners alone.
  lemma {:induction false} OwnersStay(s: Sys, s': Sys, t: nat, name: string)
    requires OneThread(s, s', t) && Owned(s, name)
    requires Owns(s.threads[t], name) ==> Owns(s'.threads[t], name)
    ensures Owned(s', name)
  {
    hide Owns;
    var u :| 0 <= u < |s.threads| && Owns(s.threads[u], name);
    assert Owns(s'.threads[u], name);
  }

  lemma {:induction false} PlainWindows(w: World, s: Sys, t: nat, a: Action, i: nat)
    requires Inv(w, s) && WindowsOk(s) && Enabled(w, s, t, a)
    requires !s.threads[t].WarmReading? && !s.threads[t].WarmWriting? && !(s.threads[t].ResetSweeping? && a.Continue?)
    requires i < |Do(w, s, t, a).bufs|
    ensures WindowOk(Do(w, s, t, a), i)
  {
    hide Structure, Accounted, Capped, Sum, Execute, ShardFree, Owned;
    var s' := Do(w, s, t, a);
    if i < |s.bufs| && s.bufs[i].window.Some? {
      assert WindowOk(s, i);
      PlainOwners(w, s, t, a);
      OwnersStay(s, s', t, s.bufs[i].name);
      if s.threads[t].RollingBack? || s.threads[t].Deleting? {
        UnlinkNotOwned(w, s, t, i);
        UnlinkSpares(w, s, t, a, i);
      }
    }
  }

  lemma {:induction false} PlainOwners(w: World, s: Sys, t: nat, a: Action)
    requires Enabled(w, s, t, a)
    requires !s.threads[t].WarmReading? && !s.threads[t].WarmWriting? && !(s.threads[t].ResetSweeping? && a.Continue?)
    ensures OneThread(s, Do(w, s, t, a), t)
    ensures forall n :: !Owns(s.threads[t], n)
  {
    hide Execute, ShardFree, NewMaps, Sum;
  }

  // Unlinking one buffer leaves the others, and the names they have, as they were.
  lemma {:induction false} UnlinkSpares(w: World, s: Sys, t: nat, a: Action, i: nat)
    requires Structure(w, s) && Enabled(w, s, t, a) && i < |s.bufs|
    requires s.threads[t].RollingBack? || s.threads[t].Deleting?
    requires s.threads[t].name in s.maps && s.maps[s.threads[t].name] != i
    ensures var s' := Do(w, s, t, a);
      && s'.bufs[i] == s.bufs[i]
      && forall n :: n in s.maps && s.maps[n] == i ==> n in s'.maps && s'.maps[n] == i
  {
    hide Sum, BufOk, Exclusive;
    assert PcOk(w, s.bufs, s.maps, t, s.threads[t]);
  }

  lemma {:induction false} UnlinkNotOwned(w: World, s: Sys, t: nat, i: nat)
    requires Inv(w, s) && WindowsOk(s) && t < |s.threads| && i < |s.bufs| && s.bufs[i].window.Some?
    requires s.threads[t].RollingBack? || s.threads[t].Deleting?
    ensures s.threads[t].name in s.maps && s.maps[s.threads[t].name] != i
  {
    hide Accounted, Capped;
    var name := s.threads[t].name;
    assert PcOk(w, s.bufs, s.maps, t, s.threads[t]);
    assert WindowOk(s, i);
    var u :| 0 <= u < |s.threads| && Owns(s.threads[u], s.bufs[i].name);
    OwnerHolds(w, s, u, s.bufs[i].name);
    assert Holds(w, s.threads[t], w.shardOf(name));
  }

  lemma {:induction false} ReadWindows(w: World, s: Sys, t: nat, i: nat, now: int)
    requires Inv(w, s) && WindowsOk(s) && Enabled(w, s, t, Continue(now)) && s.threads[t].WarmReading?
    requires i < |Do(w, s, t, Continue(now)).bufs|
    ensures WindowOk(Do(w, s, t, Continue(now)), i)
  {
    hide Structure, Accounted, Capped, Sum;
    Parts(w, s, t);
    var s' := Do(w, s, t, Continue(now));
    var WarmReading(plans, rest, cover) := s.threads[t];
    assert WindowOk(s, i) && BufOk(s, i);
    var name := s.bufs[i].name;
    if rest != [] {
      var plans' := s'.threads[t].plans;
      assert forall j :: 0 <= j < |plans| ==> plans'[j] == plans[j];
      if name == rest[0].0 {
        assert plans'[|plans|].name == name;
        assert Owns(s'.threads[t], name);
      } else if s.bufs[i].window.Some? {
        OwnersStay(s, s', t, name);
      }
    } else if s'.bufs[i].window.Some? {
      if Owns(s.threads[t], name) { OwnerHolds(w, s, t, name); }
      OwnersStay(s, s', t, name);
    }
  }

  lemma {:induction false} CommitWindows(w: World, s: Sys, t: nat, i: nat, now: int)
    requires Inv(w, s) && WindowsOk(s) && Enabled(w, s, t, Continue(now)) && s.threads[t].WarmWriting?
    requires i < |Do(w, s, t, Continue(now)).bufs|
    ensures WindowOk(Do(w, s, t, Continue(now)), i)
  {
    hide Structure, Accounted, Capped, Sum, Owned;
    Parts(w, s, t);
    var s' := Do(w, s, t, Continue(now));
    var WarmWriting(plans, added, cover) := s.threads[t];
    if i < |s.bufs| && s'.bufs[i].window.Some? {
      assert WindowOk(s, i) && BufOk(s, i);
      var name := s.bufs[i].name;
      if Owns(s.threads[t], name) {
        var j :| 0 <= j < |plans| && plans[j].name == name;
        assert plans[1..][j - 1] == plans[j];
        assert Owns(s'.threads[t], name);
      }
      OwnersStay(s, s', t, name);
    }
  }

  lemma {:induction false} SwapWindows(w: World, s: Sys, t: nat, i: nat, now: int)
    requires Enabled(w, s, t, Continue(now)) && s.threads[t].ResetSweeping?
    requires i < |Do(w, s, t, Continue(now)).bufs|
    ensures WindowOk(Do(w, s, t, Continue(now)), i)
  {
    hide Sum, NewMaps, Unlinked, NewBufs;
    SwappedAt(s, t, s.threads[t].batch, 0);
    SwappedAt(s, t, s.threads[t].batch, i);
  }

  lemma {:induction false} StepKeepsWindows(w: World, s: Sys, t: nat, a: Action)
    requires Inv(w, s) && WindowsOk(s) && Enabled(w, s, t, a)
    ensures WindowsOk(Do(w, s, t, a))
  {
    hide Inv, Do, WindowOk;
    forall i: nat | i < |Do(w, s, t, a).bufs| ensures WindowOk(Do(w, s, t, a), i) {
      if s.threads[t].WarmReading? { ReadWindows(w, s, t, i, a.now); }
      else if s.threads[t].WarmWriting? { CommitWindows(w, s, t, i, a.now); }
      else if s.threads[t].ResetSweeping? && a.Continue? { SwapWindows(w, s, t, i, a.now); }
      else { PlainWindows(w, s, t, a, i); }
    }
  }

  lemma {:induction false} RunKeepsWindows(w: World, s: Sys, run: Schedule)
    requires Inv(w, s) && WindowsOk(s)
    ensures Exec(w, s, run).Some? ==> WindowsOk(Exec(w, s, run).value)
    decreases |run|
  {
    hide Inv, Do, Enabled, WindowsOk;
    if run != [] {
      var last := |run| - 1;
      RunKeepsWindows(w, s, run[..last]);
      RunKeeps(w, s, run[..last]);
      if Exec(w, s, run).Some? {
        StepKeepsWindows(w, Exec(w, s, run[..last]).value, run[last].0, run[last].1);
      }
    }
  }

  /** A window is open only on a mapped buffer, and only while a /warm that holds its shard has yet to commit it. */
  lemma {:induction false} OpenWindows(w: World, s: Sys, i: nat)
    requires Reachable(w, s) && i < |s.bufs| && s.bufs[i].window.Some?
    ensures s.bufs[i].linked
    ensures exists t :: 0 <= t < |s.threads| && Owns(s.threads[t], s.bufs[i].name) && Holds(w, s.threads[t], w.shardOf(s.bufs[i].name))
  {
    hide Exec, Structure, Accounted, Capped, Owns;
    Reached(w, s);
    var start, run :| Boot(w, start) && Exec(w, start, run) == Some(s);
    BootStructure(w, start);
    BootInv(w, start);
    assert WindowsOk(start) by {
      forall k | 0 <= k < |start.bufs| ensures WindowOk(start, k) {
        assert start.bufs[k] == NewBuf(Whole([])[k].0, Whole([])[k].1);
      }
    }
    RunKeepsWindows(w, start, run);
    assert WindowOk(s, i);
    var t :| 0 <= t < |s.threads| && Owns(s.threads[t], s.bufs[i].name);
    OwnerHolds(w, s, t, s.bufs[i].name);
  }
}
