/** Who holds a buffer, and what a step leaves of it. */
module StepHolds {
  import opened Types
  import opened Sums
  import opened ScopeSpec
  import opened Steps
  import opened StepStructure
  import opened StepSafety

  // A buffer held by another thread keeps its scope and what it is about to become.
  lemma {:induction false} HeldStays(w: World, s: Sys, t: nat, a: Action, i: nat)
    requires Inv(w, s) && Enabled(w, s, t, a) && i < |s.bufs| && s.bufs[i].hold.Held? && s.bufs[i].hold.owner != t
    ensures var s' := Do(w, s, t, a);
      i < |s'.bufs| && s'.bufs[i].hold == s.bufs[i].hold && s'.bufs[i].scope == s.bufs[i].scope
  {
    hide Structure, Accounted, Capped, Sum, Execute, ShardFree, NewMaps, Whole, NewBufs;
    Parts(w, s, t);
    assert BufOk(s, i);
    if a.Continue? && s.threads[t].ResetSweeping? { SwappedAt(s, t, s.threads[t].batch, i); }
  }

  lemma {:induction false} NewFree(w: World, s: Sys, t: nat, a: Action, i: nat)
    requires Inv(w, s) && Enabled(w, s, t, a) && |s.bufs| <= i < |Do(w, s, t, a).bufs|
    ensures Do(w, s, t, a).bufs[i].hold.Free?
  {
    hide Structure, Accounted, Capped, Sum, Execute, ShardFree, NewMaps, Whole, NewBufs, Unlinked;
    Parts(w, s, t);
    if a.Continue? && s.threads[t].ResetSweeping? {
      SwappedAt(s, t, s.threads[t].batch, 0);
      SwappedAt(s, t, s.threads[t].batch, i);
    }
  }

  // A thread comes to hold a buffer only by taking it to write.
  lemma {:induction false} OnlyReadyTakes(w: World, s: Sys, t: nat, a: Action, i: nat)
    requires Inv(w, s) && Enabled(w, s, t, a) && !(a.Continue? && s.threads[t].Ready?)
    requires i < |s.bufs| && (s.bufs[i].hold.Free? || s.bufs[i].hold.owner == t)
    ensures i < |Do(w, s, t, a).bufs| && Do(w, s, t, a).bufs[i].hold.Free?
  {
    hide Structure, Accounted, Capped, Sum, ShardFree, NewMaps, Whole, NewBufs, Unlinked, Execute, Scope.Bytes, Cover, CloseWindows, Creates;
    Parts(w, s, t);
    assert BufOk(s, i);
    if a.Continue? && s.threads[t].ResetSweeping? { SwappedAt(s, t, s.threads[t].batch, i); }
  }

  lemma {:induction false} WriterHolds(w: World, s: Sys, t: nat)
    requires Structure(w, s) && t < |s.threads| && s.threads[t].Writing?
    ensures var b := s.threads[t].b; b < |s.bufs| && s.bufs[b].hold.Held? && s.bufs[b].hold.owner == t && s.bufs[b].linked
  {
    hide Exclusive, MapsOk;
    assert PcOk(w, s.bufs, s.maps, t, s.threads[t]);
    assert BufOk(s, s.threads[t].b);
  }

  lemma {:induction false} HolderWrites(w: World, s: Sys, i: nat)
    requires Structure(w, s) && i < |s.bufs| && s.bufs[i].hold.Held?
    ensures s.bufs[i].hold.owner < |s.threads| && s.threads[s.bufs[i].hold.owner] == Writing(i)
  {
    hide Exclusive, MapsOk, PcOk;
    assert BufOk(s, i);
  }

  // A commit changes the buffer it holds, to what was in hand.
  lemma {:induction false} CommitChanges(w: World, s: Sys, t: nat, now: int, i: nat)
    requires Inv(w, s) && Enabled(w, s, t, Continue(now)) && s.threads[t].Writing? && i < |s.bufs|
    ensures var later := Do(w, s, t, Continue(now)).bufs;
      && |later| == |s.bufs|
      && (i != s.threads[t].b ==> later[i] == s.bufs[i])
      && (i == s.threads[t].b ==> s.bufs[i].hold.Held? && later[i].scope == s.bufs[i].hold.next && later[i].linked)
  {
    hide Structure, Accounted, Capped, Sum;
    Parts(w, s, t);
    WriterHolds(w, s, t);
  }

  lemma {:induction false} EnabledThread(w: World, s: Sys, t: nat, a: Action)
    requires Enabled(w, s, t, a)
    ensures t < |s.threads|
  {
  }

  lemma {:induction false} ContinueIs(a: Action)
    requires a.Continue?
    ensures a == Continue(a.now)
  {
  }
}
