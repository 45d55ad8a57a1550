/**
  Every buffer, under any interleaving, has gone through a sequential history: the changes
  committed on it, in the order of their commits, each of them what the operation does to
  the scope the one before left.
 */
module StepHistory {
  import opened Types
  import opened Sums
  import opened ScopeSpec
  import opened ScopeLaws
  import opened Steps
  import opened StepStructure
  import opened StepSafety
  import opened StepHolds

  datatype Change = Wrote(op: Op, now: int) | Replaced(target: Scope)

  // hands: the operation each thread last took a buffer for; first and hist: what each
  // buffer held when it was published, and what has been committed on it since.
  datatype Traced = Traced(sys: Sys, hands: map<nat, Change>, first: seq<Scope>, hist: seq<seq<Change>>)

  function EnvFor(cfg: Config, name: string): Env {
    Env(cfg, cfg.MaxItemsFor(name), name)
  }

  // A buffer without interference: one change after the other; None if one of them would not be accepted.
  function Play(cfg: Config, name: string, s: Scope, changes: seq<Change>): Option<Scope>
    decreases |changes|
  {
    if changes == [] then Some(s)
    else match Play(cfg, name, s, changes[..|changes| - 1])
      case None => None
      case Some(m) => Done(cfg, name, m, changes[|changes| - 1])
  }

  function Done(cfg: Config, name: string, s: Scope, change: Change): Option<Scope> {
    match change
    case Replaced(target) => Some(target)
    case Wrote(op, now) =>
      match Apply(EnvFor(cfg, name), s, op, now)
      case Changed(next, _) => Some(next)
      case _ => None
  }

  lemma {:induction false} PlayOn(cfg: Config, name: string, s: Scope, changes: seq<Change>, change: Change)
    ensures Play(cfg, name, s, changes + [change])
         == match Play(cfg, name, s, changes) case None => None case Some(m) => Done(cfg, name, m, change)
  {
    hide Done;
    assert (changes + [change])[..|changes|] == changes;
  }

  // The change a step commits, and on which buffer.
  function Committed(c: Traced, t: nat, a: Action): Option<(nat, Change)>
    requires t < |c.sys.threads|
  {
    if !a.Continue? then None
    else match c.sys.threads[t]
      case Writing(b) => if t in c.hands then Some((b, c.hands[t])) else None
      case WarmWriting(plans, _, _) =>
        if plans != [] && plans[0].name in c.sys.maps then Some((c.sys.maps[plans[0].name], Replaced(plans[0].target))) else None
      case _ => None
  }

  ghost function Trace(w: World, c: Traced, t: nat, a: Action): Traced
    requires Enabled(w, c.sys, t, a)
  {
    var s', pc, committed := Do(w, c.sys, t, a), c.sys.threads[t], Committed(c, t, a);
    Traced(s',
           if a.Continue? && pc.Ready? then c.hands[t := Wrote(pc.op, a.now)] else c.hands,
           seq(|s'.bufs|, i requires 0 <= i < |s'.bufs| => if i < |c.first| then c.first[i] else s'.bufs[i].scope),
           seq(|s'.bufs|, i requires 0 <= i < |s'.bufs| =>
             if i >= |c.hist| then []
             else if committed.Some? && committed.value.0 == i then c.hist[i] + [committed.value.1]
             else c.hist[i]))
  }

  ghost function Exec(w: World, c: Traced, run: Schedule): Option<Traced>
    decreases |run|
  {
    if run == [] then Some(c)
    else
      var last := |run| - 1;
      match Exec(w, c, run[..last])
      case None => None
      case Some(m) => if Enabled(w, m.sys, run[last].0, run[last].1) then Some(Trace(w, m, run[last].0, run[last].1)) else None
  }

  // ---- the invariant ----

  // The buffer is what its history makes of it, and a write in hand is what the operation does to it now.
  ghost predicate HistoryOk(w: World, c: Traced, i: nat)
    requires i < |c.sys.bufs| == |c.first| == |c.hist|
  {
    var b := c.sys.bufs[i];
    && Play(w.cfg, b.name, c.first[i], c.hist[i]) == Some(b.scope)
    && (b.hold.Held? ==>
          b.hold.owner in c.hands && c.hands[b.hold.owner].Wrote? && Done(w.cfg, b.name, b.scope, c.hands[b.hold.owner]) == Some(b.hold.next))
  }

  ghost predicate HistoriesOk(w: World, c: Traced) {
    && |c.sys.bufs| == |c.first| == |c.hist|
    && forall i :: 0 <= i < |c.sys.bufs| ==> HistoryOk(w, c, i)
  }

  // ---- what a step does to one buffer ----

  // A buffer nobody holds changes only when a batch replaces it, and keeps its name.
  lemma {:induction false} FreeScope(w: World, s: Sys, t: nat, a: Action, i: nat)
    requires Inv(w, s) && Enabled(w, s, t, a) && i < |s.bufs| && s.bufs[i].hold.Free?
    ensures var s' := Do(w, s, t, a);
      && i < |s'.bufs|
      && s'.bufs[i].scope == if Batched(s, t, a, i) then s.threads[t].plans[0].target else s.bufs[i].scope
  {
    hide Structure, Accounted, Capped, Sum, Execute, ShardFree, NewMaps, Whole, NewBufs, Unlinked, CloseWindows;
    Parts(w, s, t);
    assert BufOk(s, i);
    if a.Continue? && s.threads[t].ResetSweeping? { SwappedAt(s, t, s.threads[t].batch, i); }
  }

  predicate Batched(s: Sys, t: nat, a: Action, i: nat)
    requires t < |s.threads|
  {
    && a.Continue? && s.threads[t].WarmWriting? && s.threads[t].plans != []
    && s.threads[t].plans[0].name in s.maps && s.maps[s.threads[t].plans[0].name] == i
  }

  // A batch replaces only a buffer nobody holds.
  lemma {:induction false} BatchedIsFree(w: World, s: Sys, t: nat, a: Action, i: nat)
    requires Enabled(w, s, t, a) && Batched(s, t, a, i) && i < |s.bufs|
    ensures s.bufs[i].hold.Free?
  {
    hide Sum, ShardFree;
  }

  lemma {:induction false} NamesStay(w: World, s: Sys, t: nat, a: Action, i: nat)
    requires Inv(w, s) && Enabled(w, s, t, a) && i < |s.bufs|
    ensures i < |Do(w, s, t, a).bufs| && Do(w, s, t, a).bufs[i].name == s.bufs[i].name
  {
    hide Structure, Accounted, Capped, Sum, Execute, ShardFree, NewMaps, Whole, NewBufs, Unlinked;
    Parts(w, s, t);
    if a.Continue? && s.threads[t].ResetSweeping? { SwappedAt(s, t, s.threads[t].batch, i); }
  }

  // Taking a buffer: what is in hand is the outcome of the operation on the scope found.
  lemma {:induction false} Takes(w: World, s: Sys, t: nat, now: int, i: nat)
    requires Inv(w, s) && Enabled(w, s, t, Continue(now)) && s.threads[t].Ready? && i < |s.bufs|
    requires s.bufs[i].hold.Free? && i < |Do(w, s, t, Continue(now)).bufs| && Do(w, s, t, Continue(now)).bufs[i].hold.Held?
    ensures Do(w, s, t, Continue(now)).bufs[i].hold.owner == t
    ensures Done(w.cfg, s.bufs[i].name, s.bufs[i].scope, Wrote(s.threads[t].op, now)) == Some(Do(w, s, t, Continue(now)).bufs[i].hold.next)
  {
    hide Structure, Accounted, Capped, Sum, Apply;
    Parts(w, s, t);
    assert BufOk(s, i);
  }

  // ---- every step keeps every history ----

  lemma {:induction false} WriterGoesOn(w: World, s: Sys, t: nat, a: Action)
    requires Enabled(w, s, t, a) && s.threads[t].Writing?
    ensures a.Continue?
  {
    hide Sum;
  }

  // Nothing is committed on this buffer by this step.
  predicate Spared(c: Traced, t: nat, a: Action, i: nat)
    requires t < |c.sys.threads|
  {
    Committed(c, t, a).None? || Committed(c, t, a).value.0 != i
  }

  lemma {:induction false} NotBatchedSpared(c: Traced, t: nat, a: Action, i: nat)
    requires t < |c.sys.threads| && !Batched(c.sys, t, a, i) && c.sys.threads[t] != Writing(i)
    ensures Spared(c, t, a, i)
  {
  }

  lemma {:induction false} OtherHeld(w: World, c: Traced, t: nat, a: Action, i: nat)
    requires Inv(w, c.sys) && HistoriesOk(w, c) && Enabled(w, c.sys, t, a)
    requires i < |c.sys.bufs| && c.sys.bufs[i].hold.Held? && c.sys.bufs[i].hold.owner != t
    ensures var c' := Trace(w, c, t, a); i < |c'.sys.bufs| == |c'.first| == |c'.hist| && HistoryOk(w, c', i)
  {
    hide Inv, Do, Enabled, Play, Done, Committed, Batched;
    assert HistoryOk(w, c, i);
    EnabledThread(w, c.sys, t, a);
    HeldStays(w, c.sys, t, a, i);
    NamesStay(w, c.sys, t, a, i);
    HolderIs(w, c.sys, i);
    if Batched(c.sys, t, a, i) { BatchedIsFree(w, c.sys, t, a, i); } else { NotBatchedSpared(c, t, a, i); }
  }

  lemma {:induction false} HolderIs(w: World, s: Sys, i: nat)
    requires Inv(w, s) && i < |s.bufs|
    ensures s.bufs[i].hold.Held? ==>
      s.bufs[i].hold.owner < |s.threads| && s.threads[s.bufs[i].hold.owner] == Writing(i)
    ensures forall t :: 0 <= t < |s.threads| && s.threads[t] == Writing(i) ==> s.bufs[i].hold.Held? && s.bufs[i].hold.owner == t
  {
    hide Structure, Accounted, Capped;
    if s.bufs[i].hold.Held? { HolderWrites(w, s, i); }
    forall t | 0 <= t < |s.threads| && s.threads[t] == Writing(i)
      ensures s.bufs[i].hold.Held? && s.bufs[i].hold.owner == t
    {
      WriterHolds(w, s, t);
    }
  }

  lemma {:induction false} OwnHeld(w: World, c: Traced, t: nat, a: Action, i: nat)
    requires Inv(w, c.sys) && HistoriesOk(w, c) && Enabled(w, c.sys, t, a)
    requires i < |c.sys.bufs| && c.sys.bufs[i].hold.Held? && c.sys.bufs[i].hold.owner == t
    ensures var c' := Trace(w, c, t, a); i < |c'.sys.bufs| == |c'.first| == |c'.hist| && HistoryOk(w, c', i)
  {
    hide Inv, Do, Enabled, Play, Done;
    assert HistoryOk(w, c, i);
    HolderIs(w, c.sys, i);
    WriterGoesOn(w, c.sys, t, a);
    ContinueIs(a);
    CommitChanges(w, c.sys, t, a.now, i);
    OnlyReadyTakes(w, c.sys, t, a, i);
    NamesStay(w, c.sys, t, a, i);
    PlayOn(w.cfg, c.sys.bufs[i].name, c.first[i], c.hist[i], c.hands[t]);
  }

  lemma {:induction false} WasFree(w: World, c: Traced, t: nat, a: Action, i: nat)
    requires Inv(w, c.sys) && HistoriesOk(w, c) && Enabled(w, c.sys, t, a)
    requires i < |c.sys.bufs| && c.sys.bufs[i].hold.Free?
    ensures var c' := Trace(w, c, t, a); i < |c'.sys.bufs| == |c'.first| == |c'.hist| && HistoryOk(w, c', i)
  {
    hide Inv, Do, Enabled, Play;
    assert HistoryOk(w, c, i);
    EnabledThread(w, c.sys, t, a);
    HolderIs(w, c.sys, i);
    FreeScope(w, c.sys, t, a, i);
    NamesStay(w, c.sys, t, a, i);
    if a.Continue? && c.sys.threads[t].Ready? {
      ContinueIs(a);
      if Do(w, c.sys, t, a).bufs[i].hold.Held? { Takes(w, c.sys, t, a.now, i); }
    } else {
      OnlyReadyTakes(w, c.sys, t, a, i);
      if Batched(c.sys, t, a, i) {
        PlayOn(w.cfg, c.sys.bufs[i].name, c.first[i], c.hist[i], Replaced(c.sys.threads[t].plans[0].target));
      } else {
        NotBatchedSpared(c, t, a, i);
      }
    }
  }

  lemma {:induction false} StepHistories(w: World, c: Traced, t: nat, a: Action)
    requires Inv(w, c.sys) && HistoriesOk(w, c) && Enabled(w, c.sys, t, a)
    ensures HistoriesOk(w, Trace(w, c, t, a))
  {
    hide Inv, Do, Enabled, Committed;
    var c' := Trace(w, c, t, a);
    forall i | 0 <= i < |c'.sys.bufs| ensures HistoryOk(w, c', i) {
      if i >= |c.sys.bufs| { NewFree(w, c.sys, t, a, i); }
      else if c.sys.bufs[i].hold.Free? { WasFree(w, c, t, a, i); }
      else if c.sys.bufs[i].hold.owner == t { OwnHeld(w, c, t, a, i); }
      else { OtherHeld(w, c, t, a, i); }
    }
  }

  // ---- runs ----

  // Boot: two empty buffers with nothing behind them.
  function Untouched(s: Sys): Traced {
    Traced(s, map[], seq(|s.bufs|, i requires 0 <= i < |s.bufs| => s.bufs[i].scope), seq(|s.bufs|, _ => []))
  }

  lemma {:induction false} BootHistories(w: World, s: Sys)
    requires Boot(w, s)
    ensures Inv(w, s) && HistoriesOk(w, Untouched(s))
  {
    hide Structure, Accounted, Capped, NewMaps;
    BootStructure(w, s);
    BootBooks(w, s);
  }

  lemma {:induction false} RunHistories(w: World, c: Traced, run: Schedule)
    requires Inv(w, c.sys) && HistoriesOk(w, c) && Exec(w, c, run).Some?
    ensures Inv(w, Exec(w, c, run).value.sys) && HistoriesOk(w, Exec(w, c, run).value)
    decreases |run|
  {
    hide Inv, HistoriesOk, Enabled, Do;
    if run != [] {
      var last := |run| - 1;
      var m := Exec(w, c, run[..last]).value;
      RunHistories(w, c, run[..last]);
      StepHistories(w, m, run[last].0, run[last].1);
      StepKeeps(w, m.sys, run[last].0, run[last].1);
    }
  }

  // Tracing a run does not change it.
  lemma {:induction false} TraceIsRun(w: World, s: Sys, run: Schedule)
    ensures var c := Exec(w, Untouched(s), run);
      Steps.Exec(w, s, run) == if c.Some? then Some(c.value.sys) else None
    decreases |run|
  {
    hide Enabled, Do, Untouched;
    if run == [] { UntouchedSys(s); } else { TraceIsRun(w, s, run[..|run| - 1]); }
  }

  lemma {:induction false} UntouchedSys(s: Sys)
    ensures Untouched(s).sys == s
  {
  }

  /**
    Any number of threads in any interleaving from boot: each buffer is what its commits,
    played one after the other on what it held when it was published, make of it; every
    write among them takes effect there as it did in the run; and a write accepted but not
    yet committed is what its operation does to the buffer as it stands.
   */
  lemma {:induction false} SequentialHistory(w: World, start: Sys, run: Schedule, i: nat)
    requires Boot(w, start) && Steps.Exec(w, start, run).Some? && i < |Steps.Exec(w, start, run).value.bufs|
    ensures Exec(w, Untouched(start), run).Some?
    ensures var s, c := Steps.Exec(w, start, run).value, Exec(w, Untouched(start), run).value;
            var b := s.bufs[i];
      && c.sys == s && |c.first| == |c.hist| == |s.bufs|
      && Play(w.cfg, b.name, c.first[i], c.hist[i]) == Some(b.scope)
      && (b.hold.Held? ==>
            && b.hold.owner in c.hands && c.hands[b.hold.owner].Wrote?
            && Play(w.cfg, b.name, c.first[i], c.hist[i] + [c.hands[b.hold.owner]]) == Some(b.hold.next))
  {
    hide Boot, Inv, Play, Done, Untouched;
    TraceIsRun(w, start, run);
    BootHistories(w, start);
    UntouchedSys(start);
    RunHistories(w, Untouched(start), run);
    var c := Exec(w, Untouched(start), run).value;
    assert HistoryOk(w, c, i);
    var b := c.sys.bufs[i];
    if b.hold.Held? { PlayOn(w.cfg, b.name, c.first[i], c.hist[i], c.hands[b.hold.owner]); }
  }
}
