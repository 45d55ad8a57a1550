/**
  No refused write leaves the scope it made behind: a scope published by a lookup that found
  none has been written to, or somebody who will write to it or undo it still has it.
 */
module StepRollback {
  import opened Types
  import opened Sums
  import opened ScopeSpec
  import opened Steps
  import opened StepStructure
  import opened StepSafety
  import opened StepHolds
  import opened StepHistory

  // made: the buffers published for a single write, rather than by a batch or at boot.
  datatype Made = Made(c: Traced, made: set<nat>)

  ghost function Step(w: World, m: Made, t: nat, a: Action): Made
    requires Enabled(w, m.c.sys, t, a)
  {
    Made(Trace(w, m.c, t, a),
         if a.Continue? && m.c.sys.threads[t].Inserting? then m.made + {|m.c.sys.bufs|} else m.made)
  }

  ghost function Exec(w: World, m: Made, run: Schedule): Option<Made>
    decreases |run|
  {
    if run == [] then Some(m)
    else
      var last := |run| - 1;
      match Exec(w, m, run[..last])
      case None => None
      case Some(k) => if Enabled(w, k.c.sys, run[last].0, run[last].1) then Some(Step(w, k, run[last].0, run[last].1)) else None
  }

  // ---- who answers for a scope that has not been written to ----

  predicate AnswersFor(pc: Pc, i: nat) {
    match pc
    case Ready(b, op, created) => b == i && created && Creates(op)
    case Writing(b) => b == i
    case Failed(b, _) => b == i
    case RollingBack(b, _) => b == i
    case _ => false
  }

  ghost predicate Answered(s: Sys, i: nat) {
    exists t :: 0 <= t < |s.threads| && AnswersFor(s.threads[t], i)
  }

  // An operation on its way to make a scope is one that may.
  predicate MayCreate(pc: Pc) {
    match pc
    case Missing(_, op) => Creates(op)
    case Inserting(_, op) => Creates(op)
    case Ready(_, op, created) => created ==> Creates(op)
    case _ => true
  }

  ghost predicate MadeOk(m: Made, i: nat)
    requires i < |m.c.sys.bufs| == |m.c.first| == |m.c.hist|
  {
    i in m.made ==> m.c.first[i] == EMPTY_SCOPE && (m.c.sys.bufs[i].linked && m.c.hist[i] == [] ==> Answered(m.c.sys, i))
  }

  ghost predicate AllMadeOk(w: World, m: Made) {
    && HistoriesOk(w, m.c)
    && (forall t :: 0 <= t < |m.c.sys.threads| ==> MayCreate(m.c.sys.threads[t]))
    && (forall i :: i in m.made ==> i < |m.c.sys.bufs|)
    && (forall i :: 0 <= i < |m.c.sys.bufs| ==> MadeOk(m, i))
  }

  // ---- one step ----

  lemma {:induction false} CreatorsNeverMiss(env: Env, s: Scope, op: Op, now: int, total: int)
    requires Creates(op)
    ensures !Execute(env, s, op, now, total).Missed?
  {
    hide IndexOfId, Sum;
  }

  lemma {:induction false} OthersMayCreate(w: World, s: Sys, t: nat, a: Action)
    requires Enabled(w, s, t, a) && forall u :: 0 <= u < |s.threads| ==> MayCreate(s.threads[u])
    ensures OneThread(s, Do(w, s, t, a), t) && MayCreate(Do(w, s, t, a).threads[t])
  {
    hide Execute, Sum, ShardFree, NewMaps, Whole, NewBufs, Unlinked, CloseWindows, Scope.Bytes, Cover;
  }

  // Whoever answers for a buffer goes on to answer for it, writes to it, or takes it out of the map.
  lemma {:induction false} AnswererGoesOn(w: World, s: Sys, t: nat, a: Action, i: nat)
    requires Inv(w, s) && Enabled(w, s, t, a) && i < |s.bufs| && s.bufs[i].linked && AnswersFor(s.threads[t], i)
    requires s.threads[t].RollingBack? ==> s.bufs[i].scope.items == []
    ensures a.Continue?
    ensures var s' := Do(w, s, t, a);
      || (i < |s'.bufs| && !s'.bufs[i].linked)
      || AnswersFor(s'.threads[t], i)
      || s.threads[t] == Writing(i)
  {
    hide Structure, Accounted, Capped, Sum, Execute, ShardFree, NewMaps, Whole, NewBufs, Unlinked;
    Parts(w, s, t);
    assert BufOk(s, i);
    if a.Continue? && s.threads[t].Ready? {
      var buf := s.bufs[i];
      CreatorsNeverMiss(Env(w.cfg, w.cfg.MaxItemsFor(buf.name), buf.name), buf.scope, s.threads[t].op, a.now, s.total);
    }
  }

  // A linked buffer was linked before, and its history only grows.
  lemma {:induction false} LinkedBefore(w: World, s: Sys, t: nat, a: Action, i: nat)
    requires Inv(w, s) && Enabled(w, s, t, a) && i < |s.bufs|
    ensures i < |Do(w, s, t, a).bufs| && (Do(w, s, t, a).bufs[i].linked ==> s.bufs[i].linked)
  {
    hide Structure, Accounted, Capped, Sum, Execute, ShardFree, NewMaps, Whole, NewBufs, Unlinked;
    Parts(w, s, t);
    assert BufOk(s, i);
    if a.Continue? && s.threads[t].ResetSweeping? { SwappedAt(s, t, s.threads[t].batch, i); }
  }

  // While nothing has been committed on a buffer it is what it was published with.
  lemma {:induction false} UnwrittenIsFirst(w: World, c: Traced, i: nat)
    requires HistoriesOk(w, c) && i < |c.sys.bufs| && c.hist[i] == []
    ensures c.sys.bufs[i].scope == c.first[i]
  {
    hide Done;
    assert HistoryOk(w, c, i);
  }

  // A commit is written down.
  lemma {:induction false} CommitWritten(w: World, c: Traced, t: nat, a: Action, i: nat)
    requires Inv(w, c.sys) && HistoriesOk(w, c) && Enabled(w, c.sys, t, a) && a.Continue? && i < |c.sys.bufs|
    requires c.sys.threads[t] == Writing(i)
    ensures i < |Trace(w, c, t, a).hist| && Trace(w, c, t, a).hist[i] != []
  {
    hide Inv, Do, Enabled, Play, Done;
    EnabledThread(w, c.sys, t, a);
    assert HistoryOk(w, c, i);
    HolderIs(w, c.sys, i);
    NamesStay(w, c.sys, t, a, i);
  }

  lemma {:induction false} OldMade(w: World, m: Made, t: nat, a: Action, i: nat)
    requires Inv(w, m.c.sys) && AllMadeOk(w, m) && Enabled(w, m.c.sys, t, a) && i < |m.c.sys.bufs|
    requires HistoriesOk(w, Trace(w, m.c, t, a))
    ensures i < |Step(w, m, t, a).c.sys.bufs| && MadeOk(Step(w, m, t, a), i)
  {
    hide Inv, Do, Enabled, HistoryOk, Committed, AnswersFor, MayCreate;
    var s, m' := m.c.sys, Step(w, m, t, a);
    EnabledThread(w, s, t, a);
    NamesStay(w, s, t, a, i);
    LinkedBefore(w, s, t, a, i);
    assert MadeOk(m, i);
    if i in m.made && m'.c.sys.bufs[i].linked && m'.c.hist[i] == [] {
      var u :| 0 <= u < |s.threads| && AnswersFor(s.threads[u], i);
      OthersMayCreate(w, s, t, a);
      if u == t {
        UnwrittenIsFirst(w, m.c, i);
        AnswererGoesOn(w, s, t, a, i);
        if s.threads[t] == Writing(i) { CommitWritten(w, m.c, t, a, i); }
        assert AnswersFor(m'.c.sys.threads[t], i);
      } else {
        assert AnswersFor(m'.c.sys.threads[u], i);
      }
    }
  }

  // A new buffer that a single write made is in the hands of that write.
  lemma {:induction false} NewMade(w: World, m: Made, t: nat, a: Action, i: nat)
    requires Inv(w, m.c.sys) && AllMadeOk(w, m) && Enabled(w, m.c.sys, t, a)
    requires HistoriesOk(w, Trace(w, m.c, t, a)) && |m.c.sys.bufs| <= i < |Step(w, m, t, a).c.sys.bufs|
    ensures MadeOk(Step(w, m, t, a), i)
  {
    hide Inv, Enabled, HistoryOk, MadeOk, Execute, Sum, NewMaps, Whole, NewBufs, Unlinked, CloseWindows, Scope.Bytes, Cover;
    var m' := Step(w, m, t, a);
    EnabledThread(w, m.c.sys, t, a);
    if i in m'.made {
      assert a.Continue? && m.c.sys.threads[t].Inserting?;
      assert AnswersFor(m'.c.sys.threads[t], i);
      NewMadeOk(m', t, i);
    } else {
      hide Do;
      NotMadeOk(m', i);
    }
  }

  lemma {:induction false} NewMadeOk(m: Made, t: nat, i: nat)
    requires i < |m.c.sys.bufs| == |m.c.first| == |m.c.hist| && m.c.first[i] == EMPTY_SCOPE
    requires t < |m.c.sys.threads| && AnswersFor(m.c.sys.threads[t], i)
    ensures MadeOk(m, i)
  {
    hide AnswersFor;
  }

  lemma {:induction false} NotMadeOk(m: Made, i: nat)
    requires i < |m.c.sys.bufs| == |m.c.first| == |m.c.hist| && i !in m.made
    ensures MadeOk(m, i)
  {
  }

  lemma {:induction false} StepMade(w: World, m: Made, t: nat, a: Action)
    requires Inv(w, m.c.sys) && AllMadeOk(w, m) && Enabled(w, m.c.sys, t, a)
    ensures Inv(w, Step(w, m, t, a).c.sys) && AllMadeOk(w, Step(w, m, t, a))
  {
    hide Inv, Do, Enabled, HistoriesOk, MadeOk, MayCreate;
    var m' := Step(w, m, t, a);
    EnabledThread(w, m.c.sys, t, a);
    StepKeeps(w, m.c.sys, t, a);
    StepHistories(w, m.c, t, a);
    OthersMayCreate(w, m.c.sys, t, a);
    MadeThere(w, m, t, a);
    Lengths(w, m'.c);
    forall i: nat | i < |m'.c.sys.bufs| ensures MadeOk(m', i) {
      if i < |m.c.sys.bufs| { OldMade(w, m, t, a, i); } else { NewMade(w, m, t, a, i); }
    }
  }

  lemma {:induction false} Lengths(w: World, c: Traced)
    requires HistoriesOk(w, c)
    ensures |c.sys.bufs| == |c.first| == |c.hist|
  {
    hide HistoryOk;
  }

  // What was made is there, and so is what this step makes.
  lemma {:induction false} MadeThere(w: World, m: Made, t: nat, a: Action)
    requires Inv(w, m.c.sys) && AllMadeOk(w, m) && Enabled(w, m.c.sys, t, a)
    ensures forall i :: i in Step(w, m, t, a).made ==> i < |Step(w, m, t, a).c.sys.bufs|
  {
    hide Inv, Do, Enabled, HistoriesOk, MadeOk, MayCreate;
    forall i | i in Step(w, m, t, a).made ensures i < |Step(w, m, t, a).c.sys.bufs| {
      if i in m.made { NamesStay(w, m.c.sys, t, a, i); } else { InsertGrows(w, m.c.sys, t, a); }
    }
  }

  lemma {:induction false} InsertGrows(w: World, s: Sys, t: nat, a: Action)
    requires Enabled(w, s, t, a) && a.Continue? && s.threads[t].Inserting?
    ensures |Do(w, s, t, a).bufs| == |s.bufs| + 1
  {
    hide ShardFree, Sum;
  }

  lemma {:induction false} RunMade(w: World, m: Made, run: Schedule)
    requires Inv(w, m.c.sys) && AllMadeOk(w, m) && Exec(w, m, run).Some?
    ensures Inv(w, Exec(w, m, run).value.c.sys) && AllMadeOk(w, Exec(w, m, run).value)
    decreases |run|
  {
    hide Inv, Enabled, Step, AllMadeOk;
    if run != [] {
      var last := |run| - 1;
      RunMade(w, m, run[..last]);
      StepMade(w, Exec(w, m, run[..last]).value, run[last].0, run[last].1);
    }
  }

  // Following what is made does not change a run.
  lemma {:induction false} MadeIsRun(w: World, s: Sys, run: Schedule)
    ensures var m := Exec(w, Made(Untouched(s), {}), run);
      StepHistory.Exec(w, Untouched(s), run) == if m.Some? then Some(m.value.c) else None
    decreases |run|
  {
    hide Enabled, Trace, Untouched;
    if run != [] { MadeIsRun(w, s, run[..|run| - 1]); } else { UntouchedSys(s); }
  }

  lemma {:induction false} BootMade(w: World, s: Sys)
    requires Boot(w, s)
    ensures Inv(w, s) && AllMadeOk(w, Made(Untouched(s), {}))
  {
    hide Inv, HistoryOk, NewMaps;
    BootHistories(w, s);
    UntouchedSys(s);
  }

  /**
    Whatever ran at once, when nothing is under way every scope that a single write made and
    that is still mapped has been written to: a write that was refused, by whatever error,
    has undone the scope it made, unless another write had come to use it.
   */
  lemma {:induction false} NothingLeftBehind(w: World, start: Sys, run: Schedule, i: nat)
    requires Boot(w, start) && Exec(w, Made(Untouched(start), {}), run).Some?
    requires var m := Exec(w, Made(Untouched(start), {}), run).value;
      && i in m.made && (forall t :: 0 <= t < |m.c.sys.threads| ==> m.c.sys.threads[t].Idle?)
    ensures var m := Exec(w, Made(Untouched(start), {}), run).value;
      && Steps.Exec(w, start, run) == Some(m.c.sys)
      && i < |m.c.sys.bufs| == |m.c.hist| && (m.c.sys.bufs[i].linked ==> m.c.hist[i] != [])
  {
    hide Boot, Inv, HistoriesOk, Untouched, Step;
    BootMade(w, start);
    UntouchedSys(start);
    RunMade(w, Made(Untouched(start), {}), run);
    MadeIsRun(w, start, run);
    TraceIsRun(w, start, run);
    var m := Exec(w, Made(Untouched(start), {}), run).value;
    Lengths(w, m.c);
    assert MadeOk(m, i);
  }
}
