/** What the histories of StepHistory keep, in any interleaving: order, unique ids, and seqs that never go back. */
module StepOrder {
  import opened Types
  import opened Sums
  import opened ScopeSpec
  import opened ScopeLaws
  import opened Steps
  import opened StepStructure
  import opened StepSafety
  import opened StepRequests
  import opened StepHolds
  import opened StepHistory
  import StoreBulk

  ghost predicate TidyBatch(batch: Batch) {
    forall i :: 0 <= i < |batch| ==> WellFormed(batch[i].1)
  }

  ghost predicate TidyPlans(plans: seq<Plan>) {
    forall i :: 0 <= i < |plans| ==> WellFormed(plans[i].target)
  }

  // The targets a thread has yet to install.
  ghost predicate TidyPc(pc: Pc) {
    match pc
    case WarmLocking(batch, _) => TidyBatch(batch)
    case WarmReading(plans, rest, _) => TidyPlans(plans) && TidyBatch(rest)
    case WarmWriting(plans, _, _) => TidyPlans(plans)
    case ResetLocking(batch, _) => TidyBatch(batch)
    case ResetSweeping(batch) => TidyBatch(batch)
    case _ => true
  }

  ghost predicate TidyAction(a: Action) {
    match a
    case StartWarm(batch) => TidyBatch(batch)
    case StartReset(batch) => TidyBatch(batch)
    case _ => true
  }

  /** A list in order with unique ids, and in hand another one that hands out later seqs. */
  ghost predicate TidyBuf(b: Buf) {
    WellFormed(b.scope) && (b.hold.Held? ==> WellFormed(b.hold.next) && b.scope.lastSeq <= b.hold.next.lastSeq)
  }

  ghost predicate AllTidy(s: Sys) {
    && (forall t :: 0 <= t < |s.threads| ==> TidyPc(s.threads[t]))
    && (forall i :: 0 <= i < |s.bufs| ==> TidyBuf(s.bufs[i]))
  }

  lemma {:induction false} EmptyIsTidy()
    ensures WellFormed(EMPTY_SCOPE)
  {
  }

  // ---- what a thread has to install stays tidy ----

  // /warm moves one target from its batch to its plans, or installs its first plan.
  lemma {:induction false} WarmTidy(w: World, s: Sys, t: nat, now: int)
    requires Enabled(w, s, t, Continue(now)) && TidyPc(s.threads[t])
    requires s.threads[t].WarmReading? || s.threads[t].WarmWriting?
    ensures t < |Do(w, s, t, Continue(now)).threads| && TidyPc(Do(w, s, t, Continue(now)).threads[t])
  {
    hide WellFormed, Sum, ShardFree, CloseWindows, Scope.Bytes;
  }

  lemma {:induction false} OneMoves(w: World, s: Sys, t: nat, a: Action)
    requires Enabled(w, s, t, a)
    ensures OneThread(s, Do(w, s, t, a), t)
  {
    hide Execute, Sum, ShardFree, NewMaps, Whole, NewBufs, Unlinked, CloseWindows, Scope.Bytes, Cover;
  }

  lemma {:induction false} ThreadTidy(w: World, s: Sys, t: nat, a: Action)
    requires Enabled(w, s, t, a) && TidyPc(s.threads[t]) && TidyAction(a)
    ensures OneThread(s, Do(w, s, t, a), t) && TidyPc(Do(w, s, t, a).threads[t])
  {
    hide WellFormed, Execute, Sum, ShardFree, NewMaps, Whole, NewBufs, Unlinked, CloseWindows, Scope.Bytes, Cover, TidyBatch, TidyPlans;
    OneMoves(w, s, t, a);
    if a.Continue? && (s.threads[t].WarmReading? || s.threads[t].WarmWriting?) {
      ContinueIs(a);
      WarmTidy(w, s, t, a.now);
    } else {
      NoneIsTidy();
    }
  }

  lemma {:induction false} NoneIsTidy()
    ensures TidyPlans([]) && TidyBatch([])
  {
  }

  // ---- buffers ----

  // A buffer that a step publishes starts tidy.
  lemma {:induction false} NewTidy(w: World, s: Sys, t: nat, a: Action, i: nat)
    requires Inv(w, s) && Enabled(w, s, t, a) && TidyPc(s.threads[t]) && |s.bufs| <= i < |Do(w, s, t, a).bufs|
    ensures TidyBuf(Do(w, s, t, a).bufs[i])
  {
    hide Structure, Accounted, Capped, Sum, Execute, ShardFree, NewMaps, NewBufs, Unlinked, WellFormed;
    NewFree(w, s, t, a, i);
    EmptyIsTidy();
    if a.Continue? && s.threads[t].ResetSweeping? {
      SwappedAt(s, t, s.threads[t].batch, 0);
      SwappedAt(s, t, s.threads[t].batch, i);
    }
  }

  // The outcome of a write, and what a batch puts in the place of a buffer.
  lemma {:induction false} DoneTidy(cfg: Config, name: string, s: Scope, op: Op, now: int)
    requires WellFormed(s)
    ensures var r := Done(cfg, name, s, Wrote(op, now)); r.Some? ==> WellFormed(r.value) && s.lastSeq <= r.value.lastSeq
  {
    hide WellFormed;
    ApplyKeepsOrder(EnvFor(cfg, name), s, op, now);
  }

  // What was there stays tidy, and its seqs do not go back unless a batch replaces it.
  lemma {:induction false} OldTidy(w: World, s: Sys, t: nat, a: Action, i: nat)
    requires Inv(w, s) && Enabled(w, s, t, a) && TidyPc(s.threads[t]) && i < |s.bufs| && TidyBuf(s.bufs[i])
    ensures i < |Do(w, s, t, a).bufs| && TidyBuf(Do(w, s, t, a).bufs[i])
    ensures !Batched(s, t, a, i) ==> s.bufs[i].scope.lastSeq <= Do(w, s, t, a).bufs[i].scope.lastSeq
  {
    hide Inv, Do, Enabled, WellFormed, Done;
    EnabledThread(w, s, t, a);
    NamesStay(w, s, t, a, i);
    HolderIs(w, s, i);
    if s.bufs[i].hold.Held? && s.bufs[i].hold.owner != t {
      HeldStays(w, s, t, a, i);
    } else if s.bufs[i].hold.Held? {
      WriterGoesOn(w, s, t, a);
      ContinueIs(a);
      CommitChanges(w, s, t, a.now, i);
      OnlyReadyTakes(w, s, t, a, i);
    } else {
      FreeScope(w, s, t, a, i);
      if a.Continue? && s.threads[t].Ready? {
        ContinueIs(a);
        if Do(w, s, t, a).bufs[i].hold.Held? {
          Takes(w, s, t, a.now, i);
          DoneTidy(w.cfg, s.bufs[i].name, s.bufs[i].scope, s.threads[t].op, a.now);
        }
      } else {
        OnlyReadyTakes(w, s, t, a, i);
      }
    }
  }

  lemma {:induction false} StepTidy(w: World, s: Sys, t: nat, a: Action)
    requires Inv(w, s) && AllTidy(s) && Enabled(w, s, t, a) && TidyAction(a)
    ensures AllTidy(Do(w, s, t, a))
  {
    hide Inv, Do, Enabled, TidyPc, TidyBuf, TidyAction;
    EnabledThread(w, s, t, a);
    ThreadTidy(w, s, t, a);
    forall i | 0 <= i < |Do(w, s, t, a).bufs| ensures TidyBuf(Do(w, s, t, a).bufs[i]) {
      if i < |s.bufs| { OldTidy(w, s, t, a, i); } else { NewTidy(w, s, t, a, i); }
    }
  }

  lemma {:induction false} BootTidy(w: World, s: Sys)
    requires Boot(w, s)
    ensures Inv(w, s) && AllTidy(s)
  {
    hide Structure, Accounted, Capped, NewMaps, WellFormed;
    BootStructure(w, s);
    BootBooks(w, s);
    EmptyIsTidy();
  }

  // ---- runs of validated requests ----

  lemma {:induction false} AskedIsTidy(cfg: Config, a: Action)
    requires Asked(cfg, a)
    ensures TidyAction(a)
  {
    if a.StartWarm? { CheckedIsTidy(cfg, a.batch); }
    if a.StartReset? { CheckedIsTidy(cfg, a.batch); }
  }

  lemma {:induction false} CheckedIsTidy(cfg: Config, batch: Batch)
    requires Checked(cfg, batch)
    ensures TidyBatch(batch)
  {
    hide StoreBulk.Malformed, StoreBulk.Overfull, StoreBulk.TargetOf, WellFormed;
    var entries, now :| Prepared(cfg, entries, now, batch);
    forall i | 0 <= i < |batch| ensures WellFormed(batch[i].1) { StoreBulk.TargetGood(cfg, entries[i], now); }
  }

  lemma {:induction false} RunTidy(w: World, s: Sys, run: Schedule)
    requires Inv(w, s) && AllTidy(s) && Steps.Exec(w, s, run).Some? && AllAsked(w.cfg, run)
    ensures Inv(w, Steps.Exec(w, s, run).value) && AllTidy(Steps.Exec(w, s, run).value)
    decreases |run|
  {
    hide Inv, Do, Enabled, AllTidy, Asked, TidyAction;
    if run != [] {
      var last := |run| - 1;
      var m := Steps.Exec(w, s, run[..last]).value;
      assert forall i :: 0 <= i < last ==> run[..last][i] == run[i];
      RunTidy(w, s, run[..last]);
      AskedIsTidy(w.cfg, run[last].1);
      StepTidy(w, m, run[last].0, run[last].1);
      StepKeeps(w, m, run[last].0, run[last].1);
    }
  }

  /** Whatever validated requests run at once, every buffer is a list in seq order with unique ids, up to lastSeq. */
  lemma {:induction false} OrderedAlways(w: World, s: Sys, i: nat)
    requires Brought(w, s) && i < |s.bufs|
    ensures WellFormed(s.bufs[i].scope)
  {
    hide Boot, Inv, Steps.Exec, AllAsked, WellFormed;
    var start, run :| Boot(w, start) && Steps.Exec(w, start, run) == Some(s) && AllAsked(w.cfg, run);
    BootTidy(w, start);
    RunTidy(w, start, run);
    assert TidyBuf(s.bufs[i]);
  }

  /** And lastSeq goes back only where a /warm replaces the list: no seq is handed out twice in between. */
  lemma {:induction false} SeqsNeverGoBack(w: World, s: Sys, t: nat, a: Action, i: nat)
    requires Brought(w, s) && Enabled(w, s, t, a) && i < |s.bufs| && !Batched(s, t, a, i)
    ensures i < |Do(w, s, t, a).bufs| && s.bufs[i].scope.lastSeq <= Do(w, s, t, a).bufs[i].scope.lastSeq
  {
    hide Boot, Inv, Steps.Exec, AllAsked, Do, Enabled, TidyBuf, TidyPc;
    var start, run :| Boot(w, start) && Steps.Exec(w, start, run) == Some(s) && AllAsked(w.cfg, run);
    BootTidy(w, start);
    RunTidy(w, start, run);
    EnabledThread(w, s, t, a);
    OldTidy(w, s, t, a, i);
  }
}
