/** Runs a client can bring about: every operation in them has passed validation. */
module StepRequests {
  import opened Types
  import opened ScopeSpec
  import opened Steps
  import StoreSpec
  import StoreBulk

  // A batch as phase 1 of /warm or /rebuild hands it on.
  ghost predicate Prepared(cfg: Config, entries: seq<StoreSpec.Entry>, now: int, batch: Batch) {
    && |batch| == |entries|
    && forall i :: 0 <= i < |entries| ==>
         && !StoreBulk.Malformed(cfg, entries[i]) && !StoreBulk.Overfull(cfg, entries[i])
         && batch[i] == (entries[i].scope, StoreBulk.TargetOf(cfg, entries[i], now).scope)
  }

  ghost predicate Checked(cfg: Config, batch: Batch) {
    exists entries, now :: Prepared(cfg, entries, now, batch)
  }

  // The operation a request turns into once it is validated.
  predicate AsksFor(cfg: Config, r: StoreSpec.Request, name: string, op: Op) {
    r.scope == name && !r.DeleteScopeReq? && StoreSpec.Accepts(cfg, r) && StoreSpec.OpOf(cfg, r) == op
  }

  ghost predicate Asked(cfg: Config, a: Action) {
    match a
    case Start(name, op) => exists r :: AsksFor(cfg, r, name, op)
    case StartDelete(name) => StoreSpec.Accepts(cfg, StoreSpec.DeleteScopeReq(name))
    case StartWarm(batch) => Checked(cfg, batch)
    case StartReset(batch) => Checked(cfg, batch)
    case _ => true
  }

  ghost predicate AllAsked(cfg: Config, run: Schedule) {
    forall i :: 0 <= i < |run| ==> Asked(cfg, run[i].1)
  }

  /** A state that validated requests lead to from boot. */
  ghost predicate Brought(w: World, s: Sys) {
    exists start, run :: Boot(w, start) && Exec(w, start, run) == Some(s) && AllAsked(w.cfg, run)
  }

  lemma {:induction false} BroughtIsReachable(w: World, s: Sys)
    requires Brought(w, s)
    ensures Reachable(w, s)
  {
    hide Boot, Exec;
  }

  lemma {:induction false} Extend(w: World, s: Sys, t: nat, a: Action)
    requires Brought(w, s) && Enabled(w, s, t, a) && Asked(w.cfg, a)
    ensures Brought(w, Do(w, s, t, a))
  {
    hide Enabled, Do, Boot, Asked;
    var start, run :| Boot(w, start) && Exec(w, start, run) == Some(s) && AllAsked(w.cfg, run);
    var longer := run + [(t, a)];
    assert longer[..|longer| - 1] == run;
    assert Exec(w, start, longer) == Some(Do(w, s, t, a));
  }
}
