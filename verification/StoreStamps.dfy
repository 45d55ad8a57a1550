/** lastWriteTS: what a polling client may conclude from it (store.go, buffer_counter.go). */
module StoreStamps {
  import opened Types
  import opened Sums
  import opened ScopeSpec
  import opened BufferSpec
  import opened StoreSpec
  import opened StoreLaws
  import opened StoreEvents

  // Counter activity inside a scope that exists is not a freshness event.
  predicate Silent(st: Store, r: Request) {
    r.CounterReq? && r.scope in st.scopes
  }

  /** A write moves the store stamp exactly if it had an effect and is not silent, and then to its own time at least. */
  lemma {:induction false} WriteStamps(cfg: Config, st: Store, r: Request, now: int)
    ensures var (st', result) := Write(cfg, st, r, now);
      st'.writeTS == if Effective(result) && !Silent(st, r) then Max(st.writeTS, now) else st.writeTS
  {
    hide Apply, Accepts, Sum;
    var (st', result) := Write(cfg, st, r, now);
    if !Effective(result) {
      FailureChangesNothing(cfg, st, r, now);
    }
  }

  /** The scope's own stamp becomes the write's time under the same condition; a new scope starts with it. */
  lemma {:induction false} ScopeStamps(cfg: Config, st: Store, r: Request, now: int)
    requires Effective(Write(cfg, st, r, now).1) && !r.DeleteScopeReq?
    ensures var st' := Write(cfg, st, r, now).0;
      r.scope in st'.scopes && st'.scopes[r.scope].writeTS == if Silent(st, r) then st.scopes[r.scope].writeTS else now
  {
    hide Apply, Accepts, Sum;
  }

  lemma {:induction false} EmitNeverBack(cfg: Config, st: Store, e: WriteEvent, now: int)
    ensures Emit(cfg, st, e, now).writeTS >= st.writeTS
  {
    hide Write, Carried;
    match cfg.codec.marshal(Carried(cfg, e))
    case None =>
    case Some(body) => WriteStamps(cfg, st, AppendReq(EVENTS, "", body, 0, 0), now);
  }

  lemma {:induction false} ActNeverBack(cfg: Config, st: Store, x: Timed)
    ensures Act(cfg, st, x).writeTS >= st.writeTS
  {
    hide Write, Emit, EventOf, Prepare, Sum, Install, Admits;
    match x.a
    case Do(r) =>
      WriteStamps(cfg, st, r, x.now);
      var (bare, plain) := Write(cfg, st, r, x.now);
      if Effective(plain) { EmitNeverBack(cfg, bare, EventOf(r, plain.value.value, x.later), x.later); }
    case DoWarm(batch) =>
      if Prepare(cfg, batch, x.now, [], []).Ok? {
        EmitNeverBack(cfg, Warmed(cfg, st, Prepare(cfg, batch, x.now, [], []).value, x.now), WarmEvent(x.later), x.later);
      }
    case _ =>
  }

  /** Over any run of public operations, resets included, the store stamp never goes back. */
  lemma {:induction false} StampNeverBack(cfg: Config, st: Store, run: seq<Timed>)
    ensures ActAll(cfg, st, run).writeTS >= st.writeTS
    decreases |run|
  {
    hide Act;
    if run != [] {
      StampNeverBack(cfg, st, run[..|run| - 1]);
      ActNeverBack(cfg, ActAll(cfg, st, run[..|run| - 1]), run[|run| - 1]);
    }
  }
}
