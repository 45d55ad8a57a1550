/** The write-event log: one record per effective change, counted exactly, and never in the way of the change. */
module StoreEvents {
  import opened Types
  import opened Sums
  import opened ScopeSpec
  import opened ScopeLaws
  import opened BufferSpec
  import opened StoreSpec
  import opened StoreLaws
  import opened StoreBulk
  import opened StoreWarm

  predicate Effective(result: Result<Option<Reply>>) {
    result.Ok? && result.value.Some?
  }

  // Seqs are never reused while the buffer lives, so lastSeq counts the events it took.
  function Taken(st: Store): nat
    requires EVENTS in st.scopes
  {
    st.scopes[EVENTS].scope.lastSeq
  }

  /** An accepted append puts exactly one item at the end of its scope; a refused one changes nothing. */
  lemma {:induction false} AppendLands(cfg: Config, st: Store, name: string, id: string, payload: Bytes, now: int)
    requires name in st.scopes
    ensures var (st', r) := Write(cfg, st, AppendReq(name, id, payload, 0, 0), now);
      if r.Err? then st' == st
      else
        && r.value.Some? && st'.drops == st.drops && st'.scopes.Keys == st.scopes.Keys
        && st'.scopes[name].scope == Insert(st.scopes[name].scope, name, id, Plain(payload, cfg.codec.decodeString(payload)), now)
        && forall n :: n in st.scopes && n != name ==> st'.scopes[n] == st.scopes[n]
  {
    hide Accepts, Sum, IndexOfId;
    RenderIsDecoded(cfg.codec, payload);
    assert st.scopes[name := st.scopes[name]] == st.scopes;
  }

  // An append without an id, of a payload that is not a string, to a scope that is there.
  lemma {:induction false} AppendAdmitted(cfg: Config, st: Store, name: string, p: Bytes, now: int)
    requires name in st.scopes && name != "" && cfg.codec.nameOk(name) && cfg.codec.payloadOk(p) && cfg.codec.decodeString(p) == None
    requires 48 + |name| + |p| <= cfg.MaxItemBytesFor(name)
    requires !CapExceeded(cfg.MaxItemsFor(name), |st.scopes[name].scope.items| + 1)
    requires Admits(st.total, cfg.maxStoreBytes, 48 + |name| + |p|)
    ensures
      var x := Item(name, "", st.scopes[name].scope.lastSeq + 1, now, Plain(p, None));
      var next := st.scopes[name].scope.(items := st.scopes[name].scope.items + [x], lastSeq := x.sq);
      Write(cfg, st, AppendReq(name, "", p, 0, 0), now)
        == (st.(scopes := st.scopes[name := Held(next, now)], total := st.total + 48 + |name| + |p|,
                items := st.items + 1, writeTS := Max(st.writeTS, now)),
            Ok(Some(ItemReply(x, true))))
  {
    hide Perform, Sum, IndexOfId, Scope.Bytes;
    var h, env := st.scopes[name], EnvOf(cfg, name);
    InsertLaws(h.scope, name, "", Plain(p, None), now);
    NoIdNoMatch(h.scope.items);
    PerformAppend(env, SnapOf(st, h), "", p, cfg.codec.decodeString(p), now);
  }

  lemma {:induction false} NoIdNoMatch(items: seq<Item>)
    ensures IndexOfId(items, "") == None
  {
  }

  /** Emitting appends the marshalled record to _events, or counts one drop and leaves the rest alone. */
  lemma {:induction false} EmitLands(cfg: Config, st: Store, e: WriteEvent, now: int)
    requires EVENTS in st.scopes
    ensures var st' := Emit(cfg, st, e, now);
      && EVENTS in st'.scopes
      && if st'.drops != st.drops then st' == st.(drops := st.drops + 1)
         else
           && cfg.codec.marshal(Carried(cfg, e)).Some?
           && var body := cfg.codec.marshal(Carried(cfg, e)).value;
              st'.scopes[EVENTS].scope
                == Insert(st.scopes[EVENTS].scope, EVENTS, "", Plain(body, cfg.codec.decodeString(body)), now)
  {
    hide Write, Carried, Insert;
    match cfg.codec.marshal(Carried(cfg, e))
    case None =>
    case Some(body) => AppendLands(cfg, st, EVENTS, "", body, now);
  }

  lemma {:induction false} EmitCounts(cfg: Config, st: Store, e: WriteEvent, now: int)
    requires EVENTS in st.scopes
    ensures var st' := Emit(cfg, st, e, now);
            EVENTS in st'.scopes && Taken(st') + st'.drops == Taken(st) + st.drops + 1
  {
    hide Emit, Carried;
    EmitLands(cfg, st, e, now);
  }

  // What a write itself does to _events: only a direct append adds to it.
  lemma {:induction false} WriteTakes(cfg: Config, st: Store, r: Request, now: int)
    requires EVENTS in st.scopes
    ensures var (st', result) := Write(cfg, st, r, now);
      && EVENTS in st'.scopes && st'.drops == st.drops
      && Taken(st') == Taken(st) + if r.scope == EVENTS && r.AppendReq? && Effective(result) then 1 else 0
  {
    hide Accepts, Sum, Perform, OpOf;
    var (st', result) := Write(cfg, st, r, now);
    if !Effective(result) {
      FailureChangesNothing(cfg, st, r, now);
    } else if r.scope == EVENTS && !r.DeleteScopeReq? {
      DirectTakes(cfg, st, r, now);
    } else if r.DeleteScopeReq? {
      AcceptedDeletes(cfg, r);
    }
  }

  lemma {:induction false} DirectTakes(cfg: Config, st: Store, r: Request, now: int)
    requires EVENTS in st.scopes && r.scope == EVENTS && !r.DeleteScopeReq? && Accepts(cfg, r)
    requires Effective(CallScope(cfg, st, EVENTS, OpOf(cfg, r), now).1)
    ensures var st' := CallScope(cfg, st, EVENTS, OpOf(cfg, r), now).0;
      Taken(st') == Taken(st) + if r.AppendReq? then 1 else 0
  {
    hide Sum, IndexOfId, IndexOfSeq;
  }

  /** The reply, and every scope but _events, are what the bare write makes them. */
  lemma {:induction false} EventsNeverInterfere(cfg: Config, st: Store, r: Request, now: int, later: int)
    ensures var (st', result) := Single(cfg, st, r, now, later);
            var (bare, plain) := Write(cfg, st, r, now);
      result == plain && SameBesideEvents(bare, st')
  {
    hide Write, Emit;
    var (bare, plain) := Write(cfg, st, r, now);
    if Effective(plain) && EventsEnabled(cfg, r.scope) {
      EmitBeside(cfg, bare, EventOf(r, plain.value.value, later), later);
    }
  }

  // Records an operation owes the log, and items a client puts there itself.
  ghost function Due(cfg: Config, st: Store, x: Timed): nat {
    match x.a
    case Do(r) => if cfg.mode != Off && r.scope != "_events" && Effective(Write(cfg, st, r, x.now).1) then 1 else 0
    case DoWarm(batch) => if cfg.mode != Off && batch != [] && WarmAccepted(cfg, st, batch, x.now) then 1 else 0
    case _ => 0
  }

  ghost function Direct(cfg: Config, st: Store, x: Timed): nat {
    match x.a
    case Do(AppendReq(scope, _, _, _, _)) => if scope == EVENTS && Effective(Write(cfg, st, x.a.r, x.now).1) then 1 else 0
    case _ => 0
  }

  predicate Resets(x: Timed) {
    x.a.DoWipe? || x.a.DoRebuild?
  }

  lemma {:induction false} SingleCounts(cfg: Config, st: Store, x: Timed)
    requires EVENTS in st.scopes && x.a.Do?
    ensures var st' := Act(cfg, st, x);
      EVENTS in st'.scopes && Taken(st') + st'.drops == Taken(st) + st.drops + Due(cfg, st, x) + Direct(cfg, st, x)
  {
    hide Write, Emit, EventOf;
    var r := x.a.r;
    WriteTakes(cfg, st, r, x.now);
    var (bare, plain) := Write(cfg, st, r, x.now);
    if Effective(plain) && EventsEnabled(cfg, r.scope) {
      EmitCounts(cfg, bare, EventOf(r, plain.value.value, x.later), x.later);
    }
  }

  lemma {:induction false} WarmCounts(cfg: Config, st: Store, x: Timed)
    requires EVENTS in st.scopes && x.a.DoWarm? && OneEntryEach(x.a.batch)
    ensures var st' := Act(cfg, st, x);
      EVENTS in st'.scopes && Taken(st') + st'.drops == Taken(st) + st.drops + Due(cfg, st, x)
  {
    hide Prepare, Sum, Emit, AnyMalformed, OverfullNames, Install, Malformed, Admits;
    var batch := x.a.batch;
    PrepareMeans(cfg, batch, x.now);
    var targets := TargetsOf(cfg, batch, x.now);
    if WarmAccepted(cfg, st, batch, x.now) {
      TargetsDistinct(cfg, batch, x.now);
      InstallAt(st.scopes, targets, x.now);
      NoReservedEntries(cfg, batch);
      var st0 := Warmed(cfg, st, targets, x.now);
      assert EVENTS in st0.scopes && st0.scopes[EVENTS] == st.scopes[EVENTS] by {
        assert forall i :: 0 <= i < |targets| ==> targets[i] == TargetOf(cfg, batch[i], x.now) && targets[i].name != EVENTS;
      }
      EmitCounts(cfg, st0, WarmEvent(x.later), x.later);
    }
  }

  ghost function Owed(cfg: Config, st: Store, run: seq<Timed>): nat
    decreases |run|
  {
    if run == [] then 0
    else
      var before, x := run[..|run| - 1], run[|run| - 1];
      Owed(cfg, st, before) + Due(cfg, ActAll(cfg, st, before), x) + Direct(cfg, ActAll(cfg, st, before), x)
  }

  // Items appended to _events over a run, counted across resets: a reset starts a new, empty buffer.
  ghost function Appended(cfg: Config, st: Store, run: seq<Timed>): int
    requires EVENTS in st.scopes && forall i :: 0 <= i < |run| ==> Walkable(run[i])
    ensures EVENTS in ActAll(cfg, st, run).scopes
    decreases |run|
  {
    if run == [] then 0
    else
      var before, x := run[..|run| - 1], run[|run| - 1];
      var sofar, m := Appended(cfg, st, before), ActAll(cfg, st, before);
      EventsStay(cfg, m, x);
      sofar + if Resets(x) then 0 else Taken(Act(cfg, m, x)) - Taken(m)
  }

  lemma {:induction false} EventsStay(cfg: Config, st: Store, x: Timed)
    requires EVENTS in st.scopes && Walkable(x)
    ensures EVENTS in Act(cfg, st, x).scopes
  {
    hide Act, Due, Direct;
    if x.a.Do? { SingleCounts(cfg, st, x); }
    else if x.a.DoWarm? { WarmCounts(cfg, st, x); }
    else { ResetsEmitNothing(cfg, st, x); }
  }

  lemma {:induction false} ResetsOweNothing(cfg: Config, st: Store, x: Timed)
    requires Resets(x)
    ensures Due(cfg, st, x) == 0 && Direct(cfg, st, x) == 0
  {
  }

  /**
    Over any run, resets included, the items _events took and the events dropped together
    number the effective changes outside it, plus direct appends to it.
   */
  lemma {:induction false} EveryChangeCounted(cfg: Config, st: Store, run: seq<Timed>)
    requires EVENTS in st.scopes && forall i :: 0 <= i < |run| ==> Walkable(run[i])
    ensures Appended(cfg, st, run) + ActAll(cfg, st, run).drops == st.drops + Owed(cfg, st, run)
    decreases |run|
  {
    hide Act, Due, Direct;
    if run != [] {
      var before, x := run[..|run| - 1], run[|run| - 1];
      var m := ActAll(cfg, st, before);
      EveryChangeCounted(cfg, st, before);
      EventsStay(cfg, m, x);
      if x.a.Do? {
        SingleCounts(cfg, m, x);
      } else if x.a.DoWarm? {
        WarmCounts(cfg, m, x);
        NoDirectWarm(cfg, m, x);
      } else {
        ResetsEmitNothing(cfg, m, x);
        ResetsOweNothing(cfg, m, x);
      }
    }
  }

  lemma {:induction false} NoDirectWarm(cfg: Config, st: Store, x: Timed)
    requires x.a.DoWarm?
    ensures Direct(cfg, st, x) == 0
  {
  }

  /** /wipe and /rebuild leave an empty log behind and emit nothing into it. */
  lemma {:induction false} ResetsEmitNothing(cfg: Config, st: Store, x: Timed)
    requires Resets(x) && Walkable(x)
    ensures var st' := Act(cfg, st, x);
      && st'.drops == st.drops
      && (st' == st || (EVENTS in st'.scopes && st'.scopes[EVENTS].scope == EMPTY_SCOPE))
  {
    hide Prepare, Sum, Install;
  }

  /** A refused or missed operation leaves the store as it was, the log and the drop count included. */
  lemma {:induction false} FailedSingle(cfg: Config, st: Store, r: Request, now: int, later: int)
    requires !Effective(Single(cfg, st, r, now, later).1)
    ensures Single(cfg, st, r, now, later).0 == st
  {
    hide Write, Emit;
    EventsNeverInterfere(cfg, st, r, now, later);
    FailureChangesNothing(cfg, st, r, now);
  }

  ghost predicate AllRefused(cfg: Config, st: Store, run: seq<Timed>) {
    forall i :: 0 <= i < |run| ==> run[i].a.Do? && !Effective(Single(cfg, st, run[i].a.r, run[i].now, run[i].later).1)
  }

  /** Any number of failed writes, to new scopes or old, leak nothing. */
  lemma {:induction false} FailuresLeakNothing(cfg: Config, st: Store, run: seq<Timed>)
    requires AllRefused(cfg, st, run)
    ensures ActAll(cfg, st, run) == st
    decreases |run|
  {
    hide Single;
    if run != [] {
      var x := run[|run| - 1];
      assert run[..|run| - 1] + [x] == run;
      FailuresLeakNothing(cfg, st, run[..|run| - 1]);
      FailedSingle(cfg, st, x.a.r, x.now, x.later);
    }
  }
}
