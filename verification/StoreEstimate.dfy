/**
  The O(1) memory estimate of a scope against the full walk. The two differ by how far
  idKeyBytes lags behind the stored ids: never, except after /rebuild, which installs
  lists without it (bulk.go:312-317), and then only until a /warm or an emptying.
 */
module StoreEstimate {
  import opened Types
  import opened Sums
  import opened ScopeSpec
  import opened ScopeLaws
  import opened BufferSpec
  import opened StoreSpec
  import opened StoreLaws
  import opened StoreBulk
  import opened StoreWarm

  /** An operation carries the shortfall along, or clears it by emptying the scope. */
  lemma {:induction false} ApplyShortfall(env: Env, s: Scope, op: Op, now: int)
    requires WellFormed(s) && Apply(env, s, op, now).Changed?
    ensures var next := Apply(env, s, op, now).next;
      Shortfall(next) == if next.items == [] then 0 else Shortfall(s)
  {
    hide Apply, WellFormed, Sum, Drain, RemoveAt, Replace, Insert;
    ApplyShape(env, s, op, now);
    var next := Apply(env, s, op, now).next;
    if op.DeleteUpTo? && next == Drain(s, op.maxSeq) {
      DrainLaws(s, op.maxSeq);
    } else if i, body, ts :| 0 <= i < |s.items| && next == Replace(s, i, body, ts) {
      ReplaceCarries(s, i, body, ts);
    } else if i :| 0 <= i < |s.items| && next == RemoveAt(s, i) {
      RemoveLaws(s, i);
    } else {
      var id, body :| IndexOfId(s.items, id).None? && next == Insert(s, env.name, id, body, now);
      InsertCarries(s, env.name, id, body, now);
    }
  }

  lemma {:induction false} ReplaceCarries(s: Scope, i: nat, body: Body, ts: int)
    requires i < |s.items|
    ensures Shortfall(Replace(s, i, body, ts)) == Shortfall(s) && Replace(s, i, body, ts).items != []
  {
    hide Sum;
    ReplaceLaws(s, i, body, ts);
  }

  lemma {:induction false} InsertCarries(s: Scope, name: string, id: string, body: Body, now: int)
    ensures Shortfall(Insert(s, name, id, body, now)) == Shortfall(s) && Insert(s, name, id, body, now).items != []
  {
    hide Sum;
    InsertLaws(s, name, id, body, now);
  }

  // What one scope's shortfall becomes.
  ghost predicate Carries(before: Scope, after: Scope) {
    after == before || Shortfall(after) == if after.items == [] then 0 else Shortfall(before)
  }

  // A scope that was there carries its shortfall; a new one has none.
  ghost predicate StoreCarries(st: Store, st': Store) {
    forall n :: n in st'.scopes ==> Carries(OldScope(st.scopes, n), st'.scopes[n].scope)
  }

  lemma {:induction false} WriteCarries(cfg: Config, st: Store, r: Request, now: int)
    requires Good(cfg, st)
    ensures StoreCarries(st, Write(cfg, st, r, now).0)
  {
    hide Perform, Accepts, OpOf, Apply, Shortfall, WellFormed, Fits, Balanced;
    var (st', result) := Write(cfg, st, r, now);
    var name := r.scope;
    assert WellFormed(EMPTY_SCOPE) by { EmptyWellFormed(); }
    if !(result.Ok? && result.value.Some?) {
      FailureChangesNothing(cfg, st, r, now);
    } else if !r.DeleteScopeReq? {
      var st0 := if name in st.scopes then st else CreateScope(st, name, now);
      var op := OpOf(cfg, r);
      PerformMoves(EnvOf(cfg, name), SnapOf(st0, st0.scopes[name]), op, now);
      if st'.scopes[name].scope != st0.scopes[name].scope {
        ApplyShortfall(EnvOf(cfg, name), st0.scopes[name].scope, op, now);
      }
    }
  }

  lemma {:induction false} EmptyWellFormed()
    ensures WellFormed(EMPTY_SCOPE)
  {
  }

  lemma {:induction false} EmptyShort()
    ensures Shortfall(EMPTY_SCOPE) == 0
  {
    SumZero(EMPTY_SCOPE.items, IdSize);
  }

  // A write concerns one scope.
  lemma {:induction false} WriteOthers(cfg: Config, st: Store, r: Request, now: int, n: string)
    requires n != r.scope
    ensures var st' := Write(cfg, st, r, now).0;
      (n in st'.scopes <==> n in st.scopes) && (n in st.scopes ==> st'.scopes[n] == st.scopes[n])
  {
    hide Perform, Accepts, OpOf, Admits;
  }

  // What an emission does to the shortfalls: one regular append to _events, or nothing.
  lemma {:induction false} EmitCarries(cfg: Config, st: Store, e: WriteEvent, now: int)
    requires Good(cfg, st)
    ensures StoreCarries(st, Emit(cfg, st, e, now))
  {
    hide Good, Write, Carried, Shortfall, Scope.IdBytes;
    match cfg.codec.marshal(Carried(cfg, e))
    case None =>
    case Some(body) => WriteCarries(cfg, st, AppendReq(EVENTS, "", body, 0, 0), now);
  }

  /** Single operations carry each shortfall along, whatever they do, unless they empty the scope. */
  lemma {:induction false} ShortfallPersists(cfg: Config, st: Store, r: Request, now: int, later: int, n: string)
    requires Good(cfg, st) && cfg.maxItemBytes > 0 && n in Single(cfg, st, r, now, later).0.scopes
    ensures Carries(OldScope(st.scopes, n), Single(cfg, st, r, now, later).0.scopes[n].scope)
  {
    hide Good, Write, Emit, Shortfall, Scope.IdBytes, EventOf;
    WriteCarries(cfg, st, r, now);
    WriteGood(cfg, st, r, now);
    var (bare, result) := Write(cfg, st, r, now);
    if result.Ok? && result.value.Some? && EventsEnabled(cfg, r.scope) {
      var e := EventOf(r, result.value.value, later);
      if n == EVENTS {
        WriteOthers(cfg, st, r, now, n);
        EmitCarries(cfg, bare, e, later);
      } else {
        EmitBeside(cfg, bare, e, later);
      }
    }
  }

  /** A rebuilt scope is underestimated by exactly the ids it holds. */
  lemma {:induction false} RebuildFallsShort(cfg: Config, st: Store, batch: seq<Entry>, now: int)
    requires OneEntryEach(batch) && Rebuild(cfg, st, batch, now).1.Ok?
    ensures var st' := Rebuild(cfg, st, batch, now).0;
      forall n :: n in st'.scopes ==> Shortfall(st'.scopes[n].scope) == st'.scopes[n].scope.IdBytes()
  {
    hide Prepare, Sum, Install, Built;
    PreparedGood(cfg, batch, now);
    TargetsDistinct(cfg, batch, now);
    var bare := BareAll(TargetsOf(cfg, batch, now));
    InstallAt(map[], bare, now);
    var st' := Rebuild(cfg, st, batch, now).0;
    forall n | n in st'.scopes ensures st'.scopes[n].scope.idKeyBytes == 0 {
      if !IsReserved(n) {
        assert n in Install(map[], bare, now);
        var i :| 0 <= i < |bare| && bare[i].name == n;
      }
    }
  }

  ghost predicate Names(batch: seq<Entry>, n: string) {
    exists i :: 0 <= i < |batch| && batch[i].scope == n
  }

  /** /warm clears the shortfall of the scopes it names and carries every other. */
  lemma {:induction false} WarmClears(cfg: Config, st: Store, batch: seq<Entry>, now: int, later: int, n: string)
    requires Good(cfg, st) && OneEntryEach(batch) && cfg.maxItemBytes > 0
    requires n in Warm(cfg, st, batch, now, later).0.scopes
    ensures var (st', r) := Warm(cfg, st, batch, now, later);
      if r.Ok? && Names(batch, n) then Shortfall(st'.scopes[n].scope) == 0
      else Carries(OldScope(st.scopes, n), st'.scopes[n].scope)
  {
    hide Good, Prepare, Sum, Emit, Install, Built, Shortfall, Scope.IdBytes, AnyMalformed, OverfullNames, Malformed;
    WarmMeans(cfg, st, batch, now, later);
    var (st', r) := Warm(cfg, st, batch, now, later);
    if r.Ok? {
      if Names(batch, n) {
        var i :| 0 <= i < |batch| && batch[i].scope == n;
        BuiltExact(cfg.codec, ToIncoming(cfg.codec, batch[i].items), now);
      } else if n == EVENTS {
        PrepareMeans(cfg, batch, now);
        PreparedGood(cfg, batch, now);
        TargetsDistinct(cfg, batch, now);
        var targets := TargetsOf(cfg, batch, now);
        InstallAt(st.scopes, targets, now);
        assert forall i :: 0 <= i < |targets| ==> targets[i] == TargetOf(cfg, batch[i], now);
        WarmedGood(cfg, st, batch, now);
        EmitCarries(cfg, Warmed(cfg, st, targets, now), WarmEvent(later), later);
      }
    }
  }

  lemma {:induction false} BuiltExact(codec: Codec, ins: seq<Incoming>, now: int)
    ensures Shortfall(Built(codec, ins, now)) == 0
  {
    hide Sum;
  }

  lemma {:induction false} WipeClears(st: Store, now: int, n: string)
    requires n in Wipe(st, now).scopes
    ensures Shortfall(Wipe(st, now).scopes[n].scope) == 0
  {
    hide Sum, Shortfall, Scope.Bytes, Scope.IdBytes;
    EmptyShort();
  }

  // ---- any run ----

  /**
    What the estimate of a scope misses after a run, by its history: /rebuild makes it the
    ids then held; absence, an emptying, /wipe and a /warm of the scope make it nothing;
    anything else leaves it.
   */
  ghost function Missing(cfg: Config, run: seq<Timed>, n: string): int
    decreases |run|
  {
    if run == [] then 0
    else
      var before, x := run[..|run| - 1], run[|run| - 1];
      var st, st' := ActAll(cfg, BOOT, before), ActAll(cfg, BOOT, run);
      if n !in st'.scopes || st'.scopes[n].scope.items == [] then 0
      else match x.a
        case Do(_) => Missing(cfg, before, n)
        case DoWarm(batch) =>
          if Warm(cfg, st, batch, x.now, x.later).1.Ok? && Names(batch, n) then 0 else Missing(cfg, before, n)
        case DoWipe => 0
        case DoRebuild(batch) =>
          if Rebuild(cfg, st, batch, x.now).1.Ok? then st'.scopes[n].scope.IdBytes() else Missing(cfg, before, n)
  }

  // The shortfall a scope has, or 0 if there is none of that name.
  function ShortOf(st: Store, n: string): int {
    Shortfall(OldScope(st.scopes, n))
  }

  // One action, given that an empty scope misses nothing.
  lemma {:induction false} ActShortfall(cfg: Config, st: Store, x: Timed, n: string, missing: int)
    requires Good(cfg, st) && Walkable(x) && cfg.maxItemBytes > 0
    requires ShortOf(st, n) == missing && (OldScope(st.scopes, n).items == [] ==> missing == 0)
    ensures var st' := Act(cfg, st, x);
      ShortOf(st', n) ==
        if n !in st'.scopes || st'.scopes[n].scope.items == [] then 0
        else match x.a
          case Do(_) => missing
          case DoWarm(batch) => if Warm(cfg, st, batch, x.now, x.later).1.Ok? && Names(batch, n) then 0 else missing
          case DoWipe => 0
          case DoRebuild(batch) =>
            if Rebuild(cfg, st, batch, x.now).1.Ok? then st'.scopes[n].scope.IdBytes() else missing
  {
    hide Good, Single, Warm, Wipe, Rebuild, Shortfall, Scope.IdBytes, Scope.Bytes, Sum, Names;
    EmptyShort();
    var st' := Act(cfg, st, x);
    if n in st'.scopes {
      match x.a
      case Do(r) => ShortfallPersists(cfg, st, r, x.now, x.later, n);
      case DoWarm(batch) => WarmClears(cfg, st, batch, x.now, x.later, n);
      case DoWipe => WipeClears(st, x.now, n);
      case DoRebuild(batch) =>
        if Rebuild(cfg, st, batch, x.now).1.Ok? {
          RebuildFallsShort(cfg, st, batch, x.now);
          EmptyIds(st'.scopes[n].scope);
        } else {
          RefusedRebuild(cfg, st, batch, x.now);
        }
    }
  }

  lemma {:induction false} EmptyIds(s: Scope)
    ensures s.items == [] ==> s.IdBytes() == 0
  {
  }

  lemma {:induction false} RefusedRebuild(cfg: Config, st: Store, batch: seq<Entry>, now: int)
    requires Rebuild(cfg, st, batch, now).1.Err?
    ensures Rebuild(cfg, st, batch, now).0 == st
  {
    hide Prepare, Sum, Install;
  }

  /**
    After every run from boot the estimate of each scope falls short of the walk by exactly
    what its history says is missing: it is exact if and only if that is nothing.
   */
  lemma {:induction false} EstimateGap(cfg: Config, run: seq<Timed>, n: string)
    requires cfg.maxItemBytes > 0 && cfg.maxStoreBytes >= RESERVED_OVERHEAD
    requires forall i :: 0 <= i < |run| ==> Walkable(run[i])
    ensures ShortOf(ActAll(cfg, BOOT, run), n) == Missing(cfg, run, n)
    decreases |run|
  {
    hide Good, Act, Shortfall, Scope.IdBytes, Scope.Bytes, Sum, Warm, Rebuild, Names;
    if run == [] {
      BootShort(n);
    } else {
      var before, x := run[..|run| - 1], run[|run| - 1];
      var st := ActAll(cfg, BOOT, before);
      EstimateGap(cfg, before, n);
      RunGood(cfg, before);
      EmptyMissesNothing(cfg, before, n);
      ActShortfall(cfg, st, x, n, Missing(cfg, before, n));
    }
  }

  lemma {:induction false} EmptyMissesNothing(cfg: Config, run: seq<Timed>, n: string)
    ensures OldScope(ActAll(cfg, BOOT, run).scopes, n).items == [] ==> Missing(cfg, run, n) == 0
  {
    hide Act, Warm, Rebuild, Names, Scope.IdBytes;
  }

  lemma {:induction false} BootShort(n: string)
    ensures ShortOf(BOOT, n) == 0
  {
    hide Sum, Shortfall, Scope.Bytes, Scope.IdBytes;
    EmptyShort();
  }

  /** In particular on any run free of /rebuild it equals the walk for every scope. */
  lemma {:induction false} EstimateExact(cfg: Config, run: seq<Timed>)
    requires cfg.maxItemBytes > 0 && cfg.maxStoreBytes >= RESERVED_OVERHEAD
    requires forall i :: 0 <= i < |run| ==> Walkable(run[i]) && !run[i].a.DoRebuild?
    ensures forall n :: n in ActAll(cfg, BOOT, run).scopes ==> Shortfall(ActAll(cfg, BOOT, run).scopes[n].scope) == 0
  {
    hide Shortfall, ActAll, Missing;
    forall n | n in ActAll(cfg, BOOT, run).scopes ensures Shortfall(ActAll(cfg, BOOT, run).scopes[n].scope) == 0 {
      EstimateGap(cfg, run, n);
      NeverRebuilt(cfg, run, n);
    }
  }

  lemma {:induction false} NeverRebuilt(cfg: Config, run: seq<Timed>, n: string)
    requires forall i :: 0 <= i < |run| ==> !run[i].a.DoRebuild?
    ensures Missing(cfg, run, n) == 0
    decreases |run|
  {
    hide ActAll, Warm, Rebuild, Names, Scope.IdBytes;
    if run != [] { NeverRebuilt(cfg, run[..|run| - 1], n); }
  }
}
