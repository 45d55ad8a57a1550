/**
  Draining a reserved scope: GET /head, write the batch out, POST /delete_up_to its last
  seq, repeat (scripts/drain_events.sh), while the rest of the store goes on.
 */
module Drain {
  import opened Types
  import opened Sums
  import opened ScopeSpec
  import opened ScopeLaws
  import opened BufferSpec
  import opened StoreSpec
  import opened StoreLaws
  import opened StoreBulk
  import opened StoreWarm
  import opened StoreEvents

  // ---- what can happen to a reserved scope ----

  /** No request rewrites an item of a reserved scope, adds a counter to it, or deletes it. */
  lemma {:induction false} OnlyAppendsAndDeletes(cfg: Config, r: Request)
    requires Accepts(cfg, r) && IsReserved(r.scope)
    ensures r.AppendReq? || r.DeleteReq? || r.DeleteUpToReq?
  {
  }

  // The drainer is the only one who deletes here.
  predicate Undisturbed(x: Timed, name: string) {
    && Walkable(x)
    && (x.a.Do? && x.a.r.scope == name ==> !x.a.r.DeleteReq? && !x.a.r.DeleteUpToReq?)
  }

  predicate AllPlain(items: seq<Item>) {
    forall i :: 0 <= i < |items| ==> items[i].body.Plain?
  }

  // The scope kept its items and took new regular ones behind them.
  ghost predicate Grew(a: Scope, b: Scope) {
    && |a.items| <= |b.items| && b.items[..|a.items|] == a.items
    && (forall i :: |a.items| <= i < |b.items| ==> b.items[i].sq > a.lastSeq && b.items[i].body.Plain?)
    && a.lastSeq <= b.lastSeq
  }

  lemma {:induction false} GrewOn(a: Scope, b: Scope, c: Scope)
    requires Grew(a, b) && Grew(b, c)
    ensures Grew(a, c)
  {
    assert c.items[..|a.items|] == c.items[..|b.items|][..|a.items|];
    forall i | |a.items| <= i < |b.items| ensures c.items[i] == b.items[i] {
      assert c.items[..|b.items|][i] == b.items[i];
    }
  }

  lemma {:induction false} WriteGrows(cfg: Config, st: Store, r: Request, now: int, name: string)
    requires IsReserved(name) && name in st.scopes
    requires r.scope == name ==> !r.DeleteReq? && !r.DeleteUpToReq?
    ensures var st' := Write(cfg, st, r, now).0;
      name in st'.scopes && Grew(st.scopes[name].scope, st'.scopes[name].scope)
  {
    hide Perform, Accepts, OpOf, Insert;
    var (st', result) := Write(cfg, st, r, now);
    if !Effective(result) {
      FailureChangesNothing(cfg, st, r, now);
    } else if r.scope == name {
      EffectiveIsAccepted(cfg, st, r, now);
      OnlyAppendsAndDeletes(cfg, r);
      AppendShape(cfg, r);
      AppendLands(cfg, st, name, r.id, r.payload, now);
      InsertGrows(st.scopes[name].scope, name, r.id, Plain(r.payload, cfg.codec.decodeString(r.payload)), now);
    }
  }

  lemma {:induction false} EffectiveIsAccepted(cfg: Config, st: Store, r: Request, now: int)
    requires Effective(Write(cfg, st, r, now).1)
    ensures Accepts(cfg, r)
  {
    hide Accepts;
  }

  lemma {:induction false} AppendShape(cfg: Config, r: Request)
    requires r.AppendReq? && Accepts(cfg, r)
    ensures r == AppendReq(r.scope, r.id, r.payload, 0, 0)
  {
  }

  lemma {:induction false} InsertGrows(s: Scope, name: string, id: string, body: Body, now: int)
    requires body.Plain?
    ensures Grew(s, Insert(s, name, id, body, now))
  {
  }

  lemma {:induction false} EmitGrows(cfg: Config, st: Store, e: WriteEvent, now: int, name: string)
    requires IsReserved(name) && name in st.scopes
    ensures var st' := Emit(cfg, st, e, now); name in st'.scopes && Grew(st.scopes[name].scope, st'.scopes[name].scope)
  {
    hide Write, Carried;
    match cfg.codec.marshal(Carried(cfg, e))
    case None =>
    case Some(body) => WriteGrows(cfg, st, AppendReq(EVENTS, "", body, 0, 0), now, name);
  }

  // A /wipe, or a /rebuild that is not refused: every scope starts afresh.
  ghost predicate Struck(cfg: Config, st: Store, x: Timed) {
    x.a.DoWipe? || (x.a.DoRebuild? && Rebuild(cfg, st, x.a.batch, x.now).1.Ok?)
  }

  lemma {:induction false} StruckEmpty(cfg: Config, st: Store, x: Timed, name: string)
    requires IsReserved(name) && Struck(cfg, st, x)
    ensures var st' := Act(cfg, st, x); name in st'.scopes && st'.scopes[name].scope == EMPTY_SCOPE
  {
    hide Prepare, Sum, Install;
  }

  /** Whatever else goes on, a reserved scope only grows at its end. */
  lemma {:induction false} WorldGrows(cfg: Config, st: Store, x: Timed, name: string)
    requires IsReserved(name) && name in st.scopes && Undisturbed(x, name) && !Struck(cfg, st, x)
    ensures var st' := Act(cfg, st, x); name in st'.scopes && Grew(st.scopes[name].scope, st'.scopes[name].scope)
  {
    hide Write, Emit, Prepare, Sum, AnyMalformed, OverfullNames, Install, Malformed, Admits, EventOf, Grew;
    var s := st.scopes[name].scope;
    SelfGrew(s);
    match x.a
    case Do(r) =>
      WriteGrows(cfg, st, r, x.now, name);
      var (bare, plain) := Write(cfg, st, r, x.now);
      if Effective(plain) && EventsEnabled(cfg, r.scope) {
        var e := EventOf(r, plain.value.value, x.later);
        EmitGrows(cfg, bare, e, x.later, name);
        GrewOn(s, bare.scopes[name].scope, Emit(cfg, bare, e, x.later).scopes[name].scope);
      }
    case DoWarm(batch) =>
      PrepareMeans(cfg, batch, x.now);
      var targets := TargetsOf(cfg, batch, x.now);
      if WarmAccepted(cfg, st, batch, x.now) {
        TargetsDistinct(cfg, batch, x.now);
        InstallAt(st.scopes, targets, x.now);
        NoReservedEntries(cfg, batch);
        var st0 := Warmed(cfg, st, targets, x.now);
        assert forall i :: 0 <= i < |targets| ==> targets[i] == TargetOf(cfg, batch[i], x.now) && targets[i].name != name;
        assert name in st0.scopes && st0.scopes[name] == st.scopes[name];
        EmitGrows(cfg, st0, WarmEvent(x.later), x.later, name);
      }
    case DoRebuild(_) =>
  }

  lemma {:induction false} SelfGrew(s: Scope)
    ensures Grew(s, s)
  {
  }

  // ---- the drainer ----

  // stale: the store was reset between the read and the delete.
  datatype Phase = Heading | Dropping(last: nat, stale: bool)

  // Since the last reset: what the drainer put out, what its delete took unread, every item
  // the scope ever took, in order; and whether that reset came between a read and its delete.
  datatype State = State(
    st: Store, phase: Phase, written: seq<Item>, skipped: seq<Item>, history: seq<Item>, straddled: bool)

  datatype Step =
    | World(x: Timed)
    | Head(limit: nat)
    | Drop(now: int, later: int)

  ghost predicate Can(d: State, name: string, a: Step) {
    name in d.st.scopes &&
    match a
    case World(x) => Undisturbed(x, name)
    case Head(limit) => d.phase.Heading? && limit > 0
    case Drop(_, _) => d.phase.Dropping?
  }

  ghost function Take(cfg: Config, d: State, name: string, a: Step): State
    requires Can(d, name, a)
  {
    var items := d.st.scopes[name].scope.items;
    match a
    case World(x) =>
      var st' := Act(cfg, d.st, x);
      var items' := if name in st'.scopes then st'.scopes[name].scope.items else [];
      if Struck(cfg, d.st, x) then
        State(st', if d.phase.Dropping? then d.phase.(stale := true) else Heading, [], [], items', d.phase.Dropping?)
      else d.(st := st', history := d.history + if |items| <= |items'| then items'[|items|..] else [])
    case Head(limit) =>
      var batch := MaterialiseAll(Since(items, 0, limit).0);
      if batch == [] then d
      else d.(written := d.written + batch, phase := Dropping(batch[|batch| - 1].sq, false))
    case Drop(now, later) =>
      var st' := Single(cfg, d.st, DeleteUpToReq(name, d.phase.last), now, later).0;
      var left := if name in st'.scopes then |st'.scopes[name].scope.items| else 0;
      d.(st := st', phase := Heading,
         skipped := if d.phase.stale && left <= |items| then items[..|items| - left] else d.skipped)
  }

  ghost predicate Ok(d: State, name: string) {
    name in d.st.scopes &&
    var s := d.st.scopes[name].scope;
    && WellFormed(s) && AllPlain(s.items) && Ordered(d.history, s.lastSeq) && Fair(d)
    && match d.phase
       case Heading => d.skipped + d.written + s.items == d.history
       case Dropping(last, stale) =>
         last > 0 && if stale then d.skipped == d.written == [] && s.items == d.history
                     else d.skipped + d.written + Above(s.items, last) == d.history
  }

  // Without a reset between a read and its delete nothing is skipped.
  predicate Fair(d: State) {
    !d.straddled ==> d.skipped == [] && (d.phase.Dropping? ==> !d.phase.stale)
  }

  lemma {:induction false} GrownOk(a: Scope, b: Scope, last: nat)
    requires WellFormed(a) && WellFormed(b) && Grew(a, b) && AllPlain(a.items)
    ensures AllPlain(b.items) && b.items == a.items + b.items[|a.items|..]
    ensures last <= a.lastSeq ==> Above(b.items, last) == Above(a.items, last) + b.items[|a.items|..]
  {
    var more := b.items[|a.items|..];
    assert b.items == b.items[..|a.items|] + more;
    forall i | 0 <= i < |b.items| ensures b.items[i].body.Plain? {
      if i < |a.items| { assert b.items[..|a.items|][i] == a.items[i]; }
    }
    AboveConcat(a.items, more, last);
    if last <= a.lastSeq { AboveAll(more, last); }
  }

  lemma {:induction false} SinceZero(s: Scope, limit: nat)
    requires WellFormed(s) && AllPlain(s.items) && limit > 0
    ensures var batch := MaterialiseAll(Since(s.items, 0, limit).0);
            var k := if |s.items| < limit then |s.items| else limit;
      && |batch| == k && batch == s.items[..k]
      && (k > 0 ==> batch[k - 1].sq > 0 && Above(s.items, batch[k - 1].sq) == s.items[k..])
  {
    hide Above, Since, MaterialiseAll;
    var k := if |s.items| < limit then |s.items| else limit;
    ReadsPlain(s.items, limit);
    if k > 0 { AboveIsSuffix(s.items, k, s.items[k - 1].sq); }
  }

  lemma {:induction false} ReadsPlain(items: seq<Item>, limit: nat)
    requires AllPlain(items) && limit > 0 && forall i :: 0 <= i < |items| ==> items[i].sq > 0
    ensures MaterialiseAll(Since(items, 0, limit).0) == items[..if |items| < limit then |items| else limit]
  {
    AboveAll(items, 0);
  }

  // What delete_up_to leaves: exactly the items above its cursor.
  lemma {:induction false} DropWrites(cfg: Config, st: Store, name: string, last: nat, now: int)
    requires IsReserved(name) && name in st.scopes && cfg.codec.nameOk(name) && last > 0
    requires WellFormed(st.scopes[name].scope)
    ensures var st' := Write(cfg, st, DeleteUpToReq(name, last), now).0;
      && name in st'.scopes
      && st'.scopes[name].scope.items == Above(st.scopes[name].scope.items, last)
      && st'.scopes[name].scope.lastSeq == st.scopes[name].scope.lastSeq
  {
    hide Sum, Above, Apply, Perform, WellFormed;
    var s := st.scopes[name].scope;
    var k := CutOf(s, last);
    PerformDrain(EnvOf(cfg, name), SnapOf(st, st.scopes[name]), last, k, now);
    DrainLaws(s, last);
    if k == 0 { assert s.items[0..] == s.items; }
  }

  lemma {:induction false} CutOf(s: Scope, last: nat) returns (k: nat)
    requires WellFormed(s)
    ensures k <= |s.items| && Above(s.items, last) == s.items[k..]
  {
    k := CutPoint(s.items, last);
  }

  lemma {:induction false} DropLeaves(cfg: Config, st: Store, name: string, last: nat, now: int, later: int)
    requires IsReserved(name) && name in st.scopes && cfg.codec.nameOk(name) && last > 0
    requires WellFormed(st.scopes[name].scope)
    ensures var st' := Single(cfg, st, DeleteUpToReq(name, last), now, later).0;
      && name in st'.scopes
      && st'.scopes[name].scope.items == Above(st.scopes[name].scope.items, last)
      && st'.scopes[name].scope.lastSeq == st.scopes[name].scope.lastSeq
  {
    hide Write, Emit, WellFormed, Above, EventOf;
    var r := DeleteUpToReq(name, last);
    DropWrites(cfg, st, name, last, now);
    var (bare, plain) := Write(cfg, st, r, now);
    if Effective(plain) && EventsEnabled(cfg, name) {
      EmitBeside(cfg, bare, EventOf(r, plain.value.value, later), later);
    }
  }

  // Unless stale, the cursor a drainer holds lies within what the scope has handed out.
  predicate Within(d: State, name: string) {
    d.phase.Dropping? && !d.phase.stale && name in d.st.scopes ==> d.phase.last <= d.st.scopes[name].scope.lastSeq
  }

  // The order of every scope survives any action.
  ghost predicate Orderly(cfg: Config, d: State) {
    Good(cfg, d.st) && cfg.maxItemBytes > 0 && cfg.maxStoreBytes >= RESERVED_OVERHEAD
  }

  lemma {:induction false} OrderlyScope(cfg: Config, st: Store, name: string)
    requires Good(cfg, st) && name in st.scopes
    ensures WellFormed(st.scopes[name].scope)
  {
  }

  lemma {:induction false} WorldOk(cfg: Config, d: State, name: string, x: Timed)
    requires Orderly(cfg, d) && Ok(d, name) && IsReserved(name) && Can(d, name, World(x))
    requires Within(d, name) && !Struck(cfg, d.st, x)
    ensures Ok(Take(cfg, d, name, World(x)), name)
  {
    hide Struck, Good, Act, WellFormed, Grew, AllPlain, Above, Ordered;
    var a := d.st.scopes[name].scope;
    WorldGrows(cfg, d.st, x, name);
    ActGood(cfg, d.st, x);
    var b := Act(cfg, d.st, x).scopes[name].scope;
    OrderlyScope(cfg, Act(cfg, d.st, x), name);
    GrownLonger(a, b);
    GrownOrdered(d.history, a, b);
    GrownOk(a, b, if d.phase.Dropping? then d.phase.last else 0);
  }

  lemma {:induction false} GrownOrdered(history: seq<Item>, a: Scope, b: Scope)
    requires Ordered(history, a.lastSeq) && Grew(a, b) && WellFormed(b)
    ensures Ordered(history + b.items[|a.items|..], b.lastSeq)
  {
    var more := b.items[|a.items|..];
    assert forall i :: 0 <= i < |more| ==> more[i] == b.items[|a.items| + i];
  }

  lemma {:induction false} GrownLonger(a: Scope, b: Scope)
    requires Grew(a, b)
    ensures |a.items| <= |b.items| && a.lastSeq <= b.lastSeq
  {
  }

  lemma {:induction false} HeadOk(cfg: Config, d: State, name: string, limit: nat)
    requires Ok(d, name) && Can(d, name, Head(limit))
    ensures var d' := Take(cfg, d, name, Head(limit)); d'.st == d.st && Ok(d', name) && Within(d', name)
  {
    hide WellFormed, Above, Since, MaterialiseAll, AllPlain, Ordered, Fair;
    var s := d.st.scopes[name].scope;
    SinceZero(s, limit);
    var k := if |s.items| < limit then |s.items| else limit;
    Regroup(d.skipped, d.written, s.items, k);
    FairOn(d, Take(cfg, d, name, Head(limit)));
    if k > 0 { LastWithin(s, k - 1); }
  }

  lemma {:induction false} Regroup(a: seq<Item>, b: seq<Item>, c: seq<Item>, k: nat)
    requires k <= |c|
    ensures a + (b + c[..k]) + c[k..] == a + b + c
  {
  }

  lemma {:induction false} FairOn(d: State, d': State)
    requires Fair(d) && d'.straddled == d.straddled && d'.skipped == d.skipped
    requires d'.phase == d.phase || (d'.phase.Dropping? && !d'.phase.stale)
    ensures Fair(d')
  {
  }

  lemma {:induction false} DropOk(cfg: Config, d: State, name: string, now: int, later: int)
    requires Orderly(cfg, d) && Ok(d, name) && Can(d, name, Drop(now, later))
    requires IsReserved(name) && cfg.codec.nameOk(name)
    ensures var d' := Take(cfg, d, name, Drop(now, later)); Orderly(cfg, d') && Ok(d', name)
  {
    hide Good, WellFormed, Single, Above, Ordered;
    var s, last := d.st.scopes[name].scope, d.phase.last;
    DropLeaves(cfg, d.st, name, last, now, later);
    SingleGood(cfg, d.st, DeleteUpToReq(name, last), now, later);
    OrderlyScope(cfg, Single(cfg, d.st, DeleteUpToReq(name, last), now, later).0, name);
    var k := CutAt(s, last);
  }

  /** Each step keeps the skipped, the written and the remaining items equal to the history. */
  lemma {:induction false} StepOk(cfg: Config, d: State, name: string, a: Step)
    requires Orderly(cfg, d) && Ok(d, name) && Within(d, name) && Can(d, name, a)
    requires IsReserved(name) && cfg.codec.nameOk(name)
    ensures var d' := Take(cfg, d, name, a); Orderly(cfg, d') && Ok(d', name) && Within(d', name)
  {
    hide Good, Act, WellFormed, Grew, Single, Ok, Struck;
    OkThere(d, name);
    match a
    case World(x) =>
      ActGood(cfg, d.st, x);
      if Struck(cfg, d.st, x) {
        StruckOk(cfg, d, name, x);
      } else {
        WorldOk(cfg, d, name, x);
        WorldGrows(cfg, d.st, x, name);
        GrownLonger(d.st.scopes[name].scope, Act(cfg, d.st, x).scopes[name].scope);
      }
    case Head(limit) => HeadOk(cfg, d, name, limit);
    case Drop(now, later) => DropOk(cfg, d, name, now, later);
  }

  lemma {:induction false} OkThere(d: State, name: string)
    requires Ok(d, name)
    ensures name in d.st.scopes && WellFormed(d.st.scopes[name].scope)
  {
  }

  // After a reset everything starts over; a delete still to come is stale.
  lemma {:induction false} StruckOk(cfg: Config, d: State, name: string, x: Timed)
    requires Ok(d, name) && IsReserved(name) && Can(d, name, World(x)) && Struck(cfg, d.st, x)
    ensures var d' := Take(cfg, d, name, World(x)); Ok(d', name) && Within(d', name)
  {
    hide Act, Struck;
    StruckEmpty(cfg, d.st, x, name);
  }

  /**
    A delete that a reset has overtaken takes exactly the items the new buffer has handed
    seqs up to its cursor, and the drainer has read none of them.
   */
  lemma {:induction false} StaleDropSkips(cfg: Config, d: State, name: string, now: int, later: int)
    requires Orderly(cfg, d) && Ok(d, name) && IsReserved(name) && cfg.codec.nameOk(name)
    requires Can(d, name, Drop(now, later)) && d.phase.stale
    ensures var d' := Take(cfg, d, name, Drop(now, later));
      && name in d'.st.scopes && d'.written == []
      && d'.skipped + d'.st.scopes[name].scope.items == d.history
      && (forall i :: 0 <= i < |d'.skipped| ==> d'.skipped[i].sq <= d.phase.last)
      && (forall i :: 0 <= i < |d'.st.scopes[name].scope.items| ==> d'.st.scopes[name].scope.items[i].sq > d.phase.last)
  {
    hide Good, WellFormed, Single, Above, AllPlain;
    var s := d.st.scopes[name].scope;
    OrderlyScope(cfg, d.st, name);
    DropLeaves(cfg, d.st, name, d.phase.last, now, later);
    var k := CutAt(s, d.phase.last);
  }

  lemma {:induction false} CutAt(s: Scope, last: nat) returns (k: nat)
    requires WellFormed(s)
    ensures k <= |s.items| && Above(s.items, last) == s.items[k..] && s.items == s.items[..k] + s.items[k..]
    ensures forall i :: 0 <= i < k ==> s.items[i].sq <= last
    ensures forall i :: k <= i < |s.items| ==> s.items[i].sq > last
  {
    k := CutPoint(s.items, last);
  }

  lemma {:induction false} LastWithin(s: Scope, i: nat)
    requires WellFormed(s) && i < |s.items|
    ensures s.items[i].sq <= s.lastSeq
  {
  }

  // ---- runs ----

  ghost function Exec(cfg: Config, d: State, name: string, run: seq<Step>): Option<State>
    decreases |run|
  {
    if run == [] then Some(d)
    else match Exec(cfg, d, name, run[..|run| - 1])
      case Some(m) => if Can(m, name, run[|run| - 1]) then Some(Take(cfg, m, name, run[|run| - 1])) else None
      case None => None
  }

  // The drainer starts on a scope with nothing written yet.
  ghost predicate Start(d: State, name: string) {
    && name in d.st.scopes && AllPlain(d.st.scopes[name].scope.items)
    && d.phase == Heading && d.written == d.skipped == [] && !d.straddled
    && d.history == d.st.scopes[name].scope.items
  }

  lemma {:induction false} RunOk(cfg: Config, d: State, name: string, run: seq<Step>)
    requires Orderly(cfg, d) && Start(d, name) && IsReserved(name) && cfg.codec.nameOk(name)
    ensures Exec(cfg, d, name, run).Some? ==>
      var r := Exec(cfg, d, name, run).value; Orderly(cfg, r) && Ok(r, name) && Within(r, name)
    decreases |run|
  {
    hide Can, Take, Orderly, Ok, Within;
    if run == [] {
      StartOk(cfg, d, name);
    } else {
      RunOk(cfg, d, name, run[..|run| - 1]);
      if Exec(cfg, d, name, run).Some? {
        StepOk(cfg, Exec(cfg, d, name, run[..|run| - 1]).value, name, run[|run| - 1]);
      }
    }
  }

  lemma {:induction false} StartOk(cfg: Config, d: State, name: string)
    requires Orderly(cfg, d) && Start(d, name)
    ensures Ok(d, name) && Within(d, name)
  {
    hide Good, AllPlain;
    OrderlyScope(cfg, d.st, name);
    assert [] + [] + d.st.scopes[name].scope.items == d.st.scopes[name].scope.items;
  }

  /**
    Exactly once, in seq order, from each reset to the next, whatever is appended meanwhile
    and whatever happens to other scopes: the written items are a prefix of everything the
    scope has taken, and between batches exactly the rest is still stored, content unchanged.
    Only if the reset came between a read and its delete do skipped items come first.
   */
  lemma {:induction false} DrainedExactlyOnce(cfg: Config, d: State, name: string, run: seq<Step>)
    requires Orderly(cfg, d) && Start(d, name) && IsReserved(name) && cfg.codec.nameOk(name)
    requires Exec(cfg, d, name, run).Some?
    ensures var r := Exec(cfg, d, name, run).value;
      && name in r.st.scopes && r.skipped + r.written <= r.history
      && (!r.straddled ==> r.skipped == [])
      && (forall i, j :: 0 <= i < j < |r.history| ==> r.history[i].sq < r.history[j].sq)
      && (r.phase.Heading? ==> r.skipped + r.written + r.st.scopes[name].scope.items == r.history)
  {
    hide Exec, WellFormed;
    RunOk(cfg, d, name, run);
  }

  // ---- a reset between a read and its delete ----

  function Straddling(name: string, p: Bytes, now: int): seq<Step> {
    [Head(1), World(Timed(DoWipe, now, now)), World(Timed(Do(AppendReq(name, "", p, 0, 0)), now, now)), Drop(now, now)]
  }

  // What an append puts into a scope that a /wipe has just emptied.
  lemma {:induction false} AppendAfterWipe(cfg: Config, st: Store, name: string, p: Bytes, now: int)
    requires IsReserved(name) && cfg.codec.nameOk(name) && cfg.codec.payloadOk(p) && cfg.codec.decodeString(p) == None
    requires 48 + |name| + |p| <= cfg.MaxItemBytesFor(name) && RESERVED_OVERHEAD + 48 + |name| + |p| <= cfg.maxStoreBytes
    ensures var st' := Single(cfg, Wipe(st, now), AppendReq(name, "", p, 0, 0), now, now).0;
      name in st'.scopes && st'.scopes[name].scope.items == [Item(name, "", 1, now, Plain(p, None))]
  {
    hide Write, Emit, EventOf;
    var empty, r := Wipe(st, now), AppendReq(name, "", p, 0, 0);
    AppendAdmitted(cfg, empty, name, p, now);
    var (bare, plain) := Write(cfg, empty, r, now);
    if EventsEnabled(cfg, name) { EmitBeside(cfg, bare, EventOf(r, plain.value.value, now), now); }
  }

  /** The drainer reads one item, the store is wiped, one more item arrives: the delete takes it unread. */
  lemma {:induction false} StraddlingLoses(cfg: Config, d: State, name: string, p: Bytes, now: int)
    requires Orderly(cfg, d) && Start(d, name) && d.history != [] && IsReserved(name)
    requires cfg.codec.nameOk(name) && cfg.codec.payloadOk(p) && cfg.codec.decodeString(p) == None
    requires 48 + |name| + |p| <= cfg.MaxItemBytesFor(name) && RESERVED_OVERHEAD + 48 + |name| + |p| <= cfg.maxStoreBytes
    ensures Exec(cfg, d, name, Straddling(name, p, now)).Some?
    ensures var r := Exec(cfg, d, name, Straddling(name, p, now)).value;
      && r.skipped == [Item(name, "", 1, now, Plain(p, None))] && r.written == []
      && name in r.st.scopes && r.st.scopes[name].scope.items == []
  {
    hide Take, Can, Ok, Orderly, Within, Start, Wipe;
    var run := Straddling(name, p, now);
    var one, two, three := [run[0]], [run[0], run[1]], [run[0], run[1], run[2]];
    assert one == [] + [run[0]] && two == one + [run[1]] && three == two + [run[2]] && run == three + [run[3]];
    FirstRead(cfg, d, name);
    ExecOn(cfg, d, name, [], run[0], d);
    var d1 := Take(cfg, d, name, run[0]);
    Overtaken(cfg, d1, name, p, now);
    ExecOn(cfg, d, name, one, run[1], d1);
    var d2 := Take(cfg, d1, name, run[1]);
    ExecOn(cfg, d, name, two, run[2], d2);
    var d3 := Take(cfg, d2, name, run[2]);
    ExecOn(cfg, d, name, three, run[3], d3);
    RunOk(cfg, d, name, three);
    StaleDropSkips(cfg, d3, name, now, now);
    OneSkipped(cfg, d3, name, Take(cfg, d3, name, run[3]));
  }

  lemma {:induction false} ExecOn(cfg: Config, d: State, name: string, run: seq<Step>, a: Step, m: State)
    requires Exec(cfg, d, name, run) == Some(m) && Can(m, name, a)
    ensures Exec(cfg, d, name, run + [a]) == Some(Take(cfg, m, name, a))
  {
    hide Take, Can;
    assert (run + [a])[..|run|] == run;
  }

  // The wipe makes the delete stale, and the append puts the one item it will find.
  lemma {:induction false} Overtaken(cfg: Config, d: State, name: string, p: Bytes, now: int)
    requires name in d.st.scopes && d.phase.Dropping? && d.phase.last > 0 && IsReserved(name)
    requires cfg.codec.nameOk(name) && cfg.codec.payloadOk(p) && cfg.codec.decodeString(p) == None
    requires 48 + |name| + |p| <= cfg.MaxItemBytesFor(name) && RESERVED_OVERHEAD + 48 + |name| + |p| <= cfg.maxStoreBytes
    ensures var run := Straddling(name, p, now);
      && Can(d, name, run[1])
      && var d2 := Take(cfg, d, name, run[1]);
         && Can(d2, name, run[2])
         && var d3 := Take(cfg, d2, name, run[2]);
            && Can(d3, name, run[3]) && d3.phase == Dropping(d.phase.last, true)
            && d3.history == [Item(name, "", 1, now, Plain(p, None))]
  {
    hide Single, Wipe;
    StruckEmpty(cfg, d.st, Timed(DoWipe, now, now), name);
    AppendAfterWipe(cfg, d.st, name, p, now);
  }

  // A single item with seq 1 is within any cursor.
  lemma {:induction false} OneSkipped(cfg: Config, d: State, name: string, d': State)
    requires d.phase.Dropping? && d.phase.last > 0 && |d.history| == 1 && d.history[0].sq == 1
    requires name in d'.st.scopes && d'.skipped + d'.st.scopes[name].scope.items == d.history
    requires forall i :: 0 <= i < |d'.st.scopes[name].scope.items| ==> d'.st.scopes[name].scope.items[i].sq > d.phase.last
    ensures d'.skipped == d.history && d'.st.scopes[name].scope.items == []
  {
  }

  lemma {:induction false} FirstRead(cfg: Config, d: State, name: string)
    requires Orderly(cfg, d) && Start(d, name) && d.history != []
    ensures Can(d, name, Head(1))
    ensures var d' := Take(cfg, d, name, Head(1));
      && d'.st == d.st && name in d'.st.scopes
      && d'.phase.Dropping? && !d'.phase.stale && d'.phase.last > 0
  {
    hide Good, AllPlain, Above, Since, MaterialiseAll, WellFormed;
    OrderlyScope(cfg, d.st, name);
    SinceZero(d.st.scopes[name].scope, 1);
  }

  // ---- the loop comes to an end ----

  // Reads and deletes of the drainer only.
  predicate OnlyDrains(run: seq<Step>) {
    forall i :: 0 <= i < |run| ==> run[i].Head? || run[i].Drop?
  }

  lemma {:induction false} ExecJoins(cfg: Config, d: State, name: string, run: seq<Step>, more: seq<Step>)
    requires Exec(cfg, d, name, run).Some?
    ensures Exec(cfg, d, name, run + more) == Exec(cfg, Exec(cfg, d, name, run).value, name, more)
    decreases |more|
  {
    hide Can, Take;
    if more == [] {
      assert run + more == run;
    } else {
      ExecJoins(cfg, d, name, run, more[..|more| - 1]);
      assert (run + more)[..|run + more| - 1] == run + more[..|more| - 1];
    }
  }

  // One round: the first items are written out and deleted.
  lemma {:induction false} OneRound(cfg: Config, d: State, name: string, limit: nat, now: int)
    requires Orderly(cfg, d) && Ok(d, name) && Within(d, name) && d.phase.Heading? && limit > 0
    requires IsReserved(name) && cfg.codec.nameOk(name) && d.st.scopes[name].scope.items != []
    ensures var items := d.st.scopes[name].scope.items;
            var k := if |items| < limit then |items| else limit;
            var end := Exec(cfg, d, name, [Head(limit), Drop(now, now)]);
      && end.Some? && var r := end.value;
      && Orderly(cfg, r) && Ok(r, name) && Within(r, name) && r.phase.Heading?
      && r.st.scopes[name].scope.items == items[k..] && r.written == d.written + items[..k] && r.skipped == d.skipped
  {
    hide Orderly, Ok, Within, Single, Since, MaterialiseAll, WellFormed, Above, AllPlain;
    OkParts(d, name);
    var s := d.st.scopes[name].scope;
    SinceZero(s, limit);
    StepOk(cfg, d, name, Head(limit));
    var d1 := Take(cfg, d, name, Head(limit));
    OrderlyName(cfg, d1, name);
    DropLeaves(cfg, d1.st, name, d1.phase.last, now, now);
    StepOk(cfg, d1, name, Drop(now, now));
    var run := [Head(limit), Drop(now, now)];
    assert run == [Head(limit)] + [Drop(now, now)] && [] + [Head(limit)] == [Head(limit)];
    ExecOn(cfg, d, name, [], Head(limit), d);
    ExecOn(cfg, d, name, [Head(limit)], Drop(now, now), d1);
  }

  lemma {:induction false} OkParts(d: State, name: string)
    requires Ok(d, name)
    ensures name in d.st.scopes && WellFormed(d.st.scopes[name].scope) && AllPlain(d.st.scopes[name].scope.items)
  {
    hide WellFormed, AllPlain;
  }

  lemma {:induction false} OrderlyName(cfg: Config, d: State, name: string)
    requires Orderly(cfg, d) && name in d.st.scopes
    ensures WellFormed(d.st.scopes[name].scope)
  {
    hide WellFormed;
    hide Good;
    OrderlyScope(cfg, d.st, name);
  }

  // The run writes out these items and leaves nothing stored.
  ghost predicate DrainedBy(cfg: Config, d: State, name: string, run: seq<Step>, items: seq<Item>) {
    OnlyDrains(run) && Exec(cfg, d, name, run).Some? &&
    var r := Exec(cfg, d, name, run).value;
    && name in r.st.scopes && r.st.scopes[name].scope.items == [] && r.phase.Heading? && r.written == d.written + items
  }

  /** Left to itself the loop ends, with everything that was there written out in order and nothing stored. */
  lemma {:induction false} DrainsAll(cfg: Config, d: State, name: string, limit: nat, now: int)
    requires Orderly(cfg, d) && Ok(d, name) && Within(d, name) && d.phase.Heading? && limit > 0
    requires IsReserved(name) && cfg.codec.nameOk(name)
    ensures exists run :: DrainedBy(cfg, d, name, run, d.st.scopes[name].scope.items)
    decreases |d.st.scopes[name].scope.items|
  {
    hide Orderly, Ok, Within, Exec;
    OkParts(d, name);
    var items := d.st.scopes[name].scope.items;
    if items == [] {
      NoRound(cfg, d, name);
    } else {
      var round := [Head(limit), Drop(now, now)];
      OneRound(cfg, d, name, limit, now);
      var r := Exec(cfg, d, name, round).value;
      OkParts(r, name);
      DrainsAll(cfg, r, name, limit, now);
      var rest :| DrainedBy(cfg, r, name, rest, r.st.scopes[name].scope.items);
      ExecJoins(cfg, d, name, round, rest);
      var k := if |items| < limit then |items| else limit;
      assert items == items[..k] + items[k..];
      assert DrainedBy(cfg, d, name, round + rest, items);
    }
  }

  lemma {:induction false} NoRound(cfg: Config, d: State, name: string)
    requires name in d.st.scopes && d.st.scopes[name].scope.items == [] && d.phase.Heading?
    ensures exists run :: DrainedBy(cfg, d, name, run, [])
  {
    var none: seq<Step> := [];
    assert Exec(cfg, d, name, none) == Some(d) && d.written == d.written + [];
    assert DrainedBy(cfg, d, name, none, []);
  }
}
