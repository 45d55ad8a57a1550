/**
  Counters under contention (buffer_counter.go): increments share the scope's read lock,
  everything that installs, replaces or removes a cell takes the write lock. Cas shows
  that each compare-and-swap loop acts at one instant; here that instant is one step.
 */
module Counters {
  import opened Types

  // base: 0 for a counter that counter_add created, the parsed payload for a promoted item.
  datatype Cell = Cell(value: int, ts: int, base: int)

  // What the id leads to: an item without a cell, with its payload if that parses, or a cell.
  datatype Entry = Regular(number: Option<int>) | Live(cell: nat)

  datatype Pc =
    | Idle
    | Fast(id: string, inc: int)                  // read lock held, item not looked up yet
    | Added(id: string, cell: nat)                // read lock held, value added, ts not yet raised
    | Slow(id: string, inc: int)                  // waits for the write lock

  // One accepted counter_add, and the value it answered with.
  datatype Accept = Accept(id: string, cell: nat, inc: int, value: int)

  datatype State = State(cells: seq<Cell>, slots: map<string, Entry>, threads: seq<Pc>, log: seq<Accept>)

  datatype Step =
    | Begin(id: string, inc: int)
    | Look
    | Stamp(now: int)
    | Write(now: int, room: bool)                 // counterAddSlow; room: caps let it install a cell
    | Put(id: string, number: Option<int>)        // append, upsert or update of a regular payload
    | Remove(id: string)

  predicate Reading(pc: Pc) {
    pc.Fast? || pc.Added?
  }

  ghost predicate NoReaders(s: State) {
    forall t :: 0 <= t < |s.threads| ==> !Reading(s.threads[t])
  }

  ghost predicate Can(s: State, t: nat, a: Step) {
    t < |s.threads| &&
    match a
    case Begin(id, inc) => s.threads[t].Idle? && InCounterRange(inc)
    case Look => s.threads[t].Fast?
    case Stamp(_) => s.threads[t].Added? && s.threads[t].cell < |s.cells|
    case Write(_, _) => s.threads[t].Slow? && NoReaders(s)
    case Put(_, _) => s.threads[t].Idle? && NoReaders(s)
    case Remove(_) => s.threads[t].Idle? && NoReaders(s)
  }

  predicate LiveAt(s: State, id: string) {
    id in s.slots && s.slots[id].Live? && s.slots[id].cell < |s.cells|
  }

  function At(s: State, t: nat, pc: Pc): State
    requires t < |s.threads|
  {
    s.(threads := s.threads[t := pc])
  }

  // atomicCounterAdd's value loop.
  function AddTo(s: State, id: string, inc: int): State
    requires LiveAt(s, id)
  {
    var c := s.slots[id].cell;
    var next := s.cells[c].value + inc;
    if InCounterRange(next) then
      s.(cells := s.cells[c := s.cells[c].(value := next)], log := s.log + [Accept(id, c, inc, next)])
    else s
  }

  function Raise(s: State, c: nat, now: int): State
    requires c < |s.cells|
  {
    s.(cells := s.cells[c := s.cells[c].(ts := Max(s.cells[c].ts, now))])
  }

  // A new cell, pre-loaded with its first increment.
  function Install(s: State, id: string, base: int, inc: int, now: int): State {
    s.(cells := s.cells + [Cell(base + inc, now, base)],
       slots := s.slots[id := Live(|s.cells|)],
       log := s.log + [Accept(id, |s.cells|, inc, base + inc)])
  }

  function SlowAdd(s: State, id: string, inc: int, now: int, room: bool): State {
    if id !in s.slots then (if room then Install(s, id, 0, inc, now) else s)
    else match s.slots[id]
      case Live(c) =>
        if c >= |s.cells| then s
        else
          var s' := AddTo(s, id, inc);
          if InCounterRange(s.cells[c].value + inc) then Raise(s', c, now) else s'
      case Regular(None) => s
      case Regular(Some(v)) =>
        if InCounterRange(v) && InCounterRange(v + inc) && room then Install(s, id, v, inc, now) else s
  }

  ghost function Take(s: State, t: nat, a: Step): State
    requires Can(s, t, a)
  {
    match a
    case Begin(id, inc) => At(s, t, Fast(id, inc))
    case Look =>
      var Fast(id, inc) := s.threads[t];
      if !LiveAt(s, id) then At(s, t, Slow(id, inc))
      else if InCounterRange(s.cells[s.slots[id].cell].value + inc) then
        At(AddTo(s, id, inc), t, Added(id, s.slots[id].cell))
      else At(s, t, Idle)
    case Stamp(now) => At(Raise(s, s.threads[t].cell, now), t, Idle)
    case Write(now, room) => At(SlowAdd(s, s.threads[t].id, s.threads[t].inc, now, room), t, Idle)
    case Put(id, number) => s.(slots := s.slots[id := Regular(number)])
    case Remove(id) => s.(slots := s.slots - {id})
  }

  // ---- the invariant ----

  /** What the accepted increments on one cell come to. */
  function Tally(log: seq<Accept>, c: nat): int {
    if log == [] then 0
    else Tally(log[..|log| - 1], c) + if log[|log| - 1].cell == c then log[|log| - 1].inc else 0
  }

  ghost predicate CellOk(s: State, c: nat)
    requires c < |s.cells|
  {
    s.cells[c].value == s.cells[c].base + Tally(s.log, c) && InCounterRange(s.cells[c].value)
  }

  ghost predicate Unshared(s: State) {
    && (forall id :: id in s.slots && s.slots[id].Live? ==> s.slots[id].cell < |s.cells|)
    && (forall a, b :: a in s.slots && b in s.slots && a != b && s.slots[a].Live? && s.slots[b].Live?
          ==> s.slots[a].cell != s.slots[b].cell)
  }

  // A reader past its add still finds its cell under the id: nobody can strip it meanwhile.
  ghost predicate ThreadOk(s: State, t: nat)
    requires t < |s.threads|
  {
    match s.threads[t]
    case Added(id, c) => LiveAt(s, id) && s.slots[id].cell == c
    case Fast(_, inc) => InCounterRange(inc)
    case Slow(_, inc) => InCounterRange(inc)
    case _ => true
  }

  ghost predicate Ok(s: State) {
    && Unshared(s)
    && (forall c :: 0 <= c < |s.cells| ==> CellOk(s, c))
    && (forall t :: 0 <= t < |s.threads| ==> ThreadOk(s, t))
    && (forall i :: 0 <= i < |s.log| ==> s.log[i].cell < |s.cells|)
  }

  lemma {:induction false} TallyAppend(log: seq<Accept>, e: Accept, c: nat)
    ensures Tally(log + [e], c) == Tally(log, c) + if e.cell == c then e.inc else 0
  {
    assert (log + [e])[..|log|] == log;
  }

  lemma {:induction false} TallyUnused(log: seq<Accept>, c: nat)
    requires forall i :: 0 <= i < |log| ==> log[i].cell < c
    ensures Tally(log, c) == 0
  {
    if log != [] { TallyUnused(log[..|log| - 1], c); }
  }

  // The effect of one step on cells and log, whatever thread took it.
  datatype Effect =
    | Same
    | Mark(id: string, c: nat, ts: int)
    | Bump(id: string, c: nat, inc: int, ts: int)
    | Grow(id: string, base: int, inc: int, ts: int)

  ghost predicate Does(s: State, s': State, e: Effect) {
    match e
    case Same => s'.cells == s.cells && s'.log == s.log
    case Mark(id, c, ts) =>
      && LiveAt(s, id) && s.slots[id].cell == c && ts >= s.cells[c].ts
      && s'.cells == s.cells[c := s.cells[c].(ts := ts)] && s'.log == s.log
    case Bump(id, c, inc, ts) =>
      && LiveAt(s, id) && s.slots[id].cell == c && ts >= s.cells[c].ts && InCounterRange(s.cells[c].value + inc)
      && s'.cells == s.cells[c := s.cells[c].(value := s.cells[c].value + inc, ts := ts)]
      && s'.log == s.log + [Accept(id, c, inc, s.cells[c].value + inc)]
    case Grow(id, base, inc, ts) =>
      && InCounterRange(base + inc) && s'.cells == s.cells + [Cell(base + inc, ts, base)]
      && s'.log == s.log + [Accept(id, |s.cells|, inc, base + inc)]
  }

  /** Every step leaves cells and log alone, raises a stamp, adds to one live cell, or installs a new one. */
  lemma {:induction false} StepDoes(s: State, t: nat, a: Step) returns (e: Effect)
    requires Ok(s) && Can(s, t, a)
    ensures Does(s, Take(s, t, a), e)
  {
    hide CellOk, Tally;
    assert ThreadOk(s, t);
    match a
    case Stamp(now) =>
      var c := s.threads[t].cell;
      e := Mark(s.threads[t].id, c, Max(s.cells[c].ts, now));
    case Look =>
      var Fast(id, inc) := s.threads[t];
      if LiveAt(s, id) && InCounterRange(s.cells[s.slots[id].cell].value + inc) {
        var c := s.slots[id].cell;
        e := Bump(id, c, inc, s.cells[c].ts);
      } else {
        e := Same;
      }
    case Write(now, room) =>
      e := SlowDoes(s, s.threads[t].id, s.threads[t].inc, now, room);
    case _ => e := Same;
  }

  lemma {:induction false} SlowDoes(s: State, id: string, inc: int, now: int, room: bool) returns (e: Effect)
    requires Unshared(s) && InCounterRange(inc)
    ensures Does(s, SlowAdd(s, id, inc, now, room), e)
  {
    var s' := SlowAdd(s, id, inc, now, room);
    if |s'.cells| > |s.cells| {
      var base := if id in s.slots then s.slots[id].number.value else 0;
      e := Grow(id, base, inc, now);
    } else if LiveAt(s, id) && InCounterRange(s.cells[s.slots[id].cell].value + inc) {
      var c := s.slots[id].cell;
      e := Bump(id, c, inc, Max(s.cells[c].ts, now));
      assert s'.cells[c] == s.cells[c].(value := s.cells[c].value + inc, ts := Max(s.cells[c].ts, now));
    } else {
      e := Same;
    }
  }

  lemma {:induction false} CellsKept(s: State, s': State, e: Effect)
    requires Ok(s) && Does(s, s', e)
    ensures forall c :: 0 <= c < |s'.cells| ==> CellOk(s', c)
    ensures forall i :: 0 <= i < |s'.log| ==> s'.log[i].cell < |s'.cells|
  {
    hide Unshared, ThreadOk;
    forall c | 0 <= c < |s'.cells| ensures CellOk(s', c) {
      if c < |s.cells| { assert CellOk(s, c); }
      if |s'.log| > |s.log| {
        TallyAppend(s.log, s'.log[|s.log|], c);
        TallyUnused(s.log, |s.cells|);
      }
    }
  }

  lemma {:induction false} SlotsKept(s: State, t: nat, a: Step)
    requires Unshared(s) && Can(s, t, a)
    ensures Unshared(Take(s, t, a))
  {
  }

  lemma {:induction false} ThreadsKept(s: State, t: nat, a: Step)
    requires (forall u :: 0 <= u < |s.threads| ==> ThreadOk(s, u)) && Can(s, t, a)
    ensures var s' := Take(s, t, a); forall u :: 0 <= u < |s'.threads| ==> ThreadOk(s', u)
  {
    var s' := Take(s, t, a);
    forall u | 0 <= u < |s'.threads| ensures ThreadOk(s', u) {
      assert ThreadOk(s, u);
    }
  }

  lemma {:induction false} StepOk(s: State, t: nat, a: Step)
    requires Ok(s) && Can(s, t, a)
    ensures Ok(Take(s, t, a))
  {
    hide Unshared, CellOk, ThreadOk, Can, Take;
    var e := StepDoes(s, t, a);
    CellsKept(s, Take(s, t, a), e);
    SlotsKept(s, t, a);
    ThreadsKept(s, t, a);
  }

  // ---- runs ----

  ghost function Exec(s: State, run: seq<(nat, Step)>): Option<State>
    decreases |run|
  {
    if run == [] then Some(s)
    else
      var (t, a) := run[|run| - 1];
      match Exec(s, run[..|run| - 1])
      case Some(m) => if Can(m, t, a) then Some(Take(m, t, a)) else None
      case None => None
  }

  // No counter yet, nobody at work.
  ghost predicate Start(s: State) {
    && s.cells == [] && s.log == []
    && (forall id :: id in s.slots ==> s.slots[id].Regular?)
    && (forall t :: 0 <= t < |s.threads| ==> s.threads[t].Idle?)
  }

  lemma {:induction false} RunOk(s: State, run: seq<(nat, Step)>)
    requires Ok(s)
    ensures Exec(s, run).Some? ==> Ok(Exec(s, run).value)
    decreases |run|
  {
    hide Ok, Can, Take;
    if run != [] {
      RunOk(s, run[..|run| - 1]);
      if Exec(s, run).Some? {
        StepOk(Exec(s, run[..|run| - 1]).value, run[|run| - 1].0, run[|run| - 1].1);
      }
    }
  }

  /**
    Whatever the interleaving, a live counter is its base plus the accepted increments on
    it, within range; no two ids share a cell.
   */
  lemma {:induction false} LiveCounters(s: State, run: seq<(nat, Step)>, id: string)
    requires Start(s) && Exec(s, run).Some?
    requires var r := Exec(s, run).value; id in r.slots && r.slots[id].Live?
    ensures var r := Exec(s, run).value;
            var c := r.slots[id].cell;
      && c < |r.cells|
      && r.cells[c].value == r.cells[c].base + Tally(r.log, c) && InCounterRange(r.cells[c].value)
      && forall other :: other in r.slots && other != id && r.slots[other].Live? ==> r.slots[other].cell != c
  {
    hide Exec;
    RunOk(s, run);
    assert CellOk(Exec(s, run).value, Exec(s, run).value.slots[id].cell);
  }

  // ---- what an answer means, and what stays of a stripped counter ----

  ghost predicate Answered(s: State) {
    forall i :: 0 <= i < |s.log| ==>
      s.log[i].cell < |s.cells| && s.log[i].value == s.cells[s.log[i].cell].base + Tally(s.log[..i + 1], s.log[i].cell)
  }

  /** The answer to an accepted counter_add is the counter just after its own increment. */
  lemma {:induction false} AnswersExact(s: State, t: nat, a: Step)
    requires Ok(s) && Answered(s) && Can(s, t, a)
    ensures Answered(Take(s, t, a))
  {
    hide Unshared, ThreadOk, Can, Take;
    var s' := Take(s, t, a);
    var e := StepDoes(s, t, a);
    forall i | 0 <= i < |s'.log|
      ensures s'.log[i].cell < |s'.cells|
      ensures s'.log[i].value == s'.cells[s'.log[i].cell].base + Tally(s'.log[..i + 1], s'.log[i].cell)
    {
      if i < |s.log| {
        assert s'.log[..i + 1] == s.log[..i + 1] && s'.log[i] == s.log[i];
      } else {
        assert s'.log[..i + 1] == s'.log;
        CellsKept(s, s', e);
        assert CellOk(s', s'.log[i].cell);
      }
    }
  }

  /** So it is for every answer of every run. */
  lemma {:induction false} RunAnswers(s: State, run: seq<(nat, Step)>)
    requires Start(s)
    ensures Exec(s, run).Some? ==> Answered(Exec(s, run).value)
    decreases |run|
  {
    hide Ok, Answered, Can, Take;
    if run == [] {
      StartOk(s);
    } else {
      RunAnswers(s, run[..|run| - 1]);
      StartOk(s);
      RunOk(s, run[..|run| - 1]);
      if Exec(s, run).Some? {
        AnswersExact(Exec(s, run[..|run| - 1]).value, run[|run| - 1].0, run[|run| - 1].1);
      }
    }
  }

  lemma {:induction false} StartOk(s: State)
    requires Start(s)
    ensures Ok(s) && Answered(s)
  {
  }

  ghost predicate IsLive(s: State, c: nat) {
    exists id :: id in s.slots && s.slots[id] == Live(c)
  }

  /** Stamps never go back, bases never change, and a cell no id leads to is frozen and never comes back. */
  lemma {:induction false} CellHistory(s: State, t: nat, a: Step, c: nat)
    requires Ok(s) && Can(s, t, a) && c < |s.cells|
    ensures var s' := Take(s, t, a);
      && c < |s'.cells| && s'.cells[c].ts >= s.cells[c].ts && s'.cells[c].base == s.cells[c].base
      && s.log <= s'.log
      && (!IsLive(s, c) ==> s'.cells[c] == s.cells[c] && !IsLive(s', c))
  {
    hide CellOk, Tally;
    var e := StepDoes(s, t, a);
    if !IsLive(s, c) { StaysGone(s, t, a, c); }
  }

  lemma {:induction false} StaysGone(s: State, t: nat, a: Step, c: nat)
    requires Unshared(s) && Can(s, t, a) && c < |s.cells| && !IsLive(s, c)
    ensures !IsLive(Take(s, t, a), c)
  {
  }

  /** Over any number of steps a counter that stays in place grows by what was accepted meanwhile. */
  lemma {:induction false} RunHistory(s: State, run: seq<(nat, Step)>, c: nat)
    requires Ok(s) && Exec(s, run).Some? && c < |s.cells|
    ensures var r := Exec(s, run).value;
      && c < |r.cells| && r.cells[c].ts >= s.cells[c].ts && r.cells[c].base == s.cells[c].base && s.log <= r.log
      && r.cells[c].value - s.cells[c].value == Tally(r.log, c) - Tally(s.log, c)
      && (!IsLive(s, c) ==> r.cells[c] == s.cells[c] && !IsLive(r, c))
    decreases |run|
  {
    hide Can, Take, IsLive, Unshared, ThreadOk, Tally;
    RunOk(s, run);
    if run != [] {
      var m := Exec(s, run[..|run| - 1]).value;
      RunOk(s, run[..|run| - 1]);
      RunHistory(s, run[..|run| - 1], c);
      CellHistory(m, run[|run| - 1].0, run[|run| - 1].1, c);
    }
    assert CellOk(s, c) && CellOk(Exec(s, run).value, c);
  }

  // ---- what each step answers and stores ----

  predicate Fits(v: int) {
    -9_007_199_254_740_991 <= v <= 9_007_199_254_740_991
  }

  // The counter an id leads to takes one increment, which is logged with the value after it.
  predicate Incremented(s: State, s': State, id: string, inc: int) {
    && LiveAt(s, id) && var c := s.slots[id].cell;
    && |s'.cells| == |s.cells| && s'.slots == s.slots
    && s'.cells[c].value == s.cells[c].value + inc && s'.cells[c].base == s.cells[c].base
    && (forall k :: 0 <= k < |s.cells| && k != c ==> s'.cells[k] == s.cells[k])
    && s'.log == s.log + [Accept(id, c, inc, s.cells[c].value + inc)]
  }

  // A new cell for the id, holding what it started from and one increment.
  predicate Installed(s: State, s': State, id: string, base: int, inc: int, now: int) {
    && s'.cells == s.cells + [Cell(base + inc, now, base)] && s'.slots == s.slots[id := Live(|s.cells|)]
    && s'.log == s.log + [Accept(id, |s.cells|, inc, base + inc)]
  }

  /** The fast path: a live counter takes the increment if that keeps it in range; without one the slow path is next. */
  lemma {:induction false} LookMeans(s: State, t: nat)
    requires Ok(s) && Can(s, t, Look)
    ensures var s', id, inc := Take(s, t, Look), s.threads[t].id, s.threads[t].inc;
      if id in s.slots && s.slots[id].Live? then
        var c := s.slots[id].cell;
        if Fits(s.cells[c].value + inc)
        then Incremented(s, s', id, inc) && s'.cells[c].ts == s.cells[c].ts && s'.threads == s.threads[t := Added(id, c)]
        else s' == s.(threads := s.threads[t := Idle])
      else s' == s.(threads := s.threads[t := Slow(id, inc)])
  {
    hide Tally, CellOk;
  }

  /** Then the time of the counter becomes the increment's, unless it is later already. */
  lemma {:induction false} StampMeans(s: State, t: nat, now: int)
    requires Ok(s) && Can(s, t, Stamp(now))
    ensures var s', c := Take(s, t, Stamp(now)), s.threads[t].cell;
      && s'.cells == s.cells[c := s.cells[c].(ts := if now > s.cells[c].ts then now else s.cells[c].ts)]
      && s'.slots == s.slots && s'.log == s.log && s'.threads == s.threads[t := Idle]
  {
    hide Tally, CellOk;
  }

  /** The slow path: create, increment after all, promote, or refuse; for each exactly when. */
  lemma {:induction false} WriteMeans(s: State, t: nat, now: int, room: bool)
    requires Ok(s) && Can(s, t, Write(now, room))
    ensures var s', id, inc := Take(s, t, Write(now, room)), s.threads[t].id, s.threads[t].inc;
            var refused := s' == s.(threads := s.threads[t := Idle]);
      && s'.threads == s.threads[t := Idle]
      && if id !in s.slots then (if room then Installed(s, s', id, 0, inc, now) else refused)
         else match s.slots[id]
           case Live(c) =>
             if Fits(s.cells[c].value + inc)
             then Incremented(s, s', id, inc) && s'.cells[c].ts == (if now > s.cells[c].ts then now else s.cells[c].ts)
             else refused
           case Regular(None) => refused
           case Regular(Some(v)) => if Fits(v) && Fits(v + inc) && room then Installed(s, s', id, v, inc, now) else refused
  {
    hide Tally, CellOk;
  }

  /** Regular writes and deletes change what an id leads to, and no counter. */
  lemma {:induction false} OthersMean(s: State, t: nat, id: string, number: Option<int>, inc: int)
    ensures Can(s, t, Put(id, number)) ==> Take(s, t, Put(id, number)) == s.(slots := s.slots[id := Regular(number)])
    ensures Can(s, t, Remove(id)) ==> Take(s, t, Remove(id)) == s.(slots := s.slots - {id})
    ensures Can(s, t, Begin(id, inc)) ==> Take(s, t, Begin(id, inc)) == s.(threads := s.threads[t := Fast(id, inc)])
  {
  }
}
