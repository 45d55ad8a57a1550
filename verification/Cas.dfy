/**
  The compare-and-swap loops: reserveBytes, atomicCounterAdd, bumpLastWriteTS.
  Each loads a value, decides, and publishes its successor only if nobody changed the
  value meanwhile. Any number of such loops over one word behaves as if each happened at
  one instant between its start and its end.
 */
module Cas {
  import opened Types
  import opened Sums

  // ---- int64 ----

  predicate IsInt64(x: int) {
    -MAX_INT64 - 1 <= x <= MAX_INT64
  }

  // Two's complement wrap-around, for the sums and differences of two int64 values.
  function Wrap(x: int): int {
    if x > MAX_INT64 then x - 0x1_0000_0000_0000_0000
    else if x < -MAX_INT64 - 1 then x + 0x1_0000_0000_0000_0000
    else x
  }

  /** The reservation check as the machine evaluates it. */
  predicate AdmitsWrapped(total: int, limit: int, delta: int) {
    delta <= 0 || !(delta > Wrap(limit - total))
  }

  /**
    The subtractive check is exact while the difference fits, and refuses otherwise: it
    never admits what the unbounded check refuses, and what it admits does not wrap.
   */
  lemma {:induction false} ReservationFailsClosed(total: int, limit: int, delta: int)
    requires IsInt64(total) && IsInt64(delta) && 0 <= limit <= MAX_INT64 && delta > 0
    ensures AdmitsWrapped(total, limit, delta) <==> Admits(total, limit, delta) && limit - total <= MAX_INT64
    ensures AdmitsWrapped(total, limit, delta) ==> Wrap(total + delta) == total + delta <= limit
  {
    assert Wrap(limit - total) == if limit - total <= MAX_INT64 then limit - total else limit - total - 0x1_0000_0000_0000_0000;
  }

  /** The additive form wraps and admits: the failure the subtractive form is there to avoid. */
  lemma {:induction false} AdditiveFormFailsOpen(total: int, limit: int, delta: int)
    requires IsInt64(total) && 0 < delta <= MAX_INT64 && 0 <= limit <= MAX_INT64
    ensures (!(Wrap(total + delta) > limit) && !Admits(total, limit, delta)) <==> total + delta > MAX_INT64
  {
    assert total + delta > MAX_INT64 ==> Wrap(total + delta) == total + delta - 0x1_0000_0000_0000_0000 < 0;
  }

  function Distance(x: int, y: int): nat {
    if x < y then y - x else x - y
  }

  /** addClampedInt64 gives the int64 value nearest to the true sum. */
  lemma {:induction false} ClampedIsNearest(a: int, b: int)
    requires IsInt64(a) && IsInt64(b)
    ensures IsInt64(AddClamped(a, b))
    ensures forall x :: IsInt64(x) ==> Distance(a + b, AddClamped(a, b)) <= Distance(a + b, x)
  {
  }

  // ---- one read-modify-write ----

  datatype Rmw =
    | Reserve(delta: int, limit: int)   // reserveBytes
    | Increment(inc: int)               // the value loop of atomicCounterAdd
    | Raise(now: int)                   // bumpLastWriteTS, and the ts loop of atomicCounterAdd

  /** What the loop body decides on a loaded value: None ends the loop without a store. */
  function Next(op: Rmw, current: int): Option<int> {
    match op
    case Reserve(delta, limit) => if Admits(current, limit, delta) then Some(current + delta) else None
    case Increment(inc) => if InCounterRange(current + inc) then Some(current + inc) else None
    case Raise(now) => if now <= current then None else Some(now)
  }

  /**
    What each loop stores: a reservation that fits the limit or does not grow, an increment
    within the counter range, a later time; and nothing otherwise.
   */
  lemma {:induction false} NextMeans(current: int, delta: int, limit: int, inc: int, now: int)
    ensures Next(Reserve(delta, limit), current)
         == if delta <= 0 || current + delta <= limit then Some(current + delta) else None
    ensures Next(Increment(inc), current)
         == if -9_007_199_254_740_991 <= current + inc <= 9_007_199_254_740_991 then Some(current + inc) else None
    ensures Next(Raise(now), current) == if now > current then Some(now) else None
  {
  }

  function After(op: Rmw, current: int): int {
    match Next(op, current) case Some(v) => v case None => current
  }

  // ---- the loop of one thread ----

  /** One atomic word; rivals are the values other threads store, one before each of our swaps. */
  class Word {
    var value: int
    var rivals: seq<int>

    constructor (value: int, rivals: seq<int>)
      ensures this.value == value && this.rivals == rivals
    {
      this.value, this.rivals := value, rivals;
    }

    method CompareAndSwap(current: int, next: int) returns (swapped: bool)
      modifies this
      ensures rivals == if old(rivals) == [] then [] else old(rivals)[1..]
      ensures var met := if old(rivals) == [] then old(value) else old(rivals)[0];
              swapped == (met == current) && value == if swapped then next else met
    {
      if rivals != [] {
        value, rivals := rivals[0], rivals[1..];
      }
      swapped := value == current;
      if swapped {
        value := next;
      }
    }

    /** The retry loop: it ends as one atomic step on the last value it met. */
    method Run(op: Rmw) returns (met: int, stored: bool)
      modifies this
      ensures Met(op, old(value), old(rivals)) == met
      ensures stored == Next(op, met).Some?
      ensures value == After(op, met)
    {
      ghost var value0, rivals0 := value, rivals;
      while true
        invariant Met(op, value, rivals) == Met(op, value0, rivals0)
        decreases |rivals|
      {
        met := value;
        match Next(op, met)
        case None => return met, false;
        case Some(next) =>
          var swapped := CompareAndSwap(met, next);
          if swapped {
            return met, true;
          }
      }
    }
  }

  // The value at which the loop takes effect.
  function Met(op: Rmw, value: int, rivals: seq<int>): int
    decreases |rivals|
  {
    if Next(op, value).None? || rivals == [] || rivals[0] == value then value
    else Met(op, rivals[0], rivals[1..])
  }

  // It is the value first found, or one a rival stored.
  lemma {:induction false} MetWasStored(op: Rmw, value: int, rivals: seq<int>)
    ensures Met(op, value, rivals) == value || Met(op, value, rivals) in rivals
    decreases |rivals|
  {
    if Next(op, value).Some? && rivals != [] && rivals[0] != value {
      MetWasStored(op, rivals[0], rivals[1..]);
    }
  }

  // ---- any number of loops over one word ----

  datatype Pc =
    | Ready
    | Loading(op: Rmw, began: nat)                        // began: length of the log at the call
    | Swapping(op: Rmw, began: nat, current: int, seen: nat)
    | Done(op: Rmw, began: nat, at: nat)                  // at: its entry in the log

  // An entry records the value an operation took effect on.
  datatype Entry = Entry(thread: nat, op: Rmw, before: int)

  datatype State = State(value: int, threads: seq<Pc>, start: int, log: seq<Entry>)

  datatype Step = Call(op: Rmw) | Load | Swap | Return

  predicate Can(s: State, t: nat, a: Step) {
    t < |s.threads| &&
    match a
    case Call(_) => s.threads[t].Ready?
    case Load => s.threads[t].Loading?
    case Swap => s.threads[t].Swapping? && Next(s.threads[t].op, s.threads[t].current).Some?
    case Return => s.threads[t].Done?
  }

  function Take(s: State, t: nat, a: Step): State
    requires Can(s, t, a)
  {
    match a
    case Call(op) => s.(threads := s.threads[t := Loading(op, |s.log|)])
    case Load =>
      var Loading(op, began) := s.threads[t];
      if Next(op, s.value).None? then
        s.(threads := s.threads[t := Done(op, began, |s.log|)], log := s.log + [Entry(t, op, s.value)])
      else s.(threads := s.threads[t := Swapping(op, began, s.value, |s.log|)])
    case Swap =>
      var Swapping(op, began, current, seen) := s.threads[t];
      if s.value == current then
        State(Next(op, current).value, s.threads[t := Done(op, began, |s.log|)], s.start, s.log + [Entry(t, op, current)])
      else s.(threads := s.threads[t := Loading(op, began)])
    case Return => s.(threads := s.threads[t := Ready])
  }

  /** The value after a history of atomic operations. */
  function ValueAfter(start: int, log: seq<Entry>): int {
    if log == [] then start else After(log[|log| - 1].op, ValueAfter(start, log[..|log| - 1]))
  }

  // Every operation took effect on the value its predecessors left.
  ghost predicate Sequential(start: int, log: seq<Entry>) {
    forall i :: 0 <= i < |log| ==> log[i].before == ValueAfter(start, log[..i])
  }

  ghost predicate ThreadOk(s: State, t: nat)
    requires t < |s.threads|
  {
    match s.threads[t]
    case Ready => true
    case Loading(_, began) => began <= |s.log|
    case Swapping(op, began, current, seen) =>
      began <= seen <= |s.log| && current == ValueAfter(s.start, s.log[..seen]) && Next(op, current).Some?
    case Done(op, began, at) => began <= at < |s.log| && s.log[at].thread == t && s.log[at].op == op
  }

  ghost predicate Ok(s: State) {
    && s.value == ValueAfter(s.start, s.log)
    && Sequential(s.start, s.log)
    && forall t :: 0 <= t < |s.threads| ==> ThreadOk(s, t)
  }

  lemma {:induction false} Logged(start: int, log: seq<Entry>, e: Entry)
    requires Sequential(start, log) && e.before == ValueAfter(start, log)
    ensures Sequential(start, log + [e]) && ValueAfter(start, log + [e]) == After(e.op, e.before)
    ensures forall k :: 0 <= k <= |log| ==> (log + [e])[..k] == log[..k]
  {
    var longer := log + [e];
    assert longer[..|log|] == log;
    forall i | 0 <= i < |longer| ensures longer[i].before == ValueAfter(start, longer[..i]) {
      assert longer[..i] == log[..i];
      if i == |log| { assert log[..i] == log; }
    }
  }

  /** One step keeps the history sequential and each thread's place in it. */
  lemma {:induction false} StepOk(s: State, t: nat, a: Step)
    requires Ok(s) && Can(s, t, a)
    ensures Ok(Take(s, t, a)) && s.log <= Take(s, t, a).log
  {
    hide ValueAfter, Next, Sequential;
    var s' := Take(s, t, a);
    assert s.log[..|s.log|] == s.log;
    if |s'.log| > |s.log| {
      assert After(s.threads[t].op, s.value) == s'.value;
      Logged(s.start, s.log, Entry(t, s.threads[t].op, s.value));
    }
    forall u | 0 <= u < |s'.threads| ensures ThreadOk(s', u) {
      assert ThreadOk(s, u);
    }
  }

  function Exec(s: State, run: seq<(nat, Step)>): Option<State>
    decreases |run|
  {
    if run == [] then Some(s)
    else
      var (t, a) := run[|run| - 1];
      match Exec(s, run[..|run| - 1])
      case Some(m) => if Can(m, t, a) then Some(Take(m, t, a)) else None
      case None => None
  }

  ghost predicate Fresh(s: State) {
    s.value == s.start && s.log == [] && forall t :: 0 <= t < |s.threads| ==> s.threads[t].Ready?
  }

  lemma {:induction false} RunOk(s: State, run: seq<(nat, Step)>)
    requires Fresh(s)
    ensures Exec(s, run).Some? ==> Ok(Exec(s, run).value) && Exec(s, run).value.start == s.start
    decreases |run|
  {
    hide Can, Take;
    if run != [] {
      var last := |run| - 1;
      RunOk(s, run[..last]);
      if Exec(s, run).Some? {
        StepOk(Exec(s, run[..last]).value, run[last].0, run[last].1);
        StartKept(Exec(s, run[..last]).value, run[last].0, run[last].1);
      }
    }
  }

  lemma {:induction false} StartKept(s: State, t: nat, a: Step)
    requires Can(s, t, a)
    ensures Take(s, t, a).start == s.start
  {
  }

  /**
    Linearizability: after any interleaving the word holds the result of a sequential
    history, and a finished loop has one entry of its own in it, no older than its call.
   */
  lemma {:induction false} Linearizable(s: State, run: seq<(nat, Step)>)
    requires Fresh(s) && Exec(s, run).Some?
    ensures var r := Exec(s, run).value;
      && r.value == ValueAfter(s.start, r.log) && Sequential(s.start, r.log)
      && forall t :: 0 <= t < |r.threads| && r.threads[t].Done? ==>
           var pc := r.threads[t];
           pc.began <= pc.at < |r.log| && r.log[pc.at].thread == t && r.log[pc.at].op == pc.op
  {
    hide Exec;
    RunOk(s, run);
    var r := Exec(s, run).value;
    forall t | 0 <= t < |r.threads| && r.threads[t].Done? ensures ThreadOk(r, t) {}
  }

  /** A swap fails only because another operation took effect since the load. */
  lemma {:induction false} RetryMeansProgress(s: State, t: nat)
    requires Ok(s) && Can(s, t, Swap) && Take(s, t, Swap).threads[t].Loading?
    ensures s.threads[t].seen < |s.log|
  {
    assert ThreadOk(s, t);
    assert s.log[..|s.log|] == s.log;
  }

  // ---- what the history says of each word ----

  /** A byte counter below its cap stays there, whoever reserves and releases. */
  lemma {:induction false} BudgetHolds(start: int, limit: int, log: seq<Entry>)
    requires start <= limit
    requires forall i :: 0 <= i < |log| ==> log[i].op.Reserve? && log[i].op.limit == limit
    ensures ValueAfter(start, log) <= limit
  {
    if log != [] {
      BudgetHolds(start, limit, log[..|log| - 1]);
    }
  }

  lemma {:induction false} PrefixSequential(start: int, log: seq<Entry>, k: nat)
    requires Sequential(start, log) && k <= |log|
    ensures Sequential(start, log[..k]) && (k < |log| ==> log[k].before == ValueAfter(start, log[..k]))
  {
    forall i | 0 <= i < k ensures log[..k][..i] == log[..i] {}
  }

  function Accepted(e: Entry): int {
    if e.op.Increment? && Next(e.op, e.before).Some? then e.op.inc else 0
  }

  /** A counter is its starting value plus the accepted increments, and never leaves its range. */
  lemma {:induction false} CounterIsSum(start: int, log: seq<Entry>)
    requires InCounterRange(start) && Sequential(start, log)
    requires forall i :: 0 <= i < |log| ==> log[i].op.Increment?
    ensures ValueAfter(start, log) == start + Sum(log, Accepted)
    ensures InCounterRange(ValueAfter(start, log))
  {
    hide Sequential;
    if log != [] {
      var prefix, e := log[..|log| - 1], log[|log| - 1];
      PrefixSequential(start, log, |log| - 1);
      CounterIsSum(start, prefix);
      assert e.before == ValueAfter(start, prefix);
      assert log == prefix + [e];
      SumAppend(prefix, e, Accepted);
    }
  }

  /** A freshness stamp is the latest time anyone offered. */
  lemma {:induction false} StampIsLatest(start: int, log: seq<Entry>)
    requires forall i :: 0 <= i < |log| ==> log[i].op.Raise?
    ensures var v := ValueAfter(start, log);
      && v >= start && (forall i :: 0 <= i < |log| ==> v >= log[i].op.now)
      && (v == start || exists i :: 0 <= i < |log| && v == log[i].op.now)
  {
    if log != [] {
      StampIsLatest(start, log[..|log| - 1]);
    }
  }
}
