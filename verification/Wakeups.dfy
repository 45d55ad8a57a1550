/**
  Wake-ups (subscribe.go, the notify call in store.go's appendOne, the command loop of
  subscriber_command.go and its reference script). One reserved scope, any number of
  writers, subscriptions that come and go, and /wipe or /rebuild replacing the buffer.
 */
module Wakeups {
  import opened Types

  // watch: the channel subscribed when the item was committed.
  datatype Entry = Entry(sq: nat, watch: Option<nat>)

  // A buffer of the scope; only the last one is mapped, the others are detached.
  datatype Buf = Buf(items: seq<Entry>, lastSeq: nat)

  datatype Writer =
    | Idle
    | Holding(buf: nat)                        // looked the scope up
    | Committed(buf: nat, sq: nat)             // item in, buffer lock released, event emitted or not
    | Notifying(buf: nat, sq: nat, chan: nat)  // read lock on the registry held, subscriber found

  // The goroutine that ranges over a channel and runs the draining command for each token.
  datatype Loop =
    | Waiting
    | Heading                                  // about to GET /head
    | Reading(buf: nat)                        // /head has looked the scope up
    | Dropping(last: nat)                      // about to POST /delete_up_to
    | DroppingAt(buf: nat, last: nat)
    | Exited

  datatype Chan = Chan(slot: bool, closed: bool, loop: Loop)

  datatype State = State(bufs: seq<Buf>, writers: seq<Writer>, chans: seq<Chan>, subscribed: Option<nat>)

  datatype Step =
    | Look(t: nat)
    | Commit(t: nat)
    | Acquire(t: nat)
    | Send(t: nat)
    | Subscribe
    | Unsubscribe
    | Receive(c: nat)
    | Lookup(c: nat)
    | Head(c: nat, limit: nat)
    | DropLookup(c: nat)
    | Drop(c: nat)
    | Remove(i: nat)                           // another client's /delete
    | Replace                                  // /wipe, /rebuild

  // The registry's write lock waits for the readers.
  predicate NobodyNotifies(s: State) {
    forall t :: 0 <= t < |s.writers| ==> !s.writers[t].Notifying?
  }

  function Mapped(s: State): nat
    requires s.bufs != []
  {
    |s.bufs| - 1
  }

  predicate Can(s: State, a: Step) {
    s.bufs != [] &&
    match a
    case Look(t) => t < |s.writers| && s.writers[t].Idle?
    case Commit(t) => t < |s.writers| && s.writers[t].Holding?
    case Acquire(t) => t < |s.writers| && s.writers[t].Committed?
    case Send(t) => t < |s.writers| && s.writers[t].Notifying? && s.writers[t].chan < |s.chans|
    case Subscribe => s.subscribed.None? && NobodyNotifies(s)
    case Unsubscribe => s.subscribed.Some? && s.subscribed.value < |s.chans| && NobodyNotifies(s)
    case Receive(c) => c < |s.chans| && s.chans[c].loop.Waiting? && (s.chans[c].slot || s.chans[c].closed)
    case Lookup(c) => c < |s.chans| && s.chans[c].loop.Heading?
    case Head(c, limit) => c < |s.chans| && s.chans[c].loop.Reading? && s.chans[c].loop.buf < |s.bufs| && limit > 0
    case DropLookup(c) => c < |s.chans| && s.chans[c].loop.Dropping?
    case Drop(c) => c < |s.chans| && s.chans[c].loop.DroppingAt?
    case Remove(i) => i < |s.bufs[Mapped(s)].items|
    case Replace => true
  }

  function Writes(s: State, t: nat, w: Writer): State
    requires t < |s.writers|
  {
    s.(writers := s.writers[t := w])
  }

  function Loops(s: State, c: nat, l: Loop): State
    requires c < |s.chans|
  {
    s.(chans := s.chans[c := s.chans[c].(loop := l)])
  }

  function Above(items: seq<Entry>, last: nat): seq<Entry> {
    if items == [] then []
    else if items[0].sq > last then [items[0]] + Above(items[1..], last)
    else Above(items[1..], last)
  }

  function Take(s: State, a: Step): State
    requires Can(s, a)
  {
    var top := Mapped(s);
    match a
    case Look(t) => Writes(s, t, Holding(top))
    case Commit(t) =>
      if s.writers[t].buf == top then
        var sq := s.bufs[top].lastSeq + 1;
        Writes(s, t, Committed(top, sq)).(
          bufs := s.bufs[top := Buf(s.bufs[top].items + [Entry(sq, s.subscribed)], sq)])
      else Writes(s, t, Idle)                  // detached: refused, nothing to notify
    case Acquire(t) =>
      if s.subscribed.None? then Writes(s, t, Idle)
      else Writes(s, t, Notifying(s.writers[t].buf, s.writers[t].sq, s.subscribed.value))
    case Send(t) =>
      var c := s.writers[t].chan;
      Writes(s, t, Idle).(chans := s.chans[c := s.chans[c].(slot := true)])
    case Subscribe =>
      s.(chans := s.chans + [Chan(false, false, Waiting)], subscribed := Some(|s.chans|))
    case Unsubscribe =>
      var c := s.subscribed.value;
      s.(chans := s.chans[c := s.chans[c].(closed := true)], subscribed := None)
    case Receive(c) =>
      if s.chans[c].slot then s.(chans := s.chans[c := s.chans[c].(slot := false, loop := Heading)])
      else Loops(s, c, Exited)
    case Lookup(c) => Loops(s, c, Reading(top))
    case Head(c, limit) =>
      var seen := s.bufs[s.chans[c].loop.buf].items;
      if seen == [] then Loops(s, c, Waiting)
      else Loops(s, c, Dropping(seen[if limit < |seen| then limit - 1 else |seen| - 1].sq))
    case DropLookup(c) => Loops(s, c, DroppingAt(top, s.chans[c].loop.last))
    case Drop(c) =>
      if s.chans[c].loop.buf == top then
        Loops(s, c, Heading).(bufs := s.bufs[top := s.bufs[top].(items := Above(s.bufs[top].items, s.chans[c].loop.last))])
      else Loops(s, c, Waiting)                // 409: the command gives up until the next token
    case Remove(i) =>
      var items := s.bufs[top].items;
      s.(bufs := s.bufs[top := s.bufs[top].(items := items[..i] + items[i + 1..])])
    case Replace => s.(bufs := s.bufs + [Buf([], 0)])
  }

  // ---- the invariant ----

  // Its writer has still to ring for this item.
  ghost predicate Pending(s: State, x: Entry, c: nat) {
    exists t :: 0 <= t < |s.writers| && Rings(s, t, x.sq, c)
  }

  predicate Rings(s: State, t: nat, sq: nat, c: nat)
    requires t < |s.writers|
  {
    s.bufs != [] && match s.writers[t]
      case Committed(buf, q) => buf == Mapped(s) && q == sq
      case Notifying(buf, q, chan) => buf == Mapped(s) && q == sq && chan == c
      case _ => false
  }

  // The loop will look at the mapped buffer before it waits again.
  predicate WillLook(l: Loop, top: nat) {
    l.Heading? || l.Dropping? || (l.Reading? && l.buf == top) || (l.DroppingAt? && l.buf == top)
  }

  /** An item somebody subscribed for is announced, about to be announced, or about to be looked at. */
  ghost predicate Attended(s: State, x: Entry) {
    s.bufs != [] && x.watch.Some? && x.watch == s.subscribed && x.watch.value < |s.chans| ==>
      var c := x.watch.value;
      Pending(s, x, c) || s.chans[c].slot || WillLook(s.chans[c].loop, Mapped(s))
  }

  ghost predicate AllAttended(s: State) {
    s.bufs != [] && forall i :: 0 <= i < |s.bufs[Mapped(s)].items| ==> Attended(s, s.bufs[Mapped(s)].items[i])
  }

  ghost predicate Sound(s: State) {
    && s.bufs != []
    && (s.subscribed.Some? ==> s.subscribed.value < |s.chans| && !s.chans[s.subscribed.value].closed)
    && (forall t :: 0 <= t < |s.writers| ==>
          match s.writers[t]
          case Holding(buf) => buf < |s.bufs|
          case Committed(buf, _) => buf < |s.bufs|
          case Notifying(buf, _, chan) => buf < |s.bufs| && s.subscribed == Some(chan)
          case _ => true)
    && (forall c :: 0 <= c < |s.chans| ==>
          match s.chans[c].loop
          case Reading(buf) => buf < |s.bufs|
          case DroppingAt(buf, _) => buf < |s.bufs|
          case Exited => s.chans[c].closed
          case _ => true)
    && Watching(s)
  }

  // Whoever an item was committed for has a channel.
  ghost predicate Watching(s: State) {
    s.bufs != [] &&
    var items := s.bufs[Mapped(s)].items;
    forall i :: 0 <= i < |items| && items[i].watch.Some? ==> items[i].watch.value < |s.chans|
  }

  ghost predicate Ok(s: State) {
    Sound(s) && AllAttended(s)
  }

  lemma {:induction false} AboveKeeps(items: seq<Entry>, last: nat)
    ensures forall i :: 0 <= i < |Above(items, last)| ==> Above(items, last)[i] in items && Above(items, last)[i].sq > last
  {
    if items != [] { AboveKeeps(items[1..], last); }
  }

  lemma {:induction false} StepSound(s: State, a: Step)
    requires Sound(s) && Can(s, a)
    ensures Sound(Take(s, a))
  {
    hide Above, Watching;
    StepWatching(s, a);
  }

  lemma {:induction false} StepWatching(s: State, a: Step)
    requires Sound(s) && Can(s, a)
    ensures Watching(Take(s, a))
  {
    hide Above;
    var s', top := Take(s, a), Mapped(s);
    var items := s.bufs[top].items;
    if a.Drop? {
      AboveKeeps(items, s.chans[a.c].loop.last);
    }
    forall i | 0 <= i < |s'.bufs[Mapped(s')].items|
      ensures var x := s'.bufs[Mapped(s')].items[i]; x in items || (a.Commit? && x.watch == s.subscribed)
    {
    }
  }

  // Pending writers stay pending unless they move.
  lemma {:induction false} PendingStays(s: State, s': State, x: Entry, c: nat, t: nat)
    requires s.bufs != [] && s'.bufs != [] && Mapped(s') == Mapped(s)
    requires |s'.writers| == |s.writers| && t < |s.writers| && s'.writers == s.writers[t := s'.writers[t]]
    requires Pending(s, x, c) && (Rings(s, t, x.sq, c) ==> Rings(s', t, x.sq, c))
    ensures Pending(s', x, c)
  {
    var u :| 0 <= u < |s.writers| && Rings(s, u, x.sq, c);
    assert Rings(s', u, x.sq, c);
  }

  // Steps of a writer.
  lemma {:induction false} WriterAttends(s: State, a: Step, x: Entry)
    requires Sound(s) && Can(s, a) && (a.Look? || a.Commit? || a.Acquire? || a.Send?)
    requires Attended(s, x) || (a.Commit? && x == Entry(s.bufs[Mapped(s)].lastSeq + 1, s.subscribed) && s.writers[a.t].buf == Mapped(s))
    ensures Attended(Take(s, a), x)
  {
    hide Pending;
    var s' := Take(s, a);
    if x.watch.Some? && x.watch == s.subscribed {
      var c := x.watch.value;
      if !Attended(s, x) || (a.Commit? && s.writers[a.t].buf == Mapped(s) && x.sq == s.bufs[Mapped(s)].lastSeq + 1) {
        NewlyPending(s', a.t, x, c);
      } else if Pending(s, x, c) && !(a.Send? && s.writers[a.t].chan == c) {
        PendingStays(s, s', x, c, a.t);
      }
    }
  }

  lemma {:induction false} NewlyPending(s: State, t: nat, x: Entry, c: nat)
    requires s.bufs != [] && t < |s.writers| && s.writers[t] == Committed(Mapped(s), x.sq)
    ensures Pending(s, x, c)
  {
    assert Rings(s, t, x.sq, c);
  }

  // Steps of a loop, of the registry, and of other clients: writers do not move.
  lemma {:induction false} OthersAttend(s: State, a: Step, x: Entry)
    requires Sound(s) && Can(s, a) && Attended(s, x) && !(a.Look? || a.Commit? || a.Acquire? || a.Send? || a.Replace?)
    requires a.Head? ==> x in s.bufs[Mapped(s)].items
    requires x.watch.Some? ==> x.watch.value < |s.chans|
    ensures Attended(Take(s, a), x)
  {
    hide Above, Pending;
    var s' := Take(s, a);
    assert s'.writers == s.writers && Mapped(s') == Mapped(s);
    if x.watch.Some? && x.watch == s.subscribed {
      SamePending(s, s', x, x.watch.value);
    }
  }

  lemma {:induction false} SamePending(s: State, s': State, x: Entry, c: nat)
    requires s.bufs != [] && s'.bufs != [] && s'.writers == s.writers && Mapped(s') == Mapped(s)
    ensures Pending(s, x, c) == Pending(s', x, c)
  {
    forall t | 0 <= t < |s.writers| ensures Rings(s, t, x.sq, c) == Rings(s', t, x.sq, c) {}
  }

  /** No step leaves a watched item unattended. */
  lemma {:induction false} StepOk(s: State, a: Step)
    requires Ok(s) && Can(s, a)
    ensures Ok(Take(s, a))
  {
    hide Attended, Above;
    StepSound(s, a);
    var s', top := Take(s, a), Mapped(s);
    var items := s.bufs[top].items;
    if a.Drop? { AboveKeeps(items, s.chans[a.c].loop.last); }
    if !a.Replace? {
      forall i | 0 <= i < |s'.bufs[top].items| ensures Attended(s', s'.bufs[top].items[i]) {
        var x := s'.bufs[top].items[i];
        if a.Look? || a.Commit? || a.Acquire? || a.Send? {
          assert x in items || (a.Commit? && s.writers[a.t].buf == top && x == Entry(s.bufs[top].lastSeq + 1, s.subscribed));
          if x in items { var j :| 0 <= j < |items| && items[j] == x; assert Attended(s, items[j]); }
          WriterAttends(s, a, x);
        } else {
          assert x in items;
          var j :| 0 <= j < |items| && items[j] == x;
          assert Attended(s, items[j]);
          OthersAttend(s, a, x);
        }
      }
    }
  }

  // ---- runs ----

  ghost function Exec(s: State, run: seq<Step>): Option<State>
    decreases |run|
  {
    if run == [] then Some(s)
    else match Exec(s, run[..|run| - 1])
      case Some(m) => if Can(m, run[|run| - 1]) then Some(Take(m, run[|run| - 1])) else None
      case None => None
  }

  // The scope as boot leaves it: empty, nobody subscribed.
  ghost predicate Start(s: State) {
    && s.bufs == [Buf([], 0)] && s.chans == [] && s.subscribed.None?
    && forall t :: 0 <= t < |s.writers| ==> s.writers[t].Idle?
  }

  lemma {:induction false} RunOk(s: State, run: seq<Step>)
    requires Start(s)
    ensures Exec(s, run).Some? ==> Ok(Exec(s, run).value)
    decreases |run|
  {
    hide Can, Take, Ok;
    if run == [] {
      StartOk(s);
    } else {
      RunOk(s, run[..|run| - 1]);
      if Exec(s, run).Some? { StepOk(Exec(s, run[..|run| - 1]).value, run[|run| - 1]); }
    }
  }

  lemma {:induction false} StartOk(s: State)
    requires Start(s)
    ensures Ok(s)
  {
  }

  /**
    No wake-up is lost: in every reachable state, an item still in the scope that was
    committed under the current subscription has a writer yet to notify, or a token in the
    slot, or a subscriber that took a token and will read the mapped buffer before waiting.
   */
  lemma {:induction false} NoLostWakeup(s: State, run: seq<Step>, i: nat)
    requires Start(s) && Exec(s, run).Some?
    requires var r := Exec(s, run).value;
      r.bufs != [] && i < |r.bufs[|r.bufs| - 1].items| && r.bufs[|r.bufs| - 1].items[i].watch.Some?
      && r.bufs[|r.bufs| - 1].items[i].watch == r.subscribed
    ensures var r := Exec(s, run).value;
            var x := r.bufs[|r.bufs| - 1].items[i];
            var c := x.watch.value;
      && c < |r.chans|
      && (Pending(r, x, c) || r.chans[c].slot || WillLook(r.chans[c].loop, |r.bufs| - 1))
  {
    hide Exec, Pending;
    RunOk(s, run);
    var r := Exec(s, run).value;
    assert Attended(r, r.bufs[|r.bufs| - 1].items[i]);
  }

  /** When every writer is done and the subscriber waits with no token, nothing it subscribed for is left. */
  lemma {:induction false} RestMeansDrained(s: State, run: seq<Step>)
    requires Start(s) && Exec(s, run).Some?
    requires var r := Exec(s, run).value;
      && (forall t :: 0 <= t < |r.writers| ==> r.writers[t].Idle?)
      && r.subscribed.Some? && r.subscribed.value < |r.chans|
      && r.chans[r.subscribed.value].loop.Waiting? && !r.chans[r.subscribed.value].slot
    ensures var r := Exec(s, run).value;
      r.bufs != [] && var items := r.bufs[|r.bufs| - 1].items;
      forall i :: 0 <= i < |items| ==> items[i].watch != r.subscribed
  {
    hide Exec;
    RunOk(s, run);
    var r := Exec(s, run).value;
    var items := r.bufs[|r.bufs| - 1].items;
    forall i | 0 <= i < |items| ensures items[i].watch != r.subscribed {
      if items[i].watch == r.subscribed { NoLostWakeup(s, run, i); }
    }
  }

  /** No send ever meets a closed channel. */
  lemma {:induction false} NoSendOnClosed(s: State, run: seq<Step>, t: nat)
    requires Start(s) && Exec(s, run).Some? && Can(Exec(s, run).value, Send(t))
    ensures var r := Exec(s, run).value; !r.chans[r.writers[t].chan].closed
  {
    hide Exec;
    RunOk(s, run);
  }

  // ---- a write is delivered ----

  lemma {:induction false} ExecJoins(s: State, run: seq<Step>, more: seq<Step>)
    requires Exec(s, run).Some?
    ensures Exec(s, run + more) == Exec(Exec(s, run).value, more)
    decreases |more|
  {
    hide Can, Take;
    if more == [] {
      assert run + more == run;
    } else {
      ExecJoins(s, run, more[..|more| - 1]);
      assert (run + more)[..|run + more| - 1] == run + more[..|more| - 1];
    }
  }

  lemma {:induction false} ExecOne(s: State, a: Step)
    requires Can(s, a)
    ensures Exec(s, [a]) == Some(Take(s, a))
  {
    hide Take;
    assert [a][..0] == [];
  }

  lemma {:induction false} ExecTwo(s: State, a: Step, b: Step)
    requires Can(s, a) && Can(Take(s, a), b)
    ensures Exec(s, [a, b]) == Some(Take(Take(s, a), b))
  {
    hide Can, Take;
    ExecOne(s, a);
    ExecOne(Take(s, a), b);
    ExecJoins(s, [a], [b]);
    assert [a] + [b] == [a, b];
  }

  /** A writer that is not disturbed stores its item with the next seq and leaves a token for whoever is subscribed. */
  lemma {:induction false} WriterRings(s: State, t: nat)
    requires Sound(s) && t < |s.writers| && s.writers[t].Idle? && s.subscribed.Some?
    ensures var end := Exec(s, [Look(t), Commit(t), Acquire(t), Send(t)]);
            var top, c := |s.bufs| - 1, s.subscribed.value;
      && end.Some? && var r := end.value;
      && |r.bufs| == |s.bufs| && r.bufs[top].items == s.bufs[top].items + [Entry(s.bufs[top].lastSeq + 1, Some(c))]
      && r.bufs[top].lastSeq == s.bufs[top].lastSeq + 1
      && r.subscribed == s.subscribed && r.chans == s.chans[c := s.chans[c].(slot := true)]
      && r.writers == s.writers
  {
    ExecTwo(s, Look(t), Commit(t));
    var m := Take(Take(s, Look(t)), Commit(t));
    ExecTwo(m, Acquire(t), Send(t));
    ExecJoins(s, [Look(t), Commit(t)], [Acquire(t), Send(t)]);
    assert [Look(t), Commit(t)] + [Acquire(t), Send(t)] == [Look(t), Commit(t), Acquire(t), Send(t)];
    var r := Take(Take(m, Acquire(t)), Send(t));
    assert r.writers == s.writers;
  }

  // The steps of one subscriber.
  predicate OnlyLoop(run: seq<Step>, c: nat) {
    forall i :: 0 <= i < |run| ==>
      match run[i]
      case Receive(d) => d == c
      case Lookup(d) => d == c
      case Head(d, _) => d == c
      case DropLookup(d) => d == c
      case Drop(d) => d == c
      case _ => false
  }

  ghost predicate Ascending(items: seq<Entry>) {
    forall i, j :: 0 <= i < j < |items| ==> items[i].sq < items[j].sq
  }

  // The same state with one loop elsewhere.
  lemma {:induction false} LoopsTwice(s: State, c: nat, l: Loop, m: Loop)
    requires c < |s.chans|
    ensures Loops(Loops(s, c, l), c, m) == Loops(s, c, m)
  {
    assert s.chans[c := s.chans[c].(loop := l)][c := s.chans[c].(loop := m)] == s.chans[c := s.chans[c].(loop := m)];
  }

  // Look and read: the mapped buffer is empty, or its first items are to be dropped.
  lemma {:induction false} Looks(s: State, c: nat, limit: nat)
    requires s.bufs != [] && c < |s.chans| && s.chans[c].loop == Heading && limit > 0
    ensures var items := s.bufs[|s.bufs| - 1].items;
      Exec(s, [Lookup(c), Head(c, limit)])
        == Some(Loops(s, c, if items == [] then Waiting else Dropping(items[if limit < |items| then limit - 1 else |items| - 1].sq)))
  {
    hide Above;
    var m := Loops(s, c, Reading(|s.bufs| - 1));
    ExecTwo(s, Lookup(c), Head(c, limit));
    var items := s.bufs[|s.bufs| - 1].items;
    LoopsTwice(s, c, Reading(|s.bufs| - 1), if items == [] then Waiting else Dropping(items[if limit < |items| then limit - 1 else |items| - 1].sq));
  }

  // Look again and drop: the items up to the cursor are gone, and another look is due.
  lemma {:induction false} Drops(s: State, c: nat, last: nat)
    requires s.bufs != [] && c < |s.chans| && s.chans[c].loop == Dropping(last)
    ensures var top := |s.bufs| - 1;
      Exec(s, [DropLookup(c), Drop(c)])
        == Some(Loops(s, c, Heading).(bufs := s.bufs[top := s.bufs[top].(items := Above(s.bufs[top].items, last))]))
  {
    hide Above;
    var top := |s.bufs| - 1;
    ExecTwo(s, DropLookup(c), Drop(c));
    LoopsTwice(s, c, DroppingAt(top, last), Heading);
  }

  // A look at the mapped buffer that finds something ends with fewer items there and another look due.
  lemma {:induction false} LoopRound(s: State, c: nat, limit: nat)
    requires s.bufs != [] && c < |s.chans| && s.chans[c].loop == Heading && limit > 0
    requires Ascending(s.bufs[|s.bufs| - 1].items) && s.bufs[|s.bufs| - 1].items != []
    ensures var top := |s.bufs| - 1;
            var items := s.bufs[top].items;
            var k := if limit < |items| then limit else |items|;
      Exec(s, [Lookup(c), Head(c, limit)] + [DropLookup(c), Drop(c)])
        == Some(s.(bufs := s.bufs[top := s.bufs[top].(items := items[k..])]))
  {
    hide Can, Take, Above;
    var items := s.bufs[|s.bufs| - 1].items;
    var k := if limit < |items| then limit else |items|;
    var last := items[k - 1].sq;
    Looks(s, c, limit);
    var m := Loops(s, c, Dropping(last));
    Drops(m, c, last);
    ExecJoins(s, [Lookup(c), Head(c, limit)], [DropLookup(c), Drop(c)]);
    AboveCut(items, k, last);
    LoopsTwice(s, c, Dropping(last), Heading);
    assert Loops(s, c, Heading) == s by { assert s.chans[c := s.chans[c].(loop := Heading)] == s.chans; }
  }

  lemma {:induction false} AboveCut(items: seq<Entry>, k: nat, last: nat)
    requires k <= |items| && (forall i :: 0 <= i < k ==> items[i].sq <= last) && (forall i :: k <= i < |items| ==> items[i].sq > last)
    ensures Above(items, last) == items[k..]
  {
    if items != [] {
      AboveCut(items[1..], if k > 0 then k - 1 else 0, last);
      if k == 0 { assert items == [items[0]] + items[1..]; }
    }
  }

  // The run leaves the mapped buffer empty and the subscriber waiting.
  ghost predicate EmptiedBy(s: State, c: nat, run: seq<Step>) {
    OnlyLoop(run, c) && Exec(s, run).Some? && s.bufs != [] && c < |s.chans| &&
    var r := Exec(s, run).value;
    |r.bufs| == |s.bufs| && r.bufs[|s.bufs| - 1].items == [] && |r.chans| == |s.chans| && r.chans[c].loop == Waiting
  }

  /** A subscriber that has taken a token and is not disturbed ends up waiting, with the scope empty. */
  lemma {:induction false} LoopDrains(s: State, c: nat, limit: nat)
    requires s.bufs != [] && c < |s.chans| && s.chans[c].loop == Heading && limit > 0
    requires Ascending(s.bufs[|s.bufs| - 1].items)
    ensures exists run :: EmptiedBy(s, c, run)
    decreases |s.bufs[|s.bufs| - 1].items|
  {
    hide Exec, Can, Take;
    var items := s.bufs[|s.bufs| - 1].items;
    if items == [] {
      Looks(s, c, limit);
      assert EmptiedBy(s, c, [Lookup(c), Head(c, limit)]);
    } else {
      var round := [Lookup(c), Head(c, limit)] + [DropLookup(c), Drop(c)];
      LoopRound(s, c, limit);
      var m := Exec(s, round).value;
      var k := if limit < |items| then limit else |items|;
      assert forall i :: 0 <= i < |items[k..]| ==> items[k..][i] == items[k + i];
      LoopDrains(m, c, limit);
      var rest :| EmptiedBy(m, c, rest);
      ExecJoins(s, round, rest);
      assert OnlyLoop(round + rest, c);
      assert EmptiedBy(s, c, round + rest);
    }
  }

  /** A token wakes the subscriber, and is used up by that; a closed channel without one ends its loop. */
  lemma {:induction false} ReceiveMeans(s: State, c: nat)
    requires Can(s, Receive(c))
    ensures Take(s, Receive(c)) == s.(chans := s.chans[c :=
      if s.chans[c].slot then Chan(false, s.chans[c].closed, Heading) else Chan(false, s.chans[c].closed, Exited)])
  {
  }

  /** Subscriptions, resets and foreign deletes: a new channel, a closed one, an empty buffer on top, one item fewer. */
  lemma {:induction false} OthersMean(s: State, i: nat)
    ensures Can(s, Subscribe) ==>
      Take(s, Subscribe) == s.(chans := s.chans + [Chan(false, false, Waiting)], subscribed := Some(|s.chans|))
    ensures Can(s, Unsubscribe) ==> var c := s.subscribed.value;
      Take(s, Unsubscribe) == s.(chans := s.chans[c := Chan(s.chans[c].slot, true, s.chans[c].loop)], subscribed := None)
    ensures Can(s, Replace) ==> Take(s, Replace) == s.(bufs := s.bufs + [Buf([], 0)])
    ensures Can(s, Remove(i)) ==> var top := |s.bufs| - 1;
      var r := Take(s, Remove(i));
      && r == s.(bufs := r.bufs) && |r.bufs| == |s.bufs| && r.bufs[..top] == s.bufs[..top] && r.bufs[top].lastSeq == s.bufs[top].lastSeq
      && |r.bufs[top].items| == |s.bufs[top].items| - 1
      && forall k :: 0 <= k < |r.bufs[top].items| ==> r.bufs[top].items[k] == s.bufs[top].items[if k < i then k else k + 1]
  {
  }

  // Every buffer hands out seqs in order.
  ghost predicate InOrder(s: State) {
    forall b :: 0 <= b < |s.bufs| ==>
      Ascending(s.bufs[b].items) && forall x :: x in s.bufs[b].items ==> x.sq <= s.bufs[b].lastSeq
  }

  lemma {:induction false} AboveAscends(items: seq<Entry>, last: nat)
    requires Ascending(items)
    ensures Ascending(Above(items, last))
    ensures forall x :: x in Above(items, last) ==> x in items
  {
    if items != [] {
      var x, rest := items[0], items[1..];
      assert forall i :: 0 <= i < |rest| ==> rest[i] == items[i + 1];
      AboveAscends(rest, last);
      if x.sq > last { Prepended(x, rest, Above(rest, last)); }
    }
  }

  lemma {:induction false} Prepended(x: Entry, rest: seq<Entry>, kept: seq<Entry>)
    requires Ascending(kept) && (forall y :: y in kept ==> y in rest) && (forall i :: 0 <= i < |rest| ==> x.sq < rest[i].sq)
    ensures Ascending([x] + kept)
  {
    forall i | 0 <= i < |kept| ensures x.sq < kept[i].sq { assert kept[i] in rest; }
  }

  // One buffer with another list in it.
  lemma {:induction false} OrderSet(s: State, b: nat, buf: Buf)
    requires InOrder(s) && b < |s.bufs|
    requires Ascending(buf.items) && forall x :: x in buf.items ==> x.sq <= buf.lastSeq
    ensures InOrder(s.(bufs := s.bufs[b := buf]))
  {
    hide Ascending;
  }

  lemma {:induction false} OrderGrown(s: State, s': State)
    requires InOrder(s) && s'.bufs == s.bufs + [Buf([], 0)]
    ensures InOrder(s')
  {
  }

  lemma {:induction false} OrderKept(s: State, s': State)
    requires InOrder(s) && s'.bufs == s.bufs
    ensures InOrder(s')
  {
    hide Ascending;
  }

  lemma {:induction false} StepAscends(s: State, a: Step)
    requires Can(s, a) && InOrder(s)
    ensures InOrder(Take(s, a))
  {
    hide Above, Ascending, InOrder;
    var top, s' := |s.bufs| - 1, Take(s, a);
    var buf := s.bufs[top];
    TopOrder(s);
    if a.Commit? && s.writers[a.t].buf == top {
      Committed1(buf, s.subscribed);
      OrderSet(s, top, s'.bufs[top]);
      OrderKept(s.(bufs := s.bufs[top := s'.bufs[top]]), s');
    } else if a.Drop? && s.chans[a.c].loop.buf == top {
      AboveAscends(buf.items, s.chans[a.c].loop.last);
      OrderSet(s, top, s'.bufs[top]);
      OrderKept(s.(bufs := s.bufs[top := s'.bufs[top]]), s');
    } else if a.Remove? {
      Removed(buf.items, a.i);
      OrderSet(s, top, s'.bufs[top]);
    } else if a.Replace? {
      OrderGrown(s, s');
    } else {
      OrderKept(s, s');
    }
  }

  lemma {:induction false} TopOrder(s: State)
    requires InOrder(s) && s.bufs != []
    ensures var buf := s.bufs[|s.bufs| - 1]; Ascending(buf.items) && forall x :: x in buf.items ==> x.sq <= buf.lastSeq
  {
    hide Ascending;
  }

  lemma {:induction false} Committed1(buf: Buf, watch: Option<nat>)
    requires Ascending(buf.items) && forall x :: x in buf.items ==> x.sq <= buf.lastSeq
    ensures var items := buf.items + [Entry(buf.lastSeq + 1, watch)];
      Ascending(items) && forall x :: x in items ==> x.sq <= buf.lastSeq + 1
  {
    forall i | 0 <= i < |buf.items| ensures buf.items[i].sq <= buf.lastSeq { assert buf.items[i] in buf.items; }
  }

  lemma {:induction false} Removed(items: seq<Entry>, i: nat)
    requires Ascending(items) && i < |items|
    ensures var kept := items[..i] + items[i + 1..]; Ascending(kept) && forall x :: x in kept ==> x in items
  {
    var kept := items[..i] + items[i + 1..];
    assert forall k :: 0 <= k < |kept| ==> kept[k] == items[if k < i then k else k + 1];
  }

  /** So every reachable state is one from which the loop drains. */
  lemma {:induction false} RunAscends(s: State, run: seq<Step>)
    requires Start(s) && Exec(s, run).Some?
    ensures InOrder(Exec(s, run).value)
    decreases |run|
  {
    hide Can, Take;
    if run != [] {
      RunAscends(s, run[..|run| - 1]);
      StepAscends(Exec(s, run[..|run| - 1]).value, run[|run| - 1]);
    }
  }

  /** A buffer replaced meanwhile refuses both sides: the writer has nothing to notify, the command gives up; nothing is stored or dropped. */
  lemma {:induction false} RefusedMeans(s: State, t: nat, c: nat)
    ensures Can(s, Commit(t)) && s.writers[t].buf != |s.bufs| - 1 ==>
      Take(s, Commit(t)) == s.(writers := s.writers[t := Idle])
    ensures Can(s, Acquire(t)) && s.subscribed.None? ==> Take(s, Acquire(t)) == s.(writers := s.writers[t := Idle])
    ensures Can(s, Drop(c)) && s.chans[c].loop.buf != |s.bufs| - 1 ==>
      Take(s, Drop(c)) == s.(chans := s.chans[c := s.chans[c].(loop := Waiting)])
  {
  }
}
