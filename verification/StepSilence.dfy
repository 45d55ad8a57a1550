/**
  What a client that polls lastWriteTS cannot see, in two runs of validated requests: a scope
  that an append creates and is refused for, and that a counter_add which got hold of it keeps
  alive (store.go:640-642, store.go:754-756); and a write that read its clock before another
  write, and commits after it (buffer_write.go:47, buffer_write.go:287).
 */
module StepSilence {
  import opened Types
  import opened Sums
  import opened ScopeSpec
  import opened EventJson
  import opened Steps
  import opened StepRequests
  import opened StepOvershoot
  import opened StepSafety
  import opened StepStamps
  import StoreSpec

  // Every clock reading of the run is later than a given time.
  predicate LaterThan(run: Schedule, ts: int) {
    forall i :: 0 <= i < |run| && run[i].1.Continue? ==> run[i].1.now > ts
  }

  /** A state that validated requests lead to from boot, all at times later than the boot stamp. */
  ghost predicate BroughtLater(w: World, c: Clocked) {
    exists start, run ::
      && Boot(w, start) && StepStamps.Exec(w, Clocked(start, 0, map[]), run) == Some(c)
      && AllAsked(w.cfg, run) && LaterThan(run, 0)
  }

  lemma {:induction false} ExtendLater(w: World, c: Clocked, t: nat, a: Action)
    requires BroughtLater(w, c) && Enabled(w, c.sys, t, a) && Asked(w.cfg, a) && (a.Continue? ==> a.now > 0)
    ensures BroughtLater(w, Tick(w, c, t, a))
  {
    hide Enabled, Tick, Boot, Asked;
    var start, run :| Boot(w, start) && StepStamps.Exec(w, Clocked(start, 0, map[]), run) == Some(c)
      && AllAsked(w.cfg, run) && LaterThan(run, 0);
    var longer := run + [(t, a)];
    assert longer[..|longer| - 1] == run;
    assert StepStamps.Exec(w, Clocked(start, 0, map[]), longer) == Some(Tick(w, c, t, a));
    assert AllAsked(w.cfg, longer) && LaterThan(longer, 0);
  }

  const COUNT := CounterAdd("c", 1)
  const ADD := Adds("1")
  const COUNTED := Scope([Item(NAME, "c", 1, 1, Counter(1))], 1, 1)

  // Room for the counter item, but not for the 50 bytes of the append beside it.
  const LIMIT := 3218

  lemma {:induction false} Outcomes()
    ensures EMPTY_SCOPE.Bytes() == 0 && COUNTED.Bytes() == 106
    ensures var cfg := Limited(LIMIT).cfg;
            var env := Env(cfg, cfg.MaxItemsFor(NAME), NAME);
      && Execute(env, EMPTY_SCOPE, COUNT, 1, 3072) == Changed(COUNTED, ValueReply(1, true))
      && Execute(env, COUNTED, ADD, 1, 3178).Rejected?
  {
    SumOne(COUNTED.items[0], ItemSize);
    var added := Insert(COUNTED, NAME, "", Plain("1", None), 1);
    SumAppend(COUNTED.items, added.items[1], ItemSize);
    assert IndexOfId([], "c") == None && IndexOfId(COUNTED.items, "") == None;
    assert [] + COUNTED.items == COUNTED.items;
  }

  lemma {:induction false} AllAskedFor()
    ensures Asked(Limited(LIMIT).cfg, Start(NAME, ADD)) && Asked(Limited(LIMIT).cfg, Start(NAME, COUNT))
    ensures forall now :: Asked(Limited(LIMIT).cfg, Continue(now))
  {
    AddsAsked(LIMIT, NAME, "1");
    StepsAsked(LIMIT);
    assert !IsReserved(NAME);
    assert AsksFor(Limited(LIMIT).cfg, StoreSpec.CounterReq(NAME, "c", 1), NAME, COUNT);
  }

  // The states of the run; the stamp stays at 0 and no write in hand is to tick.
  function Now(a: Buf, p0: Pc, p1: Pc, total: int, items: int): Clocked {
    Clocked(At3(NewBuf(EVENTS, EMPTY_SCOPE), a, p0, p1, Idle, total, items, 0), 0, map[])
  }

  lemma {:induction false} StartsLater(w: World, s: Sys)
    requires Boot(w, s)
    ensures BroughtLater(w, Clocked(s, 0, map[]))
  {
    hide Boot;
    var none: Schedule := [];
    assert StepStamps.Exec(w, Clocked(s, 0, map[]), none) == Some(Clocked(s, 0, map[]));
    assert AllAsked(w.cfg, none) && LaterThan(none, 0);
  }

  // Thread 0 creates scope a for its append.
  lemma {:induction false} Creates0()
    ensures BroughtLater(Limited(LIMIT), Now(NewBuf(NAME, EMPTY_SCOPE), Ready(2, ADD, true), Idle, 3072, 0))
  {
    hide Execute, Sum, BroughtLater, Asked;
    AllAskedFor();
    BootMaps();
    var w := Limited(LIMIT);
    var s0 := Sys([NewBuf(EVENTS, EMPTY_SCOPE), NewBuf(INBOX, EMPTY_SCOPE)], map[EVENTS := 0, INBOX := 1],
                  [Idle, Idle, Idle], 2048, 0, 2, 0);
    StartsLater(w, s0);
    var s1 := s0.(threads := [Missing(NAME, ADD), Idle, Idle]);
    ExtendLater(w, Clocked(s0, 0, map[]), 0, Start(NAME, ADD));
    assert Tick(w, Clocked(s0, 0, map[]), 0, Start(NAME, ADD)) == Clocked(s1, 0, map[]);
    var s2 := s1.(threads := [Inserting(NAME, ADD), Idle, Idle], total := 3072);
    ExtendLater(w, Clocked(s1, 0, map[]), 0, Continue(1));
    assert Tick(w, Clocked(s1, 0, map[]), 0, Continue(1)) == Clocked(s2, 0, map[]);
    ExtendLater(w, Clocked(s2, 0, map[]), 0, Continue(1));
    assert Tick(w, Clocked(s2, 0, map[]), 0, Continue(1)) == Now(NewBuf(NAME, EMPTY_SCOPE), Ready(2, ADD, true), Idle, 3072, 0);
  }

  // Thread 1 finds the scope and counts in it.
  lemma {:induction false} Counts()
    ensures BroughtLater(Limited(LIMIT), Now(NewBuf(NAME, COUNTED), Ready(2, ADD, true), Idle, 3178, 1))
  {
    hide Execute, Sum, BroughtLater, Asked, Scope.Bytes;
    AllAskedFor();
    Outcomes();
    Creates0();
    var w, p0, a := Limited(LIMIT), Ready(2, ADD, true), NewBuf(NAME, EMPTY_SCOPE);
    var c0, c1 := Now(a, p0, Idle, 3072, 0), Now(a, p0, Ready(2, COUNT, false), 3072, 0);
    ExtendLater(w, c0, 1, Start(NAME, COUNT));
    assert Tick(w, c0, 1, Start(NAME, COUNT)) == c1;
    var c2 := Now(a.(hold := Held(1, COUNTED)), p0, Writing(2), 3178, 0);
    ExtendLater(w, c1, 1, Continue(1));
    assert Tick(w, c1, 1, Continue(1)) == c2;
    ExtendLater(w, c2, 1, Continue(1));
    assert Tick(w, c2, 1, Continue(1)) == Now(NewBuf(NAME, COUNTED), p0, Idle, 3178, 1);
  }

  // The append is refused, and its rollback leaves the scope alone.
  lemma {:induction false} Fails()
    ensures BroughtLater(Limited(LIMIT), Now(NewBuf(NAME, COUNTED), Idle, Idle, 3178, 1))
  {
    hide Execute, Sum, BroughtLater, Asked, Scope.Bytes;
    AllAskedFor();
    Outcomes();
    Counts();
    var w, a := Limited(LIMIT), NewBuf(NAME, COUNTED);
    var c0, c1 := Now(a, Ready(2, ADD, true), Idle, 3178, 1), Now(a, Failed(2, NAME), Idle, 3178, 1);
    ExtendLater(w, c0, 0, Continue(1));
    assert Tick(w, c0, 0, Continue(1)) == c1;
    var c2 := Now(a, RollingBack(2, NAME), Idle, 3178, 1);
    ExtendLater(w, c1, 0, Continue(1));
    assert Tick(w, c1, 0, Continue(1)) == c2;
    ExtendLater(w, c2, 0, Continue(1));
    assert Tick(w, c2, 0, Continue(1)) == Now(a, Idle, Idle, 3178, 1);
  }

  /** Everything is done, a scope is there that boot did not have, it holds an item, and the stamp has not moved. */
  lemma {:induction false} ScopeWithoutTick()
    ensures exists w, c ::
      && BroughtLater(w, c) && c.stamp == 0 && (forall t :: 0 <= t < |c.sys.threads| ==> c.sys.threads[t].Idle?)
      && NAME in c.sys.maps && !IsReserved(NAME)
      && c.sys.maps[NAME] < |c.sys.bufs| && c.sys.bufs[c.sys.maps[NAME]].scope == COUNTED
  {
    hide BroughtLater;
    Fails();
    var c := Now(NewBuf(NAME, COUNTED), Idle, Idle, 3178, 1);
    assert BroughtLater(Limited(LIMIT), c) && c.sys.maps[NAME] == 2;
  }

  // ---- a write overtaken by a later one ----

  function Stamped(name: string, ts: int): Scope { Scope([Item(name, "", 1, ts, Plain("1", None))], 1, 0) }

  lemma {:induction false} Adding(name: string, ts: int, total: int)
    requires IsReserved(name) && total <= 9_000
    ensures EMPTY_SCOPE.Bytes() == 0 && Stamped(name, ts).Bytes() == 49 + |name|
    ensures var cfg := Limited(10_000).cfg;
      Execute(Env(cfg, cfg.MaxItemsFor(name), name), EMPTY_SCOPE, ADD, ts, total)
        == Changed(Stamped(name, ts), ItemReply(Stamped(name, ts).items[0], true))
    ensures Asked(Limited(10_000).cfg, Start(name, ADD))
    ensures forall now :: Asked(Limited(10_000).cfg, Continue(now))
  {
    SumOne(Stamped(name, ts).items[0], ItemSize);
    assert IndexOfId([], "") == None;
    assert [] + Stamped(name, ts).items == Stamped(name, ts).items;
    AddsAsked(10_000, name, "1");
    StepsAsked(10_000);
  }

  // The two reserved scopes and two writers.
  function Both(e: Buf, i: Buf, p0: Pc, p1: Pc, total: int, items: int, stamp: int, offers: map<nat, Option<int>>): Clocked {
    Clocked(Sys([e, i], map[EVENTS := 0, INBOX := 1], [p0, p1, Idle], total, items, 2, 0), stamp, offers)
  }

  const E0 := NewBuf(EVENTS, EMPTY_SCOPE)
  const I0 := NewBuf(INBOX, EMPTY_SCOPE)

  lemma {:induction false} BootBoth()
    ensures BroughtLater(Limited(10_000), Both(E0, I0, Idle, Idle, 2048, 0, 0, map[]))
  {
    hide BroughtLater, NewMaps, NewBufs, Sum;
    BootMaps();
    StartsLater(Limited(10_000), Both(E0, I0, Idle, Idle, 2048, 0, 0, map[]).sys);
  }

  // Thread 0 has its append to _events in hand; it read the clock at 5.
  lemma {:induction false} FirstInHand()
    ensures BroughtLater(Limited(10_000),
              Both(E0.(hold := Held(0, Stamped(EVENTS, 5))), I0, Writing(0), Idle, 2104, 0, 0, map[0 := Some(5)]))
  {
    hide Execute, Sum, BroughtLater, Asked, Scope.Bytes;
    Adding(EVENTS, 5, 2048);
    BootBoth();
    var w := Limited(10_000);
    var c0, c1 := Both(E0, I0, Idle, Idle, 2048, 0, 0, map[]), Both(E0, I0, Ready(0, ADD, false), Idle, 2048, 0, 0, map[]);
    ExtendLater(w, c0, 0, Start(EVENTS, ADD));
    assert Tick(w, c0, 0, Start(EVENTS, ADD)) == c1;
    ExtendLater(w, c1, 0, Continue(5));
    assert Tick(w, c1, 0, Continue(5))
        == Both(E0.(hold := Held(0, Stamped(EVENTS, 5))), I0, Writing(0), Idle, 2104, 0, 0, map[0 := Some(5)]);
  }

  // Then thread 1 has its append to _inbox in hand; it read the clock at 6.
  lemma {:induction false} SecondInHand()
    ensures BroughtLater(Limited(10_000),
              Both(E0.(hold := Held(0, Stamped(EVENTS, 5))), I0.(hold := Held(1, Stamped(INBOX, 6))), Writing(0), Writing(1),
                   2159, 0, 0, map[0 := Some(5), 1 := Some(6)]))
  {
    hide Execute, Sum, BroughtLater, Asked, Scope.Bytes;
    Adding(INBOX, 6, 2104);
    FirstInHand();
    var w, e, offers := Limited(10_000), E0.(hold := Held(0, Stamped(EVENTS, 5))), map[0 := Some(5)];
    var c0, c1 := Both(e, I0, Writing(0), Idle, 2104, 0, 0, offers), Both(e, I0, Writing(0), Ready(1, ADD, false), 2104, 0, 0, offers);
    ExtendLater(w, c0, 1, Start(INBOX, ADD));
    assert Tick(w, c0, 1, Start(INBOX, ADD)) == c1;
    ExtendLater(w, c1, 1, Continue(6));
    assert Tick(w, c1, 1, Continue(6))
        == Both(e, I0.(hold := Held(1, Stamped(INBOX, 6))), Writing(0), Writing(1), 2159, 0, 0, offers[1 := Some(6)]);
  }

  // Thread 1 commits, and a client polls.
  function Polled(): Clocked {
    Both(E0.(hold := Held(0, Stamped(EVENTS, 5))), NewBuf(INBOX, Stamped(INBOX, 6)), Writing(0), Idle, 2159, 1, 6, map[0 := Some(5)])
  }

  lemma {:induction false} SecondCommits()
    ensures BroughtLater(Limited(10_000), Polled())
  {
    hide Execute, Sum, BroughtLater, Asked, Scope.Bytes;
    StepsAsked(10_000);
    SecondInHand();
    var w, e := Limited(10_000), E0.(hold := Held(0, Stamped(EVENTS, 5)));
    var c := Both(e, I0.(hold := Held(1, Stamped(INBOX, 6))), Writing(0), Writing(1), 2159, 0, 0, map[0 := Some(5), 1 := Some(6)]);
    ExtendLater(w, c, 1, Continue(6));
    assert Tick(w, c, 1, Continue(6)) == Polled();
  }

  lemma {:induction false} PolledHand()
    ensures LoudInHand(Polled(), 0)
  {
    var c := Polled();
    var next := c.sys.bufs[0].hold.next;
    assert Overtaken(c, 0);
    assert |next.items| == 1 && next.items[0].body.Plain?;
  }

  lemma {:induction false} BroughtIsInv(w: World, c: Clocked)
    requires BroughtLater(w, c)
    ensures Inv(w, c.sys)
  {
    hide Boot, Inv, OffersOk, AllAsked, LaterThan;
    var start, run :| Boot(w, start) && StepStamps.Exec(w, Clocked(start, 0, map[]), run) == Some(c)
      && AllAsked(w.cfg, run) && LaterThan(run, 0);
    BootOffers(w, start);
    RunOffers(w, Clocked(start, 0, map[]), run);
  }

  /** A poll finds the stamp at 6, the append to _events commits, and every later poll finds it at 6. */
  lemma {:induction false} OvertakenWriteIsMissed()
    ensures exists w, c, run ::
      && BroughtLater(w, c) && AllAsked(w.cfg, run) && LaterThan(run, c.stamp) && Misses(w, c, run)
  {
    hide BroughtLater, Misses, Inv, Sum, Scope.Bytes;
    SecondCommits();
    var w, c, run := Limited(10_000), Polled(), [(0, Continue(7))];
    BroughtIsInv(w, c);
    PolledHand();
    HandMisses(w, c, 0, 7);
    assert AllAsked(w.cfg, run) && LaterThan(run, c.stamp);
  }
}
