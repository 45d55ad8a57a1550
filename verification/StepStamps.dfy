/**
  lastWriteTS, the one number a client polls, beside the interleavings of Steps: what can
  happen to the store while it does not move.
 */
module StepStamps {
  import opened Types
  import opened Sums
  import opened ScopeSpec
  import opened Steps
  import opened StepStructure
  import opened StepSafety
  import opened StepHolds

  /**
    offers: what each accepted write in hand will offer the stamp when it commits. A write
    reads its clock under the buffer lock, before it changes anything (buffer_write.go:47,
    buffer_write.go:64), and offers that reading; a counter_add that created its scope reads
    the clock when it is done (store.go:754-756), which is None here.
   */
  datatype Clocked = Clocked(sys: Sys, stamp: int, offers: map<nat, Option<int>>)

  // Counter activity is silent unless it created the scope (buffer_counter.go:24-35, store.go:754-756).
  predicate Loud(op: Op, created: bool) {
    !op.CounterAdd? || created
  }

  // Whether this step bumps the stamp.
  predicate Bumps(c: Clocked, t: nat, a: Action)
    requires t < |c.sys.threads|
  {
    a.Continue? &&
    match c.sys.threads[t]
    case Writing(_) => t in c.offers
    case Deleting(_) => true
    case WarmWriting(plans, _, _) => plans != []
    case ResetSweeping(_) => true
    case _ => false
  }

  // The time a bump offers.
  function Offer(c: Clocked, t: nat, a: Action): int
    requires t < |c.sys.threads| && Bumps(c, t, a)
  {
    if c.sys.threads[t].Writing? && c.offers[t].Some? then c.offers[t].value else a.now
  }

  // Whether this step reads a clock whose reading may be offered.
  predicate Reads(c: Clocked, t: nat, a: Action)
    requires t < |c.sys.threads|
  {
    a.Continue? &&
    var pc := c.sys.threads[t];
    pc.Ready? || (Bumps(c, t, a) && !(pc.Writing? && c.offers[t].Some?))
  }

  ghost function Tick(w: World, c: Clocked, t: nat, a: Action): Clocked
    requires Enabled(w, c.sys, t, a)
  {
    var s' := Do(w, c.sys, t, a);
    var pc := c.sys.threads[t];
    Clocked(s',
            if Bumps(c, t, a) then Max(c.stamp, Offer(c, t, a)) else c.stamp,
            if !a.Continue? then c.offers
            else if pc.Ready? && s'.threads[t].Writing? && Loud(pc.op, pc.created)
            then c.offers[t := if pc.op.CounterAdd? then None else Some(a.now)]
            else c.offers - {t})
  }

  /** What an accepted write has to offer: its own clock reading, the time of its commit, or nothing. */
  lemma {:induction false} OffersMean(w: World, c: Clocked, t: nat, now: int)
    requires Enabled(w, c.sys, t, Continue(now)) && c.sys.threads[t].Ready?
    requires Tick(w, c, t, Continue(now)).sys.threads[t].Writing?
    ensures var pc, c' := c.sys.threads[t], Tick(w, c, t, Continue(now));
      && (!pc.op.CounterAdd? ==> t in c'.offers && c'.offers[t] == Some(now))
      && (pc.op.CounterAdd? && pc.created ==> t in c'.offers && c'.offers[t] == None)
      && (pc.op.CounterAdd? && !pc.created ==> t !in c'.offers)
  {
    hide Do, Enabled;
  }

  // The stamp and a time offered to it.
  predicate Latest(before: int, offered: int, after: int) {
    after >= before && after >= offered && (after == before || after == offered)
  }

  /** Which steps move the stamp, and to what. */
  lemma {:induction false} TickMeans(w: World, c: Clocked, t: nat, a: Action)
    requires Enabled(w, c.sys, t, a)
    ensures var pc, after := c.sys.threads[t], Tick(w, c, t, a).stamp;
      if !a.Continue? then after == c.stamp
      else if pc.Writing? && t in c.offers then
        Latest(c.stamp, if c.offers[t].Some? then c.offers[t].value else a.now, after)
      else if pc.Deleting? || pc.ResetSweeping? || (pc.WarmWriting? && pc.plans != []) then
        Latest(c.stamp, a.now, after)
      else after == c.stamp
  {
    hide Do, Enabled;
    EnabledThread(w, c.sys, t, a);
    if a.Continue? && c.sys.threads[t].WarmWriting? && c.sys.threads[t].plans == [] { assert !Bumps(c, t, a); }
  }

  ghost function Exec(w: World, c: Clocked, run: Schedule): Option<Clocked>
    decreases |run|
  {
    if run == [] then Some(c)
    else
      var last := |run| - 1;
      match Exec(w, c, run[..last])
      case None => None
      case Some(m) => if Enabled(w, m.sys, run[last].0, run[last].1) then Some(Tick(w, m, run[last].0, run[last].1)) else None
  }

  // Every clock reading of the run that may be offered is later than a given time.
  ghost predicate ReadsLater(w: World, c: Clocked, run: Schedule, ts: int)
    decreases |run|
  {
    run == [] ||
    var last := |run| - 1;
    && ReadsLater(w, c, run[..last], ts)
    && (Exec(w, c, run).Some? ==>
          var m := Exec(w, c, run[..last]).value;
          Reads(m, run[last].0, run[last].1) ==> run[last].1.now > ts)
  }

  // Every bump of the run offers a time the stamp has reached already.
  ghost predicate AllStale(w: World, c: Clocked, run: Schedule, ts: int)
    decreases |run|
  {
    run == [] ||
    var last := |run| - 1;
    && AllStale(w, c, run[..last], ts)
    && (Exec(w, c, run).Some? ==>
          var m := Exec(w, c, run[..last]).value;
          Bumps(m, run[last].0, run[last].1) ==> Offer(m, run[last].0, run[last].1) <= ts)
  }

  // No step of the run bumps.
  ghost predicate NoBump(w: World, c: Clocked, run: Schedule)
    decreases |run|
  {
    run == [] ||
    var last := |run| - 1;
    && NoBump(w, c, run[..last])
    && (Exec(w, c, run).Some? ==> !Bumps(Exec(w, c, run[..last]).value, run[last].0, run[last].1))
  }

  /** Nothing was lost and nothing is new, counters apart. */
  predicate Quiet(a: Scope, b: Scope) {
    && |a.items| <= |b.items|
    && (forall i :: 0 <= i < |a.items| ==>
          b.items[i].id == a.items[i].id && b.items[i].sq == a.items[i].sq && (b.items[i] == a.items[i] || b.items[i].body.Counter?))
    && (forall i :: |a.items| <= i < |b.items| ==> b.items[i].body.Counter?)
  }

  lemma {:induction false} QuietOn(a: Scope, b: Scope, c: Scope)
    requires Quiet(a, b) && Quiet(b, c)
    ensures Quiet(a, c)
  {
  }

  lemma {:induction false} QuietSelf(a: Scope)
    ensures Quiet(a, a)
  {
  }

  // A counter_add, in any of its forms, is quiet.
  lemma {:induction false} CountersAreQuiet(env: Env, s: Scope, op: Op, now: int, total: int)
    requires op.CounterAdd? && Execute(env, s, op, now, total).Changed?
    ensures Quiet(s, Execute(env, s, op, now, total).next)
  {
    hide IndexOfId, Sum;
  }

  // ---- the accepted writes in hand ----

  ghost predicate HandOk(c: Clocked, i: nat)
    requires i < |c.sys.bufs|
  {
    var b := c.sys.bufs[i];
    b.hold.Held? && b.hold.owner !in c.offers ==> Quiet(b.scope, b.hold.next)
  }

  /** A write that will not tick holds a quiet change. */
  ghost predicate OffersOk(c: Clocked) {
    forall i :: 0 <= i < |c.sys.bufs| ==> HandOk(c, i)
  }

  lemma {:induction false} OwnHand(w: World, c: Clocked, t: nat, a: Action, i: nat)
    requires Inv(w, c.sys) && Enabled(w, c.sys, t, a)
    requires i < |Do(w, c.sys, t, a).bufs| && Do(w, c.sys, t, a).bufs[i].hold.Held?
    requires i < |c.sys.bufs| ==> c.sys.bufs[i].hold.Free? || c.sys.bufs[i].hold.owner == t
    ensures i < |c.sys.bufs| && HandOk(Tick(w, c, t, a), i)
  {
    hide Inv, Do, Enabled, Quiet, HandOk;
    EnabledThread(w, c.sys, t, a);
    if i >= |c.sys.bufs| {
      NewFree(w, c.sys, t, a, i);
    } else if a.Continue? && c.sys.threads[t].Ready? {
      ContinueIs(a);
      TakenHand(w, c, t, a.now, i);
    } else {
      OnlyReadyTakes(w, c.sys, t, a, i);
    }
  }

  lemma {:induction false} TakenHand(w: World, c: Clocked, t: nat, now: int, i: nat)
    requires Inv(w, c.sys) && Enabled(w, c.sys, t, Continue(now)) && c.sys.threads[t].Ready? && i < |c.sys.bufs|
    requires Do(w, c.sys, t, Continue(now)).bufs[i].hold.Held?
    requires c.sys.bufs[i].hold.Free? || c.sys.bufs[i].hold.owner == t
    ensures HandOk(Tick(w, c, t, Continue(now)), i)
  {
    hide Structure, Accounted, Capped, Sum, Execute, Quiet;
    Parts(w, c.sys, t);
    var s, pc := c.sys, c.sys.threads[t];
    assert BufOk(s, i);
    if Do(w, s, t, Continue(now)).threads[t].Writing? && !Loud(pc.op, pc.created) {
      var buf := s.bufs[pc.b];
      CountersAreQuiet(Env(w.cfg, w.cfg.MaxItemsFor(buf.name), buf.name), buf.scope, pc.op, now, s.total);
    }
  }

  lemma {:induction false} HandKept(w: World, c: Clocked, t: nat, a: Action, i: nat)
    requires Inv(w, c.sys) && OffersOk(c) && Enabled(w, c.sys, t, a)
    requires i < |Tick(w, c, t, a).sys.bufs|
    ensures HandOk(Tick(w, c, t, a), i)
  {
    hide Inv, Do, Enabled, Quiet;
    if i < |c.sys.bufs| && c.sys.bufs[i].hold.Held? && c.sys.bufs[i].hold.owner != t {
      assert HandOk(c, i);
      HeldStays(w, c.sys, t, a, i);
      OffersElsewhere(w, c, t, a, c.sys.bufs[i].hold.owner);
    } else if Do(w, c.sys, t, a).bufs[i].hold.Held? {
      OwnHand(w, c, t, a, i);
    }
  }

  lemma {:induction false} OffersElsewhere(w: World, c: Clocked, t: nat, a: Action, u: nat)
    requires Enabled(w, c.sys, t, a) && u != t
    ensures var c' := Tick(w, c, t, a); (u in c'.offers <==> u in c.offers) && (u in c.offers ==> c'.offers[u] == c.offers[u])
  {
    hide Do, ShardFree, Sum;
  }

  // ---- while the stamp does not move ----

  predicate QuietFrom(base: Scope, linked: bool, later: Buf) {
    Quiet(base, later.scope) && (linked && base.items != [] ==> later.linked)
  }

  /** A buffer, or the empty scope it started from, and what it is later. */
  predicate QuietBuf(bufs: seq<Buf>, later: seq<Buf>, i: nat)
    requires i < |later|
  {
    QuietFrom(if i < |bufs| then bufs[i].scope else EMPTY_SCOPE, i < |bufs| && bufs[i].linked, later[i])
  }

  predicate AllQuiet(bufs: seq<Buf>, later: seq<Buf>) {
    |bufs| <= |later| && forall i :: 0 <= i < |later| ==> QuietBuf(bufs, later, i)
  }

  // One step that does not bump.
  lemma {:induction false} StepQuiet(w: World, c: Clocked, t: nat, a: Action, i: nat)
    requires Inv(w, c.sys) && OffersOk(c) && Enabled(w, c.sys, t, a) && !Bumps(c, t, a)
    ensures |c.sys.bufs| <= |Do(w, c.sys, t, a).bufs|
    ensures i < |Do(w, c.sys, t, a).bufs| ==> QuietBuf(c.sys.bufs, Do(w, c.sys, t, a).bufs, i)
  {
    hide Structure, Accounted, Capped, Sum, Execute, ShardFree, NewMaps, Quiet, Whole, NewBufs, Unlinked;
    Parts(w, c.sys, t);
    if i < |c.sys.bufs| {
      assert HandOk(c, i) && BufOk(c.sys, i);
      QuietSelf(c.sys.bufs[i].scope);
    }
    QuietSelf(EMPTY_SCOPE);
  }

  lemma {:induction false} QuietLonger(a: Scope, b: Scope)
    requires Quiet(a, b)
    ensures |a.items| <= |b.items|
  {
  }

  lemma {:induction false} StepOffers(w: World, c: Clocked, t: nat, a: Action)
    requires Inv(w, c.sys) && OffersOk(c) && Enabled(w, c.sys, t, a)
    ensures var c' := Tick(w, c, t, a); Inv(w, c'.sys) && OffersOk(c') && c'.stamp >= c.stamp
  {
    hide Inv, Do, Enabled, HandOk, Bumps, Offer, Loud;
    StepKeeps(w, c.sys, t, a);
    forall i: nat | i < |Tick(w, c, t, a).sys.bufs| ensures HandOk(Tick(w, c, t, a), i) {
      HandKept(w, c, t, a, i);
    }
  }

  lemma {:induction false} RunOffers(w: World, c: Clocked, run: Schedule)
    requires Inv(w, c.sys) && OffersOk(c) && Exec(w, c, run).Some?
    ensures var c' := Exec(w, c, run).value; Inv(w, c'.sys) && OffersOk(c') && c'.stamp >= c.stamp
    decreases |run|
  {
    hide Inv, Tick, Enabled, OffersOk;
    if run != [] {
      var last := |run| - 1;
      RunOffers(w, c, run[..last]);
      StepOffers(w, Exec(w, c, run[..last]).value, run[last].0, run[last].1);
    }
  }

  /** The stamp is where it was exactly if every bump since has offered a time it had reached. */
  lemma {:induction false} UnmovedExactlyWhen(w: World, c: Clocked, run: Schedule)
    requires Exec(w, c, run).Some?
    ensures Exec(w, c, run).value.stamp >= c.stamp
    ensures Exec(w, c, run).value.stamp == c.stamp <==> AllStale(w, c, run, c.stamp)
    decreases |run|
  {
    hide Do, Enabled, Bumps, Offer, Loud;
    if run != [] {
      var last := |run| - 1;
      UnmovedExactlyWhen(w, c, run[..last]);
    }
  }

  // ---- what two polls that agree can miss ----

  /** A write in hand has read a clock that the stamp has reached: when it commits, the stamp stays. */
  predicate Overtaken(c: Clocked, i: nat) {
    && i < |c.sys.bufs| && c.sys.bufs[i].hold.Held? && c.sys.bufs[i].hold.owner in c.offers
    && c.offers[c.sys.bufs[i].hold.owner].Some? && c.offers[c.sys.bufs[i].hold.owner].value <= c.stamp
  }

  // A buffer is as it was but for counters, or as the overtaken write in hand leaves it but for counters.
  predicate Explained(c: Clocked, later: seq<Buf>, i: nat)
    requires i < |later|
  {
    || QuietBuf(c.sys.bufs, later, i)
    || (Overtaken(c, i) && QuietFrom(c.sys.bufs[i].hold.next, true, later[i]))
  }

  predicate AllExplained(c: Clocked, later: seq<Buf>) {
    |c.sys.bufs| <= |later| && forall i :: 0 <= i < |later| ==> Explained(c, later, i)
  }

  // The write that thread t has in hand is one it had at the first poll.
  predicate InHandSince(c: Clocked, m: Clocked, t: nat) {
    && t < |m.sys.threads| && m.sys.threads[t].Writing? && t in c.offers && t in m.offers && c.offers[t] == m.offers[t]
    && var b := m.sys.threads[t].b;
       && b < |c.sys.bufs| && b < |m.sys.bufs|
       && m.sys.bufs[b].hold == c.sys.bufs[b].hold && m.sys.bufs[b].scope == c.sys.bufs[b].scope
       && c.sys.bufs[b].hold.Held? && c.sys.bufs[b].hold.owner == t
  }

  predicate OldOffer(m: Clocked, t: nat, ts: int) {
    t < |m.sys.threads| && m.sys.threads[t].Writing? && t in m.offers && m.offers[t].Some? && m.offers[t].value <= ts
  }

  ghost predicate OldInHand(c: Clocked, m: Clocked) {
    forall t :: OldOffer(m, t, c.stamp) ==> InHandSince(c, m, t)
  }

  lemma {:induction false} OldAtFirst(w: World, c: Clocked)
    requires Inv(w, c.sys)
    ensures OldInHand(c, c)
  {
    hide Structure, Accounted, Capped;
    forall t | OldOffer(c, t, c.stamp) ensures InHandSince(c, c, t) { WriterHolds(w, c.sys, t); }
  }

  // No other thread is moved by a step, and none starts to write but by a reading of its own.
  lemma {:induction false} NewOffers(w: World, m: Clocked, t: nat, a: Action, ts: int, u: nat)
    requires Enabled(w, m.sys, t, a) && (Reads(m, t, a) ==> a.now > ts)
    requires OldOffer(Tick(w, m, t, a), u, ts)
    ensures OldOffer(m, u, ts) && u != t
    ensures u < |m.sys.threads| && Tick(w, m, t, a).sys.threads[u] == m.sys.threads[u] && Tick(w, m, t, a).offers[u] == m.offers[u]
  {
    hide Execute, ShardFree, Sum, NewMaps, Whole, NewBufs, Unlinked;
  }

  lemma {:induction false} OldStays(w: World, c: Clocked, m: Clocked, t: nat, a: Action)
    requires Inv(w, m.sys) && OldInHand(c, m) && Enabled(w, m.sys, t, a) && (Reads(m, t, a) ==> a.now > c.stamp)
    ensures OldInHand(c, Tick(w, m, t, a))
  {
    hide Structure, Accounted, Capped, Do, Enabled, Reads, Bumps, Offer, Loud;
    var m' := Tick(w, m, t, a);
    forall u: nat | OldOffer(m', u, c.stamp) ensures InHandSince(c, m', u) {
      NewOffers(w, m, t, a, c.stamp, u);
      assert InHandSince(c, m, u);
      var b := m.sys.threads[u].b;
      HeldStays(w, m.sys, t, a, b);
    }
  }

  // ---- composing steps ----

  lemma {:induction false} QuietFromOn(base: Scope, linked: bool, bufs: seq<Buf>, later: seq<Buf>, i: nat)
    requires i < |bufs| && i < |later| && QuietFrom(base, linked, bufs[i]) && QuietBuf(bufs, later, i)
    ensures QuietFrom(base, linked, later[i])
  {
    hide Quiet;
    QuietOn(base, bufs[i].scope, later[i].scope);
    if base.items != [] { QuietLonger(base, bufs[i].scope); }
  }

  // A step without a bump explains no more and no less.
  lemma {:induction false} QuietStepExplained(w: World, c: Clocked, m: Clocked, t: nat, a: Action)
    requires Inv(w, m.sys) && OffersOk(m) && Enabled(w, m.sys, t, a) && !Bumps(m, t, a)
    requires AllExplained(c, m.sys.bufs)
    ensures AllExplained(c, Do(w, m.sys, t, a).bufs)
  {
    hide Inv, Do, Enabled, OffersOk, QuietFrom, Bumps;
    var bufs, later := m.sys.bufs, Do(w, m.sys, t, a).bufs;
    StepQuiet(w, m, t, a, 0);
    forall i | 0 <= i < |later| ensures Explained(c, later, i) {
      StepQuiet(w, m, t, a, i);
      if i < |bufs| {
        assert Explained(c, bufs, i);
        if QuietBuf(c.sys.bufs, bufs, i) {
          QuietFromOn(if i < |c.sys.bufs| then c.sys.bufs[i].scope else EMPTY_SCOPE,
                      i < |c.sys.bufs| && c.sys.bufs[i].linked, bufs, later, i);
        } else {
          QuietFromOn(c.sys.bufs[i].hold.next, true, bufs, later, i);
        }
      }
    }
  }

  // The one kind of bump that leaves the stamp: a commit with an old offer.
  lemma {:induction false} StaleBump(w: World, c: Clocked, m: Clocked, t: nat, a: Action)
    requires Enabled(w, m.sys, t, a) && Bumps(m, t, a) && (Reads(m, t, a) ==> a.now > c.stamp)
    requires m.stamp == c.stamp == Tick(w, m, t, a).stamp
    ensures a.Continue? && OldOffer(m, t, c.stamp)
  {
    hide Do, ShardFree, Sum;
  }

  lemma {:induction false} StaleCommitExplained(w: World, c: Clocked, m: Clocked, t: nat, now: int)
    requires Inv(w, m.sys) && Enabled(w, m.sys, t, Continue(now)) && OldOffer(m, t, c.stamp) && OldInHand(c, m)
    requires AllExplained(c, m.sys.bufs)
    ensures AllExplained(c, Do(w, m.sys, t, Continue(now)).bufs)
  {
    hide Inv, Do, Enabled, Quiet;
    assert InHandSince(c, m, t);
    var b := m.sys.threads[t].b;
    var later := Do(w, m.sys, t, Continue(now)).bufs;
    CommitChanges(w, m.sys, t, now, b);
    forall i | 0 <= i < |later| ensures Explained(c, later, i) {
      CommitChanges(w, m.sys, t, now, i);
      assert Explained(c, m.sys.bufs, i);
      if i == b { QuietSelf(later[i].scope); }
    }
  }

  lemma {:induction false} RunExplained(w: World, c: Clocked, run: Schedule)
    requires Inv(w, c.sys) && OffersOk(c) && Exec(w, c, run).Some? && ReadsLater(w, c, run, c.stamp)
    requires Exec(w, c, run).value.stamp == c.stamp
    ensures AllExplained(c, Exec(w, c, run).value.sys.bufs) && OldInHand(c, Exec(w, c, run).value)
    decreases |run|
  {
    hide Inv, Do, Enabled, OffersOk, AllExplained, OldInHand, Bumps, Reads, Offer, OldOffer;
    if run == [] {
      OldAtFirst(w, c);
      ExplainedAtFirst(c);
    } else {
      var last := |run| - 1;
      var t, a := run[last].0, run[last].1;
      var m := Exec(w, c, run[..last]).value;
      RunOffers(w, c, run[..last]);
      StepOffers(w, m, t, a);
      RunExplained(w, c, run[..last]);
      OldStays(w, c, m, t, a);
      EnabledThread(w, m.sys, t, a);
      if Bumps(m, t, a) {
        StaleBump(w, c, m, t, a);
        ContinueIs(a);
        StaleCommitExplained(w, c, m, t, a.now);
      } else {
        QuietStepExplained(w, c, m, t, a);
      }
    }
  }

  lemma {:induction false} ExplainedAtFirst(c: Clocked)
    ensures AllExplained(c, c.sys.bufs)
  {
    hide Quiet;
    forall i | 0 <= i < |c.sys.bufs| ensures Explained(c, c.sys.bufs, i) { QuietSelf(c.sys.bufs[i].scope); }
  }

  lemma {:induction false} BootOffers(w: World, s: Sys)
    requires Boot(w, s)
    ensures Inv(w, s) && OffersOk(Clocked(s, 0, map[]))
  {
    hide Structure, Accounted, Capped, NewMaps;
    BootStructure(w, s);
    BootBooks(w, s);
  }

  /**
    Two polls in a run from boot find the same stamp, and what is read from the clock
    between them is later. Then each buffer is as it was but for counters, or it had an
    accepted write in hand at the first poll whose reading the stamp had reached, and it is
    as that write leaves it but for counters.
   */
  lemma {:induction false} PollMisses(w: World, start: Sys, before: Schedule, c: Clocked, run: Schedule)
    requires Boot(w, start) && Exec(w, Clocked(start, 0, map[]), before) == Some(c)
    requires Exec(w, c, run).Some? && ReadsLater(w, c, run, c.stamp) && Exec(w, c, run).value.stamp == c.stamp
    ensures AllExplained(c, Exec(w, c, run).value.sys.bufs)
  {
    hide Boot, Inv, OffersOk, AllExplained, OldInHand;
    BootOffers(w, start);
    RunOffers(w, Clocked(start, 0, map[]), before);
    RunExplained(w, c, run);
  }

  /** So a poll that finds no overtaken write in hand misses counters only. */
  lemma {:induction false} PollMissesOnlyCounters(w: World, start: Sys, before: Schedule, c: Clocked, run: Schedule)
    requires Boot(w, start) && Exec(w, Clocked(start, 0, map[]), before) == Some(c)
    requires Exec(w, c, run).Some? && ReadsLater(w, c, run, c.stamp) && Exec(w, c, run).value.stamp == c.stamp
    requires forall i :: !Overtaken(c, i)
    ensures AllQuiet(c.sys.bufs, Exec(w, c, run).value.sys.bufs)
  {
    hide Boot, Exec, ReadsLater, QuietBuf, QuietFrom, Overtaken;
    PollMisses(w, start, before, c, run);
    var later := Exec(w, c, run).value.sys.bufs;
    forall i | 0 <= i < |later| ensures QuietBuf(c.sys.bufs, later, i) { assert Explained(c, later, i); }
  }

  /** Whatever the clocks read: if no step between the polls bumps, counters are all there is to miss. */
  lemma {:induction false} WithoutBump(w: World, c: Clocked, run: Schedule)
    requires Inv(w, c.sys) && OffersOk(c) && Exec(w, c, run).Some? && NoBump(w, c, run)
    ensures AllQuiet(c.sys.bufs, Exec(w, c, run).value.sys.bufs)
    decreases |run|
  {
    hide Inv, Do, Enabled, OffersOk, Quiet, Bumps, Reads, Offer;
    if run == [] {
      forall i | 0 <= i < |c.sys.bufs| ensures QuietBuf(c.sys.bufs, c.sys.bufs, i) { QuietSelf(c.sys.bufs[i].scope); }
    } else {
      var last := |run| - 1;
      var t, a := run[last].0, run[last].1;
      var m := Exec(w, c, run[..last]).value;
      RunOffers(w, c, run[..last]);
      WithoutBump(w, c, run[..last]);
      QuietStepOn(w, c.sys.bufs, m, t, a);
    }
  }

  lemma {:induction false} QuietStepOn(w: World, first: seq<Buf>, m: Clocked, t: nat, a: Action)
    requires Inv(w, m.sys) && OffersOk(m) && Enabled(w, m.sys, t, a) && !Bumps(m, t, a) && AllQuiet(first, m.sys.bufs)
    ensures AllQuiet(first, Do(w, m.sys, t, a).bufs)
  {
    hide Inv, Do, Enabled, OffersOk, QuietFrom, Bumps;
    var bufs, later := m.sys.bufs, Do(w, m.sys, t, a).bufs;
    StepQuiet(w, m, t, a, 0);
    forall i | 0 <= i < |later| ensures QuietBuf(first, later, i) {
      StepQuiet(w, m, t, a, i);
      if i < |bufs| {
        assert QuietBuf(first, bufs, i);
        QuietFromOn(if i < |first| then first[i].scope else EMPTY_SCOPE, i < |first| && first[i].linked, bufs, later, i);
      }
    }
  }

  // ---- exactly when more than counters can be missed ----

  /** The commit of a write in hand leaves the stamp exactly if the write was overtaken. */
  lemma {:induction false} CommitUnseenExactlyWhen(w: World, c: Clocked, i: nat, now: int)
    requires Inv(w, c.sys) && i < |c.sys.bufs| && c.sys.bufs[i].hold.Held?
    requires var t := c.sys.bufs[i].hold.owner; t in c.offers && c.offers[t].Some?
    ensures var t := c.sys.bufs[i].hold.owner;
      && Enabled(w, c.sys, t, Continue(now)) && !Reads(c, t, Continue(now))
      && var c' := Tick(w, c, t, Continue(now));
         && (c'.stamp == c.stamp <==> Overtaken(c, i))
         && i < |c'.sys.bufs| && c'.sys.bufs[i].scope == c.sys.bufs[i].hold.next
  {
    hide Structure, Accounted, Capped, Sum;
    var t := c.sys.bufs[i].hold.owner;
    HolderWrites(w, c.sys, i);
    CommitChanges(w, c.sys, t, now, i);
  }

  lemma {:induction false} OneStep(w: World, c: Clocked, t: nat, a: Action)
    requires Enabled(w, c.sys, t, a)
    ensures Exec(w, c, [(t, a)]) == Some(Tick(w, c, t, a))
    ensures ReadsLater(w, c, [(t, a)], c.stamp) <==> (Reads(c, t, a) ==> a.now > c.stamp)
  {
    hide Enabled, Tick, Reads;
    var run := [(t, a)];
    assert run[..0] == [];
    assert ReadsLater(w, c, run[..0], c.stamp);
    assert Exec(w, c, run[..0]) == Some(c);
  }

  // A run of later readings that leaves the stamp, and more than counters to be missed.
  ghost predicate Misses(w: World, c: Clocked, run: Schedule) {
    && Exec(w, c, run).Some? && ReadsLater(w, c, run, c.stamp) && Exec(w, c, run).value.stamp == c.stamp
    && !AllQuiet(c.sys.bufs, Exec(w, c, run).value.sys.bufs)
  }

  ghost predicate LoudInHand(c: Clocked, i: nat) {
    Overtaken(c, i) && !Quiet(c.sys.bufs[i].scope, c.sys.bufs[i].hold.next)
  }

  // A quiet write in hand explains nothing that counters do not.
  lemma {:induction false} QuietHand(w: World, c: Clocked, later: seq<Buf>, i: nat)
    requires i < |later| && Explained(c, later, i) && !LoudInHand(c, i)
    ensures QuietBuf(c.sys.bufs, later, i)
  {
    hide Quiet;
    if !QuietBuf(c.sys.bufs, later, i) {
      var b := c.sys.bufs[i];
      QuietOn(b.scope, b.hold.next, later[i].scope);
      QuietLonger(b.scope, b.hold.next);
    }
  }

  /**
    After a poll more than counter activity can go unseen if and only if, at the poll, some
    buffer is held by a write that changes more than counters and has read a time no later
    than the stamp.
   */
  lemma {:induction false} MissesExactlyWhen(w: World, c: Clocked)
    requires Inv(w, c.sys) && OffersOk(c)
    ensures (exists run :: Misses(w, c, run)) <==> (exists i :: LoudInHand(c, i))
  {
    hide Inv, OffersOk, Misses, Overtaken, Quiet;
    if run :| Misses(w, c, run) { MissHasHand(w, c, run); }
    if i :| LoudInHand(c, i) { HandMisses(w, c, i, 0); }
  }

  lemma {:induction false} MissHasHand(w: World, c: Clocked, run: Schedule)
    requires Inv(w, c.sys) && OffersOk(c) && Misses(w, c, run)
    ensures exists i :: LoudInHand(c, i)
  {
    hide Inv, OffersOk, Exec, ReadsLater, LoudInHand, QuietBuf, Overtaken, OldInHand;
    RunExplained(w, c, run);
    var later := Exec(w, c, run).value.sys.bufs;
    var i :| 0 <= i < |later| && !QuietBuf(c.sys.bufs, later, i);
    assert Explained(c, later, i);
    if !LoudInHand(c, i) { QuietHand(w, c, later, i); }
  }

  // The write commits: that is the run.
  lemma {:induction false} HandMisses(w: World, c: Clocked, i: nat, now: int)
    requires Inv(w, c.sys) && LoudInHand(c, i)
    ensures i < |c.sys.bufs| && c.sys.bufs[i].hold.Held?
    ensures Misses(w, c, [(c.sys.bufs[i].hold.owner, Continue(now))])
  {
    hide Inv, Tick, Enabled, Exec, ReadsLater, Reads, Quiet;
    var t := c.sys.bufs[i].hold.owner;
    CommitUnseenExactlyWhen(w, c, i, now);
    OneStep(w, c, t, Continue(now));
    assert !QuietBuf(c.sys.bufs, Tick(w, c, t, Continue(now)).sys.bufs, i);
  }
}
