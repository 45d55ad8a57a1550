/** The concurrency results: exact counters, the byte cap, detachment, no deadlock. */
module StepTheorems {
  import opened Types
  import opened Sums
  import opened ScopeSpec
  import opened ScopeLaws
  import opened Steps
  import opened StepStructure
  import opened StepAccounts
  import opened StepSafety

  // ---- what the counters should be, read off the maps ----

  predicate Mapped(s: Sys, i: nat)
    requires i < |s.bufs|
  {
    s.bufs[i].name in s.maps && s.maps[s.bufs[i].name] == i
  }

  function OverMaps(s: Sys, f: Buf -> int, k: nat): int
    requires k <= |s.bufs|
  {
    if k == 0 then 0 else OverMaps(s, f, k - 1) + if Mapped(s, k - 1) then f(s.bufs[k - 1]) else 0
  }

  function StoredBytes(b: Buf): int { b.scope.Bytes() + SCOPE_OVERHEAD }
  function StoredItems(b: Buf): int { |b.scope.items| }
  function ReservedBytes(b: Buf): int { Effective(b) + SCOPE_OVERHEAD }

  lemma {:induction false} OverMapsIsSum(s: Sys, f: Buf -> int, g: Buf -> int, k: nat)
    requires k <= |s.bufs|
    requires forall i :: 0 <= i < k ==> g(s.bufs[i]) == if Mapped(s, i) then f(s.bufs[i]) else 0
    ensures OverMaps(s, f, k) == Sum(s.bufs[..k], g)
  {
    if k > 0 {
      OverMapsIsSum(s, f, g, k - 1);
      assert s.bufs[..k] == s.bufs[..k - 1] + [s.bufs[k - 1]];
      SumAppend(s.bufs[..k - 1], s.bufs[k - 1], g);
    }
  }

  ghost function NamesUpTo(s: Sys, k: nat): set<string>
    requires k <= |s.bufs|
  {
    set i | 0 <= i < k && s.bufs[i].linked :: s.bufs[i].name
  }

  lemma {:induction false} LinkedNamesDiffer(s: Sys, i: nat, j: nat)
    requires i < |s.bufs| && j < |s.bufs| && i != j && BufOk(s, i) && BufOk(s, j)
    requires s.bufs[i].linked && s.bufs[j].linked
    ensures s.bufs[i].name != s.bufs[j].name
  {
  }

  lemma {:induction false} CountNames(s: Sys, k: nat)
    requires k <= |s.bufs| && forall i :: 0 <= i < |s.bufs| ==> BufOk(s, i)
    ensures |NamesUpTo(s, k)| == Sum(s.bufs[..k], ChargeScope)
  {
    if k > 0 {
      CountNames(s, k - 1);
      var b := s.bufs[k - 1];
      assert s.bufs[..k] == s.bufs[..k - 1] + [b];
      SumAppend(s.bufs[..k - 1], b, ChargeScope);
      assert BufOk(s, k - 1);
      if b.linked {
        forall i | 0 <= i < k - 1 && s.bufs[i].linked ensures s.bufs[i].name != b.name {
          LinkedNamesDiffer(s, i, k - 1);
        }
        assert NamesUpTo(s, k) == NamesUpTo(s, k - 1) + {b.name};
      } else {
        assert NamesUpTo(s, k) == NamesUpTo(s, k - 1);
      }
    }
  }

  lemma {:induction false} CountMaps(w: World, s: Sys)
    requires Structure(w, s)
    ensures Sum(s.bufs, ChargeScope) == |s.maps|
  {
    hide Exclusive, PcOk, Sum;
    hide ChargeScope;
    CountNames(s, |s.bufs|);
    assert s.bufs[..|s.bufs|] == s.bufs;
    assert NamesUpTo(s, |s.bufs|) == s.maps.Keys by {
      forall n | n in s.maps ensures n in NamesUpTo(s, |s.bufs|) {
        assert BufOk(s, s.maps[n]);
      }
      forall n | n in NamesUpTo(s, |s.bufs|) ensures n in s.maps {
        var i :| 0 <= i < |s.bufs| && s.bufs[i].linked && s.bufs[i].name == n;
        assert BufOk(s, i);
      }
    }
  }

  /**
    In every reachable state the counters equal what the mapped scopes hold, plus what
    threads have reserved and not yet shown, less what one has linked and not yet counted.
   */
  lemma {:induction false} Conservation(w: World, s: Sys)
    requires Reachable(w, s)
    ensures s.total == OverMaps(s, ReservedBytes, |s.bufs|) + Sum(s.threads, Pending)
    ensures s.items == OverMaps(s, StoredItems, |s.bufs|)
    ensures s.scopes == |s.maps| - Sum(s.threads, Uncounted)
  {
    hide Reachable, Sum, Capped, Structure;
    Reached(w, s);
    CountMaps(w, s);
    LinkedIsMapped(w, s);
    hide Inv;
    assert s.bufs[..|s.bufs|] == s.bufs;
    OverMapsIsSum(s, ReservedBytes, Charge, |s.bufs|);
    OverMapsIsSum(s, StoredItems, ChargeItems, |s.bufs|);
  }

  lemma {:induction false} LinkedIsMapped(w: World, s: Sys)
    requires Structure(w, s)
    ensures forall i :: 0 <= i < |s.bufs| ==> (s.bufs[i].linked <==> Mapped(s, i))
  {
    forall i | 0 <= i < |s.bufs| ensures s.bufs[i].linked <==> Mapped(s, i) {
      assert BufOk(s, i);
    }
  }

  /** With nobody at work, all three counters are exact. */
  lemma {:induction false} Quiescence(w: World, s: Sys)
    requires Reachable(w, s) && forall t :: 0 <= t < |s.threads| ==> s.threads[t].Idle?
    ensures s.total == OverMaps(s, StoredBytes, |s.bufs|)
    ensures s.items == OverMaps(s, StoredItems, |s.bufs|)
    ensures s.scopes == |s.maps|
  {
    hide Sum, Reachable;
    Conservation(w, s);
    SumZero(s.threads, Pending);
    SumZero(s.threads, Uncounted);
    Reached(w, s);
    forall i | 0 <= i < |s.bufs| ensures s.bufs[i].hold.Free? {
      assert BufOk(s, i);
    }
    hide Inv;
    SameOverMaps(s, ReservedBytes, StoredBytes, |s.bufs|);
  }

  lemma {:induction false} SameOverMaps(s: Sys, f: Buf -> int, g: Buf -> int, k: nat)
    requires k <= |s.bufs| && forall i :: 0 <= i < k ==> f(s.bufs[i]) == g(s.bufs[i])
    ensures OverMaps(s, f, k) == OverMaps(s, g, k)
  {
    if k > 0 { SameOverMaps(s, f, g, k - 1); }
  }

  // ---- the byte cap ----

  /** The cap holds up to what was released off batch scopes inside open /warm windows. */
  lemma {:induction false} ByteCap(w: World, s: Sys)
    requires Reachable(w, s)
    ensures s.total <= w.cfg.maxStoreBytes + s.shrunk
    ensures s.shrunk == 0 ==> s.total <= w.cfg.maxStoreBytes
  {
    hide Reachable, Structure, Accounted, Sum;
    Reached(w, s);
    CreditsNonNegative(s.bufs);
  }

  /** Only a shrinking write inside an open window moves that allowance, by what it released. */
  lemma {:induction false} OnlyWindowsShrink(w: World, s: Sys, t: nat, a: Action)
    requires Enabled(w, s, t, a) && Do(w, s, t, a).shrunk != s.shrunk
    ensures s.threads[t].Ready? && s.threads[t].b < |s.bufs|
    ensures
      var b := s.bufs[s.threads[t].b];
      var s' := Do(w, s, t, a);
      && b.window.Some? && !b.detached && s'.threads[t].Writing?
      && s'.shrunk - s.shrunk == s.total - s'.total == b.scope.Bytes() - Effective(s'.bufs[s.threads[t].b]) > 0
  {
    hide Execute, Sum;
  }

  // What a commit pays back: the bytes its scope has lost since the snapshot.
  function Payback(s: Sys, t: nat, a: Action): int {
    if a.Continue? && t < |s.threads| && s.threads[t].WarmWriting? && s.threads[t].plans != [] then
      var p := s.threads[t].plans[0];
      if p.name in s.maps && s.maps[p.name] < |s.bufs|
      then Max(0, p.recorded - s.bufs[s.maps[p.name]].scope.Bytes()) else 0
    else 0
  }

  /** A step takes the counter past the cap exactly when it is a commit that pays back more than the room left. */
  lemma {:induction false} PassesCapExactlyWhen(w: World, s: Sys, t: nat, a: Action)
    requires Inv(w, s) && Enabled(w, s, t, a) && s.total <= w.cfg.maxStoreBytes
    ensures Do(w, s, t, a).total > w.cfg.maxStoreBytes <==> Payback(s, t, a) > w.cfg.maxStoreBytes - s.total
  {
    hide Structure, Accounted, Capped, Sum, Apply, ShardFree, NewMaps, Unlinked, NewBufs;
    Parts(w, s, t);
    if s.threads[t].RollingBack? || s.threads[t].Deleting? {
      SumNonNegative(s.bufs[s.maps[s.threads[t].name]].scope.items);
    } else if s.threads[t].ResetSweeping? {
      SumZero([], BatchCharge);
    }
  }

  lemma {:induction false} OnlyPaybackRaises(w: World, s: Sys, t: nat, a: Action)
    requires Inv(w, s) && Enabled(w, s, t, a)
    ensures Do(w, s, t, a).total <= Max(s.total, w.cfg.maxStoreBytes) + Payback(s, t, a)
  {
    hide Structure, Accounted, Capped, Sum, Apply, ShardFree, NewMaps, Unlinked, NewBufs;
    Parts(w, s, t);
    if s.threads[t].RollingBack? || s.threads[t].Deleting? {
      SumNonNegative(s.bufs[s.maps[s.threads[t].name]].scope.items);
    } else if s.threads[t].ResetSweeping? {
      SumZero([], BatchCharge);
    }
  }

  // What commits have paid back since the counter last was within the cap.
  ghost function PaidSince(w: World, start: Sys, run: Schedule): int
    decreases |run|
  {
    if run == [] || Exec(w, start, run) == None then 0
    else
      var last := |run| - 1;
      var m := Exec(w, start, run[..last]).value;
      if Exec(w, start, run).value.total <= w.cfg.maxStoreBytes then 0
      else PaidSince(w, start, run[..last]) + Payback(m, run[last].0, run[last].1)
  }

  /** The counter stands above the cap by at most what commits paid back since it was last within it. */
  lemma {:induction false} Overshoot(w: World, start: Sys, run: Schedule)
    requires Boot(w, start) && Exec(w, start, run).Some?
    ensures Exec(w, start, run).value.total <= w.cfg.maxStoreBytes + PaidSince(w, start, run)
    ensures PaidSince(w, start, run) >= 0
    ensures Exec(w, start, run).value.total <= w.cfg.maxStoreBytes ==> PaidSince(w, start, run) == 0
    decreases |run|
  {
    hide Boot, Do, Enabled, Inv, Payback;
    BootInv(w, start);
    if run == [] {
      BootTotal(w, start);
    } else {
      var last := |run| - 1;
      var m := Exec(w, start, run[..last]).value;
      Overshoot(w, start, run[..last]);
      RunKeeps(w, start, run[..last]);
      OnlyPaybackRaises(w, m, run[last].0, run[last].1);
      PaybackNonNegative(m, run[last].0, run[last].1);
    }
  }

  lemma {:induction false} PaybackNonNegative(s: Sys, t: nat, a: Action)
    ensures Payback(s, t, a) >= 0
  {
    hide Sum;
  }

  lemma {:induction false} BootInv(w: World, s: Sys)
    requires Boot(w, s)
    ensures Inv(w, s)
  {
    hide Structure, Accounted, Capped;
    BootStructure(w, s);
    BootBooks(w, s);
  }

  lemma {:induction false} BootTotal(w: World, s: Sys)
    requires Boot(w, s)
    ensures s.total <= w.cfg.maxStoreBytes
  {
    hide NewMaps, NewBufs;
  }

  // Some thread past a /warm reservation owes its scopes a shrinkage.
  ghost predicate OwedInWarm(s: Sys) {
    exists t :: 0 <= t < |s.threads| && s.threads[t].WarmWriting? && Pending(s.threads[t]) < 0
  }

  lemma {:induction false} NegativeIsOwed(w: World, s: Sys)
    requires Inv(w, s) && s.total < 0
    ensures OwedInWarm(s)
  {
    hide Structure, Capped, Sum, Pending;
    ChargedNonNegative(s.bufs);
    var t := SomeNegative(s.threads);
    OnlyWarmOwesLess(s.threads[t]);
  }

  lemma {:induction false} ChargedNonNegative(bufs: seq<Buf>)
    ensures Sum(bufs, Charge) >= 0
  {
    if bufs != [] {
      var b := bufs[0];
      SumNonNegative(if b.hold.Held? then b.hold.next.items else b.scope.items);
      ChargedNonNegative(bufs[1..]);
    }
  }

  // What a thread owes its scopes, and what it has booked for them.
  function Owed(pc: Pc): int { Max(0, -Pending(pc)) }
  function Booked(pc: Pc): int { Max(0, Pending(pc)) }

  lemma {:induction false} PendingParts(pcs: seq<Pc>)
    ensures Sum(pcs, Pending) == Sum(pcs, Booked) - Sum(pcs, Owed)
  {
    hide Pending;
    if pcs != [] { PendingParts(pcs[1..]); }
  }

  /**
    The counter is negative exactly if what threads past a /warm reservation still owe
    exceeds what the mapped scopes hold and what has been booked for them; nobody else owes.
   */
  lemma {:induction false} NegativeExactlyWhen(w: World, s: Sys)
    requires Reachable(w, s)
    ensures s.total < 0 <==>
              Sum(s.threads, Owed) > OverMaps(s, ReservedBytes, |s.bufs|) + Sum(s.threads, Booked)
    ensures forall t :: 0 <= t < |s.threads| && Owed(s.threads[t]) > 0 ==> s.threads[t].WarmWriting?
    ensures OverMaps(s, ReservedBytes, |s.bufs|) >= 0
  {
    hide Reachable, Sum, Pending;
    Conservation(w, s);
    PendingParts(s.threads);
    ReservedNonNegative(s, |s.bufs|);
    forall t | 0 <= t < |s.threads| && Owed(s.threads[t]) > 0 ensures s.threads[t].WarmWriting? {
      OnlyWarmOwesLess(s.threads[t]);
    }
  }

  // What a step takes off the counter, read off the state before it.
  function Release(w: World, s: Sys, t: nat, a: Action): int
    requires t < |s.threads|
  {
    if !a.Continue? then 0
    else match s.threads[t]
      case Ready(b, op, _) =>
        if b >= |s.bufs| || s.bufs[b].detached then 0
        else
          var buf := s.bufs[b];
          var outcome := Execute(Env(w.cfg, w.cfg.MaxItemsFor(buf.name), buf.name), buf.scope, op, a.now, s.total);
          if outcome.Changed? then Max(0, buf.scope.Bytes() - outcome.next.Bytes()) else 0
      case RollingBack(b, _) => if b < |s.bufs| && s.bufs[b].scope.items == [] then SCOPE_OVERHEAD else 0
      case Deleting(name) =>
        if name in s.maps && s.maps[name] < |s.bufs| then s.bufs[s.maps[name]].scope.Bytes() + SCOPE_OVERHEAD else 0
      case WarmReading(plans, rest, _) => if rest == [] then Max(0, -Sum(plans, PlanDelta)) else 0
      case WarmWriting(plans, _, _) =>
        if plans != [] && plans[0].name in s.maps && s.maps[plans[0].name] < |s.bufs|
        then Max(0, s.bufs[s.maps[plans[0].name]].scope.Bytes() - plans[0].recorded) else 0
      case _ => 0
  }

  /**
    A step takes the counter below zero exactly if it releases more than the counter stood
    at; whenever it does, some thread past a /warm reservation owes its scopes a shrinkage.
   */
  lemma {:induction false} BecomesNegativeExactlyWhen(w: World, s: Sys, t: nat, a: Action)
    requires Inv(w, s) && Enabled(w, s, t, a) && s.total >= 0
    ensures Do(w, s, t, a).total < 0 <==> Release(w, s, t, a) > s.total
    ensures Do(w, s, t, a).total < 0 ==> OwedInWarm(Do(w, s, t, a))
  {
    hide Structure, Accounted, Capped, Sum, Execute, ShardFree, NewMaps, Unlinked, NewBufs, Scope.Bytes, OwedInWarm;
    Parts(w, s, t);
    StepKeeps(w, s, t, a);
    if Do(w, s, t, a).total < 0 { NegativeIsOwed(w, Do(w, s, t, a)); }
    if s.threads[t].RollingBack? {
      EmptyWeighsNothing(s.bufs[s.threads[t].b].scope);
    } else if s.threads[t].ResetSweeping? && a.Continue? {
      ChargesNonNegative(s.threads[t].batch);
    }
  }

  lemma {:induction false} EmptyWeighsNothing(s: Scope)
    ensures s.items == [] ==> s.Bytes() == 0
  {
  }

  lemma {:induction false} ChargesNonNegative(batch: Batch)
    ensures Sum(batch, BatchCharge) >= 0
  {
    if batch != [] {
      SumNonNegative(batch[0].1.items);
      ChargesNonNegative(batch[1..]);
    }
  }

  lemma {:induction false} ReservedNonNegative(s: Sys, k: nat)
    requires k <= |s.bufs|
    ensures OverMaps(s, ReservedBytes, k) >= 0
  {
    if k > 0 {
      ReservedNonNegative(s, k - 1);
      var b := s.bufs[k - 1];
      SumNonNegative(if b.hold.Held? then b.hold.next.items else b.scope.items);
    }
  }

  lemma {:induction false} SomeNegative(pcs: seq<Pc>) returns (t: nat)
    requires Sum(pcs, Pending) < 0
    ensures t < |pcs| && Pending(pcs[t]) < 0
  {
    hide Pending;
    if Pending(pcs[0]) < 0 {
      t := 0;
    } else {
      t := SomeNegative(pcs[1..]);
      t := t + 1;
    }
  }

  lemma {:induction false} OnlyWarmOwesLess(pc: Pc)
    requires Pending(pc) < 0
    ensures pc.WarmWriting?
  {
    hide Sum;
  }

  // ---- detachment ----

  /** A published buffer that is not detached is the one its scope name leads to; an accepted write holds such a buffer. */
  lemma {:induction false} LiveIsMapped(w: World, s: Sys, b: nat)
    requires Reachable(w, s) && b < |s.bufs|
    ensures !s.bufs[b].detached ==> Mapped(s, b)
    ensures s.bufs[b].hold.Held? ==> !s.bufs[b].detached
  {
    hide Reachable, Accounted, Capped;
    Reached(w, s);
    assert BufOk(s, b);
  }

  /** An accepted write ends up in the scope that a reader of that name finds. */
  lemma {:induction false} WriteLands(w: World, s: Sys, t: nat, b: nat, now: int)
    requires Reachable(w, s) && t < |s.threads| && s.threads[t] == Writing(b) && Enabled(w, s, t, Continue(now))
    ensures var s' := Do(w, s, t, Continue(now));
      && b < |s.bufs| == |s'.bufs| && s.bufs[b].hold.Held? && s.bufs[b].hold.owner == t
      && Mapped(s', b) && !s'.bufs[b].detached && s'.bufs[b].scope == s.bufs[b].hold.next
  {
    hide Reachable, Accounted, Capped, Sum;
    Reached(w, s);
    LiveIsMapped(w, s, b);
    assert PcOk(w, s.bufs, s.maps, t, s.threads[t]);
  }

  /** A write that finds its buffer detached changes nothing but its own program point. */
  lemma {:induction false} DetachedRefuses(w: World, s: Sys, t: nat, now: int)
    requires Enabled(w, s, t, Continue(now)) && s.threads[t].Ready? && s.bufs[s.threads[t].b].detached
    ensures var s' := Do(w, s, t, Continue(now));
      && s' == s.(threads := s'.threads) && s'.threads == s.threads[t := s'.threads[t]]
      && s'.threads[t] == if s.threads[t].created then Failed(s.threads[t].b, s.bufs[s.threads[t].b].name) else Idle
  {
    hide Execute, Sum;
  }

  /** And if it had created the scope, its rollback then finds nothing of its own to undo. */
  lemma {:induction false} DetachedLeavesNoTrace(w: World, s: Sys, t: nat, now: int)
    requires Reachable(w, s) && Enabled(w, s, t, Continue(now))
    requires s.threads[t].Failed? && s.bufs[s.threads[t].b].detached
    ensures Do(w, s, t, Continue(now)) == s.(threads := s.threads[t := Idle])
  {
    hide Reachable, Structure, Accounted, Capped, Sum;
    Reached(w, s);
    Parts(w, s, t);
    var Failed(b, name) := s.threads[t];
    assert BufOk(s, b);
    SweeperTakesAll(w, s, name);
  }

  lemma {:induction false} SweeperTakesAll(w: World, s: Sys, name: string)
    requires w.shardOf(name) < SHARDS
    ensures Sweeping(s) ==> !ShardFree(w, s, w.shardOf(name))
  {
    if Sweeping(s) {
      var u :| 0 <= u < |s.threads| && s.threads[u].ResetSweeping?;
      assert Holds(w, s.threads[u], w.shardOf(name));
    }
  }

  // What no step undoes for a buffer.
  ghost predicate Later(s: Sys, s': Sys, i: nat) {
    && i < |s.bufs| <= |s'.bufs|
    && s'.bufs[i].name == s.bufs[i].name
    && (s.bufs[i].detached ==> s'.bufs[i].detached && s'.bufs[i].scope == s.bufs[i].scope)
    && (!s.bufs[i].linked ==> !s'.bufs[i].linked)
  }

  // A buffer about to be replaced by /warm is not detached: nobody else holds all shards.
  lemma {:induction false} WarmTargetLive(w: World, s: Sys, t: nat)
    requires Structure(w, s) && t < |s.threads| && s.threads[t].WarmWriting? && s.threads[t].plans != []
    requires s.threads[t].plans[0].name in s.maps
    ensures var b := s.maps[s.threads[t].plans[0].name]; b < |s.bufs| && !s.bufs[b].detached
  {
    hide Exclusive;
    var p := s.threads[t].plans[0];
    assert PcOk(w, s.bufs, s.maps, t, s.threads[t]);
    assert PlanOk(w, s.bufs, s.maps, p, s.threads[t].cover);
    assert Holds(w, s.threads[t], w.shardOf(p.name));
    var b := s.maps[p.name];
    assert BufOk(s, b);
    if s.bufs[b].detached {
      var u :| 0 <= u < |s.threads| && s.threads[u].ResetSweeping?;
      SweeperHoldsAll(w, s, u, t, w.shardOf(p.name));
    }
  }

  lemma {:induction false} SweeperHoldsAll(w: World, s: Sys, u: nat, t: nat, k: nat)
    requires Exclusive(w, s) && u < |s.threads| && s.threads[u].ResetSweeping?
    requires t < |s.threads| && t != u && k < SHARDS
    ensures !Holds(w, s.threads[t], k)
  {
    assert Holds(w, s.threads[u], k);
  }

  lemma {:induction false} WarmLater(w: World, s: Sys, t: nat, now: int, i: nat)
    requires Inv(w, s) && Enabled(w, s, t, Continue(now)) && i < |s.bufs|
    requires s.threads[t].WarmReading? || s.threads[t].WarmWriting?
    ensures Later(s, Do(w, s, t, Continue(now)), i)
  {
    hide Structure, Accounted, Capped, Sum, Cover, PcOk, MapsOk;
    Parts(w, s, t);
    assert BufOk(s, i);
    if s.threads[t].WarmWriting? && s.threads[t].plans != [] && s.threads[t].plans[0].name in s.maps {
      WarmTargetLive(w, s, t);
    }
  }

  lemma {:induction false} StepLater(w: World, s: Sys, t: nat, a: Action, i: nat)
    requires Inv(w, s) && Enabled(w, s, t, a) && i < |s.bufs|
    ensures Later(s, Do(w, s, t, a), i)
  {
    hide Structure, Accounted, Capped, Sum, Execute, Cover, NewMaps, Unlinked, NewBufs, ShardFree;
    Parts(w, s, t);
    assert BufOk(s, i);
    if s.threads[t].WarmReading? || s.threads[t].WarmWriting? {
      WarmLater(w, s, t, a.now, i);
    } else if s.threads[t].ResetSweeping? && a.Continue? {
      SwappedAt(s, t, s.threads[t].batch, i);
    }
  }

  /** A detached buffer is frozen, and a scope's overhead once released is never released again. */
  lemma {:induction false} ReleasedOnce(w: World, s: Sys, run: Schedule, i: nat)
    requires Inv(w, s) && i < |s.bufs| && Exec(w, s, run).Some?
    ensures Later(s, Exec(w, s, run).value, i)
    decreases |run|
  {
    hide Inv, Do, Enabled;
    if run != [] {
      var last := |run| - 1;
      ReleasedOnce(w, s, run[..last], i);
      RunKeeps(w, s, run[..last]);
      StepLater(w, Exec(w, s, run[..last]).value, run[last].0, run[last].1, i);
    }
  }

  // ---- no deadlock ----

  predicate Unfinished(s: Sys, t: nat) {
    t < |s.threads| && !s.threads[t].Idle?
  }

  // Some operation under way can take its next step.
  ghost predicate CanGoOn(w: World, s: Sys) {
    exists t, a :: Unfinished(s, t) && Enabled(w, s, t, a)
  }

  // A thread past its shard locks can go on once no buffer lock is held.
  lemma {:induction false} InsideGoesOn(w: World, s: Sys, t: nat)
    requires Structure(w, s) && t < |s.threads| && forall i :: 0 <= i < |s.bufs| ==> s.bufs[i].hold.Free?
    requires var pc := s.threads[t];
      pc.Inserting? || pc.Ready? || pc.RollingBack? || pc.Deleting? || pc.WarmReading? || pc.WarmWriting? || pc.ResetSweeping?
    ensures CanGoOn(w, s)
  {
    hide Exclusive;
    assert PcOk(w, s.bufs, s.maps, t, s.threads[t]);
    assert Unfinished(s, t);
    if s.threads[t].ResetSweeping? {
      if i :| 0 <= i < |s.bufs| && s.bufs[i].linked && !s.bufs[i].detached {
        assert Enabled(w, s, t, Sweep(i));
      } else {
        assert Enabled(w, s, t, Continue(0));
      }
    } else {
      assert Enabled(w, s, t, Continue(0));
    }
  }

  // Whoever holds the shard another thread wants can go on, or wants a later shard itself.
  lemma {:induction false} ShardWaitEnds(w: World, s: Sys, t: nat, k: nat)
    requires Structure(w, s) && forall i :: 0 <= i < |s.bufs| ==> s.bufs[i].hold.Free?
    requires Unfinished(s, t) && k < SHARDS && (ShardFree(w, s, k) ==> Enabled(w, s, t, Continue(0)))
    ensures CanGoOn(w, s)
    decreases SHARDS - k
  {
    hide Enabled, Structure;
    if ShardFree(w, s, k) {
      assert Enabled(w, s, t, Continue(0));
    } else {
      var u :| 0 <= u < |s.threads| && Holds(w, s.threads[u], k);
      assert Unfinished(s, u);
      if s.threads[u].WarmLocking? || s.threads[u].ResetLocking? {
        LockerGoesOn(w, s, u);
        if s.threads[u].k < SHARDS {
          ShardWaitEnds(w, s, u, s.threads[u].k);
        } else {
          assert Enabled(w, s, u, Continue(0));
        }
      } else {
        InsideGoesOn(w, s, u);
      }
    }
  }

  lemma {:induction false} LockerGoesOn(w: World, s: Sys, u: nat)
    requires u < |s.threads| && (s.threads[u].WarmLocking? || s.threads[u].ResetLocking?)
    ensures s.threads[u].k >= SHARDS || ShardFree(w, s, s.threads[u].k) ==> Enabled(w, s, u, Continue(0))
  {
  }

  /** Whatever the interleaving so far, if some operation is unfinished then some unfinished operation can step. */
  lemma {:induction false} NoDeadlock(w: World, s: Sys)
    requires Reachable(w, s) && exists t :: Unfinished(s, t)
    ensures exists t, a :: Unfinished(s, t) && Enabled(w, s, t, a)
  {
    hide Reachable, Accounted, Capped;
    Reached(w, s);
    hide Inv;
    if i :| 0 <= i < |s.bufs| && s.bufs[i].hold.Held? {
      assert BufOk(s, i);
      var t := s.bufs[i].hold.owner;
      assert Unfinished(s, t) && Enabled(w, s, t, Continue(0));
    } else {
      var t :| Unfinished(s, t);
      UnfinishedGoesOn(w, s, t);
      assert CanGoOn(w, s);
    }
  }

  lemma {:induction false} UnfinishedGoesOn(w: World, s: Sys, t: nat)
    requires Structure(w, s) && Unfinished(s, t) && forall i :: 0 <= i < |s.bufs| ==> s.bufs[i].hold.Free?
    ensures CanGoOn(w, s)
  {
    hide Exclusive;
    assert PcOk(w, s.bufs, s.maps, t, s.threads[t]);
    match s.threads[t]
    case Missing(name, _) => ShardWaitEnds(w, s, t, w.shardOf(name));
    case Failed(_, name) => ShardWaitEnds(w, s, t, w.shardOf(name));
    case WarmLocking(_, k) =>
      LockerGoesOn(w, s, t);
      if k < SHARDS { ShardWaitEnds(w, s, t, k); } else { assert Enabled(w, s, t, Continue(0)); }
    case ResetLocking(_, k) =>
      LockerGoesOn(w, s, t);
      if k < SHARDS { ShardWaitEnds(w, s, t, k); } else { assert Enabled(w, s, t, Continue(0)); }
    case Inserting(_, _) => InsideGoesOn(w, s, t);
    case Ready(_, _, _) => InsideGoesOn(w, s, t);
    case RollingBack(_, _) => InsideGoesOn(w, s, t);
    case Deleting(_) => InsideGoesOn(w, s, t);
    case WarmReading(_, _, _) => InsideGoesOn(w, s, t);
    case WarmWriting(_, _, _) => InsideGoesOn(w, s, t);
    case ResetSweeping(_) => InsideGoesOn(w, s, t);
    case _ =>
  }
}
