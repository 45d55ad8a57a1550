/** The counters: what every step keeps of the totals law and of the byte cap. */
module StepAccounts {
  import opened Types
  import opened Sums
  import opened ScopeSpec
  import opened ScopeLaws
  import opened Steps
  import opened StepStructure

  ghost predicate Books(w: World, s: Sys) {
    Accounted(s) && Capped(w, s)
  }

  // The difference one thread's move makes to what threads owe.
  lemma {:induction false} MoveSums(s: Sys, s': Sys, t: nat)
    requires OneThread(s, s', t)
    ensures Sum(s'.threads, Pending) == Sum(s.threads, Pending) - Pending(s.threads[t]) + Pending(s'.threads[t])
    ensures Sum(s'.threads, Uncounted) == Sum(s.threads, Uncounted) - Uncounted(s.threads[t]) + Uncounted(s'.threads[t])
  {
    hide Pending, Uncounted, Sum;
    SumUpdate(s.threads, t, s'.threads[t], Pending);
    SumUpdate(s.threads, t, s'.threads[t], Uncounted);
  }

  // The difference one buffer makes to what the counters stand for.
  lemma {:induction false} BufSums(s: Sys, s': Sys, b: nat)
    requires b < |s.bufs| == |s'.bufs| && s'.bufs == s.bufs[b := s'.bufs[b]]
    ensures Sum(s'.bufs, Charge) == Sum(s.bufs, Charge) - Charge(s.bufs[b]) + Charge(s'.bufs[b])
    ensures Sum(s'.bufs, ChargeItems) == Sum(s.bufs, ChargeItems) - ChargeItems(s.bufs[b]) + ChargeItems(s'.bufs[b])
    ensures Sum(s'.bufs, ChargeScope) == Sum(s.bufs, ChargeScope) - ChargeScope(s.bufs[b]) + ChargeScope(s'.bufs[b])
    ensures Sum(s'.bufs, Credit) == Sum(s.bufs, Credit) - Credit(s.bufs[b]) + Credit(s'.bufs[b])
  {
    hide Charge, ChargeItems, ChargeScope, Credit, Sum;
    SumUpdate(s.bufs, b, s'.bufs[b], Charge);
    SumUpdate(s.bufs, b, s'.bufs[b], ChargeItems);
    SumUpdate(s.bufs, b, s'.bufs[b], ChargeScope);
    SumUpdate(s.bufs, b, s'.bufs[b], Credit);
  }

  lemma {:induction false} NewSums(s: Sys, s': Sys, x: Buf)
    requires s'.bufs == s.bufs + [x]
    ensures Sum(s'.bufs, Charge) == Sum(s.bufs, Charge) + Charge(x)
    ensures Sum(s'.bufs, ChargeItems) == Sum(s.bufs, ChargeItems) + ChargeItems(x)
    ensures Sum(s'.bufs, ChargeScope) == Sum(s.bufs, ChargeScope) + ChargeScope(x)
    ensures Sum(s'.bufs, Credit) == Sum(s.bufs, Credit) + Credit(x)
  {
    hide Charge, ChargeItems, ChargeScope, Credit, Sum;
    SumAppend(s.bufs, x, Charge);
    SumAppend(s.bufs, x, ChargeItems);
    SumAppend(s.bufs, x, ChargeScope);
    SumAppend(s.bufs, x, Credit);
  }

  // Buffers that only differ in what no counter looks at.
  lemma {:induction false} SameSums(s: Sys, s': Sys)
    requires |s'.bufs| == |s.bufs|
    requires forall i :: 0 <= i < |s.bufs| ==>
               s'.bufs[i].scope == s.bufs[i].scope && s'.bufs[i].hold == s.bufs[i].hold && s'.bufs[i].linked == s.bufs[i].linked
    requires forall i :: 0 <= i < |s.bufs| ==> s'.bufs[i].window == s.bufs[i].window || s'.bufs[i].window.None?
    ensures Sum(s'.bufs, Charge) == Sum(s.bufs, Charge)
    ensures Sum(s'.bufs, ChargeItems) == Sum(s.bufs, ChargeItems)
    ensures Sum(s'.bufs, ChargeScope) == Sum(s.bufs, ChargeScope)
    ensures Sum(s'.bufs, Credit) <= Sum(s.bufs, Credit)
  {
    hide Sum;
    SumEq(s'.bufs, s.bufs, Charge, Charge);
    SumEq(s'.bufs, s.bufs, ChargeItems, ChargeItems);
    SumEq(s'.bufs, s.bufs, ChargeScope, ChargeScope);
    SumLe(s'.bufs, s.bufs, Credit, Credit);
  }

  lemma {:induction false} CreditsNonNegative(bufs: seq<Buf>)
    ensures Sum(bufs, Credit) >= 0
  {
    if bufs != [] {
      CreditsNonNegative(bufs[1..]);
    }
  }

  // A thread that moves and owes what it owed.
  lemma {:induction false} MoveBooks(w: World, s: Sys, s': Sys, t: nat)
    requires Books(w, s) && OneThread(s, s', t) && s'.bufs == s.bufs
    requires Pending(s'.threads[t]) == Pending(s.threads[t]) && Uncounted(s'.threads[t]) == Uncounted(s.threads[t])
    requires s'.total == s.total && s'.items == s.items && s'.scopes == s.scopes && s'.shrunk == s.shrunk
    ensures Books(w, s')
  {
    hide Pending, Uncounted, Sum;
    MoveSums(s, s', t);
  }

  lemma {:induction false} ReserveScopeBooks(w: World, s: Sys, t: nat, name: string, op: Op)
    requires Books(w, s) && t < |s.threads| && s.threads[t] == Missing(name, op)
    ensures Books(w, DoReserveScope(w, s, t, name, op))
  {
    hide Sum;
    MoveSums(s, DoReserveScope(w, s, t, name, op), t);
  }

  lemma {:induction false} InsertBooks(w: World, s: Sys, t: nat, name: string, op: Op)
    requires Books(w, s) && t < |s.threads| && s.threads[t] == Inserting(name, op)
    ensures Books(w, DoInsert(s, t, name, op))
  {
    var s' := DoInsert(s, t, name, op);
    assert EMPTY_SCOPE.Bytes() == 0;
    hide Sum;
    MoveSums(s, s', t);
    NewSums(s, s', NewBuf(name, EMPTY_SCOPE));
  }

  lemma {:induction false} ReserveBooks(w: World, s: Sys, t: nat, b: nat, op: Op, created: bool, now: int)
    requires Books(w, s) && t < |s.threads| && s.threads[t] == Ready(b, op, created)
    requires b < |s.bufs| && BufOk(s, b) && s.bufs[b].hold.Free?
    ensures Books(w, DoReserve(w, s, t, b, op, created, now))
  {
    hide Sum, Apply;
    var s' := DoReserve(w, s, t, b, op, created, now);
    MoveSums(s, s', t);
    BufSums(s, s', b);
  }

  lemma {:induction false} CommitBooks(w: World, s: Sys, t: nat, b: nat)
    requires Books(w, s) && t < |s.threads| && s.threads[t] == Writing(b)
    requires b < |s.bufs| && BufOk(s, b) && s.bufs[b].hold.Held?
    ensures Books(w, DoCommit(s, t, b))
  {
    hide Sum;
    MoveSums(s, DoCommit(s, t, b), t);
    BufSums(s, DoCommit(s, t, b), b);
  }

  lemma {:induction false} UnlinkBooks(w: World, s: Sys, t: nat, b: nat, name: string)
    requires Books(w, s) && t < |s.threads| && (s.threads[t].RollingBack? || s.threads[t].Deleting?)
    requires b < |s.bufs| && s.bufs[b].hold.Free? && s.bufs[b].linked
    ensures Books(w, Unlink(s, t, b, name))
  {
    SumNonNegative(s.bufs[b].scope.items);
    hide Sum;
    MoveSums(s, Unlink(s, t, b, name), t);
    BufSums(s, Unlink(s, t, b, name), b);
  }

  lemma {:induction false} WarmReadBooks(w: World, s: Sys, t: nat, plans: seq<Plan>, rest: Batch, cover: set<nat>)
    requires Books(w, s) && MapsOk(s)
    requires t < |s.threads| && s.threads[t] == WarmReading(plans, rest, cover) && rest != [] && Unheld(s, rest[0].0)
    ensures Books(w, DoWarmRead(s, t, plans, rest, cover))
  {
    hide Sum;
    var s' := DoWarmRead(s, t, plans, rest, cover);
    MoveSums(s, s', t);
    if rest[0].0 in s.maps { BufSums(s, s', s.maps[rest[0].0]); }
  }

  lemma {:induction false} WarmReserveBooks(w: World, s: Sys, t: nat, plans: seq<Plan>, cover: set<nat>)
    requires Books(w, s) && t < |s.threads| && s.threads[t] == WarmReading(plans, [], cover)
    ensures Books(w, DoWarmReserve(w, s, t, plans, cover))
  {
    hide Sum;
    var s' := DoWarmReserve(w, s, t, plans, cover);
    MoveSums(s, s', t);
    SameSums(s, s');
  }

  /** Settling only the drift turns what the batch reserved into exactly what the scope now holds. */
  lemma {:induction false} WarmCommitBooks(w: World, s: Sys, t: nat, plans: seq<Plan>, added: nat, cover: set<nat>)
    requires Books(w, s) && MapsOk(s) && (forall i :: 0 <= i < |s.bufs| ==> BufOk(s, i))
    requires t < |s.threads| && s.threads[t] == WarmWriting(plans, added, cover) && plans != []
    requires PlanOk(w, s.bufs, s.maps, plans[0], cover) && Unheld(s, plans[0].name)
    ensures Books(w, DoWarmCommit(s, t, plans, added, cover))
  {
    var s' := DoWarmCommit(s, t, plans, added, cover);
    var p := plans[0];
    assert Sum(plans, PlanDelta) == PlanDelta(p) + Sum(plans[1..], PlanDelta);
    hide Sum;
    MoveSums(s, s', t);
    if p.name in s.maps {
      var b := s.maps[p.name];
      assert BufOk(s, b);
      BufSums(s, s', b);
    } else {
      NewSums(s, s', NewBuf(p.name, p.target));
    }
  }

  lemma {:induction false} WarmFinishBooks(w: World, s: Sys, t: nat, added: nat, cover: set<nat>)
    requires Books(w, s) && t < |s.threads| && s.threads[t] == WarmWriting([], added, cover)
    ensures Books(w, DoWarmFinish(s, t, added))
  {
    assert Sum<Plan>([], PlanDelta) == 0;
    hide Sum;
    MoveSums(s, DoWarmFinish(s, t, added), t);
  }

  lemma {:induction false} SweepBooks(w: World, s: Sys, b: nat)
    requires Books(w, s) && b < |s.bufs|
    ensures Books(w, DoSweep(s, b))
  {
    hide Sum;
    SameSums(s, DoSweep(s, b));
  }

  lemma {:induction false} SwapSums(s: Sys, t: nat, batch: Batch)
    requires t < |s.threads|
    ensures var bufs := DoSwap(s, t, batch).bufs;
      && Sum(bufs, Charge) == Sum(batch, BatchCharge) + RESERVED_OVERHEAD
      && Sum(bufs, ChargeItems) == Sum(batch, BatchItems)
      && Sum(bufs, ChargeScope) == |batch| + 2
      && Sum(bufs, Credit) == 0
  {
    hide Sum;
    var whole := Whole(batch);
    var dead, news := Unlinked(s.bufs), NewBufs(whole);
    SumConcat(dead, news, Charge);
    SumConcat(dead, news, ChargeItems);
    SumConcat(dead, news, ChargeScope);
    SumConcat(dead, news, Credit);
    SumZero(dead, Charge);
    SumZero(dead, ChargeItems);
    SumZero(dead, ChargeScope);
    SumZero(dead, Credit);
    SumZero(news, Credit);
    SumEq(news, whole, Charge, BatchCharge);
    SumEq(news, whole, ChargeItems, BatchItems);
    WholeSums(batch);
    SumCount(news);
  }

  lemma {:induction false} WholeSums(batch: Batch)
    ensures Sum(Whole(batch), BatchCharge) == Sum(batch, BatchCharge) + RESERVED_OVERHEAD
    ensures Sum(Whole(batch), BatchItems) == Sum(batch, BatchItems)
  {
    assert EMPTY_SCOPE.Bytes() == 0;
    hide Sum;
    var a, b := (EVENTS, EMPTY_SCOPE), (INBOX, EMPTY_SCOPE);
    assert Whole(batch) == (batch + [a]) + [b];
    SumAppend(batch, a, BatchCharge);
    SumAppend(batch + [a], b, BatchCharge);
    SumAppend(batch, a, BatchItems);
    SumAppend(batch + [a], b, BatchItems);
  }

  lemma {:induction false} SumCount(bufs: seq<Buf>)
    requires forall i :: 0 <= i < |bufs| ==> bufs[i].linked
    ensures Sum(bufs, ChargeScope) == |bufs|
  {
    if bufs != [] {
      SumCount(bufs[1..]);
    }
  }

  // After the swap nobody owes the counters anything.
  lemma {:induction false} NobodyOwes(w: World, s: Sys, t: nat, threads: seq<Pc>)
    requires Structure(w, s) && t < |s.threads| && s.threads[t].ResetSweeping? && threads == s.threads[t := Idle]
    ensures Sum(threads, Pending) == 0 && Sum(threads, Uncounted) == 0
  {
    hide Sum, BufOk, MapsOk, Exclusive, PcOk;
    forall u | 0 <= u < |threads| ensures Pending(threads[u]) == 0 && Uncounted(threads[u]) == 0 {
      if u != t { SweeperAlone(w, s, t, u); }
    }
    SumZero(threads, Pending);
    SumZero(threads, Uncounted);
  }

  lemma {:induction false} SweepFits(w: World, s: Sys, t: nat, batch: Batch)
    requires Structure(w, s) && w.cfg.maxStoreBytes >= RESERVED_OVERHEAD && t < |s.threads| && s.threads[t] == ResetSweeping(batch)
    ensures Sum(batch, BatchCharge) + RESERVED_OVERHEAD <= w.cfg.maxStoreBytes
  {
    hide Sum, BufOk, MapsOk, Exclusive;
    assert PcOk(w, s.bufs, s.maps, t, s.threads[t]);
    if batch == [] { SumZero(batch, BatchCharge); }
  }

  lemma {:induction false} SwapBooks(w: World, s: Sys, t: nat, batch: Batch)
    requires Structure(w, s) && Books(w, s) && w.cfg.maxStoreBytes >= RESERVED_OVERHEAD
    requires t < |s.threads| && s.threads[t] == ResetSweeping(batch)
    ensures Books(w, DoSwap(s, t, batch))
  {
    hide Sum, Structure, NewMaps, NewBufs, Unlinked, Whole;
    SweepFits(w, s, t, batch);
    SwapSums(s, t, batch);
    NobodyOwes(w, s, t, DoSwap(s, t, batch).threads);
    CreditsNonNegative(s.bufs);
  }
}
