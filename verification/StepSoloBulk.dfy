/** A /warm, a /wipe or a /rebuild that runs alone does in steps what the store specification does at once. */
module StepSoloBulk {
  import opened Types
  import opened Sums
  import opened ScopeSpec
  import opened Steps
  import opened StepStructure
  import opened StepSafety
  import opened StepHolds
  import opened StepSolo
  import StoreSpec
  import StoreBulk

  type Scopes = map<string, StoreSpec.Held>

  // ---- /warm: locks and snapshots ----

  predicate BatchOf(targets: seq<StoreSpec.Target>, batch: Batch) {
    |batch| == |targets| && forall i :: 0 <= i < |targets| ==> batch[i] == (targets[i].name, targets[i].scope)
  }

  lemma {:induction false} LocksAlone(w: World, s: Sys, t: nat, batch: Batch, now: int, k: nat)
    requires Quiet(s) && t < |s.threads| && DistinctNames(batch) && k <= SHARDS
    ensures Reaches(w, s, t, StartWarm(batch), now, Busy(s, t, WarmLocking(batch, k)))
  {
    hide Reaches, Sum, Cover;
    if k == 0 {
      Starts(w, s, t, StartWarm(batch), now);
    } else {
      LocksAlone(w, s, t, batch, now, k - 1);
      var m := Busy(s, t, WarmLocking(batch, k - 1));
      GoesOn(w, s, t, StartWarm(batch), now, m);
      assert m.threads[t := WarmLocking(batch, k)] == s.threads[t := WarmLocking(batch, k)];
    }
  }

  // What the snapshot of one scope makes of its entry.
  function PlanFor(s: Sys, e: (string, Scope)): Plan {
    if e.0 in s.maps && s.maps[e.0] < |s.bufs| then Plan(e.0, e.1, s.bufs[s.maps[e.0]].scope.Bytes(), false)
    else Plan(e.0, e.1, 0, true)
  }

  function PlansFor(s: Sys, batch: Batch): (r: seq<Plan>)
    ensures |r| == |batch| && forall i :: 0 <= i < |r| ==> r[i] == PlanFor(s, batch[i])
  {
    seq(|batch|, i requires 0 <= i < |batch| => PlanFor(s, batch[i]))
  }

  // The buffers, but for which windows are open on them.
  predicate SameButWindows(a: seq<Buf>, b: seq<Buf>) {
    |a| == |b| && forall i :: 0 <= i < |a| ==> b[i] == a[i].(window := b[i].window)
  }

  lemma {:induction false} ReadsAlone(w: World, s: Sys, t: nat, batch: Batch, now: int, j: nat) returns (m: Sys)
    requires Inv(w, s) && Quiet(s) && t < |s.threads| && DistinctNames(batch) && j <= |batch|
    ensures Reaches(w, s, t, StartWarm(batch), now, m)
    ensures m == Busy(s, t, WarmReading(PlansFor(s, batch[..j]), batch[j..], Cover(w, batch))).(bufs := m.bufs)
    ensures SameButWindows(s.bufs, m.bufs)
  {
    hide Inv, Reaches, Sum, Cover, Scope.Bytes;
    QuietMeans(w, s);
    if j == 0 {
      LocksAlone(w, s, t, batch, now, SHARDS);
      var m0 := Busy(s, t, WarmLocking(batch, SHARDS));
      GoesOn(w, s, t, StartWarm(batch), now, m0);
      m := Do(w, m0, t, Continue(now));
      assert m0.threads[t := WarmReading([], batch, Cover(w, batch))] == s.threads[t := WarmReading([], batch, Cover(w, batch))];
      assert PlansFor(s, batch[..0]) == [] && batch[0..] == batch;
    } else {
      var before := ReadsAlone(w, s, t, batch, now, j - 1);
      var e := batch[j - 1];
      assert batch[j - 1..][0] == e && batch[j - 1..][1..] == batch[j..];
      GoesOn(w, s, t, StartWarm(batch), now, before);
      m := Do(w, before, t, Continue(now));
      assert PlansFor(s, batch[..j]) == PlansFor(s, batch[..j - 1]) + [PlanFor(s, e)];
      var pc := WarmReading(PlansFor(s, batch[..j]), batch[j..], Cover(w, batch));
      assert before.threads[t := pc] == s.threads[t := pc];
    }
  }

  // ---- /warm: the reservation ----

  lemma {:induction false} GrowthAgrees(w: World, s: Sys, st: StoreSpec.Store, targets: seq<StoreSpec.Target>, batch: Batch)
    requires Inv(w, s) && SameStore(s, st) && BatchOf(targets, batch)
    ensures Sum(PlansFor(s, batch), PlanDelta) == Sum(targets, StoreSpec.BytesOver(st.scopes))
  {
    hide Inv, Sum, Scope.Bytes;
    EmptyWeight();
    SumEq(PlansFor(s, batch), targets, PlanDelta, StoreSpec.BytesOver(st.scopes));
  }

  // ---- /warm: the commits ----

  // The scopes under their names, every buffer free and under its own name.
  ghost predicate Shows(m: Sys, scopes: Scopes) {
    && m.maps.Keys == scopes.Keys
    && (forall n :: n in m.maps ==> m.maps[n] < |m.bufs| && m.bufs[m.maps[n]].scope == scopes[n].scope && m.bufs[m.maps[n]].name == n)
    && (forall i :: 0 <= i < |m.bufs| ==> m.bufs[i].hold.Free?)
  }

  ghost predicate PlansStand(m: Sys, plans: seq<Plan>) {
    && (forall i, j :: 0 <= i < j < |plans| ==> plans[i].name != plans[j].name)
    && (forall i :: 0 <= i < |plans| && plans[i].name in m.maps ==>
          m.maps[plans[i].name] < |m.bufs| && plans[i].recorded == m.bufs[m.maps[plans[i].name]].scope.Bytes())
  }

  predicate PlansAre(plans: seq<Plan>, targets: seq<StoreSpec.Target>) {
    |plans| == |targets| && forall i :: 0 <= i < |plans| ==> plans[i].name == targets[i].name && plans[i].target == targets[i].scope
  }

  // Where a target is committed the map and the buffers show it, and nothing else has changed.
  lemma {:induction false} CommitShows(m: Sys, t: nat, scopes: Scopes, plans: seq<Plan>, added: nat, cover: set<nat>, target: StoreSpec.Target, now: int)
    requires Shows(m, scopes) && plans != [] && t < |m.threads| && plans[0].name == target.name && plans[0].target == target.scope
    ensures Shows(DoWarmCommit(m, t, plans, added, cover), scopes[target.name := StoreSpec.Held(target.scope, now)])
    ensures var m' := DoWarmCommit(m, t, plans, added, cover);
      && m'.items == m.items + |target.scope.items| - |StoreSpec.OldScope(scopes, target.name).items|
      && forall n :: n in m.maps && n != target.name ==>
           n in m'.maps && m.maps[n] < |m.bufs| && m'.maps[n] == m.maps[n] && m'.maps[n] < |m'.bufs| && m'.bufs[m'.maps[n]] == m.bufs[m.maps[n]]
  {
    hide Sum, Scope.Bytes;
    var m' := DoWarmCommit(m, t, plans, added, cover);
    forall n | n in m'.maps ensures m'.maps[n] < |m'.bufs| && m'.bufs[m'.maps[n]].name == n {
      if n in m.maps && target.name in m.maps && n != target.name { assert m.maps[n] != m.maps[target.name]; }
    }
  }

  lemma {:induction false} CommitStands(m: Sys, t: nat, scopes: Scopes, plans: seq<Plan>, added: nat, cover: set<nat>, target: StoreSpec.Target, now: int)
    requires Shows(m, scopes) && plans != [] && t < |m.threads| && plans[0].name == target.name && plans[0].target == target.scope
    requires PlansStand(m, plans)
    ensures PlansStand(DoWarmCommit(m, t, plans, added, cover), plans[1..])
    ensures DoWarmCommit(m, t, plans, added, cover).total == m.total
  {
    hide Sum, Scope.Bytes;
    CommitShows(m, t, scopes, plans, added, cover, target, now);
    assert forall i :: 0 <= i < |plans[1..]| ==> plans[1..][i] == plans[i + 1];
    assert forall n :: n in DoWarmCommit(m, t, plans, added, cover).maps ==> n == target.name || n in m.maps;
  }

  // One commit installs one target.
  lemma {:induction false} CommitAlone(w: World, s: Sys, t: nat, first: Action, now: int, m: Sys,
                                       scopes: Scopes, plans: seq<Plan>, added: nat, cover: set<nat>, target: StoreSpec.Target)
    returns (m': Sys)
    requires Reaches(w, s, t, first, now, m) && Shows(m, scopes) && PlansStand(m, plans) && plans != []
    requires t < |m.threads| && m.threads[t] == WarmWriting(plans, added, cover)
    requires plans[0].name == target.name && plans[0].target == target.scope
    ensures Reaches(w, s, t, first, now, m') && Shows(m', scopes[target.name := StoreSpec.Held(target.scope, now)])
    ensures PlansStand(m', plans[1..])
    ensures m'.threads == m.threads[t := WarmWriting(plans[1..], if target.name in scopes then added else added + 1, cover)]
    ensures m'.total == m.total && m'.scopes == m.scopes
    ensures m'.items == m.items + |target.scope.items| - |StoreSpec.OldScope(scopes, target.name).items|
  {
    hide Reaches, Sum, Scope.Bytes, PlansStand;
    CommitShows(m, t, scopes, plans, added, cover, target, now);
    CommitStands(m, t, scopes, plans, added, cover, target, now);
    GoesOn(w, s, t, first, now, m);
    m' := DoWarmCommit(m, t, plans, added, cover);
    assert m' == Do(w, m, t, Continue(now));
  }

  lemma {:induction false} CommitsAlone(w: World, s: Sys, t: nat, first: Action, now: int, m: Sys,
                                        scopes: Scopes, plans: seq<Plan>, added: nat, cover: set<nat>, targets: seq<StoreSpec.Target>)
    returns (m': Sys)
    requires Reaches(w, s, t, first, now, m) && Shows(m, scopes) && PlansStand(m, plans) && PlansAre(plans, targets)
    requires t < |m.threads| && m.threads[t] == WarmWriting(plans, added, cover)
    ensures Reaches(w, s, t, first, now, m') && Shows(m', StoreSpec.Install(scopes, targets, now))
    ensures m'.threads == m.threads[t := Idle]
    ensures m'.total == m.total && m'.scopes == m.scopes + added + Sum(targets, StoreSpec.ScopesOver(scopes))
    ensures m'.items == m.items + Sum(targets, StoreSpec.ItemsOver(scopes))
    decreases |targets|
  {
    hide Reaches, Shows, PlansStand, Sum;
    if targets == [] {
      NoneSum(scopes);
      m' := FinishAlone(w, s, t, first, now, m, scopes, added, cover);
    } else {
      var target, rest := targets[0], targets[1..];
      var m1 := CommitAlone(w, s, t, first, now, m, scopes, plans, added, cover, target);
      var scopes1 := scopes[target.name := StoreSpec.Held(target.scope, now)];
      assert forall i :: 0 <= i < |rest| ==> rest[i] == targets[i + 1] && plans[1..][i] == plans[i + 1];
      m' := CommitsAlone(w, s, t, first, now, m1, scopes1, plans[1..], if target.name in scopes then added else added + 1, cover, rest);
      assert m1.threads[t := Idle] == m.threads[t := Idle];
      SumHead(targets, StoreSpec.ScopesOver(scopes));
      SumHead(targets, StoreSpec.ItemsOver(scopes));
      PlansDistinct(m, plans);
      RestUnmoved(scopes, targets, now);
    }
  }

  lemma {:induction false} NoneSum(scopes: Scopes)
    ensures Sum([], StoreSpec.ScopesOver(scopes)) == 0 && Sum([], StoreSpec.ItemsOver(scopes)) == 0
  {
  }

  lemma {:induction false} FinishAlone(w: World, s: Sys, t: nat, first: Action, now: int, m: Sys, scopes: Scopes, added: nat, cover: set<nat>)
    returns (m': Sys)
    requires Reaches(w, s, t, first, now, m) && Shows(m, scopes) && t < |m.threads| && m.threads[t] == WarmWriting([], added, cover)
    ensures Reaches(w, s, t, first, now, m') && Shows(m', scopes)
    ensures m' == m.(threads := m.threads[t := Idle], scopes := m.scopes + added)
  {
    hide Reaches, Sum;
    GoesOn(w, s, t, first, now, m);
    m' := Do(w, m, t, Continue(now));
  }

  lemma {:induction false} PlansDistinct(m: Sys, plans: seq<Plan>)
    requires PlansStand(m, plans)
    ensures forall i, j :: 0 <= i < j < |plans| ==> plans[i].name != plans[j].name
  {
  }

  // What is installed first does not change what the others add.
  lemma {:induction false} RestUnmoved(scopes: Scopes, targets: seq<StoreSpec.Target>, now: int)
    requires targets != [] && forall i, j :: 0 <= i < j < |targets| ==> targets[i].name != targets[j].name
    ensures var scopes1 := scopes[targets[0].name := StoreSpec.Held(targets[0].scope, now)];
      && Sum(targets[1..], StoreSpec.ScopesOver(scopes1)) == Sum(targets[1..], StoreSpec.ScopesOver(scopes))
      && Sum(targets[1..], StoreSpec.ItemsOver(scopes1)) == Sum(targets[1..], StoreSpec.ItemsOver(scopes))
  {
    hide Sum, Scope.Bytes;
    StoreBulk.OverLater(scopes, targets, now);
  }

  // ---- /warm, whole ----

  // What replaceScopes does once its batch is prepared, events off.
  function WarmedIf(cfg: Config, st: StoreSpec.Store, targets: seq<StoreSpec.Target>, now: int): StoreSpec.Store {
    if Admits(st.total, cfg.maxStoreBytes, Sum(targets, StoreSpec.BytesOver(st.scopes))) then StoreSpec.Warmed(cfg, st, targets, now)
    else st
  }

  lemma {:induction false} SnapshotStands(w: World, s: Sys, st: StoreSpec.Store, batch: Batch, bufs: seq<Buf>)
    requires Inv(w, s) && Quiet(s) && SameStore(s, st) && DistinctNames(batch) && SameButWindows(s.bufs, bufs)
    ensures Shows(s.(bufs := bufs), st.scopes) && PlansStand(s.(bufs := bufs), PlansFor(s, batch))
  {
    hide Inv, Scope.Bytes;
    QuietMeans(w, s);
  }

  // Threads and counters do not matter for what is shown.
  lemma {:induction false} ShownStays(a: Sys, b: Sys, scopes: Scopes, plans: seq<Plan>)
    requires Shows(a, scopes) && PlansStand(a, plans) && a.bufs == b.bufs && a.maps == b.maps
    ensures Shows(b, scopes) && PlansStand(b, plans)
  {
  }

  lemma {:induction false} ShownIsSame(m: Sys, st: StoreSpec.Store)
    requires Shows(m, st.scopes) && m.total == st.total && m.items == st.items && m.scopes == st.count
    ensures SameStore(m, st)
  {
  }

  /** A /warm that runs alone: the whole batch or nothing, and the counters to match. */
  lemma {:induction false} SoloWarm(w: World, s: Sys, st: StoreSpec.Store, t: nat, targets: seq<StoreSpec.Target>, batch: Batch, now: int)
    requires Inv(w, s) && Quiet(s) && SameStore(s, st) && t < |s.threads| && DistinctNames(batch) && BatchOf(targets, batch)
    ensures exists s' :: Becomes(w, s, t, StartWarm(batch), now, s') && SameStore(s', WarmedIf(w.cfg, st, targets, now))
  {
    hide Inv, Reaches, Becomes, Sum, Shows, PlansStand, Scope.Bytes, StoreSpec.Install, StoreSpec.BytesOver, StoreSpec.ItemsOver, StoreSpec.ScopesOver, Cover;
    var first := StartWarm(batch);
    var m := ReadsAlone(w, s, t, batch, now, |batch|);
    assert batch[..|batch|] == batch && batch[|batch|..] == [];
    GoesOn(w, s, t, first, now, m);
    var m1 := Do(w, m, t, Continue(now));
    GrowthAgrees(w, s, st, targets, batch);
    SnapshotStands(w, s, st, batch, m.bufs);
    if Admits(st.total, w.cfg.maxStoreBytes, Sum(targets, StoreSpec.BytesOver(st.scopes))) {
      ShownStays(s.(bufs := m.bufs), m1, st.scopes, PlansFor(s, batch));
      var m2 := CommitsAlone(w, s, t, first, now, m1, st.scopes, PlansFor(s, batch), 0, Cover(w, batch), targets);
      assert m2.threads == s.threads[t := Idle];
      Arrives(w, s, t, first, now, m2);
      ShownIsSame(m2, WarmedIf(w.cfg, st, targets, now));
    } else {
      assert m1.threads == s.threads[t := Idle];
      Arrives(w, s, t, first, now, m1);
      RefusedSame(w, s, st, m1, m.bufs, Cover(w, batch));
    }
  }

  lemma {:induction false} RefusedSame(w: World, s: Sys, st: StoreSpec.Store, m: Sys, bufs: seq<Buf>, cover: set<nat>)
    requires SameStore(s, st) && SameButWindows(s.bufs, bufs) && m.bufs == CloseWindows(w, bufs, cover) && m.maps == s.maps
    requires m.total == s.total && m.items == s.items && m.scopes == s.scopes
    ensures SameStore(m, st)
  {
  }

  // ---- /wipe and /rebuild ----

  lemma {:induction false} ResetLocks(w: World, s: Sys, t: nat, batch: Batch, now: int, k: nat)
    requires Quiet(s) && t < |s.threads| && Enabled(w, s, t, StartReset(batch)) && k <= SHARDS
    ensures Reaches(w, s, t, StartReset(batch), now, Busy(s, t, ResetLocking(batch, k)))
  {
    hide Reaches, Sum;
    if k == 0 {
      Starts(w, s, t, StartReset(batch), now);
    } else {
      ResetLocks(w, s, t, batch, now, k - 1);
      var m := Busy(s, t, ResetLocking(batch, k - 1));
      GoesOn(w, s, t, StartReset(batch), now, m);
      assert m.threads[t := ResetLocking(batch, k)] == s.threads[t := ResetLocking(batch, k)];
    }
  }

  // The first buffers are detached, nothing else has changed.
  predicate SweptTo(s: Sys, m: Sys, t: nat, batch: Batch, j: nat) {
    && t < |s.threads| && m == Busy(s, t, ResetSweeping(batch)).(bufs := m.bufs) && |m.bufs| == |s.bufs|
    && (forall i :: 0 <= i < |m.bufs| ==> m.bufs[i] == s.bufs[i].(detached := m.bufs[i].detached))
    && (forall i :: 0 <= i < j && i < |m.bufs| && m.bufs[i].linked ==> m.bufs[i].detached)
  }

  lemma {:induction false} SweepsAlone(w: World, s: Sys, t: nat, batch: Batch, now: int, j: nat) returns (m: Sys)
    requires Inv(w, s) && Quiet(s) && t < |s.threads| && Enabled(w, s, t, StartReset(batch)) && j <= |s.bufs|
    ensures Reaches(w, s, t, StartReset(batch), now, m) && SweptTo(s, m, t, batch, j)
  {
    hide Inv, Reaches, Sum;
    QuietMeans(w, s);
    if j == 0 {
      ResetLocks(w, s, t, batch, now, SHARDS);
      var m0 := Busy(s, t, ResetLocking(batch, SHARDS));
      GoesOn(w, s, t, StartReset(batch), now, m0);
      m := Do(w, m0, t, Continue(now));
      assert m0.threads[t := ResetSweeping(batch)] == s.threads[t := ResetSweeping(batch)];
    } else {
      m := SweepsAlone(w, s, t, batch, now, j - 1);
      if m.bufs[j - 1].linked && !m.bufs[j - 1].detached {
        SweepsOn(w, s, t, StartReset(batch), now, m, j - 1);
        m := Do(w, m, t, Sweep(j - 1));
      }
    }
  }

  // What the reset leaves: the given scopes, the reserved ones, and the counters to match.
  function Replaced(targets: seq<StoreSpec.Target>, now: int, writeTS: int, drops: nat): StoreSpec.Store {
    StoreSpec.WithReserved(StoreSpec.Store(StoreSpec.Install(map[], targets, now), Sum(targets, StoreSpec.TargetWeight),
                                           Sum(targets, StoreSpec.TargetItems), |targets|, writeTS, drops))
  }

  // The scopes it leaves are those of the whole new content, and no others.
  lemma {:induction false} ReplacedScopes(targets: seq<StoreSpec.Target>, batch: Batch, now: int, ts: int, drops: nat)
    requires BatchOf(targets, batch) && DistinctNames(batch)
    ensures var whole, scopes := Whole(batch), Replaced(targets, now, ts, drops).scopes;
      && (forall i :: 0 <= i < |whole| ==> whole[i].0 in scopes && scopes[whole[i].0].scope == whole[i].1)
      && (forall n :: n in scopes ==> exists i :: 0 <= i < |whole| && whole[i].0 == n)
  {
    hide Sum, StoreSpec.Install, Scope.Bytes;
    var whole, scopes := Whole(batch), Replaced(targets, now, ts, drops).scopes;
    StoreBulk.InstallAt(map[], targets, now);
    forall i | 0 <= i < |whole| ensures whole[i].0 in scopes && scopes[whole[i].0].scope == whole[i].1 {
      if i < |batch| { assert whole[i] == (targets[i].name, targets[i].scope) && !IsReserved(batch[i].0); }
    }
    forall n | n in scopes ensures exists i :: 0 <= i < |whole| && whole[i].0 == n {
      if n == EVENTS { assert whole[|batch|].0 == n; }
      else if n == INBOX { assert whole[|batch| + 1].0 == n; }
      else {
        var i :| 0 <= i < |targets| && targets[i].name == n;
        assert whole[i].0 == n;
      }
    }
  }

  lemma {:induction false} SwapCounts(m: Sys, t: nat, targets: seq<StoreSpec.Target>, batch: Batch, now: int, ts: int, drops: nat)
    requires t < |m.threads| && BatchOf(targets, batch)
    ensures var s', st := DoSwap(m, t, batch), Replaced(targets, now, ts, drops);
      s'.total == st.total && s'.items == st.items && s'.scopes == st.count
  {
    hide Sum, NewMaps, NewBufs, Unlinked, Scope.Bytes, StoreSpec.Install, Whole;
    SumEq(batch, targets, BatchCharge, StoreSpec.TargetWeight);
    SumEq(batch, targets, BatchItems, StoreSpec.TargetItems);
  }

  lemma {:induction false} SwapShows(m: Sys, t: nat, targets: seq<StoreSpec.Target>, batch: Batch, now: int, ts: int, drops: nat)
    requires t < |m.threads| && BatchOf(targets, batch) && DistinctNames(batch)
    ensures SameStore(DoSwap(m, t, batch), Replaced(targets, now, ts, drops))
  {
    hide DoSwap, Replaced, Whole, DistinctNames, BatchOf;
    var whole, st := Whole(batch), Replaced(targets, now, ts, drops);
    var s' := DoSwap(m, t, batch);
    ReplacedScopes(targets, batch, now, ts, drops);
    SwapCounts(m, t, targets, batch, now, ts, drops);
    forall n | n in s'.maps
      ensures n in st.scopes && s'.maps[n] < |s'.bufs| && s'.bufs[s'.maps[n]].scope == st.scopes[n].scope
    {
      SwapFinds(m, t, batch, n);
      var i := s'.maps[n] - |m.bufs|;
      assert whole[i].0 in st.scopes;
    }
    forall n | n in st.scopes ensures n in s'.maps {
      var i :| 0 <= i < |whole| && whole[i].0 == n;
      SwapHas(m, t, batch, i);
    }
  }

  // After the swap a name leads to the buffer made for it.
  lemma {:induction false} SwapFinds(m: Sys, t: nat, batch: Batch, n: string)
    requires t < |m.threads| && n in DoSwap(m, t, batch).maps
    ensures var s', whole := DoSwap(m, t, batch), Whole(batch);
      |m.bufs| <= s'.maps[n] < |s'.bufs| == |m.bufs| + |whole| && var i := s'.maps[n] - |m.bufs|;
      whole[i].0 == n && s'.bufs[s'.maps[n]].scope == whole[i].1
  {
    hide DoSwap, Whole, NewMaps, Sum;
    SwapMaps(m, t, batch);
    SwappedAt(m, t, batch, DoSwap(m, t, batch).maps[n]);
  }

  lemma {:induction false} SwapMaps(m: Sys, t: nat, batch: Batch)
    requires t < |m.threads|
    ensures DoSwap(m, t, batch).maps == NewMaps(Whole(batch), |m.bufs|) && |Whole(batch)| == |batch| + 2
  {
    hide NewMaps, NewBufs, Unlinked, Sum;
  }

  lemma {:induction false} SwapHas(m: Sys, t: nat, batch: Batch, i: nat)
    requires t < |m.threads| && i < |Whole(batch)|
    ensures Whole(batch)[i].0 in DoSwap(m, t, batch).maps
  {
    hide Sum;
  }

  /** A reset that runs alone: exactly the given scopes and the two reserved ones, empty. */
  lemma {:induction false} SoloReset(w: World, s: Sys, t: nat, targets: seq<StoreSpec.Target>, batch: Batch, now: int, ts: int, drops: nat)
    requires Inv(w, s) && Quiet(s) && t < |s.threads| && DistinctNames(batch) && BatchOf(targets, batch)
    requires batch == [] || Sum(targets, StoreSpec.TargetWeight) + RESERVED_OVERHEAD <= w.cfg.maxStoreBytes
    ensures exists s' :: Becomes(w, s, t, StartReset(batch), now, s') && SameStore(s', Replaced(targets, now, ts, drops))
  {
    hide Inv, Reaches, Becomes, Sum, Scope.Bytes, StoreSpec.Install, NewMaps, NewBufs, Unlinked;
    SumEq(batch, targets, BatchCharge, StoreSpec.TargetWeight);
    var first := StartReset(batch);
    var m := SweepsAlone(w, s, t, batch, now, |s.bufs|);
    GoesOn(w, s, t, first, now, m);
    var s' := Do(w, m, t, Continue(now));
    SwapShows(m, t, targets, batch, now, ts, drops);
    assert Quiet(s');
    Arrives(w, s, t, first, now, s');
  }

  /** /wipe is the reset to nothing, an accepted /rebuild that to its batch. */
  lemma {:induction false} ResetsAre(cfg: Config, st: StoreSpec.Store, batch: seq<StoreSpec.Entry>, now: int)
    ensures StoreSpec.Wipe(st, now) == Replaced([], now, Max(st.writeTS, now), st.drops)
    ensures StoreSpec.Rebuild(cfg, st, batch, now).1.Ok? ==>
      StoreSpec.Rebuild(cfg, st, batch, now).0
        == Replaced(StoreSpec.BareAll(StoreBulk.TargetsOf(cfg, batch, now)), now, Max(st.writeTS, now), st.drops)
  {
    hide StoreSpec.Prepare;
    StoreBulk.PrepareMeans(cfg, batch, now);
    var targets := StoreBulk.TargetsOf(cfg, batch, now);
    SumEq(StoreSpec.BareAll(targets), targets, StoreSpec.TargetWeight, StoreSpec.TargetWeight);
    SumEq(StoreSpec.BareAll(targets), targets, StoreSpec.TargetItems, StoreSpec.TargetItems);
  }
}
