/** /warm, /wipe and /rebuild: all or nothing, in any order of the input map, with exact counters. */
module StoreBulk {
  import opened Types
  import opened Sums
  import opened ScopeSpec
  import opened StoreSpec
  import opened StoreLaws

  // ---- what phase 1 decides ----

  ghost predicate Malformed(cfg: Config, e: Entry) {
    || !EntryOk(cfg, e)
    || (|e.items| <= cfg.scopeMaxItems && !DistinctIds(ToIncoming(cfg.codec, e.items)))
  }

  predicate Overfull(cfg: Config, e: Entry) {
    |e.items| > cfg.scopeMaxItems
  }

  function TargetOf(cfg: Config, e: Entry, now: int): Target {
    Target(e.scope, Built(cfg.codec, ToIncoming(cfg.codec, e.items), now))
  }

  function TargetsOf(cfg: Config, batch: seq<Entry>, now: int): (r: seq<Target>)
    ensures |r| == |batch| && forall i :: 0 <= i < |r| ==> r[i] == TargetOf(cfg, batch[i], now)
  {
    seq(|batch|, i requires 0 <= i < |batch| => TargetOf(cfg, batch[i], now))
  }

  function OverfullNames(cfg: Config, batch: seq<Entry>): seq<string> {
    if batch == [] then []
    else (if Overfull(cfg, batch[0]) then [batch[0].scope] else []) + OverfullNames(cfg, batch[1..])
  }

  ghost predicate AnyMalformed(cfg: Config, batch: seq<Entry>) {
    exists i :: 0 <= i < |batch| && Malformed(cfg, batch[i])
  }

  lemma {:induction false} AnyMalformedSplit(cfg: Config, batch: seq<Entry>)
    requires batch != []
    ensures AnyMalformed(cfg, batch) <==> Malformed(cfg, batch[0]) || AnyMalformed(cfg, batch[1..])
  {
    hide Malformed;
    var rest := batch[1..];
    assert forall i :: 0 <= i < |rest| ==> rest[i] == batch[i + 1];
    if AnyMalformed(cfg, rest) {
      var i :| 0 <= i < |rest| && Malformed(cfg, rest[i]);
      assert Malformed(cfg, batch[i + 1]);
    }
    if AnyMalformed(cfg, batch) && !Malformed(cfg, batch[0]) {
      var i :| 0 <= i < |batch| && Malformed(cfg, batch[i]);
      assert Malformed(cfg, rest[i - 1]);
    }
  }

  // One entry of the walk.
  lemma {:induction false} PrepareStep(cfg: Config, batch: seq<Entry>, now: int, offenders: seq<string>, targets: seq<Target>)
    requires batch != []
    ensures Prepare(cfg, batch, now, offenders, targets) ==
      if Malformed(cfg, batch[0]) then Err(Invalid)
      else if Overfull(cfg, batch[0]) then Prepare(cfg, batch[1..], now, offenders + [batch[0].scope], targets)
      else Prepare(cfg, batch[1..], now, offenders, targets + [TargetOf(cfg, batch[0], now)])
  {
    hide EntryOk, DistinctIds, Built;
  }

  ghost function Decided(cfg: Config, batch: seq<Entry>, now: int, offenders: seq<string>, targets: seq<Target>): Result<seq<Target>> {
    var full := offenders + OverfullNames(cfg, batch);
    if AnyMalformed(cfg, batch) then Err(Invalid)
    else if full != [] then Err(ScopesFull(full))
    else Ok(targets + TargetsOf(cfg, batch, now))
  }

  lemma {:induction false} PrepareFrom(cfg: Config, batch: seq<Entry>, now: int, offenders: seq<string>, targets: seq<Target>)
    ensures Prepare(cfg, batch, now, offenders, targets) == Decided(cfg, batch, now, offenders, targets)
    decreases |batch|
  {
    hide Malformed, TargetOf, AnyMalformed;
    if batch == [] {
      assert !AnyMalformed(cfg, batch) by { EmptyNotMalformed(cfg); }
      assert targets + TargetsOf(cfg, batch, now) == targets;
      assert offenders + OverfullNames(cfg, batch) == offenders;
    } else {
      PrepareStep(cfg, batch, now, offenders, targets);
      DecidedStep(cfg, batch, now, offenders, targets);
      hide Prepare, Decided;
      if Malformed(cfg, batch[0]) {
      } else if Overfull(cfg, batch[0]) {
        PrepareFrom(cfg, batch[1..], now, offenders + [batch[0].scope], targets);
      } else {
        PrepareFrom(cfg, batch[1..], now, offenders, targets + [TargetOf(cfg, batch[0], now)]);
      }
    }
  }

  lemma {:induction false} EmptyNotMalformed(cfg: Config)
    ensures !AnyMalformed(cfg, [])
  {
  }

  lemma {:induction false} DecidedStep(cfg: Config, batch: seq<Entry>, now: int, offenders: seq<string>, targets: seq<Target>)
    requires batch != []
    ensures Decided(cfg, batch, now, offenders, targets) ==
      if Malformed(cfg, batch[0]) then Err(Invalid)
      else if Overfull(cfg, batch[0]) then Decided(cfg, batch[1..], now, offenders + [batch[0].scope], targets)
      else Decided(cfg, batch[1..], now, offenders, targets + [TargetOf(cfg, batch[0], now)])
  {
    hide Malformed, TargetOf, AnyMalformed;
    AnyMalformedSplit(cfg, batch);
    var e, rest := batch[0], batch[1..];
    assert offenders + [e.scope] + OverfullNames(cfg, rest) == offenders + ([e.scope] + OverfullNames(cfg, rest));
    assert offenders + ([] + OverfullNames(cfg, rest)) == offenders + OverfullNames(cfg, rest);
    assert targets + [TargetOf(cfg, e, now)] + TargetsOf(cfg, rest, now) == targets + TargetsOf(cfg, batch, now);
  }

  lemma {:induction false} PrepareMeans(cfg: Config, batch: seq<Entry>, now: int)
    ensures Prepare(cfg, batch, now, [], []) ==
      if AnyMalformed(cfg, batch) then Err(Invalid)
      else if OverfullNames(cfg, batch) != [] then Err(ScopesFull(OverfullNames(cfg, batch)))
      else Ok(TargetsOf(cfg, batch, now))
  {
    hide Prepare, AnyMalformed, OverfullNames, TargetsOf;
    PrepareFrom(cfg, batch, now, [], []);
    assert [] + OverfullNames(cfg, batch) == OverfullNames(cfg, batch);
    assert [] + TargetsOf(cfg, batch, now) == TargetsOf(cfg, batch, now);
  }

  lemma {:induction false} NoneOverfull(cfg: Config, batch: seq<Entry>)
    requires OverfullNames(cfg, batch) == []
    ensures forall i :: 0 <= i < |batch| ==> !Overfull(cfg, batch[i])
  {
    if batch != [] {
      NoneOverfull(cfg, batch[1..]);
      forall i | 0 <= i < |batch| ensures !Overfull(cfg, batch[i]) {
        if i > 0 { assert batch[i] == batch[1..][i - 1]; }
      }
    }
  }

  // A target that passed phase 1 is a well-formed scope of well-sized items.
  lemma {:induction false} TargetGood(cfg: Config, e: Entry, now: int)
    requires !Malformed(cfg, e) && !Overfull(cfg, e)
    ensures var t := TargetOf(cfg, e, now);
      && !IsReserved(t.name) && WellFormed(t.scope) && Fits(cfg, t.name, t.scope)
  {
    var ins, t := ToIncoming(cfg.codec, e.items), TargetOf(cfg, e, now);
    forall i | 0 <= i < |t.scope.items|
      ensures ItemOk(cfg, t.name, t.scope.items[i])
    {
      RenderIsDecoded(cfg.codec, e.items[i].payload);
    }
    forall i, j | 0 <= i < j < |t.scope.items| && t.scope.items[i].id != ""
      ensures t.scope.items[i].id != t.scope.items[j].id
    {
      assert ins[i].id == t.scope.items[i].id && ins[j].id == t.scope.items[j].id;
    }
  }

  // ---- what installing targets does to the map ----

  predicate DistinctTargets(targets: seq<Target>) {
    forall i, j :: 0 <= i < j < |targets| ==> targets[i].name != targets[j].name
  }

  lemma {:induction false} InstallAt(scopes: map<string, Held>, targets: seq<Target>, now: int)
    requires DistinctTargets(targets)
    ensures var m := Install(scopes, targets, now);
      && (forall i :: 0 <= i < |targets| ==> targets[i].name in m && m[targets[i].name] == Held(targets[i].scope, now))
      && (forall n :: (forall i :: 0 <= i < |targets| ==> targets[i].name != n) ==>
            (n in m <==> n in scopes) && (n in m ==> m[n] == scopes[n]))
      && (forall n :: n in scopes ==> n in m)
    decreases |targets|
  {
    if targets != [] {
      var rest, scopes' := targets[1..], scopes[targets[0].name := Held(targets[0].scope, now)];
      InstallAt(scopes', rest, now);
      var m := Install(scopes', rest, now);
      assert forall i :: 0 < i < |targets| ==> targets[i] == rest[i - 1];
      assert forall i :: 0 <= i < |rest| ==> rest[i].name != targets[0].name;
      forall n | forall i :: 0 <= i < |targets| ==> targets[i].name != n
        ensures (n in m <==> n in scopes) && (n in m ==> m[n] == scopes[n])
      {
        assert n != targets[0].name;
        assert forall i :: 0 <= i < |rest| ==> rest[i].name != n;
      }
    }
  }

  lemma {:induction false} OverLater(scopes: map<string, Held>, targets: seq<Target>, now: int)
    requires DistinctTargets(targets) && targets != []
    ensures var scopes' := scopes[targets[0].name := Held(targets[0].scope, now)];
      && Sum(targets[1..], BytesOver(scopes')) == Sum(targets[1..], BytesOver(scopes))
      && Sum(targets[1..], ItemsOver(scopes')) == Sum(targets[1..], ItemsOver(scopes))
      && Sum(targets[1..], ScopesOver(scopes')) == Sum(targets[1..], ScopesOver(scopes))
  {
    hide Sum;
    var rest, scopes' := targets[1..], scopes[targets[0].name := Held(targets[0].scope, now)];
    assert forall i :: 0 <= i < |rest| ==> rest[i].name != targets[0].name;
    SumEq(rest, rest, BytesOver(scopes'), BytesOver(scopes));
    SumEq(rest, rest, ItemsOver(scopes'), ItemsOver(scopes));
    SumEq(rest, rest, ScopesOver(scopes'), ScopesOver(scopes));
  }

  // What one installed target adds to the sums over the map.
  lemma {:induction false} PutSums(scopes: map<string, Held>, t: Target, now: int)
    ensures var m := scopes[t.name := Held(t.scope, now)];
      && MapSum(m, Weight) == MapSum(scopes, Weight) + BytesOver(scopes)(t)
      && MapSum(m, Count) == MapSum(scopes, Count) + ItemsOver(scopes)(t)
      && |m| == |scopes| + ScopesOver(scopes)(t)
  {
    hide MapSum, Sum;
    MapSumPut(scopes, Weight, t.name, Held(t.scope, now));
    MapSumPut(scopes, Count, t.name, Held(t.scope, now));
    EmptyBytes();
    var m := scopes[t.name := Held(t.scope, now)];
    assert m.Keys == scopes.Keys + {t.name};
  }

  lemma {:induction false} EmptyBytes()
    ensures EMPTY_SCOPE.Bytes() == 0
  {
  }

  lemma {:induction false} InstallSums(scopes: map<string, Held>, targets: seq<Target>, now: int)
    requires DistinctTargets(targets)
    ensures var m := Install(scopes, targets, now);
      && MapSum(m, Weight) == MapSum(scopes, Weight) + Sum(targets, BytesOver(scopes))
      && MapSum(m, Count) == MapSum(scopes, Count) + Sum(targets, ItemsOver(scopes))
      && |m| == |scopes| + Sum(targets, ScopesOver(scopes))
    decreases |targets|
  {
    hide MapSum, Sum, BytesOver, ItemsOver, ScopesOver;
    if targets == [] {
      SumZero(targets, BytesOver(scopes));
      SumZero(targets, ItemsOver(scopes));
      SumZero(targets, ScopesOver(scopes));
    } else {
      var t, rest := targets[0], targets[1..];
      PutSums(scopes, t, now);
      OverLater(scopes, targets, now);
      InstallSums(scopes[t.name := Held(t.scope, now)], rest, now);
      SumHead(targets, BytesOver(scopes));
      SumHead(targets, ItemsOver(scopes));
      SumHead(targets, ScopesOver(scopes));
    }
  }

  // ---- the counters stay exact ----

  lemma {:induction false} TargetsDistinct(cfg: Config, batch: seq<Entry>, now: int)
    requires OneEntryEach(batch)
    ensures DistinctTargets(TargetsOf(cfg, batch, now)) && DistinctTargets(BareAll(TargetsOf(cfg, batch, now)))
  {
    hide Built, ToIncoming;
  }

  // Installing tidy targets into a tidy map.
  lemma {:induction false} InstallTidy(cfg: Config, scopes: map<string, Held>, targets: seq<Target>, now: int, n: string)
    requires DistinctTargets(targets)
    requires forall i :: 0 <= i < |targets| ==>
               WellFormed(targets[i].scope) && Fits(cfg, targets[i].name, targets[i].scope) && !IsReserved(targets[i].name)
    requires forall k :: k in scopes ==> WellFormed(scopes[k].scope) && Fits(cfg, k, scopes[k].scope)
    requires n in Install(scopes, targets, now)
    ensures var s := Install(scopes, targets, now)[n].scope; WellFormed(s) && Fits(cfg, n, s)
    ensures n !in scopes ==> !IsReserved(n)
  {
    hide WellFormed, Fits, Install;
    InstallAt(scopes, targets, now);
    if i :| 0 <= i < |targets| && targets[i].name == n {
      assert WellFormed(targets[i].scope);
    }
  }

  lemma {:induction false} PreparedGood(cfg: Config, batch: seq<Entry>, now: int)
    requires Prepare(cfg, batch, now, [], []).Ok?
    ensures Prepare(cfg, batch, now, [], []).value == TargetsOf(cfg, batch, now)
    ensures forall i :: 0 <= i < |batch| ==>
      var t := TargetOf(cfg, batch[i], now); WellFormed(t.scope) && Fits(cfg, t.name, t.scope) && !IsReserved(t.name)
  {
    hide WellFormed, Fits, Prepare, Malformed, Overfull;
    PrepareMeans(cfg, batch, now);
    NoneOverfull(cfg, batch);
    forall i | 0 <= i < |batch|
      ensures var t := TargetOf(cfg, batch[i], now); WellFormed(t.scope) && Fits(cfg, t.name, t.scope) && !IsReserved(t.name)
    {
      assert !Malformed(cfg, batch[i]);
      TargetGood(cfg, batch[i], now);
    }
  }

  // Installing the batch keeps every name and every list in order.
  lemma {:induction false} WarmedTidy(cfg: Config, st: Store, batch: seq<Entry>, now: int)
    requires Tidy(cfg, st) && OneEntryEach(batch) && Prepare(cfg, batch, now, [], []).Ok?
    ensures Tidy(cfg, Warmed(cfg, st, TargetsOf(cfg, batch, now), now))
  {
    hide WellFormed, Fits, Prepare, Sum, Install, BytesOver, ItemsOver, ScopesOver;
    PreparedGood(cfg, batch, now);
    TargetsDistinct(cfg, batch, now);
    var targets := TargetsOf(cfg, batch, now);
    InstallAt(st.scopes, targets, now);
    var m := Install(st.scopes, targets, now);
    forall n | n in m ensures WellFormed(m[n].scope) && Fits(cfg, n, m[n].scope) {
      InstallTidy(cfg, st.scopes, targets, now, n);
    }
  }

  lemma {:induction false} WarmedGood(cfg: Config, st: Store, batch: seq<Entry>, now: int)
    requires Good(cfg, st) && OneEntryEach(batch) && Prepare(cfg, batch, now, [], []).Ok?
    requires Admits(st.total, cfg.maxStoreBytes, Sum(TargetsOf(cfg, batch, now), BytesOver(st.scopes)))
    ensures Good(cfg, Warmed(cfg, st, TargetsOf(cfg, batch, now), now))
  {
    hide Tidy, Prepare, MapSum, Sum, Install, BytesOver, ItemsOver, ScopesOver, TargetOf;
    WarmedTidy(cfg, st, batch, now);
    TargetsDistinct(cfg, batch, now);
    InstallSums(st.scopes, TargetsOf(cfg, batch, now), now);
  }

  lemma {:induction false} WarmGood(cfg: Config, st: Store, batch: seq<Entry>, now: int, later: int)
    requires Good(cfg, st) && OneEntryEach(batch) && cfg.maxItemBytes > 0
    ensures Good(cfg, Warm(cfg, st, batch, now, later).0)
  {
    hide Good, Prepare, Sum, Emit, Warmed;
    if Prepare(cfg, batch, now, [], []).Ok? {
      PreparedGood(cfg, batch, now);
      var targets := TargetsOf(cfg, batch, now);
      if Admits(st.total, cfg.maxStoreBytes, Sum(targets, BytesOver(st.scopes))) {
        WarmedGood(cfg, st, batch, now);
        EmitGood(cfg, Warmed(cfg, st, targets, now), WarmEvent(later), later);
      }
    }
  }

  // Room left for the two reserved scopes, which are not there yet.
  ghost predicate AlmostGood(cfg: Config, st: Store) {
    && Balanced(st) && st.total + RESERVED_OVERHEAD <= cfg.maxStoreBytes
    && EVENTS !in st.scopes && INBOX !in st.scopes
    && forall n :: n in st.scopes ==> WellFormed(st.scopes[n].scope) && Fits(cfg, n, st.scopes[n].scope)
  }

  lemma {:induction false} ReservedGood(cfg: Config, st: Store)
    requires AlmostGood(cfg, st)
    ensures Good(cfg, WithReserved(st))
  {
    hide MapSum, Balanced;
    CreateBalanced(st, EVENTS, st.writeTS);
    CreateBalanced(CreateScope(st, EVENTS, st.writeTS), INBOX, st.writeTS);
  }

  lemma {:induction false} WipeGood(cfg: Config, st: Store, now: int)
    requires cfg.maxStoreBytes >= RESERVED_OVERHEAD
    ensures Good(cfg, Wipe(st, now))
  {
    hide Good;
    ReservedGood(cfg, Store(map[], 0, 0, 0, Max(st.writeTS, now), st.drops));
  }

  lemma {:induction false} BareSums(targets: seq<Target>)
    ensures Sum(BareAll(targets), BytesOver(map[])) == Sum(targets, TargetWeight)
    ensures Sum(BareAll(targets), ItemsOver(map[])) == Sum(targets, TargetItems)
    ensures Sum(BareAll(targets), ScopesOver(map[])) == |targets|
  {
    assert EMPTY_SCOPE.Bytes() == 0;
    hide Sum;
    SumEq(BareAll(targets), targets, BytesOver(map[]), TargetWeight);
    SumEq(BareAll(targets), targets, ItemsOver(map[]), TargetItems);
    SumOnes(BareAll(targets), ScopesOver(map[]));
  }

  lemma {:induction false} SumOnes(targets: seq<Target>, f: Target -> int)
    requires forall i :: 0 <= i < |targets| ==> f(targets[i]) == 1
    ensures Sum(targets, f) == |targets|
  {
    if targets != [] {
      assert forall i :: 0 <= i < |targets[1..]| ==> targets[1..][i] == targets[i + 1];
      SumOnes(targets[1..], f);
    }
  }

  lemma {:induction false} RebuildGood(cfg: Config, st: Store, batch: seq<Entry>, now: int)
    requires Good(cfg, st) && OneEntryEach(batch)
    ensures Good(cfg, Rebuild(cfg, st, batch, now).0)
  {
    hide WellFormed, Fits, Prepare, MapSum, Sum, Install, Good;
    if Prepare(cfg, batch, now, [], []).Ok? {
      PreparedGood(cfg, batch, now);
      TargetsDistinct(cfg, batch, now);
      var targets := TargetsOf(cfg, batch, now);
      var bare := BareAll(targets);
      BareSums(targets);
      InstallSums(map[], bare, now);
      var m := Install(map[], bare, now);
      forall i | 0 <= i < |bare|
        ensures WellFormed(bare[i].scope) && Fits(cfg, bare[i].name, bare[i].scope) && !IsReserved(bare[i].name)
      {
        assert targets[i] == TargetOf(cfg, batch[i], now);
        BareGood(cfg, targets[i]);
      }
      forall n | n in m ensures WellFormed(m[n].scope) && Fits(cfg, n, m[n].scope) && !IsReserved(n) {
        InstallTidy(cfg, map[], bare, now, n);
      }
      var size := Sum(targets, TargetWeight);
      if size + RESERVED_OVERHEAD <= cfg.maxStoreBytes {
        assert MapSum(map[], Weight) == 0 && MapSum(map[], Count) == 0 by { EmptySums(); }
        ReservedGood(cfg, Store(m, size, Sum(targets, TargetItems), |targets|, Max(st.writeTS, now), st.drops));
      }
    }
  }

  lemma {:induction false} EmptySums()
    ensures MapSum(map[], Weight) == 0 && MapSum(map[], Count) == 0
  {
  }

  lemma {:induction false} BareGood(cfg: Config, t: Target)
    requires WellFormed(t.scope) && Fits(cfg, t.name, t.scope)
    ensures WellFormed(Bare(t).scope) && Fits(cfg, Bare(t).name, Bare(t).scope)
  {
  }

  /** Every operation, single or bulk, keeps the counters exact, the caps respected and the lists ordered. */
  lemma {:induction false} ActGood(cfg: Config, st: Store, x: Timed)
    requires Good(cfg, st) && Walkable(x) && cfg.maxItemBytes > 0 && cfg.maxStoreBytes >= RESERVED_OVERHEAD
    ensures Good(cfg, Act(cfg, st, x))
  {
    hide Good, Single, Warm, Wipe, Rebuild;
    match x.a
    case Do(r) => SingleGood(cfg, st, r, x.now, x.later);
    case DoWarm(batch) => WarmGood(cfg, st, batch, x.now, x.later);
    case DoWipe => WipeGood(cfg, st, x.now);
    case DoRebuild(batch) => RebuildGood(cfg, st, batch, x.now);
  }

  lemma {:induction false} BootGood(cfg: Config)
    requires cfg.maxStoreBytes >= RESERVED_OVERHEAD
    ensures Good(cfg, BOOT)
  {
    hide Good;
    ReservedGood(cfg, Store(map[], 0, 0, 0, 0, 0));
  }

  /** After any sequence of public operations from boot, every counter is the sum it stands for. */
  lemma {:induction false} RunGood(cfg: Config, run: seq<Timed>)
    requires cfg.maxItemBytes > 0 && cfg.maxStoreBytes >= RESERVED_OVERHEAD
    requires forall i :: 0 <= i < |run| ==> Walkable(run[i])
    ensures Good(cfg, ActAll(cfg, BOOT, run))
    decreases |run|
  {
    hide Good, Act;
    if run == [] {
      BootGood(cfg);
    } else {
      RunGood(cfg, run[..|run| - 1]);
      ActGood(cfg, ActAll(cfg, BOOT, run[..|run| - 1]), run[|run| - 1]);
    }
  }
}
