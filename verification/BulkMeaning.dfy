/** What /warm, /rebuild and /wipe accept and leave, field by field (bulk.go, buffer_replace.go). */
module BulkMeaning {
  import opened Types
  import opened Sums
  import opened ScopeSpec
  import opened ScopeMeaning
  import opened BufferSpec
  import opened StoreSpec
  import opened StoreLaws
  import opened StoreBulk
  import opened StoreWarm
  import opened StoreEvents
  import opened StoreMeaning
  import opened RecordMeaning

  // ---- what is accepted ----

  predicate ItemFits(cfg: Config, scope: string, x: RawItem) {
    && x.scope == scope && (x.id == "" || cfg.codec.nameOk(x.id)) && x.sq == 0 && x.ts == 0
    && PayloadFits(cfg, scope, x.id, x.payload, cfg.maxItemBytes)
  }

  /** One scope of a batch: a user scope, items for it that pass as appends, and no id twice. */
  ghost predicate EntryFits(cfg: Config, e: Entry) {
    && NameFits(cfg, e.scope) && UserScope(e.scope)
    && (forall i :: 0 <= i < |e.items| ==> ItemFits(cfg, e.scope, e.items[i]))
    && (forall i, j :: 0 <= i < j < |e.items| && e.items[i].id != "" ==> e.items[i].id != e.items[j].id)
  }

  ghost predicate BatchFits(cfg: Config, batch: seq<Entry>) {
    && (forall i :: 0 <= i < |batch| ==> EntryFits(cfg, batch[i]))
    && (forall i :: 0 <= i < |batch| ==> |batch[i].items| <= cfg.scopeMaxItems)
  }

  lemma {:induction false} EntryFitsExactlyWhen(cfg: Config, e: Entry)
    requires |e.items| <= cfg.scopeMaxItems
    ensures EntryFits(cfg, e) <==> !Malformed(cfg, e)
  {
    var ins := ToIncoming(cfg.codec, e.items);
    assert forall i :: 0 <= i < |e.items| ==> ins[i].id == e.items[i].id;
    if EntryOk(cfg, e) {
      forall i | 0 <= i < |e.items| ensures ItemFits(cfg, e.scope, e.items[i]) {
        assert WriteItemOk(cfg.codec, e.items[i].scope, e.items[i].id, e.items[i].payload, e.items[i].sq, e.items[i].ts, cfg.maxItemBytes);
      }
    }
    if EntryFits(cfg, e) {
      forall i | 0 <= i < |e.items|
        ensures var x := e.items[i];
          WriteItemOk(cfg.codec, x.scope, x.id, x.payload, x.sq, x.ts, cfg.maxItemBytes) && x.scope == e.scope
      {
        assert ItemFits(cfg, e.scope, e.items[i]);
      }
    }
  }

  lemma {:induction false} OverfullExactlyWhen(cfg: Config, batch: seq<Entry>)
    ensures OverfullNames(cfg, batch) == [] <==> forall i :: 0 <= i < |batch| ==> |batch[i].items| <= cfg.scopeMaxItems
  {
    if batch != [] {
      OverfullExactlyWhen(cfg, batch[1..]);
      assert forall i :: 0 < i < |batch| ==> batch[i] == batch[1..][i - 1];
      assert forall i :: 0 <= i < |batch[1..]| ==> batch[1..][i] == batch[i + 1];
    }
  }

  /** Phase 1 passes exactly the batches that fit. */
  lemma {:induction false} PreparedExactlyWhen(cfg: Config, batch: seq<Entry>, now: int)
    ensures Prepare(cfg, batch, now, [], []).Ok? <==> BatchFits(cfg, batch)
  {
    hide Prepare, Malformed, EntryFits, OverfullNames;
    PrepareMeans(cfg, batch, now);
    OverfullExactlyWhen(cfg, batch);
    forall i | 0 <= i < |batch| && |batch[i].items| <= cfg.scopeMaxItems
      ensures EntryFits(cfg, batch[i]) <==> !Malformed(cfg, batch[i])
    {
      EntryFitsExactlyWhen(cfg, batch[i]);
    }
  }

  // ---- what is installed ----

  /** The list of one entry: its items in order with seqs 1..n and one time. */
  predicate Installed(cfg: Config, e: Entry, now: int, s: Scope) {
    && |s.items| == |e.items| == s.lastSeq
    && forall i :: 0 <= i < |e.items| ==>
         s.items[i] == Item(e.items[i].scope, e.items[i].id, i + 1, now,
                            Plain(e.items[i].payload, cfg.codec.decodeString(e.items[i].payload)))
  }

  lemma {:induction false} TargetMeans(cfg: Config, e: Entry, now: int)
    ensures var t := TargetOf(cfg, e, now);
      t.name == e.scope && Installed(cfg, e, now, t.scope) && t.scope.idKeyBytes == Sum(t.scope.items, IdSize)
  {
    hide Sum;
  }

  // What one entry adds to the bytes of the store.
  function EntryGrowth(cfg: Config, st: Store, now: int): Entry -> int {
    (e: Entry) => TargetOf(cfg, e, now).scope.Bytes() - Old(st, e.scope).Bytes() + if e.scope in st.scopes then 0 else 1024
  }

  function EntryBytes(cfg: Config, now: int): Entry -> int {
    (e: Entry) => TargetOf(cfg, e, now).scope.Bytes() + 1024
  }

  /** /warm is accepted exactly if its batch fits and the growth of all its scopes together does. */
  lemma {:induction false} WarmAcceptedExactlyWhen(cfg: Config, st: Store, batch: seq<Entry>, now: int, later: int)
    ensures Warm(cfg, st, batch, now, later).1.Ok? <==>
      && BatchFits(cfg, batch)
      && (var growth := Sum(batch, EntryGrowth(cfg, st, now)); growth <= 0 || st.total + growth <= cfg.maxStoreBytes)
  {
    hide Prepare, BatchFits, Sum, Emit, Warmed, AnyMalformed, OverfullNames;
    PreparedExactlyWhen(cfg, batch, now);
    PrepareMeans(cfg, batch, now);
    SumEq(batch, TargetsOf(cfg, batch, now), EntryGrowth(cfg, st, now), BytesOver(st.scopes));
  }

  /** An accepted /warm of anything moves the stamp of the store to its own time at least, and that of each scope to it. */
  lemma {:induction false} WarmStamps(cfg: Config, st: Store, batch: seq<Entry>, now: int, later: int)
    requires OneEntryEach(batch) && Warm(cfg, st, batch, now, later).1.Ok?
    ensures var st' := Warm(cfg, st, batch, now, later).0;
      && (batch == [] ==> st' == st)
      && (batch != [] ==> st'.writeTS == Later(st.writeTS, now)
                          || (cfg.mode != Off && st'.writeTS == Later(Later(st.writeTS, now), later)))
      && forall i :: 0 <= i < |batch| ==>
           batch[i].scope in st'.scopes && st'.scopes[batch[i].scope].writeTS == now
  {
    hide Prepare, Sum, Emit, AnyMalformed, OverfullNames, Install, Malformed, Admits, Logged, AsCarried;
    WarmMeans(cfg, st, batch, now, later);
    PrepareMeans(cfg, batch, now);
    WarmRecords(cfg, st, batch, now, later);
    var bare := Warmed(cfg, st, TargetsOf(cfg, batch, now), now);
    if batch == [] {
      NothingWarmed(cfg, st, now);
    } else if cfg.mode != Off {
      var c :| AsCarried(cfg.mode, WarmEvent(later), c) && Logged(cfg, bare, c, later, Warm(cfg, st, batch, now, later).0);
      LoggedStamps(cfg, bare, c, later, Warm(cfg, st, batch, now, later).0);
    }
  }

  lemma {:induction false} NothingWarmed(cfg: Config, st: Store, now: int)
    ensures Warmed(cfg, st, TargetsOf(cfg, [], now), now) == st
  {
  }

  lemma {:induction false} LoggedStamps(cfg: Config, st: Store, c: WriteEvent, now: int, st': Store)
    requires Logged(cfg, st, c, now, st')
    ensures st'.writeTS == st.writeTS || st'.writeTS == Later(st.writeTS, now)
  {
    hide Apply, Accepts, Sum;
  }

  // ---- resets ----

  /** /wipe leaves the two reserved scopes, empty, and its own time on the store; the count of dropped events stays. */
  lemma {:induction false} WipeMeans(st: Store, now: int)
    ensures var ts, empty := Later(st.writeTS, now), Scope([], 0, 0);
      Wipe(st, now) == Store(map["_events" := Held(empty, ts), "_inbox" := Held(empty, ts)], 2048, 0, 2, ts, st.drops)
  {
  }

  /** /rebuild is accepted exactly if its batch fits and its scopes and the reserved ones fit the cap; refused, it changes nothing. */
  lemma {:induction false} RebuildAcceptedExactlyWhen(cfg: Config, st: Store, batch: seq<Entry>, now: int)
    ensures Rebuild(cfg, st, batch, now).1.Ok? <==>
      BatchFits(cfg, batch) && Sum(batch, EntryBytes(cfg, now)) + 2048 <= cfg.maxStoreBytes
    ensures Rebuild(cfg, st, batch, now).1.Err? ==> Rebuild(cfg, st, batch, now).0 == st
  {
    hide Prepare, BatchFits, Sum, WithReserved, Install, AnyMalformed, OverfullNames;
    PreparedExactlyWhen(cfg, batch, now);
    PrepareMeans(cfg, batch, now);
    SumEq(batch, TargetsOf(cfg, batch, now), EntryBytes(cfg, now), TargetWeight);
  }

  /** Accepted, it leaves exactly the scopes of its batch and the two reserved ones, empty, with the counters to match. */
  lemma {:induction false} RebuildMeans(cfg: Config, st: Store, batch: seq<Entry>, now: int)
    requires OneEntryEach(batch) && Rebuild(cfg, st, batch, now).1.Ok?
    ensures var (st', r) := Rebuild(cfg, st, batch, now);
            var ts := Later(st.writeTS, now);
      && r.value == |batch|
      && (forall i :: 0 <= i < |batch| ==>
            batch[i].scope in st'.scopes && Rebuilt(cfg, batch[i], now, st'.scopes[batch[i].scope]))
      && (forall n :: n in st'.scopes ==> !UserScope(n) || exists i :: 0 <= i < |batch| && batch[i].scope == n)
      && "_events" in st'.scopes && st'.scopes["_events"] == Held(Scope([], 0, 0), ts)
      && "_inbox" in st'.scopes && st'.scopes["_inbox"] == Held(Scope([], 0, 0), ts)
      && st'.total == Sum(batch, EntryBytes(cfg, now)) + 2048 && st'.items == Sum(batch, EntryCount)
      && st'.count == |batch| + 2 && st'.writeTS == ts && st'.drops == st.drops
  {
    hide Prepare, Sum, Install, AnyMalformed, OverfullNames, Malformed, Installed, Built;
    PrepareMeans(cfg, batch, now);
    TargetsDistinct(cfg, batch, now);
    var targets := TargetsOf(cfg, batch, now);
    var bare := BareAll(targets);
    InstallAt(map[], bare, now);
    SumEq(batch, targets, EntryBytes(cfg, now), TargetWeight);
    SumEq(batch, targets, EntryCount, TargetItems);
    NoReservedEntries(cfg, batch);
    var m := Install(map[], bare, now);
    forall i | 0 <= i < |batch| ensures batch[i].scope in m && Rebuilt(cfg, batch[i], now, m[batch[i].scope]) {
      TargetMeans(cfg, batch[i], now);
      assert bare[i] == Bare(TargetOf(cfg, batch[i], now));
      BareRebuilt(cfg, batch[i], now);
    }
    forall n | n in m ensures exists i :: 0 <= i < |batch| && batch[i].scope == n {
      var i :| 0 <= i < |bare| && bare[i].name == n;
      assert batch[i].scope == n;
    }
  }

  function EntryCount(e: Entry): int { |e.items| }

  // A rebuilt scope: the list of its entry, without the count of its id bytes.
  predicate Rebuilt(cfg: Config, e: Entry, now: int, h: Held) {
    Installed(cfg, e, now, h.scope) && h.scope.idKeyBytes == 0 && h.writeTS == now
  }

  lemma {:induction false} BareRebuilt(cfg: Config, e: Entry, now: int)
    requires Installed(cfg, e, now, TargetOf(cfg, e, now).scope)
    ensures Rebuilt(cfg, e, now, Held(Bare(TargetOf(cfg, e, now)).scope, now))
  {
  }
}
