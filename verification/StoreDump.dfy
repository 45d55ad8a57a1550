/** Dumping the user scopes and rebuilding from the dump: always accepted, and the same lists come back. */
module StoreDump {
  import opened Types
  import opened Sums
  import opened Rendering
  import opened ScopeSpec
  import opened ScopeLaws
  import opened BufferSpec
  import opened StoreSpec
  import opened StoreLaws
  import opened StoreBulk

  // ---- the dump ----

  /** What encoding/json is relied on to do with a bare integer. */
  ghost predicate IntegersAreJson(codec: Codec) {
    forall v :: InCounterRange(v) ==>
      var text := RenderInt(v);
      codec.payloadOk(text) && codec.decodeString(text) == None && codec.parseInteger(text) == Some(v)
  }

  function PayloadOf(x: Item): Bytes {
    match x.body
    case Plain(payload, _) => payload
    case Counter(v) => RenderInt(v)
  }

  // A reader's view of an item, with the fields a bulk request may not carry left out.
  function DumpItem(x: Item): RawItem {
    RawItem(x.scope, x.id, PayloadOf(x), 0, 0)
  }

  function DumpItems(items: seq<Item>): (r: seq<RawItem>)
    ensures |r| == |items| && forall i :: 0 <= i < |r| ==> r[i] == DumpItem(items[i])
  {
    seq(|items|, i requires 0 <= i < |items| => DumpItem(items[i]))
  }

  /** Every user scope once, in any order, with what a reader sees of its items. */
  ghost predicate IsDump(st: Store, batch: seq<Entry>) {
    && OneEntryEach(batch)
    && (forall i :: 0 <= i < |batch| ==>
          && batch[i].scope in st.scopes && !IsReserved(batch[i].scope)
          && batch[i].items == DumpItems(st.scopes[batch[i].scope].scope.items))
    && (forall n :: n in st.scopes && !IsReserved(n) ==> exists i :: 0 <= i < |batch| && batch[i].scope == n)
  }

  lemma {:induction false} DumpItemAccepted(cfg: Config, name: string, x: Item)
    requires ItemOk(cfg, name, x) && ScopeOk(cfg.codec, name) && !IsReserved(name) && IntegersAreJson(cfg.codec)
    ensures var d := DumpItem(x);
      && WriteItemOk(cfg.codec, d.scope, d.id, d.payload, d.sq, d.ts, cfg.maxItemBytes)
      && RequestSize(cfg.codec, d.scope, d.id, d.payload) <= ItemSize(x)
  {
    if x.body.Counter? { RenderShort(x.body.value); }
  }

  lemma {:induction false} DumpEntryAccepted(cfg: Config, st: Store, name: string)
    requires Tidy(cfg, st) && IntegersAreJson(cfg.codec) && cfg.scopeMaxItems > 0
    requires name in st.scopes && !IsReserved(name)
    ensures var e := Entry(name, DumpItems(st.scopes[name].scope.items)); !Malformed(cfg, e) && !Overfull(cfg, e)
  {
    var s := st.scopes[name].scope;
    var e := Entry(name, DumpItems(s.items));
    assert WellFormed(s) && Fits(cfg, name, s);
    forall i | 0 <= i < |e.items|
      ensures WriteItemOk(cfg.codec, e.items[i].scope, e.items[i].id, e.items[i].payload, e.items[i].sq, e.items[i].ts, cfg.maxItemBytes)
    {
      assert ItemOk(cfg, name, s.items[i]);
      DumpItemAccepted(cfg, name, s.items[i]);
    }
    var ins := ToIncoming(cfg.codec, e.items);
    forall i, j | 0 <= i < j < |ins| && ins[i].id != "" ensures ins[i].id != ins[j].id {
      assert ins[i].id == s.items[i].id && ins[j].id == s.items[j].id;
    }
  }

  // The rebuilt scope is no larger than the one dumped.
  lemma {:induction false} DumpShrinks(cfg: Config, name: string, s: Scope, now: int)
    requires Fits(cfg, name, s) && !IsReserved(name) && IntegersAreJson(cfg.codec)
    ensures Built(cfg.codec, ToIncoming(cfg.codec, DumpItems(s.items)), now).Bytes() <= s.Bytes()
  {
    hide Sum, IntegersAreJson, DumpItem, RequestSize;
    var built := Built(cfg.codec, ToIncoming(cfg.codec, DumpItems(s.items)), now);
    forall i | 0 <= i < |s.items| ensures ItemSize(built.items[i]) <= ItemSize(s.items[i]) {
      assert ItemOk(cfg, name, s.items[i]);
      DumpItemAccepted(cfg, name, s.items[i]);
      BuiltSize(cfg.codec, DumpItem(s.items[i]), i + 1, now);
    }
    SumLe(built.items, s.items, ItemSize, ItemSize);
  }

  lemma {:induction false} BuiltSize(codec: Codec, d: RawItem, sq: nat, now: int)
    ensures ItemSize(BuiltItem(codec, Incoming(d.scope, d.id, d.payload, codec.decodeString(d.payload)), sq, now))
         == RequestSize(codec, d.scope, d.id, d.payload)
  {
    RenderIsDecoded(codec, d.payload);
  }

  // ---- the byte check ----

  function EntryWeight(scopes: map<string, Held>): Entry -> int {
    (e: Entry) => if e.scope in scopes then Weight(scopes[e.scope]) else 0
  }

  // Distinct entries weigh no more than the map they come from.
  lemma {:induction false} EntriesWithinMap(m: map<string, Held>, batch: seq<Entry>)
    requires OneEntryEach(batch) && forall i :: 0 <= i < |batch| ==> batch[i].scope in m
    ensures Sum(batch, EntryWeight(m)) <= MapSum(m, Weight)
    decreases |batch|
  {
    hide MapSum, Weight;
    if batch == [] {
      WeightsNonNegative(m);
    } else {
      var e, rest := batch[0], batch[1..];
      var m' := m - {e.scope};
      assert forall i :: 0 <= i < |rest| ==> rest[i] == batch[i + 1] && rest[i].scope != e.scope;
      EntriesWithinMap(m', rest);
      SumEq(rest, rest, EntryWeight(m), EntryWeight(m'));
      MapSumRemove(m, Weight, e.scope);
    }
  }

  lemma {:induction false} WeightsNonNegative(m: map<string, Held>)
    ensures MapSum(m, Weight) >= 0
    decreases |m|
  {
    if m != map[] {
      var k :| k in m && MapSum(m, Weight) == Weight(m[k]) + MapSum(m - {k}, Weight);
      Smaller(m, k);
      SumNonNegative(m[k].scope.items);
      WeightsNonNegative(m - {k});
    }
  }

  lemma {:induction false} DumpFits(cfg: Config, st: Store, batch: seq<Entry>, now: int)
    requires Good(cfg, st) && IsDump(st, batch) && IntegersAreJson(cfg.codec)
    ensures Sum(TargetsOf(cfg, batch, now), TargetWeight) + RESERVED_OVERHEAD <= cfg.maxStoreBytes
  {
    hide Sum, MapSum, IntegersAreJson, Fits, WellFormed;
    var user := st.scopes - {EVENTS} - {INBOX};
    MapSumRemove(st.scopes, Weight, EVENTS);
    MapSumRemove(st.scopes - {EVENTS}, Weight, INBOX);
    SumNonNegative(st.scopes[EVENTS].scope.items);
    SumNonNegative(st.scopes[INBOX].scope.items);
    EntriesWithinMap(user, batch);
    var targets := TargetsOf(cfg, batch, now);
    forall i | 0 <= i < |batch| ensures TargetWeight(targets[i]) <= EntryWeight(user)(batch[i]) {
      DumpShrinks(cfg, batch[i].scope, st.scopes[batch[i].scope].scope, now);
    }
    SumLe(targets, batch, TargetWeight, EntryWeight(user));
  }

  // ---- the round trip ----

  /** The same ids and payloads in the same order, seqs renumbered from 1. */
  ghost predicate SameContent(was: Scope, s: Scope) {
    && |s.items| == |was.items| == s.lastSeq
    && forall i :: 0 <= i < |s.items| ==>
         s.items[i].id == was.items[i].id && PayloadOf(s.items[i]) == PayloadOf(was.items[i]) && s.items[i].sq == i + 1
  }

  lemma {:induction false} DumpAccepted(cfg: Config, st: Store, target: Store, batch: seq<Entry>, now: int)
    requires Good(cfg, st) && IsDump(st, batch) && IntegersAreJson(cfg.codec) && cfg.scopeMaxItems > 0
    ensures Prepare(cfg, batch, now, [], []) == Ok(TargetsOf(cfg, batch, now))
    ensures Rebuild(cfg, target, batch, now).1.Ok?
  {
    hide Sum, Prepare, Malformed, Overfull, IntegersAreJson, WellFormed, Fits, MapSum, WithReserved;
    forall i | 0 <= i < |batch| ensures !Malformed(cfg, batch[i]) && !Overfull(cfg, batch[i]) {
      DumpEntryAccepted(cfg, st, batch[i].scope);
      assert batch[i] == Entry(batch[i].scope, DumpItems(st.scopes[batch[i].scope].scope.items));
    }
    PrepareMeans(cfg, batch, now);
    NobodyOverfull(cfg, batch);
    DumpFits(cfg, st, batch, now);
  }

  lemma {:induction false} NobodyOverfull(cfg: Config, batch: seq<Entry>)
    requires forall i :: 0 <= i < |batch| ==> !Overfull(cfg, batch[i])
    ensures OverfullNames(cfg, batch) == []
  {
    if batch != [] {
      assert forall i :: 0 <= i < |batch[1..]| ==> batch[1..][i] == batch[i + 1];
      NobodyOverfull(cfg, batch[1..]);
    }
  }

  /**
    Rebuilding any store from the dump of a reachable one is accepted, gives exactly the
    dumped user scopes with the same content, and dumps to the same batch again.
   */
  lemma {:induction false} RoundTrip(cfg: Config, st: Store, target: Store, batch: seq<Entry>, now: int)
    requires Good(cfg, st) && IsDump(st, batch) && IntegersAreJson(cfg.codec) && cfg.scopeMaxItems > 0
    ensures var (st', r) := Rebuild(cfg, target, batch, now);
      && r.Ok?
      && (forall n :: !IsReserved(n) ==> (n in st'.scopes <==> n in st.scopes))
      && (forall n :: !IsReserved(n) && n in st.scopes ==> SameContent(st.scopes[n].scope, st'.scopes[n].scope))
      && IsDump(st', batch)
  {
    hide Sum, Prepare, IntegersAreJson, WellFormed, Fits, MapSum, Install, SameContent, BareAll, DumpItems;
    DumpAccepted(cfg, st, target, batch, now);
    var m := Install(map[], BareAll(TargetsOf(cfg, batch, now)), now);
    var st' := Rebuild(cfg, target, batch, now).0;
    assert forall n :: !IsReserved(n) ==> (n in st'.scopes <==> n in m) && (n in m ==> st'.scopes[n] == m[n]);
    DumpInstalled(cfg, st, batch, now);
  }

  // What installing a dump into an empty map leaves there.
  lemma {:induction false} DumpInstalled(cfg: Config, st: Store, batch: seq<Entry>, now: int)
    requires Good(cfg, st) && IsDump(st, batch)
    ensures var m := Install(map[], BareAll(TargetsOf(cfg, batch, now)), now);
      && (forall n :: n in m <==> n in st.scopes && !IsReserved(n))
      && (forall i :: 0 <= i < |batch| ==> batch[i].items == DumpItems(m[batch[i].scope].scope.items))
      && (forall n :: n in m ==> SameContent(st.scopes[n].scope, m[n].scope))
  {
    hide Sum, WellFormed, Fits, MapSum, Install, SameContent, Built, Balanced;
    TargetsDistinct(cfg, batch, now);
    var bare := BareAll(TargetsOf(cfg, batch, now));
    InstallAt(map[], bare, now);
    var m := Install(map[], bare, now);
    forall i | 0 <= i < |batch|
      ensures batch[i].scope == bare[i].name
      ensures batch[i].items == DumpItems(m[batch[i].scope].scope.items)
      ensures SameContent(st.scopes[batch[i].scope].scope, m[batch[i].scope].scope)
    {
      assert bare[i] == Bare(TargetOf(cfg, batch[i], now));
      BuiltContent(cfg, batch[i].scope, st.scopes[batch[i].scope].scope, now);
    }
    forall n | n in m ensures exists i :: 0 <= i < |batch| && batch[i].scope == n {
      var i :| 0 <= i < |bare| && bare[i].name == n;
      assert batch[i].scope == n;
    }
  }

  lemma {:induction false} BuiltContent(cfg: Config, name: string, s: Scope, now: int)
    requires Fits(cfg, name, s)
    ensures var t := Built(cfg.codec, ToIncoming(cfg.codec, DumpItems(s.items)), now).(idKeyBytes := 0);
      SameContent(s, t) && DumpItems(t.items) == DumpItems(s.items)
  {
  }
}
