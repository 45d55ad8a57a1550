/**
  A copy that keeps a log which the original goes on to drain is the fuller of the two. With
  records as encoding/json writes them, the log of one /warm never gets in the way of a
  replay, and the log of two can.
 */
module ReplayLimit {
  import opened Types
  import opened Sums
  import opened ScopeSpec
  import opened BufferSpec
  import opened Rendering
  import opened EventJson
  import opened StoreSpec
  import opened StoreBulk
  import opened StoreEvents
  import opened Replay

  // ---- one /warm ----

  // The fewest bytes encoding/json can spend on a record: escapes and numbers only add to them.
  function Least(e: WriteEvent): nat {
    9 + |e.op|
    + (if e.scope == "" then 0 else 11 + |e.scope|)
    + (if e.id == "" then 0 else 8 + |e.id|)
    + (if e.sq == 0 then 0 else 8)
    + (if e.payload.Some? && e.payload.value != "" then 12 else 0)
    + (if e.inc.Some? then 7 else 0)
  }

  ghost predicate NeverShorter(c: Codec) {
    forall e :: ThisLong(c, e)
  }

  ghost predicate ThisLong(c: Codec, e: WriteEvent) {
    c.marshal(e).Some? ==> |c.marshal(e).value| >= Least(e)
  }

  lemma {:induction false} PlainRecordsAreThisLong(e: WriteEvent)
    ensures |Json(e)| >= Least(e)
  {
    JsonLength(e);
    SomeDigits(e.sq);
    if e.inc.Some? { SomeDigits(if e.inc.value < 0 then -e.inc.value else e.inc.value); }
  }

  // A record that adds bytes names a scope, and carries a payload or an id with an increment.
  lemma {:induction false} GrowingRecords(cfg: Config, x: Request, reply: Reply, later: int)
    requires cfg.mode == Full && MayGrow(x) && Accepts(cfg, x) && !cfg.codec.payloadOk("")
    ensures Least(Carried(cfg, EventOf(x, reply, later))) >= 39
  {
  }

  /** Beside a log of one /warm, or any of at most 94 bytes, every run replays. */
  lemma {:induction false} OneWarmIsNoObstacle(cfg: Config, s: Store, r: Store, run: seq<Asked>, clock: nat -> int)
    requires cfg.mode == Full && NeverShorter(cfg.codec) && !cfg.codec.payloadOk("")
    requires Agrees(s, r) && LogBytes(r) <= 94 && Run(cfg, s, run).drops == s.drops
    ensures var end := Replayed(cfg, r, Log(cfg, s, run), clock);
      end.Some? && Agrees(Run(cfg, s, run), end.value)
  {
    hide Agrees, Run, Log, Replayed, Scope.Bytes, Accepts, EventOf, Carried, Least;
    AgreeNames(s, r, EVENTS);
    forall x, reply, later | MayGrow(x) && Accepts(cfg, x)
      ensures Weighs(cfg, EventOf(x, reply, later), LogBytes(r))
    {
      GrowingRecords(cfg, x, reply, later);
      assert ThisLong(cfg.codec, Carried(cfg, EventOf(x, reply, later)));
    }
    ReplayPastSmallLog(cfg, s, r, run, clock);
  }

  // ---- two ----

  const TS := 1_700_000_000_000_000

  function Setup(c: Codec): Config {
    Config(10, 3300, 1000, 10, 1000, Full, c)
  }

  const RECORD := Json(WarmEvent(TS))

  lemma {:induction false} StampDigits()
    ensures |Digits(TS)| == 16 && |Digits(1)| == 1
  {
    PowersOfTen();
    DigitsLength(TS, 16);
    DigitsLength(1, 1);
  }

  lemma {:induction false} PowersOfTen()
    ensures Power10(0) == 1 && Power10(1) == 10
    ensures Power10(15) == 1_000_000_000_000_000 && Power10(16) == 10_000_000_000_000_000
  {
    assert Power10(4) == 10_000;
    assert Power10(8) == 100_000_000;
    assert Power10(12) == 1_000_000_000_000;
  }

  lemma {:induction false} RecordSizes(e: WriteEvent)
    requires e == FIRST
    ensures |RECORD| == 35 && |Json(e)| == 69
  {
    hide Digits, Json, Power10;
    JsonLength(e);
    JsonLength(WarmEvent(TS));
    StampDigits();
  }

  // /warm of scope a with no items.
  const WARMING := Timed(DoWarm([Entry("a", [])]), TS, TS)

  function Logged(k: nat): Item { Item(EVENTS, "", k, TS, Plain(RECORD, None)) }

  function LogOf(k: nat): seq<Item> {
    if k == 0 then [] else LogOf(k - 1) + [Logged(k)]
  }

  // Boot, then k times /warm: the scope is there, and the log holds k records of 90 bytes.
  function AfterWarms(k: nat): Store {
    Store(map[EVENTS := Held(Scope(LogOf(k), k, 0), if k == 0 then 0 else TS), INBOX := Held(EMPTY_SCOPE, 0),
              "a" := Held(EMPTY_SCOPE, TS)], 3072 + 90 * k, k, 3, TS, 0)
  }

  const DRAIN := DeleteUpToReq(EVENTS, 2)
  const WRITE := AppendReq("a", "", "1", 0, 0)
  const RUN := [Asked(DRAIN, TS, TS), Asked(WRITE, TS, TS)]

  const DRAINED := Store(
    map[EVENTS := Held(Scope([], 2, 0), TS), INBOX := Held(EMPTY_SCOPE, 0), "a" := Held(EMPTY_SCOPE, TS)],
    3072, 0, 3, TS, 0)

  const ITEM := Item("a", "", 1, TS, Plain("1", None))
  const WRITTEN := DRAINED.(scopes := DRAINED.scopes["a" := Held(Scope([ITEM], 1, 0), TS)], total := 3122, items := 1)

  lemma {:induction false} LogSize(k: nat)
    ensures Sum(LogOf(k), ItemSize) == 90 * k && Sum(LogOf(k), IdSize) == 0 && |LogOf(k)| == k
  {
    RecordSizes(FIRST);
    if k > 0 {
      LogSize(k - 1);
      SumAppend(LogOf(k - 1), Logged(k), ItemSize);
      SumAppend(LogOf(k - 1), Logged(k), IdSize);
    }
  }

  lemma {:induction false} Sizes()
    ensures Scope([], 2, 0).Bytes() == 0 && EMPTY_SCOPE.Bytes() == 0 && Scope([ITEM], 1, 0).Bytes() == 50
  {
    SumOne(ITEM, ItemSize);
  }

  // The one target of the batch.
  lemma {:induction false} Targets(c: Codec)
    requires Encodes(c)
    ensures Prepare(Setup(c), [Entry("a", [])], TS, [], []) == Ok([Target("a", EMPTY_SCOPE)])
  {
    var e, cfg := Entry("a", []), Setup(c);
    assert "a" != EVENTS && "a" != INBOX && PlainString("a");
    assert ToIncoming(c, []) == [];
    assert Built(c, [], TS) == EMPTY_SCOPE by { assert Built(c, [], TS).items == []; }
    assert !Malformed(cfg, e) && !Overfull(cfg, e) && TargetOf(cfg, e, TS) == Target("a", EMPTY_SCOPE);
    assert [e][1..] == [];
    hide Built, DistinctIds, Encodes;
    PrepareStep(cfg, [e], TS, [], []);
    assert [] + [Target("a", EMPTY_SCOPE)] == [Target("a", EMPTY_SCOPE)];
    assert Prepare(cfg, [], TS, [], [Target("a", EMPTY_SCOPE)]) == Ok([Target("a", EMPTY_SCOPE)]);
  }

  // Installing it: the first time the scope is new.
  lemma {:induction false} Installs(cfg: Config, st: Store, k: nat)
    requires st == if k == 0 then BOOT else AfterWarms(k)
    ensures Warmed(cfg, st, [Target("a", EMPTY_SCOPE)], TS) == AfterWarms(k)
    ensures Sum([Target("a", EMPTY_SCOPE)], BytesOver(st.scopes)) == if k == 0 then 1024 else 0
  {
    Sizes();
    var t := Target("a", EMPTY_SCOPE);
    SumOne(t, BytesOver(st.scopes));
    SumOne(t, ItemsOver(st.scopes));
    SumOne(t, ScopesOver(st.scopes));
    hide Sum, Scope.Bytes;
    assert "a" != EVENTS && "a" != INBOX;
    assert BOOT.scopes == map[EVENTS := Held(EMPTY_SCOPE, 0), INBOX := Held(EMPTY_SCOPE, 0)];
    assert [t][1..] == [];
    assert Install(st.scopes, [t], TS) == st.scopes["a" := Held(EMPTY_SCOPE, TS)];
    assert AfterWarms(k).scopes == st.scopes["a" := Held(EMPTY_SCOPE, TS)];
  }

  // The values these runs use, as the codec sees them.
  lemma {:induction false} Encoded(c: Codec)
    requires Encodes(c)
    ensures c.nameOk(EVENTS) && c.nameOk("a") && c.payloadOk("1") && c.decodeString("1") == None
    ensures c.marshal(WarmEvent(TS)) == Some(RECORD) && c.payloadOk(RECORD) && c.decodeString(RECORD) == None
  {
    hide Encodes, Json;
    NameEncoded(c, EVENTS);
    NameEncoded(c, "a");
    NumberEncoded(c, "1");
    EventEncoded(c, WarmEvent(TS));
  }

  // The record of the next /warm goes to the end of the log.
  lemma {:induction false} LogTakes(c: Codec, k: nat)
    requires Encodes(c) && k < 2
    ensures Emit(Setup(c), AfterWarms(k), WarmEvent(TS), TS) == AfterWarms(k + 1)
  {
    hide Write, Encodes, Json;
    Encoded(c);
    RecordSizes(FIRST);
    LogSize(k);
    AppendAdmitted(Setup(c), AfterWarms(k), EVENTS, RECORD, TS);
    assert AfterWarms(k + 1).scopes == AfterWarms(k).scopes[EVENTS := Held(Scope(LogOf(k + 1), k + 1, 0), TS)];
  }

  lemma {:induction false} WarmsAgain(c: Codec, k: nat)
    requires Encodes(c) && k < 2
    ensures Act(Setup(c), if k == 0 then BOOT else AfterWarms(k), WARMING) == AfterWarms(k + 1)
  {
    hide Prepare, Install, Sum, Emit, Encodes, AfterWarms;
    var st := if k == 0 then BOOT else AfterWarms(k);
    Targets(c);
    Installs(Setup(c), st, k);
    LogTakes(c, k);
    WarmsTotal(k);
  }

  lemma {:induction false} WarmsTotal(k: nat)
    ensures AfterWarms(k).total == 3072 + 90 * k && BOOT.total == 2048
  {
  }

  /** What one and two /warm after boot leave. */
  lemma {:induction false} StartIsReached(c: Codec)
    requires Encodes(c)
    ensures ActAll(Setup(c), BOOT, [WARMING]) == AfterWarms(1)
    ensures ActAll(Setup(c), BOOT, [WARMING, WARMING]) == AfterWarms(2)
  {
    hide Act, Encodes, AfterWarms;
    WarmsAgain(c, 0);
    WarmsAgain(c, 1);
    var one, two := [WARMING], [WARMING, WARMING];
    assert one[..0] == [] && two[..1] == one;
    assert ActAll(Setup(c), BOOT, one[..0]) == BOOT;
    assert ActAll(Setup(c), BOOT, one) == AfterWarms(1);
  }

  lemma {:induction false} AllDrained()
    ensures Above(LogOf(2), 2) == []
  {
    hide Json;
    assert LogOf(1) == [Logged(1)] && LogOf(2) == [Logged(1), Logged(2)];
    assert Above([Logged(1), Logged(2)], 2) == [];
  }

  lemma {:induction false} Drains(c: Codec)
    requires Encodes(c)
    ensures Write(Setup(c), AfterWarms(2), DRAIN, TS) == (DRAINED, Ok(Some(CountReply(2))))
  {
    hide Encodes, Json;
    Encoded(c);
    LogSize(2);
    Sizes();
    AllDrained();
    hide Sum, Above, LogOf;
    assert DRAINED.scopes == AfterWarms(2).scopes[EVENTS := Held(Scope([], 2, 0), TS)];
  }

  const FIRST := WriteEvent("append", "a", "", 1, TS, Some("1"), None, 0)

  lemma {:induction false} Writes(c: Codec)
    requires Encodes(c)
    ensures Write(Setup(c), DRAINED, WRITE, TS) == (WRITTEN, Ok(Some(ItemReply(ITEM, true))))
  {
    hide Write, Encodes;
    Encoded(c);
    assert "a" != EVENTS && "a" != INBOX;
    AppendAdmitted(Setup(c), DRAINED, "a", "1", TS);
    assert [] + [ITEM] == [ITEM];
  }

  lemma {:induction false} Emits(c: Codec)
    requires Encodes(c)
    ensures var s' := Emit(Setup(c), WRITTEN, FIRST, TS);
      s'.drops == 0 && EVENTS in s'.scopes && LogBytes(s') == 124 && s'.total == 3246
  {
    hide Write, Encodes, Json, Sum;
    Encoded(c);
    EventEncoded(c, FIRST);
    RecordSizes(FIRST);
    AppendAdmitted(Setup(c), WRITTEN, EVENTS, Json(FIRST), TS);
    var x := Item(EVENTS, "", 3, TS, Plain(Json(FIRST), None));
    SumOne(x, ItemSize);
    assert [] + [x] == [x];
  }

  /**
    Whatever codec does on these values what encoding/json does: two /warm after boot lead
    to a state from which a run without dropped events does not replay onto an exact copy.
   */
  lemma {:induction false} DrainedLogBlocksCopy(c: Codec, clock: nat -> int)
    requires Encodes(c)
    ensures ActAll(Setup(c), BOOT, [WARMING, WARMING]) == AfterWarms(2)
    ensures Run(Setup(c), AfterWarms(2), RUN).drops == AfterWarms(2).drops
    ensures |Log(Setup(c), AfterWarms(2), RUN)| == 1
    ensures Replayed(Setup(c), AfterWarms(2), Log(Setup(c), AfterWarms(2), RUN), clock) == None
  {
    hide Write, ActAll, Emit, Encodes, Json, Replayed, AfterWarms, Scope.Bytes;
    var cfg, start := Setup(c), AfterWarms(2);
    StartIsReached(c);
    Drains(c);
    Writes(c);
    Emits(c);
    StartSizes();
    var a, b := RUN[0], RUN[1];
    assert RUN[..2] == RUN && RUN[..1] == [a] && [a][..0] == [];
    assert Run(cfg, start, [a]) == DRAINED && Log(cfg, start, [a]) == [];
    assert EventsEnabled(cfg, "a") && Carried(cfg, EventOf(WRITE, ItemReply(ITEM, true), TS)) == FIRST;
    assert Single(cfg, DRAINED, WRITE, TS, TS).0 == Emit(cfg, WRITTEN, FIRST, TS);
    assert RecordsOf(cfg, DRAINED, b) == [FIRST];
    assert Log(cfg, start, RUN) == [FIRST];
    ReplayOntoExactCopy(cfg, start, RUN, clock);
    assert Outside(Run(cfg, start, RUN[..2])) + LogBytes(start) > cfg.maxStoreBytes;
  }

  /** The log of one /warm is within the bound of OneWarmIsNoObstacle. */
  lemma {:induction false} OneWarmLogs(c: Codec)
    requires Encodes(c)
    ensures var st := ActAll(Setup(c), BOOT, [WARMING]); EVENTS in st.scopes && LogBytes(st) == 90
  {
    hide ActAll, Encodes, Json;
    StartIsReached(c);
    LogSize(1);
  }

  lemma {:induction false} StartSizes()
    ensures var st := AfterWarms(2); EVENTS in st.scopes && LogBytes(st) == 180 && st.total == 3252 && st.drops == 0
  {
    LogSize(2);
    hide LogOf, Json;
  }
}
