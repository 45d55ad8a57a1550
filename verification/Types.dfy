/** Items, sizes, caps and errors (types.go, and the cap helpers of store.go). */
module Types {
  datatype Option<+T> = None | Some(value: T)

  // One char stands for one byte of a Go string, json.RawMessage or []byte.
  type Bytes = string

  const MAX_COUNTER: int := 9_007_199_254_740_991
  const COUNTER_CELL_OVERHEAD: int := 56
  const SCOPE_OVERHEAD: int := 1024
  const RESERVED_OVERHEAD: int := 2048
  const ENVELOPE_OVERHEAD: int := 1024
  const MAX_INT64: int := 0x7fff_ffff_ffff_ffff
  const EVENTS := "_events"
  const INBOX := "_inbox"

  predicate IsReserved(scope: string) {
    scope == EVENTS || scope == INBOX
  }

  /** What an item carries: opaque bytes with their optional decoded form, or a counter. */
  datatype Body =
    | Plain(payload: Bytes, render: Option<Bytes>)
    | Counter(value: int)

  datatype Item = Item(scope: string, id: string, sq: nat, ts: int, body: Body)

  function RenderSize(render: Option<Bytes>): nat {
    if render.Some? then |render.value| else 0
  }

  function BodySize(body: Body): nat {
    match body
    case Plain(payload, render) => |payload| + RenderSize(render)
    case Counter(_) => COUNTER_CELL_OVERHEAD
  }

  function ItemSize(item: Item): int {
    32 + |item.scope| + |item.id| + 8 + 8 + BodySize(item.body)
  }

  function IdSize(item: Item): int {
    |item.id|
  }

  datatype Error =
    | Invalid
    | Detached
    | DuplicateId
    | ScopeFull(count: nat, cap: nat)
    | ScopesFull(offenders: seq<string>)
    | StoreFull(current: int, added: int, limit: int)
    | CounterPayload
    | CounterOverflow(value: int, inc: int)

  datatype Result<+T> = Ok(value: T) | Err(error: Error)

  datatype EventsMode = Off | Notify | Full

  datatype WriteEvent = WriteEvent(
    op: string, scope: string, id: string, sq: nat, ts: int,
    payload: Option<Bytes>, inc: Option<int>, maxSeq: nat)

  /** The parts of encoding/json the cache consults, left uninterpreted. */
  datatype Codec = Codec(
    decodeString: Bytes -> Option<Bytes>,   // precomputeRenderBytes
    parseInteger: Bytes -> Option<int>,     // json.Number followed by Int64
    payloadOk: Bytes -> bool,               // validatePayload
    nameOk: string -> bool,                 // checkKeyField
    marshal: WriteEvent -> Option<Bytes>)   // json.Marshal, None on failure

  datatype Config = Config(
    scopeMaxItems: nat, maxStoreBytes: int, maxItemBytes: int,
    inboxMaxItems: nat, inboxMaxItemBytes: int, mode: EventsMode, codec: Codec)
  {
    function MaxItemBytesFor(scope: string): int {
      if scope == EVENTS then
        AddClamped(if inboxMaxItemBytes > maxItemBytes then inboxMaxItemBytes else maxItemBytes, ENVELOPE_OVERHEAD)
      else if scope == INBOX then inboxMaxItemBytes
      else maxItemBytes
    }

    // 0 stands for "no item-count cap".
    function MaxItemsFor(scope: string): nat {
      if scope == EVENTS then 0
      else if scope == INBOX then inboxMaxItems
      else scopeMaxItems
    }
  }

  function AddClamped(a: int, b: int): int {
    if b > 0 && a > MAX_INT64 - b then MAX_INT64
    else if b < 0 && a < -MAX_INT64 - 1 - b then -MAX_INT64 - 1
    else a + b
  }

  /** Config.WithDefaults, on the numeric fields as an operator may supply them. */
  function WithDefaults(scopeMaxItems: int, maxStoreBytes: int, maxItemBytes: int,
                        inboxMaxItems: int, inboxMaxItemBytes: int, mode: EventsMode, codec: Codec): (c: Config)
    ensures c.maxStoreBytes >= RESERVED_OVERHEAD
    ensures c.scopeMaxItems > 0 && c.inboxMaxItems > 0
    ensures c.maxItemBytes > 0 && c.inboxMaxItemBytes > 0
    ensures c.scopeMaxItems == (if scopeMaxItems > 0 then scopeMaxItems else 100_000)
    ensures maxStoreBytes > 2048 ==> c.maxStoreBytes == maxStoreBytes
    ensures 0 < maxStoreBytes <= 2048 ==> c.maxStoreBytes == 2048
    ensures maxStoreBytes <= 0 ==> c.maxStoreBytes == 104_857_600
    ensures c.maxItemBytes == (if maxItemBytes > 0 then maxItemBytes else 1_048_576)
    ensures c.inboxMaxItems == if inboxMaxItems > 0 then inboxMaxItems else c.scopeMaxItems
    ensures c.inboxMaxItemBytes == if inboxMaxItemBytes > 0 then inboxMaxItemBytes else 65_536
    ensures c.mode == mode && c.codec == codec
  {
    var items: int := if scopeMaxItems <= 0 then 100_000 else scopeMaxItems;
    var store0 := if maxStoreBytes <= 0 then 100 * 0x10_0000 else maxStoreBytes;
    var store1 := if store0 < RESERVED_OVERHEAD then RESERVED_OVERHEAD else store0;
    Config(
      items,
      store1,
      if maxItemBytes <= 0 then 0x10_0000 else maxItemBytes,
      if inboxMaxItems <= 0 then items else inboxMaxItems,
      if inboxMaxItemBytes <= 0 then 65_536 else inboxMaxItemBytes,
      mode, codec)
  }

  /** The decision store.reserveBytes makes, on unbounded integers. */
  predicate Admits(total: int, limit: int, delta: int) {
    delta <= 0 || delta <= limit - total
  }

  function RenderBytes(codec: Codec, pre: Option<Bytes>, payload: Bytes): Option<Bytes> {
    if pre == None then codec.decodeString(payload) else pre
  }

  predicate CapExceeded(maxItems: nat, proposed: nat) {
    maxItems > 0 && proposed > maxItems
  }

  predicate InCounterRange(v: int) {
    -MAX_COUNTER <= v <= MAX_COUNTER
  }

  function ParseCounter(codec: Codec, payload: Bytes): Option<int> {
    match codec.parseInteger(payload)
    case Some(v) => if InCounterRange(v) then Some(v) else None
    case None => None
  }

  function Max(a: int, b: int): int {
    if a < b then b else a
  }

  // ---- rendering integers (strconv.AppendInt, base 10) ----

  function Digits(n: nat): string {
    if n < 10 then [('0' as int + n) as char]
    else Digits(n / 10) + [('0' as int + n % 10) as char]
  }

  function RenderInt(v: int): Bytes {
    if v < 0 then "-" + Digits(-v) else Digits(v)
  }

  /** materialiseCounter: what every read path returns in place of a stored item. */
  function Materialise(item: Item): Item {
    match item.body
    case Plain(_, _) => item
    case Counter(v) => item.(body := Plain(RenderInt(v), None))
  }
}
