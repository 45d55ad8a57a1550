/**
  One scope as a plain ordered list of items, and what every buffer operation does to
  it, found by linear scans. ScopeBuffer refines this list; the store-level models and
  the step model are built on it.
 */
module ScopeSpec {
  import opened Types
  import opened Sums

  // idKeyBytes is part of the state because /rebuild leaves it at 0 (bulk.go:312-317).
  datatype Scope = Scope(items: seq<Item>, lastSeq: nat, idKeyBytes: int) {
    function Bytes(): int { Sum(items, ItemSize) }
    function IdBytes(): int { Sum(items, IdSize) }
  }

  const EMPTY_SCOPE := Scope([], 0, 0)

  datatype Env = Env(cfg: Config, maxItems: nat, name: string)

  ghost predicate Ordered(items: seq<Item>, lastSeq: nat) {
    && (forall i :: 0 <= i < |items| ==> 1 <= items[i].sq <= lastSeq)
    && (forall i, j :: 0 <= i < j < |items| ==> items[i].sq < items[j].sq)
  }

  ghost predicate UniqueIds(items: seq<Item>) {
    forall i, j :: 0 <= i < j < |items| && items[i].id != "" ==> items[i].id != items[j].id
  }

  ghost predicate WellFormed(s: Scope) {
    Ordered(s.items, s.lastSeq) && UniqueIds(s.items)
  }

  lemma {:induction false} SameOrder(s: Scope)
    requires WellFormed(Scope(s.items, s.lastSeq, 0))
    ensures WellFormed(s)
  {
  }

  // ---- linear scans ----

  function IndexOfId(items: seq<Item>, id: string): (r: Option<nat>)
    ensures r.Some? ==> r.value < |items| && items[r.value].id == id && id != ""
    ensures r.None? && id != "" ==> forall i :: 0 <= i < |items| ==> items[i].id != id
  {
    if items == [] || id == "" then None
    else if items[0].id == id then Some(0)
    else match IndexOfId(items[1..], id)
      case None =>
        assert forall i :: 0 < i < |items| ==> items[i] == items[1..][i - 1];
        None
      case Some(i) => Some(i + 1)
  }

  function IndexOfSeq(items: seq<Item>, sq: nat): (r: Option<nat>)
    ensures r.Some? ==> r.value < |items| && items[r.value].sq == sq
    ensures r.None? ==> forall i :: 0 <= i < |items| ==> items[i].sq != sq
  {
    if items == [] then None
    else if items[0].sq == sq then Some(0)
    else match IndexOfSeq(items[1..], sq)
      case None =>
        assert forall i :: 0 < i < |items| ==> items[i] == items[1..][i - 1];
        None
      case Some(i) => Some(i + 1)
  }

  // The items whose seq lies above the cursor, in order.
  function Above(items: seq<Item>, cursor: nat): seq<Item> {
    if items == [] then []
    else if items[0].sq > cursor then [items[0]] + Above(items[1..], cursor)
    else Above(items[1..], cursor)
  }

  // ---- the three shapes of mutation ----

  function Insert(s: Scope, scope: string, id: string, body: Body, now: int): Scope {
    Scope(s.items + [Item(scope, id, s.lastSeq + 1, now, body)], s.lastSeq + 1, s.idKeyBytes + |id|)
  }

  function Replace(s: Scope, i: nat, body: Body, ts: int): Scope
    requires i < |s.items|
  {
    s.(items := s.items[i := s.items[i].(body := body, ts := ts)])
  }

  // An emptied scope resets idKeyBytes but keeps lastSeq.
  function Shrink(s: Scope, kept: seq<Item>, removedIdBytes: int): Scope {
    Scope(kept, s.lastSeq, if kept == [] then 0 else s.idKeyBytes - removedIdBytes)
  }

  function RemoveAt(s: Scope, i: nat): Scope
    requires i < |s.items|
  {
    Shrink(s, s.items[..i] + s.items[i + 1..], |s.items[i].id|)
  }

  function Drain(s: Scope, maxSeq: nat): Scope {
    var kept := Above(s.items, maxSeq);
    Shrink(s, kept, s.IdBytes() - Sum(kept, IdSize))
  }

  // ---- operations ----

  datatype Op =
    | Append(id: string, payload: Bytes, pre: Option<Bytes>)
    | Upsert(id: string, payload: Bytes, pre: Option<Bytes>)
    | UpdateById(id: string, payload: Bytes, pre: Option<Bytes>)
    | UpdateBySeq(sq: nat, payload: Bytes, pre: Option<Bytes>)
    | CounterAdd(id: string, inc: int)
    | DeleteById(id: string)
    | DeleteBySeq(sq: nat)
    | DeleteUpTo(maxSeq: nat)

  datatype Reply =
    | ItemReply(item: Item, created: bool)
    | CountReply(count: nat)
    | ValueReply(value: int, created: bool)

  datatype Outcome =
    | Rejected(error: Error)
    | Missed
    | Changed(next: Scope, reply: Reply)

  function Fresh(env: Env, s: Scope, id: string, body: Body, now: int): Outcome {
    if CapExceeded(env.maxItems, |s.items| + 1) then Rejected(ScopeFull(|s.items|, env.maxItems))
    else
      var next := Insert(s, env.name, id, body, now);
      match body
      case Counter(v) => Changed(next, ValueReply(v, true))
      case Plain(_, _) => Changed(next, ItemReply(next.items[|s.items|], true))
  }

  function AddToItem(env: Env, s: Scope, i: nat, inc: int, now: int): Outcome
    requires i < |s.items|
  {
    match s.items[i].body
    case Counter(v) =>
      if InCounterRange(v + inc)
      then Changed(Replace(s, i, Counter(v + inc), Max(s.items[i].ts, now)), ValueReply(v + inc, false))
      else Rejected(CounterOverflow(v, inc))
    case Plain(payload, _) =>
      match ParseCounter(env.cfg.codec, payload)
      case None => Rejected(CounterPayload)
      case Some(v) =>
        if InCounterRange(v + inc)
        then Changed(Replace(s, i, Counter(v + inc), now), ValueReply(v + inc, false))
        else Rejected(CounterOverflow(v, inc))
  }

  /** What one operation does to the list, the byte budget left aside. */
  function Apply(env: Env, s: Scope, op: Op, now: int): Outcome {
    match op
    case Append(id, payload, pre) =>
      if CapExceeded(env.maxItems, |s.items| + 1) then Rejected(ScopeFull(|s.items|, env.maxItems))
      else if IndexOfId(s.items, id).Some? then Rejected(DuplicateId)
      else Fresh(env, s, id, Plain(payload, RenderBytes(env.cfg.codec, pre, payload)), now)
    case Upsert(id, payload, pre) =>
      var body := Plain(payload, RenderBytes(env.cfg.codec, pre, payload));
      (match IndexOfId(s.items, id)
       case None => Fresh(env, s, id, body, now)
       case Some(i) =>
         var next := Replace(s, i, body, now);
         Changed(next, ItemReply(next.items[i], false)))
    case UpdateById(id, payload, pre) =>
      (match IndexOfId(s.items, id)
       case None => Missed
       case Some(i) =>
         Changed(Replace(s, i, Plain(payload, RenderBytes(env.cfg.codec, pre, payload)), now), CountReply(1)))
    case UpdateBySeq(sq, payload, pre) =>
      (match IndexOfSeq(s.items, sq)
       case None => Missed
       case Some(i) =>
         var next := Replace(s, i, Plain(payload, RenderBytes(env.cfg.codec, pre, payload)), now);
         if ItemSize(next.items[i]) > env.cfg.MaxItemBytesFor(s.items[i].scope) then Rejected(Invalid)
         else Changed(next, CountReply(1)))
    case CounterAdd(id, inc) =>
      (match IndexOfId(s.items, id)
       case None => Fresh(env, s, id, Counter(inc), now)
       case Some(i) => AddToItem(env, s, i, inc, now))
    case DeleteById(id) =>
      (match IndexOfId(s.items, id)
       case None => Missed
       case Some(i) => Changed(RemoveAt(s, i), CountReply(1)))
    case DeleteBySeq(sq) =>
      (match IndexOfSeq(s.items, sq)
       case None => Missed
       case Some(i) => Changed(RemoveAt(s, i), CountReply(1)))
    case DeleteUpTo(maxSeq) =>
      var next := Drain(s, maxSeq);
      if |next.items| >= |s.items| then Missed
      else Changed(next, CountReply(|s.items| - |next.items|))
  }

  /** The same operation under the store-wide byte budget. */
  function Execute(env: Env, s: Scope, op: Op, now: int, total: int): Outcome {
    match Apply(env, s, op, now)
    case Changed(next, reply) =>
      var delta := next.Bytes() - s.Bytes();
      if Admits(total, env.cfg.maxStoreBytes, delta) then Changed(next, reply)
      else Rejected(StoreFull(total, delta, env.cfg.maxStoreBytes))
    case other => other
  }

  // ---- reads ----

  /** sinceSeq, before counters are rendered: the items above the cursor, cut at the limit. */
  function Since(items: seq<Item>, cursor: nat, limit: int): (seq<Item>, bool) {
    var all := Above(items, cursor);
    if limit <= 0 then ([], false)
    else if |all| > limit then (all[..limit], true)
    else (all, false)
  }

  /** tailOffset: the newest items, after skipping some, and whether older ones remain. */
  function Tail(items: seq<Item>, limit: int, offset: int): (seq<Item>, bool) {
    if limit <= 0 || offset < 0 || offset >= |items| then ([], false)
    else
      var end := |items| - offset;
      (items[if end < limit then 0 else end - limit..end], end > limit)
  }

  function MaterialiseAll(items: seq<Item>): (r: seq<Item>)
    ensures |r| == |items| && forall i :: 0 <= i < |r| ==> r[i] == Materialise(items[i])
  {
    seq(|items|, i requires 0 <= i < |items| => Materialise(items[i]))
  }

  // ---- bulk input ----

  datatype Incoming = Incoming(scope: string, id: string, payload: Bytes, pre: Option<Bytes>)

  ghost predicate DistinctIds(ins: seq<Incoming>) {
    forall i, j :: 0 <= i < j < |ins| && ins[i].id != "" ==> ins[i].id != ins[j].id
  }

  function BuiltItem(codec: Codec, x: Incoming, sq: nat, now: int): Item {
    Item(x.scope, x.id, sq, now, Plain(x.payload, RenderBytes(codec, x.pre, x.payload)))
  }

  /** The scope a bulk replacement installs: input order, seqs 1..n, one timestamp. */
  function Built(codec: Codec, ins: seq<Incoming>, now: int): (s: Scope)
    ensures |s.items| == |ins| == s.lastSeq && s.idKeyBytes == s.IdBytes()
    ensures forall i :: 0 <= i < |ins| ==> s.items[i] == BuiltItem(codec, ins[i], i + 1, now)
  {
    var items := seq(|ins|, i requires 0 <= i < |ins| => BuiltItem(codec, ins[i], i + 1, now));
    Scope(items, |ins|, Sum(items, IdSize))
  }

  // ---- facts about linear scans ----

  lemma {:induction false} AboveConcat(xs: seq<Item>, ys: seq<Item>, cursor: nat)
    ensures Above(xs + ys, cursor) == Above(xs, cursor) + Above(ys, cursor)
  {
    if xs == [] {
      assert xs + ys == ys;
    } else {
      assert (xs + ys)[1..] == xs[1..] + ys;
      AboveConcat(xs[1..], ys, cursor);
    }
  }

  lemma {:induction false} AboveAll(xs: seq<Item>, cursor: nat)
    requires forall i :: 0 <= i < |xs| ==> xs[i].sq > cursor
    ensures Above(xs, cursor) == xs
  {
    if xs != [] {
      AboveAll(xs[1..], cursor);
    }
  }

  lemma {:induction false} AboveNone(xs: seq<Item>, cursor: nat)
    requires forall i :: 0 <= i < |xs| ==> xs[i].sq <= cursor
    ensures Above(xs, cursor) == []
  {
    if xs != [] {
      AboveNone(xs[1..], cursor);
    }
  }

  /** On an ordered list the scan is a cut: this is what binary search may rely on. */
  lemma {:induction false} AboveIsSuffix(xs: seq<Item>, k: nat, cursor: nat)
    requires k <= |xs|
    requires forall i :: 0 <= i < k ==> xs[i].sq <= cursor
    requires forall i :: k <= i < |xs| ==> xs[i].sq > cursor
    ensures Above(xs, cursor) == xs[k..]
  {
    assert xs == xs[..k] + xs[k..];
    AboveConcat(xs[..k], xs[k..], cursor);
    AboveNone(xs[..k], cursor);
    AboveAll(xs[k..], cursor);
  }

  lemma {:induction false} CutPoint(xs: seq<Item>, cursor: nat) returns (k: nat)
    requires forall i, j :: 0 <= i < j < |xs| ==> xs[i].sq < xs[j].sq
    ensures k <= |xs|
    ensures forall i :: 0 <= i < k ==> xs[i].sq <= cursor
    ensures forall i :: k <= i < |xs| ==> xs[i].sq > cursor
    ensures Above(xs, cursor) == xs[k..]
  {
    k := 0;
    while k < |xs| && xs[k].sq <= cursor
      invariant k <= |xs|
      invariant forall i :: 0 <= i < k ==> xs[i].sq <= cursor
    {
      k := k + 1;
    }
    AboveIsSuffix(xs, k, cursor);
  }
}
