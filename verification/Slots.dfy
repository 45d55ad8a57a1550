/** The heap representation of a scope's items: slots, counter cells and the two indexes. */
module Slots {
  import opened Types
  import opened Sums
  import opened ScopeSpec

  /** counterCell (types.go): both fields are the truth for every copy of the item. */
  class CounterCell {
    var value: int
    var ts: int

    constructor (value: int, ts: int)
      ensures this.value == value && this.ts == ts
    {
      this.value := value;
      this.ts := ts;
    }

    /** atomicCounterAdd without contention; Cas proves its retry loops. */
    method Add(inc: int, now: int) returns (r: Result<int>)
      modifies this
      ensures r == if InCounterRange(old(value) + inc) then Ok(old(value) + inc) else Err(CounterOverflow(old(value), inc))
      ensures value == if r.Ok? then old(value) + inc else old(value)
      ensures ts == if r.Ok? then Max(old(ts), now) else old(ts)
    {
      var next := value + inc;
      if next > MAX_COUNTER || next < -MAX_COUNTER {
        return Err(CounterOverflow(value, inc));
      }
      value := next;
      if now > ts {
        ts := now;
      }
      return Ok(next);
    }
  }

  /** Item as stored: with a cell, payload and ts are stale by construction. */
  datatype Slot = Slot(
    scope: string, id: string, sq: nat, ts: int,
    payload: Bytes, render: Option<Bytes>, cell: CounterCell?)

  const ZERO_SLOT := Slot("", "", 0, 0, "", None, null)

  function SlotBodySize(h: Slot): nat {
    if h.cell != null then COUNTER_CELL_OVERHEAD else |h.payload| + RenderSize(h.render)
  }

  function SlotSize(h: Slot): int {
    32 + |h.scope| + |h.id| + 8 + 8 + SlotBodySize(h)
  }

  function SlotIdSize(h: Slot): int {
    |h.id|
  }

  ghost function CellsOf(hs: seq<Slot>): set<CounterCell> {
    set h | h in hs && h.cell != null :: h.cell as CounterCell
  }

  ghost function CellOf(h: Slot): set<CounterCell> {
    if h.cell == null then {} else {h.cell}
  }

  /** materialiseCounter (buffer_read.go): what a reader sees of one slot. */
  function View(h: Slot): Item
    reads h.cell
  {
    if h.cell == null then Item(h.scope, h.id, h.sq, h.ts, Plain(h.payload, h.render))
    else Item(h.scope, h.id, h.sq, h.cell.ts, Counter(h.cell.value))
  }

  ghost function Views(hs: seq<Slot>): (items: seq<Item>)
    reads CellsOf(hs)
    ensures |items| == |hs|
    ensures forall i :: 0 <= i < |hs| ==> items[i] == View(hs[i])
  {
    seq(|hs|, i requires 0 <= i < |hs| reads CellsOf(hs) => assert hs[i] in hs; View(hs[i]))
  }

  // The two lists agree on everything the indexes and the sizes depend on.
  ghost predicate Mirrors(hs: seq<Slot>, items: seq<Item>) {
    && |hs| == |items|
    && (forall i :: 0 <= i < |hs| ==>
          hs[i].id == items[i].id && hs[i].sq == items[i].sq && SlotSize(hs[i]) == ItemSize(items[i]))
  }

  lemma {:induction false} SumsAgree(hs: seq<Slot>, items: seq<Item>)
    requires Mirrors(hs, items)
    ensures Sum(hs, SlotSize) == Sum(items, ItemSize)
    ensures Sum(hs, SlotIdSize) == Sum(items, IdSize)
  {
    if hs != [] {
      assert SlotSize(hs[0]) == ItemSize(items[0]);
      forall i | 0 <= i < |hs[1..]|
        ensures hs[1..][i] == hs[i + 1] && items[1..][i] == items[i + 1]
      {
      }
      SumsAgree(hs[1..], items[1..]);
    }
  }

  // ---- order and indexes ----

  ghost predicate Sorted(hs: seq<Slot>, lastSeq: nat) {
    && (forall i :: 0 <= i < |hs| ==> 1 <= hs[i].sq <= lastSeq)
    && (forall i, j :: 0 <= i < j < |hs| ==> hs[i].sq < hs[j].sq)
  }

  ghost predicate DistinctCells(hs: seq<Slot>) {
    forall i, j :: 0 <= i < j < |hs| && hs[i].cell != null ==> hs[i].cell != hs[j].cell
  }

  ghost predicate SeqIndex(hs: seq<Slot>, bySeq: map<nat, Slot>) {
    && (forall i :: 0 <= i < |hs| ==> hs[i].sq in bySeq && bySeq[hs[i].sq] == hs[i])
    && (forall q :: q in bySeq ==> bySeq[q] in hs && bySeq[q].sq == q)
  }

  ghost predicate IdIndex(hs: seq<Slot>, byID: map<string, Slot>) {
    && (forall i :: 0 <= i < |hs| && hs[i].id != "" ==> hs[i].id in byID && byID[hs[i].id] == hs[i])
    && (forall k :: k in byID ==> k != "" && byID[k] in hs && byID[k].id == k)
  }

  ghost predicate Indexed(hs: seq<Slot>, byID: map<string, Slot>, bySeq: map<nat, Slot>) {
    SeqIndex(hs, bySeq) && IdIndex(hs, byID)
  }

  function WithId(byID: map<string, Slot>, x: Slot): map<string, Slot> {
    if x.id != "" then byID[x.id := x] else byID
  }

  function WithoutId(byID: map<string, Slot>, x: Slot): map<string, Slot> {
    if x.id != "" then byID - {x.id} else byID
  }

  lemma {:induction false} IndexedAppend(hs: seq<Slot>, byID: map<string, Slot>, bySeq: map<nat, Slot>, x: Slot)
    requires Indexed(hs, byID, bySeq) && x.sq !in bySeq && x.id !in byID
    ensures Indexed(hs + [x], WithId(byID, x), bySeq[x.sq := x])
  {
    var ys := hs + [x];
    assert forall h :: h in hs ==> h in ys;
    assert ys[|hs|] == x;
  }

  lemma {:induction false} IndexedReplace(hs: seq<Slot>, byID: map<string, Slot>, bySeq: map<nat, Slot>, i: nat, x: Slot)
    requires Indexed(hs, byID, bySeq) && i < |hs| && x.sq == hs[i].sq && x.id == hs[i].id
    requires forall j :: 0 <= j < |hs| && j != i ==> hs[j].sq != hs[i].sq
    ensures Indexed(hs[i := x], WithId(byID, x), bySeq[x.sq := x])
  {
    var ys := hs[i := x];
    assert ys[i] == x;
    forall h | h in hs && h != hs[i] ensures h in ys {
      var j :| 0 <= j < |hs| && hs[j] == h;
      assert ys[j] == h;
    }
  }

  lemma {:induction false} IndexedRemove(hs: seq<Slot>, byID: map<string, Slot>, bySeq: map<nat, Slot>, i: nat)
    requires Indexed(hs, byID, bySeq) && i < |hs|
    requires forall j :: 0 <= j < |hs| && j != i ==> hs[j].sq != hs[i].sq
    ensures Indexed(hs[..i] + hs[i + 1..], WithoutId(byID, hs[i]), bySeq - {hs[i].sq})
  {
    var ys := hs[..i] + hs[i + 1..];
    assert forall j :: 0 <= j < |ys| ==> ys[j] == hs[if j < i then j else j + 1];
    forall h | h in hs && h != hs[i] ensures h in ys {
      var j :| 0 <= j < |hs| && hs[j] == h;
      assert ys[if j < i then j else j - 1] == h;
    }
  }

  /** The representation invariant of a buffer, on the live part of its array. */
  ghost predicate Represents(hs: seq<Slot>, byID: map<string, Slot>, bySeq: map<nat, Slot>, lastSeq: nat, bytes: int) {
    && Sorted(hs, lastSeq)
    && Indexed(hs, byID, bySeq)
    && DistinctCells(hs)
    && bytes == Sum(hs, SlotSize)
  }

  lemma {:induction false} SortedPush(hs: seq<Slot>, lastSeq: nat, x: Slot)
    requires Sorted(hs, lastSeq) && x.sq == lastSeq + 1
    ensures Sorted(hs + [x], x.sq)
  {
  }

  lemma {:induction false} SortedCut(hs: seq<Slot>, lastSeq: nat, i: nat)
    requires Sorted(hs, lastSeq) && i < |hs|
    ensures Sorted(hs[..i] + hs[i + 1..], lastSeq)
  {
  }

  lemma {:induction false} SortedUnique(hs: seq<Slot>, lastSeq: nat, i: nat)
    requires Sorted(hs, lastSeq) && i < |hs|
    ensures forall j :: 0 <= j < |hs| && j != i ==> hs[j].sq != hs[i].sq
  {
  }

  lemma {:induction false} DistinctPush(hs: seq<Slot>, x: Slot)
    requires DistinctCells(hs) && (x.cell != null ==> x.cell !in CellsOf(hs))
    ensures DistinctCells(hs + [x])
  {
    assert forall i :: 0 <= i < |hs| ==> hs[i] in hs;
  }

  lemma {:induction false} DistinctPut(hs: seq<Slot>, i: nat, x: Slot)
    requires DistinctCells(hs) && i < |hs| && (x.cell != null ==> x.cell !in CellsOf(hs))
    ensures DistinctCells(hs[i := x])
  {
    assert forall j :: 0 <= j < |hs| ==> hs[j] in hs;
  }

  lemma {:induction false} DistinctCut(hs: seq<Slot>, i: nat)
    requires DistinctCells(hs) && i < |hs|
    ensures DistinctCells(hs[..i] + hs[i + 1..])
  {
  }

  lemma {:induction false} PushRep(hs: seq<Slot>, byID: map<string, Slot>, bySeq: map<nat, Slot>, lastSeq: nat, bytes: int, x: Slot)
    requires Represents(hs, byID, bySeq, lastSeq, bytes)
    requires x.sq == lastSeq + 1 && x.id !in byID && (x.cell != null ==> x.cell !in CellsOf(hs))
    ensures Represents(hs + [x], WithId(byID, x), bySeq[x.sq := x], x.sq, bytes + SlotSize(x))
  {
    SortedPush(hs, lastSeq, x);
    DistinctPush(hs, x);
    IndexedAppend(hs, byID, bySeq, x);
    SumAppend(hs, x, SlotSize);
  }

  lemma {:induction false} PutRep(hs: seq<Slot>, byID: map<string, Slot>, bySeq: map<nat, Slot>, lastSeq: nat, bytes: int, i: nat, x: Slot)
    requires Represents(hs, byID, bySeq, lastSeq, bytes)
    requires i < |hs| && x.id == hs[i].id && x.sq == hs[i].sq && (x.cell != null ==> x.cell !in CellsOf(hs))
    ensures Represents(hs[i := x], WithId(byID, x), bySeq[x.sq := x], lastSeq, bytes - SlotSize(hs[i]) + SlotSize(x))
  {
    hide Indexed, DistinctCells, Sum;
    SortedUnique(hs, lastSeq, i);
    IndexedReplace(hs, byID, bySeq, i, x);
    DistinctPut(hs, i, x);
    SumUpdate(hs, i, x, SlotSize);
  }

  lemma {:induction false} CutRep(hs: seq<Slot>, byID: map<string, Slot>, bySeq: map<nat, Slot>, lastSeq: nat, bytes: int, i: nat)
    requires Represents(hs, byID, bySeq, lastSeq, bytes) && i < |hs|
    ensures Represents(hs[..i] + hs[i + 1..], WithoutId(byID, hs[i]), bySeq - {hs[i].sq}, lastSeq, bytes - SlotSize(hs[i]))
  {
    hide Sorted, Indexed, DistinctCells, Sum;
    SortedUnique(hs, lastSeq, i);
    SortedCut(hs, lastSeq, i);
    DistinctCut(hs, i);
    IndexedRemove(hs, byID, bySeq, i);
    SumRemove(hs, i, SlotSize);
  }

  lemma {:induction false} RepParts(hs: seq<Slot>, byID: map<string, Slot>, bySeq: map<nat, Slot>, lastSeq: nat, bytes: int)
    requires Represents(hs, byID, bySeq, lastSeq, bytes)
    ensures Sorted(hs, lastSeq) && DistinctCells(hs) && Indexed(hs, byID, bySeq) && bytes == Sum(hs, SlotSize)
  {
  }

  // Dropping a prefix whose entries have already left the indexes.
  lemma {:induction false} DropRep(hs: seq<Slot>, byID: map<string, Slot>, bySeq: map<nat, Slot>, lastSeq: nat, bytes: int, k: nat)
    requires k <= |hs| && Sorted(hs, lastSeq) && DistinctCells(hs) && bytes == Sum(hs, SlotSize)
    requires Indexed(hs[k..], byID, bySeq)
    ensures Represents(hs[k..], byID, bySeq, lastSeq, bytes - Sum(hs[..k], SlotSize))
  {
    SumSplit(hs, k, SlotSize);
  }

  // One turn of the loop that clears the drained prefix out of the indexes.
  lemma {:induction false} IndexedStep(hs: seq<Slot>, byID: map<string, Slot>, bySeq: map<nat, Slot>, lastSeq: nat, i: nat)
    requires i < |hs| && Sorted(hs, lastSeq) && Indexed(hs[i..], byID, bySeq)
    ensures Indexed(hs[i + 1..], WithoutId(byID, hs[i]), bySeq - {hs[i].sq})
    ensures Sum(hs[..i + 1], SlotSize) == Sum(hs[..i], SlotSize) + SlotSize(hs[i])
    ensures Sum(hs[..i + 1], SlotIdSize) == Sum(hs[..i], SlotIdSize) + SlotIdSize(hs[i])
  {
    hide Indexed, Sum;
    IndexedRemove(hs[i..], byID, bySeq, 0);
    assert hs[i..][..0] + hs[i..][1..] == hs[i + 1..];
    assert hs[..i + 1] == hs[..i] + [hs[i]];
    SumAppend(hs[..i], hs[i], SlotSize);
    SumAppend(hs[..i], hs[i], SlotIdSize);
  }

  lemma {:induction false} MirrorOrder(hs: seq<Slot>, byID: map<string, Slot>, lastSeq: nat, items: seq<Item>)
    requires Sorted(hs, lastSeq) && IdIndex(hs, byID) && Mirrors(hs, items)
    ensures WellFormed(Scope(items, lastSeq, 0))
  {
    forall i, j | 0 <= i < j < |items| && items[i].id != "" ensures items[i].id != items[j].id {
      assert hs[i].sq < hs[j].sq;
    }
  }

  lemma {:induction false} LookupId(hs: seq<Slot>, byID: map<string, Slot>, lastSeq: nat, items: seq<Item>, id: string)
    requires Sorted(hs, lastSeq) && IdIndex(hs, byID) && Mirrors(hs, items)
    ensures IndexOfId(items, id).Some? <==> id in byID
    ensures id in byID ==> hs[IndexOfId(items, id).value] == byID[id] && byID[id].id == id
  {
    if id in byID {
      var i :| 0 <= i < |hs| && hs[i] == byID[id];
      assert items[i].id == id;
    }
  }

  lemma {:induction false} LookupSeq(hs: seq<Slot>, bySeq: map<nat, Slot>, lastSeq: nat, items: seq<Item>, q: nat)
    requires Sorted(hs, lastSeq) && SeqIndex(hs, bySeq) && Mirrors(hs, items)
    ensures IndexOfSeq(items, q).Some? <==> q in bySeq
    ensures q in bySeq ==> hs[IndexOfSeq(items, q).value] == bySeq[q]
  {
    if q in bySeq {
      var i :| 0 <= i < |hs| && hs[i] == bySeq[q];
      assert items[i].sq == q;
    }
  }

  function CountIds(hs: seq<Slot>): nat {
    if hs == [] then 0 else (if hs[0].id != "" then 1 else 0) + CountIds(hs[1..])
  }

  lemma {:induction false} HeadIndexed(hs: seq<Slot>, byID: map<string, Slot>, bySeq: map<nat, Slot>)
    requires Indexed(hs, byID, bySeq)
    ensures hs == [] ==> byID == map[] && bySeq == map[]
    ensures hs != [] ==> hs[0].sq in bySeq && (hs[0].id != "" ==> hs[0].id in byID)
  {
  }

  lemma {:induction false} MinusOne<K, V>(m: map<K, V>, k: K)
    requires k in m
    ensures |m - {k}| == |m| - 1
  {
    assert (m - {k}).Keys == m.Keys - {k};
    assert |(m - {k}).Keys| == |m.Keys| - 1;
  }

  // Both indexes have exactly the entries the list calls for.
  lemma {:induction false} IndexSizes(hs: seq<Slot>, byID: map<string, Slot>, bySeq: map<nat, Slot>, lastSeq: nat)
    requires Sorted(hs, lastSeq) && Indexed(hs, byID, bySeq)
    ensures |bySeq| == |hs| && |byID| == CountIds(hs)
  {
    hide Indexed, Sorted;
    HeadIndexed(hs, byID, bySeq);
    if hs != [] {
      SortedUnique(hs, lastSeq, 0);
      SortedCut(hs, lastSeq, 0);
      IndexedRemove(hs, byID, bySeq, 0);
      assert hs[..0] + hs[1..] == hs[1..];
      IndexSizes(hs[1..], WithoutId(byID, hs[0]), bySeq - {hs[0].sq}, lastSeq);
      MinusOne(bySeq, hs[0].sq);
      if hs[0].id != "" {
        MinusOne(byID, hs[0].id);
      }
    }
  }

  // ---- bulk replacement (buffer_replace.go) ----

  datatype Replacement = Replacement(
    items: seq<Slot>, byID: map<string, Slot>, bySeq: map<nat, Slot>, lastSeq: nat, idKeyBytes: int)

  // A slot without a cell reads the same in every heap.
  predicate Holds(h: Slot, x: Item) {
    h.cell == null && x == Item(h.scope, h.id, h.sq, h.ts, Plain(h.payload, h.render))
  }

  ghost predicate Installs(r: Replacement, s: Scope) {
    && Represents(r.items, r.byID, r.bySeq, r.lastSeq, s.Bytes())
    && |r.items| == |s.items| && r.lastSeq == s.lastSeq
    && (forall i :: 0 <= i < |r.items| ==> Holds(r.items[i], s.items[i]))
  }

  /** buildReplacementState: rejects exactly the inputs that repeat an id, else builds them in order. */
  method BuildReplacement(codec: Codec, ins: seq<Incoming>, now: int) returns (r: Result<Replacement>)
    ensures r.Ok? <==> DistinctIds(ins)
    ensures r.Err? ==> r.error == Invalid
    ensures r.Ok? ==> Installs(r.value, Built(codec, ins, now)) && r.value.idKeyBytes == Built(codec, ins, now).idKeyBytes
  {
    hide Represents, Sum, SeenIds, DistinctIds;
    var seen: set<string> := {};
    var built: seq<Slot> := [];
    var byID: map<string, Slot>, bySeq: map<nat, Slot> := map[], map[];
    var idKeyBytes := 0;
    ghost var bytes := 0;
    EmptyRep();
    NoneSeen(ins[..0]);
    for i := 0 to |ins|
      invariant |built| == i
      invariant forall j :: 0 <= j < i ==> Holds(built[j], BuiltItem(codec, ins[j], j + 1, now))
      invariant byID.Keys == seen == SeenIds(ins[..i]) && DistinctIds(ins[..i])
      invariant Represents(built, byID, bySeq, i, bytes)
      invariant idKeyBytes == Sum(built, SlotIdSize)
    {
      var src := ins[i];
      SeenNext(ins, i);
      if src.id != "" && src.id in seen {
        return Err(Invalid);
      }
      seen := if src.id != "" then seen + {src.id} else seen;
      var x := Slot(src.scope, src.id, i + 1, now, src.payload, RenderBytes(codec, src.pre, src.payload), null);
      PushRep(built, byID, bySeq, i, bytes, x);
      SumAppend(built, x, SlotIdSize);
      built := built + [x];
      bySeq := bySeq[x.sq := x];
      byID := WithId(byID, x);
      idKeyBytes := idKeyBytes + |x.id|;
      bytes := bytes + SlotSize(x);
    }
    assert ins[..|ins|] == ins;
    r := Ok(Replacement(built, byID, bySeq, |ins|, idKeyBytes));
    BuiltSums(codec, ins, now, built, byID, bySeq, bytes);
  }

  ghost function SeenIds(ins: seq<Incoming>): (r: set<string>)
    ensures "" !in r
  {
    set x | x in ins && x.id != "" :: x.id
  }

  lemma {:induction false} NoneSeen(ins: seq<Incoming>)
    requires ins == []
    ensures SeenIds(ins) == {} && DistinctIds(ins)
  {
  }

  // The next input is refused exactly if it would repeat an id.
  lemma {:induction false} SeenNext(ins: seq<Incoming>, i: nat)
    requires i < |ins| && DistinctIds(ins[..i])
    ensures SeenIds(ins[..i + 1]) == SeenIds(ins[..i]) + if ins[i].id != "" then {ins[i].id} else {}
    ensures ins[i].id != "" && ins[i].id in SeenIds(ins[..i]) ==> !DistinctIds(ins)
    ensures !(ins[i].id != "" && ins[i].id in SeenIds(ins[..i])) ==> DistinctIds(ins[..i + 1])
  {
    assert ins[..i + 1] == ins[..i] + [ins[i]];
  }

  lemma {:induction false} EmptyRep()
    ensures Represents([], map[], map[], 0, 0) && Sum([], SlotIdSize) == 0
  {
  }

  lemma {:induction false} BuiltSums(codec: Codec, ins: seq<Incoming>, now: int, hs: seq<Slot>, byID: map<string, Slot>, bySeq: map<nat, Slot>, bytes: int)
    requires Represents(hs, byID, bySeq, |ins|, bytes) && |hs| == |ins|
    requires forall j :: 0 <= j < |hs| ==> Holds(hs[j], BuiltItem(codec, ins[j], j + 1, now))
    ensures bytes == Built(codec, ins, now).Bytes()
    ensures Sum(hs, SlotIdSize) == Built(codec, ins, now).IdBytes()
  {
    var items := Built(codec, ins, now).items;
    forall i | 0 <= i < |hs|
      ensures hs[i].id == items[i].id && hs[i].sq == items[i].sq && SlotSize(hs[i]) == ItemSize(items[i])
    {
      assert Holds(hs[i], BuiltItem(codec, ins[i], i + 1, now));
    }
    SumsAgree(hs, items);
  }
}
