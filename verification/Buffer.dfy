/** scopeBuffer and the store-wide counters it touches (buffer*.go, store.go:464-493). */
module Buffer {
  import opened Types
  import opened Sums
  import opened ScopeSpec
  import opened ScopeLaws
  import opened BufferSpec
  import opened ScopeMeaning
  import opened Slices
  import opened Slots

  /** The atomics of the store that a buffer may touch while it holds its own lock. */
  class Ledger {
    const cfg: Config
    var totalBytes: int
    var totalItems: int
    var scopeCount: int
    var lastWriteTS: int

    constructor (cfg: Config)
      ensures this.cfg == cfg
      ensures totalBytes == 0 && totalItems == 0 && scopeCount == 0 && lastWriteTS == 0
    {
      this.cfg := cfg;
      totalBytes, totalItems, scopeCount, lastWriteTS := 0, 0, 0, 0;
    }

    method ReserveBytes(delta: int) returns (e: Option<Error>)
      modifies this`totalBytes
      ensures e.None? <==> Admits(old(totalBytes), cfg.maxStoreBytes, delta)
      ensures e.Some? ==> e.value == StoreFull(old(totalBytes), delta, cfg.maxStoreBytes)
      ensures totalBytes == if e.None? then old(totalBytes) + delta else old(totalBytes)
    {
      if delta > 0 && delta > cfg.maxStoreBytes - totalBytes {
        return Some(StoreFull(totalBytes, delta, cfg.maxStoreBytes));
      }
      totalBytes := totalBytes + delta;
      return None;
    }

    // The unconditional Adds and the stamp that close a write or a delete.
    method Settle(size: int, count: int, now: int)
      modifies this`totalBytes, this`totalItems, this`lastWriteTS
      ensures totalBytes == old(totalBytes) + size && totalItems == old(totalItems) + count
      ensures lastWriteTS == Max(old(lastWriteTS), now)
    {
      totalBytes := totalBytes + size;
      totalItems := totalItems + count;
      BumpLastWriteTS(now);
    }

    method BumpLastWriteTS(now: int)
      modifies this`lastWriteTS
      ensures lastWriteTS == Max(old(lastWriteTS), now)
    {
      if now > lastWriteTS {
        lastWriteTS := now;
      }
    }
  }

  class ScopeBuffer {
    var ledger: Ledger?
    var detached: bool
    var items: Slice<Slot>
    var byID: map<string, Slot>
    var bySeq: map<nat, Slot>
    var lastSeq: nat
    var maxItems: nat
    var bytes: int
    var idKeyBytes: int
    var lastWriteTS: int

    ghost function Repr(): set<object>
      reads this, items
    {
      {this, items, items.data}
    }

    ghost function Live(): seq<Slot>
      reads this, items
    {
      items.contents
    }

    ghost function Cells(): set<CounterCell>
      reads this, items
    {
      CellsOf(Live())
    }

    ghost function Abs(): Scope
      reads this, items, Cells()
    {
      Scope(Views(Live()), lastSeq, idKeyBytes)
    }

    ghost predicate Valid()
      reads Repr()
    {
      && items.Valid() && items.zero == ZERO_SLOT
      && Represents(Live(), byID, bySeq, lastSeq, bytes)
      && (!detached ==> ledger != null)
    }

    ghost function Snapshot(): Snap
      reads this, items, Cells(), ledger
    {
      if ledger == null then Snap(Abs(), detached, lastWriteTS, 0, 0, 0)
      else Snap(Abs(), detached, lastWriteTS, ledger.totalBytes, ledger.totalItems, ledger.lastWriteTS)
    }

    ghost function EnvFor(scope: string): Env
      requires ledger != null
      reads this
    {
      Env(ledger.cfg, maxItems, scope)
    }

    // What no operation on a buffer changes, and where its storage may come from.
    twostate predicate Framed()
      reads this, items, ledger
    {
      && ledger == old(ledger) && maxItems == old(maxItems)
      && fresh(Repr() - old(Repr()))
      && (forall c :: c in Cells() ==> c in old(Cells()) || fresh(c))
      && (ledger != null ==> ledger.scopeCount == old(ledger.scopeCount))
    }

    constructor (ledger: Ledger, maxItems: nat, now: int)
      ensures Valid() && !detached && this.ledger == ledger && this.maxItems == maxItems
      ensures Abs() == EMPTY_SCOPE && lastWriteTS == now && fresh(Repr()) && Cells() == {}
    {
      this.ledger := ledger;
      this.maxItems := maxItems;
      detached := false;
      items := new Slice<Slot>(ZERO_SLOT, []);
      lastSeq, bytes, idKeyBytes := 0, 0, 0;
      byID, bySeq := map[], map[];
      lastWriteTS := now;
    }

    // Moving the shared counters leaves the abstract scope alone.
    twostate lemma {:induction false} Untouched()
      requires unchanged(this) && unchanged(items)
      requires forall c: CounterCell :: old(allocated(c)) ==> c.value == old(c.value) && c.ts == old(c.ts)
      ensures Abs() == old(Abs())
    {
      assert forall i :: 0 <= i < |Live()| ==> Live()[i].cell != null ==> Live()[i].cell in old(Cells());
    }

    // The abstract list is well formed, and the indexes answer as its scans do.
    lemma {:induction false} Reading()
      requires Valid()
      ensures WellFormed(Abs()) && Mirrors(Live(), Abs().items)
      ensures Abs().Bytes() == bytes
      ensures Abs().IdBytes() == Sum(Live(), SlotIdSize)
    {
      hide WellFormed, SeqIndex, IdIndex, DistinctCells;
      MirrorOrder(Live(), byID, lastSeq, Abs().items);
      assert WellFormed(Abs()) by { SameOrder(Abs()); }
      SumsAgree(Live(), Abs().items);
    }

    lemma {:induction false} ReadId(id: string)
      requires Valid()
      ensures IndexOfId(Abs().items, id).Some? <==> id in byID
      ensures id in byID ==> byID[id] == Live()[IndexOfId(Abs().items, id).value] && byID[id].id == id
    {
      hide Sorted, SeqIndex, IdIndex, DistinctCells, Sum;
      LookupId(Live(), byID, lastSeq, Abs().items, id);
    }

    lemma {:induction false} ReadSeq(sq: nat)
      requires Valid()
      ensures IndexOfSeq(Abs().items, sq).Some? <==> sq in bySeq
      ensures sq in bySeq ==> bySeq[sq] == Live()[IndexOfSeq(Abs().items, sq).value]
    {
      hide Sorted, SeqIndex, IdIndex, DistinctCells, Sum;
      LookupSeq(Live(), bySeq, lastSeq, Abs().items, sq);
    }

    // sort.Search for the first position whose seq lies above the cursor.
    method FirstAbove(cursor: int) returns (k: nat)
      requires items.Valid() && Sorted(Live(), lastSeq)
      ensures k <= |Live()|
      ensures forall i :: 0 <= i < k ==> Live()[i].sq <= cursor
      ensures forall i :: k <= i < |Live()| ==> Live()[i].sq > cursor
    {
      var hi;
      k, hi := 0, items.len;
      while k < hi
        invariant k <= hi <= |Live()|
        invariant k > 0 ==> Live()[k - 1].sq <= cursor
        invariant hi < |Live()| ==> Live()[hi].sq > cursor
      {
        var mid := (k + hi) / 2;
        var x := items.At(mid);
        if x.sq > cursor {
          hi := mid;
        } else {
          k := mid + 1;
        }
      }
    }

    /** indexBySeqLocked: binary search finds the one slot with this seq, or there is none. */
    method IndexBySeq(sq: nat) returns (r: Option<nat>)
      requires Valid()
      ensures r.Some? ==> r.value < |Live()| && Live()[r.value].sq == sq
      ensures forall j :: 0 <= j < |Live()| && Live()[j].sq == sq ==> r == Some(j)
    {
      var i := FirstAbove(sq - 1);
      if i == items.len {
        return None;
      }
      var x := items.At(i);
      return if x.sq == sq then Some(i) else None;
    }

    lemma {:induction false} AboveCut(cursor: nat, k: nat)
      requires Valid() && k <= |Live()|
      requires forall i :: 0 <= i < k ==> Live()[i].sq <= cursor
      requires forall i :: k <= i < |Live()| ==> Live()[i].sq > cursor
      ensures Above(Abs().items, cursor) == Abs().items[k..]
    {
      AboveIsSuffix(Abs().items, k, cursor);
    }

    // ---- the three low-level mutations ----

    // append(b.items, x), lastSeq, both indexes and both running sums.
    method Push(x: Slot)
      requires Valid() && x.sq == lastSeq + 1 && x.id !in byID
      requires x.cell != null ==> x.cell !in Cells()
      modifies this`byID, this`bySeq, this`lastSeq, this`bytes, this`idKeyBytes, items, items.data
      ensures Valid() && fresh(Repr() - old(Repr()))
      ensures Live() == old(Live()) + [x] && lastSeq == x.sq
      ensures idKeyBytes == old(idKeyBytes) + |x.id|
      ensures Cells() <= old(Cells()) + CellOf(x)
    {
      hide Represents;
      PushRep(Live(), byID, bySeq, lastSeq, bytes, x);
      items.Append(x);
      lastSeq := x.sq;
      bySeq := bySeq[x.sq := x];
      byID := WithId(byID, x);
      idKeyBytes := idKeyBytes + |x.id|;
      bytes := bytes + SlotSize(x);
    }

    // Overwrite one slot in place and sync both indexes.
    method Put(i: nat, x: Slot)
      requires Valid() && i < |Live()| && x.id == Live()[i].id && x.sq == Live()[i].sq
      requires x.cell == null || x.cell !in Cells()
      modifies this`byID, this`bySeq, this`bytes, items`contents, items.data
      ensures Valid()
      ensures Live() == old(Live())[i := x]
      ensures Cells() <= old(Cells()) + CellOf(x)
    {
      hide Represents;
      PutRep(Live(), byID, bySeq, lastSeq, bytes, i, x);
      var was := items.At(i);
      items.Set(i, x);
      bytes := bytes - SlotSize(was) + SlotSize(x);
      bySeq := bySeq[x.sq := x];
      byID := WithId(byID, x);
    }

    // The storage half of deleteIndexLocked.
    method CutOut(i: nat)
      requires Valid() && i < |Live()|
      modifies this`items, this`byID, this`bySeq, this`bytes, this`idKeyBytes, items, items.data
      ensures Valid() && fresh(Repr() - old(Repr()))
      ensures Live() == old(Live())[..i] + old(Live())[i + 1..]
      ensures Cells() <= old(Cells())
      ensures idKeyBytes == if Live() == [] then 0 else old(idKeyBytes) - |old(Live())[i].id|
    {
      hide Represents;
      CutRep(Live(), byID, bySeq, lastSeq, bytes, i);
      var removed := items.At(i);
      items.RemoveAt(i);
      bySeq := bySeq - {removed.sq};
      byID := WithoutId(byID, removed);
      idKeyBytes := idKeyBytes - |removed.id|;
      bytes := bytes - SlotSize(removed);
      ResetIfEmpty();
    }

    // Drop the high-watermark storage of a drained scope; lastSeq stays.
    method ResetIfEmpty()
      requires Valid()
      modifies this`items, this`byID, this`bySeq, this`idKeyBytes
      ensures Valid() && fresh(Repr() - old(Repr()))
      ensures Live() == old(Live())
      ensures idKeyBytes == if Live() == [] then 0 else old(idKeyBytes)
    {
      if items.len != 0 {
        return;
      }
      items := new Slice<Slot>(ZERO_SLOT, []);
      byID, bySeq := map[], map[];
      idKeyBytes := 0;
    }

    // ---- inserting ----

    // Taking the new slot to the end of the list is Insert on the abstract scope.
    twostate lemma {:induction false} PushIsInsert(new x: Slot, body: Body)
      requires old(Valid()) && Valid()
      requires Live() == old(Live()) + [x] && lastSeq == old(lastSeq) + 1
      requires idKeyBytes == old(idKeyBytes) + |x.id|
      requires forall h :: h in old(Live()) ==> View(h) == old(View(h))
      requires View(x) == Item(x.scope, x.id, lastSeq, View(x).ts, body)
      ensures Abs() == Insert(old(Abs()), x.scope, x.id, body, View(x).ts)
      ensures Abs().Bytes() == old(Abs()).Bytes() + SlotSize(x)
    {
      hide Represents;
      var was := old(Abs()).items;
      assert Abs().items == was + [View(x)] by {
        forall i | 0 <= i < |was| ensures Abs().items[i] == was[i] {
          assert old(Live())[i] in old(Live());
        }
      }
      InsertLaws(old(Abs()), x.scope, x.id, body, View(x).ts);
    }

    method PushItem(x: Slot, ghost body: Body)
      requires Valid() && x.sq == lastSeq + 1 && x.id !in byID
      requires x.cell != null ==> x.cell !in Cells()
      requires View(x) == Item(x.scope, x.id, x.sq, View(x).ts, body)
      modifies this`byID, this`bySeq, this`lastSeq, this`bytes, this`idKeyBytes, items, items.data
      ensures Valid() && fresh(Repr() - old(Repr())) && Cells() <= old(Cells()) + CellOf(x)
      ensures Abs() == Insert(old(Abs()), x.scope, x.id, body, old(View(x)).ts)
      ensures Abs().Bytes() == old(Abs()).Bytes() + SlotSize(x) && |Live()| == |old(Live())| + 1
      ensures Abs().items[|Live()| - 1] == old(View(x))
    {
      hide Represents, Views, CellsOf, Sum, Insert;
      Push(x);
      PushIsInsert(x, body);
    }

    // The rest of an insertion, once its bytes are reserved.
    method Admit(x: Slot, ghost body: Body, now: int, silent: bool)
      requires Valid() && !detached && x.sq == lastSeq + 1 && x.id !in byID
      requires x.cell != null ==> x.cell !in Cells()
      requires View(x) == Item(x.scope, x.id, x.sq, View(x).ts, body)
      modifies Repr(), ledger`totalItems, ledger`lastWriteTS
      ensures Valid() && ledger == old(ledger) && maxItems == old(maxItems)
      ensures fresh(Repr() - old(Repr())) && Cells() <= old(Cells()) + CellOf(x)
      ensures Snapshot() == old(Snapshot()).(
                scope := Insert(old(Abs()), x.scope, x.id, body, old(View(x)).ts),
                items := old(ledger.totalItems) + 1,
                writeTS := if silent then old(lastWriteTS) else now,
                storeTS := if silent then old(ledger.lastWriteTS) else Max(old(ledger.lastWriteTS), now))
      ensures |Abs().items| == |old(Abs()).items| + 1
      ensures Abs().items[|old(Abs()).items|] == old(View(x))
    {
      hide Represents, Views, CellsOf, Sum, Insert;
      PushItem(x, body);
      CountNew(now, silent);
    }

    // One more item in the books, and both stamps unless the creation is silent.
    method CountNew(now: int, silent: bool)
      requires Valid() && !detached
      modifies this`lastWriteTS, ledger`totalItems, ledger`lastWriteTS
      ensures Valid() && Abs() == old(Abs())
      ensures ledger.totalItems == old(ledger.totalItems) + 1
      ensures lastWriteTS == if silent then old(lastWriteTS) else now
      ensures ledger.lastWriteTS == if silent then old(ledger.lastWriteTS) else Max(old(ledger.lastWriteTS), now)
    {
      hide Represents, Views, CellsOf;
      ledger.totalItems := ledger.totalItems + 1;
      if !silent {
        Touch(now);
      }
    }

    // Both freshness stamps, and nothing else.
    method Touch(now: int)
      requires Valid() && !detached
      modifies this`lastWriteTS, ledger`lastWriteTS
      ensures Valid() && Abs() == old(Abs())
      ensures lastWriteTS == now && ledger.lastWriteTS == Max(old(ledger.lastWriteTS), now)
    {
      hide Represents, Views, CellsOf;
      lastWriteTS := now;
      ledger.BumpLastWriteTS(now);
    }

    method InsertNewItem(scope: string, id: string, payload: Bytes, pre: Option<Bytes>, now: int)
      returns (r: Result<Item>)
      requires Valid() && !detached && id !in byID
      modifies Repr(), ledger
      ensures Valid() && Framed()
      ensures
        var next := Insert(old(Abs()), scope, id, Plain(payload, RenderBytes(ledger.cfg.codec, pre, payload)), now);
        var (after, e) := Commit(old(Snapshot()), ledger.cfg.maxStoreBytes, next, now, false);
        Snapshot() == after && r == if e.None? then Ok(next.items[|next.items| - 1]) else Err(e.value)
    {
      hide Represents, Views, CellsOf, Sum, Insert;
      var x := Slot(scope, id, lastSeq + 1, now, payload, RenderBytes(ledger.cfg.codec, pre, payload), null);
      InsertLaws(Abs(), scope, id, View(x).body, now);
      var e := ReserveDelta(SlotSize(x));
      if e.Some? {
        return Err(e.value);
      }
      Admit(x, View(x).body, now, false);
      return Ok(View(x));
    }

    method AppendItem(scope: string, id: string, payload: Bytes, pre: Option<Bytes>, now: int)
      returns (r: Result<Option<Reply>>)
      requires Valid()
      modifies Repr(), ledger
      ensures Valid() && Framed()
      ensures old(detached) ==> r == Err(Detached) && Snapshot() == old(Snapshot())
      ensures !old(detached) ==>
                (Snapshot(), r) == Perform(old(EnvFor(scope)), old(Snapshot()), Append(id, payload, pre), now)
    {
      hide Represents, IndexOfId, Sum, Views, CellsOf, Perform, Commit;
      if detached {
        return Err(Detached);
      }
      ReadId(id);
      PerformAppend(EnvFor(scope), Snapshot(), id, payload, pre, now);
      if CapExceeded(maxItems, items.len + 1) {
        return Err(ScopeFull(items.len, maxItems));
      }
      if id in byID {
        return Err(DuplicateId);
      }
      var item := InsertNewItem(scope, id, payload, pre, now);
      return match item case Ok(x) => Ok(Some(ItemReply(x, true))) case Err(e) => Err(e);
    }

    method UpsertByID(scope: string, id: string, payload: Bytes, pre: Option<Bytes>, now: int)
      returns (r: Result<Option<Reply>>)
      requires Valid()
      modifies Repr(), ledger
      ensures Valid() && Framed()
      ensures old(detached) ==> r == Err(Detached) && Snapshot() == old(Snapshot())
      ensures !old(detached) ==>
                (Snapshot(), r) == Perform(old(EnvFor(scope)), old(Snapshot()), Upsert(id, payload, pre), now)
    {
      hide Represents, IndexOfId, IndexOfSeq, Sum, Views, CellsOf, Perform, Commit;
      if detached {
        return Err(Detached);
      }
      ReadId(id);
      PerformUpsert(EnvFor(scope), Snapshot(), id, payload, pre, now);
      if id in byID {
        var e, updated := Rewrite(byID[id], payload, RenderBytes(ledger.cfg.codec, pre, payload), now, IndexOfId(Abs().items, id).value);
        return if e.None? then Ok(Some(ItemReply(updated, false))) else Err(e.value);
      }
      if CapExceeded(maxItems, items.len + 1) {
        return Err(ScopeFull(items.len, maxItems));
      }
      var item := InsertNewItem(scope, id, payload, pre, now);
      return match item case Ok(x) => Ok(Some(ItemReply(x, true))) case Err(e) => Err(e);
    }

    // ---- rewriting in place ----

    twostate lemma {:induction false} PutIsReplace(i: nat, new x: Slot)
      requires old(Valid()) && Valid()
      requires i < |old(Live())| && Live() == old(Live())[i := x] && lastSeq == old(lastSeq)
      requires idKeyBytes == old(idKeyBytes)
      requires forall j :: 0 <= j < |old(Live())| && j != i ==> View(old(Live())[j]) == old(View(Live()[j]))
      requires View(x) == old(View(Live()[i])).(body := View(x).body, ts := View(x).ts)
      ensures Abs() == Replace(old(Abs()), i, View(x).body, View(x).ts)
      ensures Abs().Bytes() == old(Abs()).Bytes() - SlotSize(old(Live())[i]) + SlotSize(x)
    {
      hide Represents;
      assert Abs().items == old(Abs()).items[i := View(x)];
      ReplaceLaws(old(Abs()), i, View(x).body, View(x).ts);
    }

    // reservePayloadDeltaLocked: nothing but the shared byte counter may move.
    method ReserveDelta(delta: int) returns (e: Option<Error>)
      requires Valid() && !detached
      modifies ledger`totalBytes
      ensures Valid() && Abs() == old(Abs()) && Cells() == old(Cells())
      ensures e.None? <==> Admits(old(ledger.totalBytes), ledger.cfg.maxStoreBytes, delta)
      ensures e.Some? ==> e.value == StoreFull(old(ledger.totalBytes), delta, ledger.cfg.maxStoreBytes)
      ensures ledger.totalBytes == if e.None? then old(ledger.totalBytes) + delta else old(ledger.totalBytes)
    {
      hide Represents, CellsOf;
      if delta == 0 {
        return None;
      }
      e := ledger.ReserveBytes(delta);
      Untouched();
    }

    // replaceItemAtIndexLocked, with the byte delta already reserved.
    method ReplaceItemAtIndex(i: nat, payload: Bytes, render: Option<Bytes>, now: int) returns (updated: Item)
      requires Valid() && !detached && i < |Live()|
      modifies this`byID, this`bySeq, this`bytes, this`lastWriteTS, items`contents, items.data, ledger`lastWriteTS
      ensures Valid() && Cells() <= old(Cells())
      ensures Abs() == Replace(old(Abs()), i, Plain(payload, render), now) && updated == Abs().items[i]
      ensures Abs().Bytes() == old(Abs()).Bytes() - SlotBodySize(old(Live())[i]) + |payload| + RenderSize(render)
      ensures lastWriteTS == now && ledger.lastWriteTS == Max(old(ledger.lastWriteTS), now)
    {
      hide Represents, Views, Sum, Replace;
      var was := items.At(i);
      var x := was.(payload := payload, ts := now, render := render, cell := null);
      Put(i, x);
      PutIsReplace(i, x);
      Touch(now);
      return View(x);
    }

    // What /upsert and /update share: reserve the payload delta, find the slot, rewrite it.
    method Rewrite(existing: Slot, payload: Bytes, render: Option<Bytes>, now: int, ghost at: nat)
      returns (e: Option<Error>, updated: Item)
      requires Valid() && !detached && at < |Live()| && existing == Live()[at]
      modifies Repr(), ledger
      ensures Valid() && Framed()
      ensures
        var next := Replace(old(Abs()), at, Plain(payload, render), now);
        && Commit(old(Snapshot()), ledger.cfg.maxStoreBytes, next, now, false) == (Snapshot(), e)
        && (e.None? ==> updated == next.items[at])
    {
      hide Represents, Views, Sum, CellsOf;
      assert BodySize(Abs().items[at].body) == SlotBodySize(existing);
      ReplaceLaws(Abs(), at, Plain(payload, render), now);
      e := ReserveDelta(|payload| + RenderSize(render) - SlotBodySize(existing));
      if e.Some? {
        return e, View(existing);
      }
      label Reserved:
      var i := IndexBySeq(existing.sq);
      Untouched@Reserved();
      assert Live()[at].sq == existing.sq;
      updated := ReplaceItemAtIndex(i.value, payload, render, now);
    }

    method UpdateByID(id: string, payload: Bytes, pre: Option<Bytes>, now: int, ghost scope: string)
      returns (r: Result<Option<Reply>>)
      requires Valid()
      modifies Repr(), ledger
      ensures Valid() && Framed()
      ensures old(detached) ==> r == Err(Detached) && Snapshot() == old(Snapshot())
      ensures !old(detached) ==>
                (Snapshot(), r) == Perform(old(EnvFor(scope)), old(Snapshot()), UpdateById(id, payload, pre), now)
    {
      hide Represents, IndexOfId, IndexOfSeq, Sum, Views, CellsOf, Perform, Commit;
      if detached {
        return Err(Detached);
      }
      ReadId(id);
      PerformUpdate(EnvFor(scope), Snapshot(), id, 0, payload, pre, now);
      if id !in byID {
        return Ok(None);
      }
      var e, updated := Rewrite(byID[id], payload, RenderBytes(ledger.cfg.codec, pre, payload), now, IndexOfId(Abs().items, id).value);
      return if e.None? then Ok(Some(CountReply(1))) else Err(e.value);
    }

    method UpdateBySeqNo(sq: nat, payload: Bytes, pre: Option<Bytes>, now: int, ghost scope: string)
      returns (r: Result<Option<Reply>>)
      requires Valid()
      modifies Repr(), ledger
      ensures Valid() && Framed()
      ensures old(detached) ==> r == Err(Detached) && Snapshot() == old(Snapshot())
      ensures !old(detached) ==>
                (Snapshot(), r) == Perform(old(EnvFor(scope)), old(Snapshot()), UpdateBySeq(sq, payload, pre), now)
    {
      hide Represents, IndexOfId, IndexOfSeq, Sum, Views, CellsOf, Perform, Commit;
      if detached {
        return Err(Detached);
      }
      ReadSeq(sq);
      PerformUpdate(EnvFor(scope), Snapshot(), "", sq, payload, pre, now);
      if sq !in bySeq {
        return Ok(None);
      }
      var existing := bySeq[sq];
      var render := RenderBytes(ledger.cfg.codec, pre, payload);
      if SlotSize(existing.(payload := payload, render := render, cell := null)) > ledger.cfg.MaxItemBytesFor(existing.scope) {
        return Err(Invalid);
      }
      var e, updated := Rewrite(existing, payload, render, now, IndexOfSeq(Abs().items, sq).value);
      return if e.None? then Ok(Some(CountReply(1))) else Err(e.value);
    }

    // ---- counters ----

    twostate lemma {:induction false} NewCell(new c: CounterCell)
      requires unchanged(this) && unchanged(items) && fresh(c)
      ensures c !in Cells() && Cells() == old(Cells())
    {
    }

    lemma {:induction false} CellInCells(at: nat)
      requires at < |Live()| && Live()[at].cell != null
      ensures Live()[at].cell in Cells()
    {
      assert Live()[at] in Live();
    }

    // Moving one cell is a rewrite of the one item that holds it.
    twostate lemma {:induction false} CellIsReplace(at: nat)
      requires old(Valid()) && unchanged(this) && unchanged(items)
      requires at < |Live()| && Live()[at].cell != null
      requires forall c: CounterCell :: old(allocated(c)) && c != Live()[at].cell ==>
                 c.value == old(c.value) && c.ts == old(c.ts)
      ensures Abs() == Replace(old(Abs()), at, Counter(Live()[at].cell.value), Live()[at].cell.ts)
      ensures Abs().Bytes() == old(Abs()).Bytes()
    {
      var cell := Live()[at].cell;
      forall j | 0 <= j < |Live()| && j != at ensures View(Live()[j]) == old(View(Live()[j])) {
        if Live()[j].cell != null {
          assert Live()[j].cell != Live()[at].cell;
        }
      }
      assert Abs().items == old(Abs()).items[at := View(Live()[at])];
      ReplaceLaws(old(Abs()), at, Counter(cell.value), cell.ts);
    }

    // The increment itself: no byte moves, no stamp but the cell's own.
    method AddToCell(cell: CounterCell, inc: int, now: int, ghost at: nat, ghost scope: string)
      returns (r: Result<Option<Reply>>)
      requires Valid() && !detached && at < |Live()| && Live()[at].cell == cell
      modifies cell
      ensures Valid() && Framed()
      ensures
        var item := old(Abs()).items[at];
        if InCounterRange(item.body.value + inc)
        then (Snapshot(), r) == Rewritten(old(EnvFor(scope)), old(Snapshot()), at, Counter(item.body.value + inc),
                                          Max(item.ts, now), now, true, ValueReply(item.body.value + inc, false))
        else Snapshot() == old(Snapshot()) && r == Err(CounterOverflow(item.body.value, inc))
    {
      hide Represents, Views, CellsOf, Sum;
      assert Abs().items[at] == View(Live()[at]);
      var sum := cell.Add(inc, now);
      CellIsReplace(at);
      if sum.Err? {
        Untouched();
        return Err(sum.error);
      }
      return Ok(Some(ValueReply(sum.value, false)));
    }

    method CounterAdd(scope: string, id: string, inc: int, now: int) returns (r: Result<Option<Reply>>)
      requires Valid() && id != ""
      modifies Repr(), ledger, Cells()
      ensures Valid() && Framed()
      ensures old(detached) ==> r == Err(Detached) && Snapshot() == old(Snapshot())
      ensures !old(detached) ==>
                (Snapshot(), r) == Perform(old(EnvFor(scope)), old(Snapshot()), Op.CounterAdd(id, inc), now)
    {
      hide Represents, IndexOfId, IndexOfSeq, Sum, Views, CellsOf, Perform, Commit;
      if !detached && id in byID && byID[id].cell != null {
        ReadId(id);
        ghost var at := IndexOfId(Abs().items, id).value;
        PerformIncrement(EnvFor(scope), Snapshot(), id, at, inc, now);
        CellInCells(at);
        r := AddToCell(byID[id].cell, inc, now, at, scope);
        return;
      }
      r := CounterAddSlow(scope, id, inc, now);
    }

    method CounterAddSlow(scope: string, id: string, inc: int, now: int) returns (r: Result<Option<Reply>>)
      requires Valid() && id != ""
      modifies Repr(), ledger, Cells()
      ensures Valid() && Framed()
      ensures old(detached) ==> r == Err(Detached) && Snapshot() == old(Snapshot())
      ensures !old(detached) ==>
                (Snapshot(), r) == Perform(old(EnvFor(scope)), old(Snapshot()), Op.CounterAdd(id, inc), now)
    {
      hide Represents, IndexOfId, IndexOfSeq, Sum, Views, CellsOf, Perform, Commit, Rewritten;
      if detached {
        return Err(Detached);
      }
      ReadId(id);
      if id in byID {
        ghost var at := IndexOfId(Abs().items, id).value;
        assert byID[id] == Live()[at];
        if byID[id].cell != null {
          CellInCells(at);
          PerformIncrement(EnvFor(scope), Snapshot(), id, at, inc, now);
          r := AddToCell(byID[id].cell, inc, now, at, scope);
          return;
        }
        PerformPromote(EnvFor(scope), Snapshot(), id, at, inc, now);
        r := Promote(byID[id], inc, now, at, scope);
        return;
      }
      PerformCreate(EnvFor(scope), Snapshot(), id, inc, now);
      if CapExceeded(maxItems, items.len + 1) {
        return Err(ScopeFull(items.len, maxItems));
      }
      r := CreateCounter(scope, id, inc, now);
    }

    method Promote(existing: Slot, inc: int, now: int, ghost at: nat, ghost scope: string)
      returns (r: Result<Option<Reply>>)
      requires Valid() && !detached && at < |Live()| && existing == Live()[at] && existing.cell == null
      modifies Repr(), ledger
      ensures Valid() && Framed()
      ensures
        match ParseCounter(ledger.cfg.codec, existing.payload)
        case None => Snapshot() == old(Snapshot()) && r == Err(CounterPayload)
        case Some(v) =>
          if InCounterRange(v + inc)
          then (Snapshot(), r) == Rewritten(old(EnvFor(scope)), old(Snapshot()), at, Counter(v + inc),
                                            now, now, true, ValueReply(v + inc, false))
          else Snapshot() == old(Snapshot()) && r == Err(CounterOverflow(v, inc))
    {
      hide Represents, Views, CellsOf, Sum, Commit;
      var current := ParseCounter(ledger.cfg.codec, existing.payload);
      if current == None {
        return Err(CounterPayload);
      }
      var newValue := current.value + inc;
      if newValue > MAX_COUNTER || newValue < -MAX_COUNTER {
        return Err(CounterOverflow(current.value, inc));
      }
      var e := SwapInCounter(existing, newValue, now, at);
      return if e.None? then Ok(Some(ValueReply(newValue, false))) else Err(e.value);
    }

    // Find the slot, reserve the size difference, install the cell.
    method SwapInCounter(existing: Slot, newValue: int, now: int, ghost at: nat) returns (e: Option<Error>)
      requires Valid() && !detached && at < |Live()| && existing == Live()[at] && existing.cell == null
      modifies Repr(), ledger
      ensures Valid() && Framed()
      ensures Commit(old(Snapshot()), ledger.cfg.maxStoreBytes, Replace(old(Abs()), at, Counter(newValue), now), now, true)
           == (Snapshot(), e)
    {
      hide Represents, Views, CellsOf, Sum;
      assert View(existing) == Abs().items[at];
      ReplaceLaws(Abs(), at, Counter(newValue), now);
      label Start:
      var i := IndexBySeq(existing.sq);
      assert Live()[at].sq == existing.sq;
      Untouched@Start();
      e := ReserveDelta(COUNTER_CELL_OVERHEAD - SlotBodySize(existing));
      if e.None? {
        InstallCell(i.value, newValue, now);
      }
    }

    // Swap in the counter-shaped view of slot i; both freshness stamps stay silent.
    method InstallCell(i: nat, value: int, now: int)
      requires Valid() && !detached && i < |Live()|
      modifies this`byID, this`bySeq, this`bytes, items`contents, items.data
      ensures Valid() && (forall c :: c in Cells() ==> c in old(Cells()) || fresh(c))
      ensures Abs() == Replace(old(Abs()), i, Counter(value), now)
    {
      hide Represents, Views, CellsOf;
      var cell := new CounterCell(value, now);
      NewCell(cell);
      var was := items.At(i);
      var x := was.(payload := "", render := None, cell := cell);
      Put(i, x);
      PutIsReplace(i, x);
    }

    method CreateCounter(scope: string, id: string, inc: int, now: int) returns (r: Result<Option<Reply>>)
      requires Valid() && !detached && id != "" && id !in byID
      modifies Repr(), ledger
      ensures Valid() && Framed()
      ensures
        var next := Insert(old(Abs()), scope, id, Counter(inc), now);
        var (after, e) := Commit(old(Snapshot()), ledger.cfg.maxStoreBytes, next, now, true);
        Snapshot() == after && r == if e.None? then Ok(Some(ValueReply(inc, true))) else Err(e.value)
    {
      hide Represents, Views, Sum, CellsOf, Insert;
      InsertLaws(Abs(), scope, id, Counter(inc), now);
      var e := ReserveDelta(48 + |scope| + |id| + COUNTER_CELL_OVERHEAD);
      if e.Some? {
        return Err(e.value);
      }
      AdmitCounter(scope, id, inc, now);
      return Ok(Some(ValueReply(inc, true)));
    }

    method AdmitCounter(scope: string, id: string, inc: int, now: int)
      requires Valid() && !detached && id !in byID
      modifies Repr(), ledger`totalItems, ledger`lastWriteTS
      ensures Valid() && ledger == old(ledger) && maxItems == old(maxItems)
      ensures fresh(Repr() - old(Repr())) && (forall c :: c in Cells() ==> c in old(Cells()) || fresh(c))
      ensures Snapshot() == old(Snapshot()).(
                scope := Insert(old(Abs()), scope, id, Counter(inc), now), items := old(ledger.totalItems) + 1)
      ensures |Abs().items| == |old(Abs()).items| + 1
    {
      hide Represents, Views, Sum, CellsOf, Insert;
      label Start:
      var cell := new CounterCell(inc, now);
      Untouched@Start();
      NewCell@Start(cell);
      Admit(Slot(scope, id, lastSeq + 1, now, "", None, cell), Counter(inc), now, true);
    }

    // ---- deleting ----

    twostate lemma {:induction false} CutItems(i: nat)
      requires i < |old(Live())| && Live() == old(Live())[..i] + old(Live())[i + 1..]
      requires old(Valid()) && Valid()
      requires forall h :: h in old(Live()) ==> View(h) == old(View(h))
      ensures Abs().items == old(Abs()).items[..i] + old(Abs()).items[i + 1..]
    {
      hide Valid, Sum;
      var was := old(Abs()).items;
      forall j | 0 <= j < |Live()| ensures Abs().items[j] == (was[..i] + was[i + 1..])[j] {
        assert Live()[j] == old(Live())[if j < i then j else j + 1];
        assert old(Live())[if j < i then j else j + 1] in old(Live());
      }
    }

    twostate lemma {:induction false} CutIsRemove(i: nat)
      requires old(Valid()) && Valid()
      requires i < |old(Live())| && Live() == old(Live())[..i] + old(Live())[i + 1..] && lastSeq == old(lastSeq)
      requires idKeyBytes == if Live() == [] then 0 else old(idKeyBytes) - |old(Live())[i].id|
      requires forall h :: h in old(Live()) ==> View(h) == old(View(h))
      ensures Abs() == RemoveAt(old(Abs()), i)
      ensures Abs().Bytes() == old(Abs()).Bytes() - SlotSize(old(Live())[i])
    {
      hide Represents;
      CutItems(i);
      RemoveLaws(old(Abs()), i);
    }

    method RemoveItem(i: nat) returns (removed: Slot)
      requires Valid() && i < |Live()|
      modifies this`items, this`byID, this`bySeq, this`bytes, this`idKeyBytes, items, items.data
      ensures Valid() && fresh(Repr() - old(Repr())) && Cells() <= old(Cells())
      ensures Abs() == RemoveAt(old(Abs()), i) && removed == old(Live())[i]
      ensures Abs().Bytes() == old(Abs()).Bytes() - SlotSize(removed)
      ensures |Live()| == |old(Live())| - 1
    {
      hide Represents, Views, CellsOf, Sum, RemoveAt;
      removed := items.At(i);
      CutOut(i);
      CutIsRemove(i);
    }

    // deleteIndexLocked.
    method DeleteIndex(i: nat, now: int)
      requires Valid() && !detached && i < |Live()|
      modifies Repr(), ledger
      ensures Valid() && Framed() && Cells() <= old(Cells())
      ensures Snapshot() == Commit(old(Snapshot()), ledger.cfg.maxStoreBytes, RemoveAt(old(Abs()), i), now, false).0
    {
      hide Represents, Views, CellsOf, Sum, RemoveAt;
      var removed := RemoveItem(i);
      lastWriteTS := now;
      ledger.Settle(-SlotSize(removed), -1, now);
    }

    method DeleteByID(id: string, now: int, ghost scope: string) returns (r: Result<Option<Reply>>)
      requires Valid()
      modifies Repr(), ledger
      ensures Valid() && Framed()
      ensures old(detached) ==> r == Err(Detached) && Snapshot() == old(Snapshot())
      ensures !old(detached) ==>
                (Snapshot(), r) == Perform(old(EnvFor(scope)), old(Snapshot()), DeleteById(id), now)
    {
      hide Represents, IndexOfId, IndexOfSeq, Sum, Views, CellsOf, Perform, RemoveAt;
      if detached {
        return Err(Detached);
      }
      ReadId(id);
      if id !in byID {
        PerformMiss(EnvFor(scope), Snapshot(), DeleteById(id), now);
        return Ok(None);
      }
      ghost var at := IndexOfId(Abs().items, id).value;
      PerformDelete(EnvFor(scope), Snapshot(), DeleteById(id), at, now);
      label Found:
      var i := IndexBySeq(byID[id].sq);
      assert Live()[at].sq == byID[id].sq;
      Untouched@Found();
      DeleteIndex(i.value, now);
      return Ok(Some(CountReply(1)));
    }

    method DeleteBySeqNo(sq: nat, now: int, ghost scope: string) returns (r: Result<Option<Reply>>)
      requires Valid()
      modifies Repr(), ledger
      ensures Valid() && Framed()
      ensures old(detached) ==> r == Err(Detached) && Snapshot() == old(Snapshot())
      ensures !old(detached) ==>
                (Snapshot(), r) == Perform(old(EnvFor(scope)), old(Snapshot()), DeleteBySeq(sq), now)
    {
      hide Represents, IndexOfId, IndexOfSeq, Sum, Views, CellsOf, Perform, RemoveAt;
      if detached {
        return Err(Detached);
      }
      ReadSeq(sq);
      if sq !in bySeq {
        PerformMiss(EnvFor(scope), Snapshot(), DeleteBySeq(sq), now);
        return Ok(None);
      }
      ghost var at := IndexOfSeq(Abs().items, sq).value;
      PerformDelete(EnvFor(scope), Snapshot(), DeleteBySeq(sq), at, now);
      label Found:
      var i := IndexBySeq(sq);
      assert Live()[at].sq == sq;
      Untouched@Found();
      DeleteIndex(i.value, now);
      return Ok(Some(CountReply(1)));
    }

    twostate lemma {:induction false} DropIsDrain(new k: nat, new maxSeq: nat)
      requires old(Valid()) && Valid()
      requires k <= |old(Live())|
      requires Live() == old(Live())[k..]
      requires lastSeq == old(lastSeq)
      requires old(Above(Abs().items, maxSeq) == Abs().items[k..])
      requires idKeyBytes == if Live() == [] then 0 else old(idKeyBytes) - Sum(old(Live())[..k], SlotIdSize)
      requires forall h :: h in old(Live()) ==> View(h) == old(View(h))
      ensures Abs() == Drain(old(Abs()), maxSeq)
      ensures Abs().Bytes() == old(Abs()).Bytes() - Sum(old(Live())[..k], SlotSize)
    {
      hide Represents;
      var was := old(Abs()).items;
      forall j | 0 <= j < |Live()| ensures Abs().items[j] == was[k..][j] {
        assert old(Live())[k + j] in old(Live());
      }
      assert Abs().items == was[k..];
      SumSplit(was, k, ItemSize);
      SumSplit(was, k, IdSize);
      SumsAgree(old(Live())[..k], was[..k]);
    }

    // The loop over the drained prefix, then the move of the kept suffix.
    method DropPrefix(k: nat) returns (freedBytes: int)
      requires Valid() && k <= |Live()|
      modifies this`items, this`byID, this`bySeq, this`bytes, this`idKeyBytes, items
      ensures Valid() && fresh(Repr() - old(Repr())) && Cells() <= old(Cells())
      ensures Live() == old(Live())[k..]
      ensures freedBytes == Sum(old(Live())[..k], SlotSize)
      ensures idKeyBytes == if Live() == [] then 0 else old(idKeyBytes) - Sum(old(Live())[..k], SlotIdSize)
    {
      hide Represents, Indexed, Sorted, DistinctCells, Sum;
      ghost var hs := Live();
      RepParts(hs, byID, bySeq, lastSeq, bytes);
      assert hs[..0] == [] && hs[0..] == hs;
      SumZero(hs[..0], SlotSize);
      SumZero(hs[..0], SlotIdSize);
      freedBytes := 0;
      var freedIds := 0;
      for i := 0 to k
        invariant items == old(items) && items.Valid() && Live() == hs && bytes == old(bytes) && lastSeq == old(lastSeq)
        invariant idKeyBytes == old(idKeyBytes)
        invariant Indexed(hs[i..], byID, bySeq)
        invariant freedBytes == Sum(hs[..i], SlotSize) && freedIds == Sum(hs[..i], SlotIdSize)
      {
        var removed := items.At(i);
        IndexedStep(hs, byID, bySeq, lastSeq, i);
        freedBytes := freedBytes + SlotSize(removed);
        freedIds := freedIds + |removed.id|;
        bySeq := bySeq - {removed.sq};
        byID := WithoutId(byID, removed);
      }
      DropRep(hs, byID, bySeq, lastSeq, bytes, k);
      items.DropPrefix(k);
      bytes := bytes - freedBytes;
      idKeyBytes := idKeyBytes - freedIds;
      ResetIfEmpty();
    }

    method DeleteUpToSeq(maxSeq: nat, now: int, ghost scope: string) returns (r: Result<Option<Reply>>)
      requires Valid()
      modifies Repr(), ledger
      ensures Valid() && Framed()
      ensures old(detached) ==> r == Err(Detached) && Snapshot() == old(Snapshot())
      ensures !old(detached) ==>
                (Snapshot(), r) == Perform(old(EnvFor(scope)), old(Snapshot()), DeleteUpTo(maxSeq), now)
    {
      hide Represents, Sum, Views, CellsOf, Perform, Drain;
      if detached {
        return Err(Detached);
      }
      var idx := CutFor(maxSeq);
      PerformDrain(EnvFor(scope), Snapshot(), maxSeq, idx, now);
      if idx == 0 {
        return Ok(None);
      }
      DeletePrefix(idx, maxSeq, now);
      return Ok(Some(CountReply(idx)));
    }

    method CutFor(cursor: nat) returns (k: nat)
      requires Valid()
      ensures k <= |Live()| && WellFormed(Abs()) && Abs() == old(Abs())
      ensures Above(Abs().items, cursor) == Abs().items[k..]
    {
      hide SeqIndex, IdIndex, DistinctCells, Sum, WellFormed, Mirrors, Views;
      k := FirstAbove(cursor);
      AboveCut(cursor, k);
      Reading();
    }

    method DeletePrefix(k: int, ghost maxSeq: nat, now: int)
      requires Valid() && !detached && 0 <= k <= |Live()| && WellFormed(Abs())
      requires Above(Abs().items, maxSeq) == Abs().items[k..]
      modifies Repr(), ledger
      ensures Valid() && Framed() && Cells() <= old(Cells())
      ensures Snapshot() == Commit(old(Snapshot()), ledger.cfg.maxStoreBytes, Drain(old(Abs()), maxSeq), now, false).0
    {
      hide Represents, Sum, Views, CellsOf, Drain, Above;
      var freedBytes := DropItems(k, maxSeq);
      label Dropped:
      lastWriteTS := now;
      ledger.Settle(-freedBytes, -k, now);
      assert Abs() == old@Dropped(Abs()) && |Abs().items| == |old(Abs()).items| - k;
    }

    method DropItems(k: nat, ghost maxSeq: nat) returns (freedBytes: int)
      requires Valid() && k <= |Live()| && WellFormed(Abs())
      requires Above(Abs().items, maxSeq) == Abs().items[k..]
      modifies this`items, this`byID, this`bySeq, this`bytes, this`idKeyBytes, items
      ensures Valid() && fresh(Repr() - old(Repr())) && Cells() <= old(Cells())
      ensures Abs() == Drain(old(Abs()), maxSeq) && |Live()| == |old(Live())| - k
      ensures freedBytes >= 0 && Abs().Bytes() == old(Abs()).Bytes() - freedBytes
    {
      hide Represents, Views, CellsOf, Sum, Drain;
      DrainLaws(Abs(), maxSeq);
      freedBytes := DropPrefix(k);
      DropIsDrain(k, maxSeq);
    }

    // ---- bulk commit and detach ----

    // Adopt a built state: the field assignments both commit paths end with.
    method Install(r: Replacement, newBytes: int, idKeyBytes: int, ghost target: Scope)
      requires items.zero == ZERO_SLOT && !detached && ledger != null
      requires Installs(r, target) && newBytes == target.Bytes() && idKeyBytes == target.idKeyBytes
      modifies this`items, this`byID, this`bySeq, this`lastSeq, this`bytes, this`idKeyBytes
      ensures Valid() && fresh(items) && fresh(items.data) && Cells() == {}
      ensures Abs() == target
    {
      hide Represents;
      items := new Slice<Slot>(ZERO_SLOT, r.items);
      byID, bySeq := r.byID, r.bySeq;
      lastSeq := r.lastSeq;
      bytes := newBytes;
      this.idKeyBytes := idKeyBytes;
      forall j | 0 <= j < |Live()| ensures View(Live()[j]) == target.items[j] {
        assert Holds(r.items[j], target.items[j]);
      }
      assert Abs().items == target.items;
    }

    /**
      commitReplacementPreReserved: the batch already holds (new - snapshot) bytes, so
      only the drift since the snapshot is settled, and without a cap check.
     */
    method CommitPreReserved(r: Replacement, newBytes: int, oldSnapshot: int, now: int, ghost target: Scope)
      requires Valid() && !detached
      requires Installs(r, target) && newBytes == target.Bytes() && r.idKeyBytes == target.idKeyBytes
      modifies Repr(), ledger`totalBytes, ledger`totalItems, ledger`lastWriteTS
      ensures Valid() && Framed() && Cells() == {}
      ensures Snapshot() == Snap(target, false, now,
                                 old(ledger.totalBytes) - (old(Abs().Bytes()) - oldSnapshot),
                                 old(ledger.totalItems) + |target.items| - |old(Abs()).items|,
                                 Max(old(ledger.lastWriteTS), now))
    {
      hide Represents, Sum, Views;
      Reading();
      var drift := bytes - oldSnapshot;
      ledger.Settle(-drift, |r.items| - items.len, now);
      Install(r, newBytes, r.idKeyBytes, target);
      lastWriteTS := now;
    }

    // detached = true, store = nil: every later call is refused and touches nothing.
    method Detach()
      requires Valid()
      modifies this`detached, this`ledger
      ensures Valid() && detached && ledger == null
      ensures Live() == old(Live()) && Abs() == old(Abs())
    {
      hide Represents;
      detached := true;
      ledger := null;
    }

    // ---- reads ----

    // Copy a window out of the slice and render its counters.
    method Window(from: nat, to: nat) returns (out: seq<Item>)
      requires Valid() && from <= to <= |Live()|
      ensures out == MaterialiseAll(Abs().items[from..to])
    {
      hide Represents;
      out := [];
      for i := from to to
        invariant |out| == i - from
        invariant forall j :: 0 <= j < |out| ==> out[j] == Materialise(Abs().items[from + j])
      {
        var h := items.At(i);
        assert View(h) == Abs().items[i];
        out := out + [Materialise(View(h))];
      }
    }

    method SinceSeq(cursor: nat, limit: int) returns (out: seq<Item>, more: bool)
      requires Valid()
      ensures var (window, rest) := Since(Abs().items, cursor, limit);
              out == MaterialiseAll(window) && more == rest
      ensures HeadAnswers(Abs().items, cursor, limit, out, more)
    {
      hide Represents, HeadAnswers;
      HeadMeans(Abs().items, cursor, limit);
      if limit <= 0 {
        return [], false;
      }
      var idx := CutFor(cursor);
      ghost var items0 := Abs().items;
      var take := if items.len - idx > limit then limit else items.len - idx;
      out := Window(idx, idx + take);
      Untouched();
      assert items0[idx..][..take] == items0[idx..idx + take];
      assert items0[idx..] == items0[idx..|items0|];
      more := items.len - idx > limit;
    }

    method TailOffset(limit: int, offset: int) returns (out: seq<Item>, more: bool)
      requires Valid()
      ensures var (window, rest) := Tail(Abs().items, limit, offset);
              out == MaterialiseAll(window) && more == rest
      ensures TailAnswers(Abs().items, limit, offset, out, more)
    {
      hide Represents, TailAnswers;
      TailMeans(Abs().items, limit, offset);
      if limit <= 0 || offset < 0 || offset >= items.len {
        return [], false;
      }
      var end := items.len - offset;
      var start := end - limit;
      more := start > 0;
      out := Window(if start < 0 then 0 else start, end);
      Untouched();
    }

    method GetByID(id: string) returns (r: Option<Item>)
      requires Valid()
      ensures match IndexOfId(Abs().items, id)
              case None => r == None
              case Some(i) => r == Some(Materialise(Abs().items[i]))
      ensures IdAnswers(Abs(), id, r)
    {
      hide Represents, IndexOfId, IdAnswers;
      Reading();
      GetMeans(Abs(), id, 0);
      ReadId(id);
      if id !in byID {
        return None;
      }
      assert View(byID[id]) == Abs().items[IndexOfId(Abs().items, id).value];
      return Some(Materialise(View(byID[id])));
    }

    method GetBySeq(sq: nat) returns (r: Option<Item>)
      requires Valid()
      ensures match IndexOfSeq(Abs().items, sq)
              case None => r == None
              case Some(i) => r == Some(Materialise(Abs().items[i]))
      ensures SeqAnswers(Abs(), sq, r)
    {
      hide Represents, IndexOfSeq, SeqAnswers;
      Reading();
      GetMeans(Abs(), "", sq);
      ReadSeq(sq);
      if sq !in bySeq {
        return None;
      }
      assert View(bySeq[sq]) == Abs().items[IndexOfSeq(Abs().items, sq).value];
      return Some(Materialise(View(bySeq[sq])));
    }

    /** approxSizeBytesLocked: equal to the full walk, less what /rebuild failed to install. */
    method ApproxSizeBytes() returns (n: int)
      requires Valid()
      ensures n == 64 + Sum(Abs().items, WalkCost) - Shortfall(Abs())
    {
      hide Represents;
      n := 64 + items.len * 32 + bytes + |byID| * 32 + idKeyBytes + |bySeq| * 16;
      Reading();
      RepParts(Live(), byID, bySeq, lastSeq, bytes);
      IndexSizes(Live(), byID, bySeq, lastSeq);
      WalkSum(Live(), Abs().items);
    }
  }

  // What one item costs the memory estimate: its slot, its bytes, its index entries.
  function WalkCost(x: Item): int {
    32 + ItemSize(x) + (if x.id != "" then 32 + |x.id| else 0) + 16
  }

  lemma {:induction false} WalkSum(hs: seq<Slot>, items: seq<Item>)
    requires Mirrors(hs, items)
    ensures Sum(items, WalkCost) == 48 * |hs| + Sum(items, ItemSize) + 32 * CountIds(hs) + Sum(items, IdSize)
  {
    if hs != [] {
      assert hs[0].id == items[0].id;
      forall i | 0 <= i < |hs[1..]| ensures hs[1..][i] == hs[i + 1] && items[1..][i] == items[i + 1] {}
      WalkSum(hs[1..], items[1..]);
    }
  }
}
