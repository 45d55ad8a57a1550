/** The store over its buffers: lookup, creation, rollback, the public operations and their events. */
module StoreHeap {
  import opened Types
  import opened Sums
  import opened ScopeSpec
  import opened BufferSpec
  import opened Slots
  import opened Buffer
  import opened StoreSpec
  import opened StoreLaws
  import opened StoreBulk
  import opened StoreEvents
  import opened BulkBuild

  // The storage of one buffer, its counter cells included.
  ghost function Own(b: ScopeBuffer): set<object>
    reads b, b.items
  {
    b.Repr() + b.Cells()
  }

  ghost function HeldBy(b: ScopeBuffer): Held
    reads b, b.items, b.Cells()
  {
    Held(b.Abs(), b.lastWriteTS)
  }

  // A buffer none of whose storage moved.
  twostate predicate Kept(b: ScopeBuffer)
    reads Own(b)
  {
    && b.Valid() == old(b.Valid()) && HeldBy(b) == old(HeldBy(b)) && Own(b) == old(Own(b))
    && b.detached == old(b.detached) && b.ledger == old(b.ledger) && b.maxItems == old(b.maxItems)
  }

  twostate lemma {:induction false} KeptBy(b: ScopeBuffer)
    requires forall o :: o in old(Own(b)) ==> unchanged(o)
    ensures Kept(b)
  {
    assert b in old(Own(b)) && old(b.items) in old(Own(b)) && old(b.items.data) in old(Own(b));
    assert b.Cells() == old(b.Cells());
    assert forall c :: c in old(b.Cells()) ==> c in old(Own(b));
  }

  // What a buffer owns is there, and is neither the store nor its counters.
  twostate lemma {:induction false} OwnKinds(b: ScopeBuffer)
    ensures forall o :: o in old(Own(b)) ==> old(allocated(o)) && !(o is Ledger) && !(o is LiveStore)
  {
  }

  // Its storage is what it was, or new.
  twostate predicate Grown(b: ScopeBuffer)
    reads b, b.items
  {
    forall o :: o in Own(b) ==> o in old(Own(b)) || fresh(o)
  }

  class LiveStore {
    const cfg: Config
    const ledger: Ledger
    var scopes: map<string, ScopeBuffer>
    var drops: nat

    ghost function Footprint(): set<object>
      reads *
    {
      set n, o | n in scopes && o in Own(scopes[n]) :: o
    }

    // The storage of the store is what it was, or new.
    twostate predicate Spread()
      reads *
    {
      forall o :: o in Footprint() ==> o in old(Footprint()) || fresh(o)
    }

    // What must hold of the buffer mapped under a name.
    ghost predicate Serves(name: string, b: ScopeBuffer)
      reads b, b.items, b.items.data
    {
      b.Valid() && !b.detached && b.ledger == ledger && b.maxItems == cfg.MaxItemsFor(name)
    }

    ghost predicate Valid()
      reads *
    {
      && ledger.cfg == cfg
      && (forall n :: n in scopes ==> Serves(n, scopes[n]))
      && (forall m, n :: m in scopes && n in scopes && m != n ==> Own(scopes[m]) !! Own(scopes[n]))
    }

    ghost function Table(): map<string, Held>
      reads *
    {
      map n | n in scopes :: HeldBy(scopes[n])
    }

    /** The abstract store this one stands for. */
    ghost function View(): Store
      reads *
    {
      Store(Table(), ledger.totalBytes, ledger.totalItems, ledger.scopeCount, ledger.lastWriteTS, drops)
    }

    twostate lemma {:induction false} NoneMoved()
      requires old(Valid()) && scopes == old(scopes) && forall n :: n in scopes ==> Kept(scopes[n])
      ensures Valid() && Table() == old(Table()) && Spread()
    {
      hide HeldBy, Own, ScopeBuffer.Valid;
      forall n | n in scopes ensures Serves(n, scopes[n]) { assert old(Serves(n, scopes[n])); }
    }

    constructor (cfg: Config)
      ensures Valid() && View() == BOOT && fresh(ledger)
      ensures forall n :: n in scopes ==> fresh(Own(scopes[n]))
    {
      hide HeldBy, Own, Serves, ScopeBuffer.Valid;
      this.cfg := cfg;
      ledger := new Ledger(cfg);
      scopes := map[];
      drops := 0;
      new;
      assert View() == Store(map[], 0, 0, 0, 0, 0);
      InitReserved();
    }

    /** initReservedScopes, at boot and again inside /wipe and /rebuild. */
    method InitReserved()
      requires Valid() && EVENTS !in scopes && INBOX !in scopes
      modifies this`scopes, ledger
      ensures Valid() && View() == WithReserved(old(View()))
      ensures scopes.Keys == old(scopes).Keys + {EVENTS, INBOX}
      ensures forall n :: n in old(scopes) ==> scopes[n] == old(scopes)[n]
      ensures fresh(Own(scopes[EVENTS])) && fresh(Own(scopes[INBOX]))
    {
      hide HeldBy, Own, Serves, ScopeBuffer.Valid, Valid, Table;
      ViewNames();
      Charge();
      Link(EVENTS, ledger.lastWriteTS);
      Charge();
      Link(INBOX, ledger.lastWriteTS);
    }

    method Charge()
      requires Valid()
      modifies ledger`totalBytes
      ensures Valid() && View() == old(View()).(total := old(ledger.totalBytes) + SCOPE_OVERHEAD)
    {
      hide HeldBy, Own, Serves, ScopeBuffer.Valid;
      ledger.totalBytes := ledger.totalBytes + SCOPE_OVERHEAD;
      forall n | n in scopes ensures Kept(scopes[n]) {
        OwnKinds(scopes[n]);
        KeptBy(scopes[n]);
      }
      NoneMoved();
    }

    // Put a new empty buffer under a free name, with no counter touched.
    method Map(name: string, now: int)
      requires Valid() && name !in scopes
      modifies this`scopes
      ensures Valid() && Spread()
      ensures View() == CreateScope(old(View()), name, now).(total := old(ledger.totalBytes), count := old(ledger.scopeCount))
      ensures name in scopes && scopes == old(scopes)[name := scopes[name]] && fresh(Own(scopes[name])) && fresh(scopes[name])
    {
      hide HeldBy, Own, Serves, ScopeBuffer.Valid;
      var buf := NewBuffer(name, now);
      label Made:
      scopes := scopes[name := buf];
      forall n | n in old(scopes) ensures Kept(scopes[n]) {
        OwnKinds(scopes[n]);
        KeptBy(scopes[n]);
      }
      OwnKinds@Made(buf);
      KeptBy@Made(buf);
      Added(name);
    }

    // The same, and count it; its overhead is charged already.
    method Link(name: string, now: int)
      requires Valid() && name !in scopes
      modifies this`scopes, ledger`scopeCount
      ensures Valid() && Spread()
      ensures View() == CreateScope(old(View()), name, now).(total := old(ledger.totalBytes))
      ensures name in scopes && scopes == old(scopes)[name := scopes[name]] && fresh(Own(scopes[name])) && fresh(scopes[name])
    {
      hide HeldBy, Own, Serves, ScopeBuffer.Valid, Valid, Table;
      Map(name, now);
      CountScopes(1);
    }

    method CountScopes(added: int)
      requires Valid()
      modifies ledger`scopeCount
      ensures Valid() && Spread() && View() == old(View()).(count := old(ledger.scopeCount) + added)
    {
      hide HeldBy, Own, Serves, ScopeBuffer.Valid;
      ledger.scopeCount := ledger.scopeCount + added;
      forall n | n in scopes ensures Kept(scopes[n]) {
        OwnKinds(scopes[n]);
        KeptBy(scopes[n]);
      }
      NoneMoved();
    }

    /**
      getOrCreateScopeTrackingCreated: the buffer under the name, made if it is not there
      and its overhead fits.
     */
    method GetOrCreate(name: string, now: int) returns (created: bool, e: Option<Error>)
      requires Valid()
      modifies this`scopes, ledger`totalBytes, ledger`scopeCount
      ensures Valid() && Spread()
      ensures name in old(scopes) ==> e.None? && !created && scopes == old(scopes) && View() == old(View())
      ensures name !in old(scopes) && !Admits(old(ledger.totalBytes), cfg.maxStoreBytes, SCOPE_OVERHEAD) ==>
                && e == Some(StoreFull(old(ledger.totalBytes), SCOPE_OVERHEAD, cfg.maxStoreBytes))
                && !created && scopes == old(scopes) && View() == old(View())
      ensures name !in old(scopes) && Admits(old(ledger.totalBytes), cfg.maxStoreBytes, SCOPE_OVERHEAD) ==>
                && e.None? && created && View() == CreateScope(old(View()), name, now)
                && name in scopes && scopes == old(scopes)[name := scopes[name]] && fresh(Own(scopes[name])) && fresh(scopes[name])
    {
      hide HeldBy, Own, Serves, ScopeBuffer.Valid;
      if name in scopes {
        return false, None;
      }
      e := ledger.ReserveBytes(SCOPE_OVERHEAD);
      forall n | n in scopes ensures Kept(scopes[n]) {
        OwnKinds(scopes[n]);
        KeptBy(scopes[n]);
      }
      NoneMoved();
      if e.Some? {
        return false, e;
      }
      Link(name, now);
      return true, None;
    }

    method NewBuffer(name: string, now: int) returns (buf: ScopeBuffer)
      ensures Serves(name, buf) && HeldBy(buf) == Held(EMPTY_SCOPE, now) && fresh(Own(buf)) && fresh(buf)
    {
      buf := new ScopeBuffer(ledger, cfg.MaxItemsFor(name), now);
    }

    // A new buffer joins the others, which did not move.
    twostate lemma {:induction false} Added(name: string)
      requires old(Valid()) && name !in old(scopes) && name in scopes && scopes == old(scopes)[name := scopes[name]]
      requires forall n :: n in old(scopes) ==> Kept(old(scopes)[n])
      requires Serves(name, scopes[name]) && fresh(Own(scopes[name]))
      ensures Valid() && Table() == old(Table())[name := HeldBy(scopes[name])] && Spread()
    {
      hide HeldBy, Own, ScopeBuffer.Valid;
      forall n | n in scopes ensures Serves(n, scopes[n]) {
        if n != name { assert old(Serves(n, scopes[n])); assert Kept(scopes[n]); }
      }
      AddedApart(name);
      AddedTable(name);
      AddedSpread(name);
    }

    twostate lemma {:induction false} AddedApart(name: string)
      requires old(Valid()) && name !in old(scopes) && name in scopes && scopes == old(scopes)[name := scopes[name]]
      requires forall n :: n in old(scopes) ==> Kept(old(scopes)[n])
      requires fresh(Own(scopes[name]))
      ensures forall m, n :: m in scopes && n in scopes && m != n ==> Own(scopes[m]) !! Own(scopes[n])
    {
      hide HeldBy, Own, Serves;
      forall m, n | m in scopes && n in scopes && m != n ensures Own(scopes[m]) !! Own(scopes[n]) {
        if m != name { assert Kept(scopes[m]); OwnKinds(scopes[m]); }
        if n != name { assert Kept(scopes[n]); OwnKinds(scopes[n]); }
      }
    }

    twostate lemma {:induction false} AddedSpread(name: string)
      requires name in scopes && scopes == old(scopes)[name := scopes[name]]
      requires forall n :: n in old(scopes) && n != name ==> Kept(old(scopes)[n])
      requires forall o :: o in Own(scopes[name]) ==> fresh(o) || (name in old(scopes) && o in old(Own(scopes[name])))
      ensures Spread()
    {
      hide HeldBy, Own, ScopeBuffer.Valid;
      forall o | o in Footprint() ensures o in old(Footprint()) || fresh(o) {
        var n :| n in scopes && o in Own(scopes[n]);
        if n != name { assert Kept(old(scopes)[n]); }
      }
    }

    twostate lemma {:induction false} AddedTable(name: string)
      requires name in scopes && scopes == old(scopes)[name := scopes[name]]
      requires forall n :: n in old(scopes) && n != name ==> Kept(old(scopes)[n])
      ensures Table() == old(Table())[name := HeldBy(scopes[name])]
    {
      hide HeldBy, Own, ScopeBuffer.Valid;
    }

    // One buffer changed, the others did not move.
    twostate lemma {:induction false} OneMoved(name: string)
      requires old(Valid()) && scopes == old(scopes) && name in scopes
      requires forall n :: n in scopes && n != name ==> Kept(scopes[n])
      requires Serves(name, scopes[name]) && Grown(scopes[name])
      ensures Valid() && Table() == old(Table())[name := HeldBy(scopes[name])] && Spread()
    {
      hide HeldBy, Own, ScopeBuffer.Valid;
      forall n | n in scopes ensures Serves(n, scopes[n]) {
        if n != name { assert old(Serves(n, scopes[n])); assert Kept(scopes[n]); }
      }
      forall m, n | m in scopes && n in scopes && m != n ensures Own(scopes[m]) !! Own(scopes[n]) {
        if m != name { assert Kept(scopes[m]); OwnKinds(scopes[m]); }
        if n != name { assert Kept(scopes[n]); OwnKinds(scopes[n]); }
      }
      AddedTable(name);
      AddedSpread(name);
    }

    // ---- one operation on one buffer ----

    twostate lemma {:induction false} Refold(name: string)
      requires old(Valid()) && scopes == old(scopes) && name in scopes
      requires forall n :: n in scopes && n != name ==> Kept(scopes[n])
      requires scopes[name].Valid() && scopes[name].Framed() && !scopes[name].detached
      requires drops == old(drops)
      ensures Valid() && View() == PutBack(old(View()), name, scopes[name].Snapshot()) && Spread()
    {
      hide ScopeBuffer.Valid;
      var b := scopes[name];
      assert old(Serves(name, b));
      assert Grown(b);
      OneMoved(name);
    }

    // The snapshot a buffer of the store presents is the abstract one.
    lemma {:induction false} SnapIsView(name: string)
      requires Valid() && name in scopes
      ensures scopes[name].Snapshot() == SnapOf(View(), View().scopes[name])
      ensures !scopes[name].detached && scopes[name].Valid() && scopes[name].ledger == ledger && name in View().scopes && scopes[name].EnvFor(name) == EnvOf(cfg, name)
    {
      hide ScopeBuffer.Valid, ScopeBuffer.Abs;
      assert Serves(name, scopes[name]);
    }

    // The buffer call a request stands for.
    method CallBuffer(name: string, r: Request, now: int) returns (result: Result<Option<Reply>>)
      requires Valid() && name in scopes && !r.DeleteScopeReq? && name == r.scope && (r.CounterReq? ==> r.id != "")
      modifies ledger, Own(scopes[name])
      ensures Valid() && scopes == old(scopes) && Spread()
      ensures (View(), result) == CallScope(cfg, old(View()), name, OpOf(cfg, r), now)
    {
      hide HeldBy, Own, Serves, ScopeBuffer.Valid, Perform, Table;
      SnapIsView(name);
      var buf := scopes[name];
      OwnKinds(buf);
      result := Dispatch(buf, ledger, r, now);
      assert scopes == old(scopes) && drops == old(drops);
      forall n | n in scopes && n != name ensures Kept(scopes[n]) {
        OwnKinds(scopes[n]);
        KeptBy(scopes[n]);
      }
      KeepsAttached(EnvOf(cfg, name), old(buf.Snapshot()), OpOf(cfg, r), now);
      Refold(name);
    }

    // A buffer left the map, the others did not move.
    twostate lemma {:induction false} Removed(name: string)
      requires old(Valid()) && name in old(scopes) && scopes == old(scopes) - {name}
      requires forall n :: n in scopes ==> Kept(scopes[n])
      ensures Valid() && Table() == old(Table()) - {name} && Spread()
    {
      hide HeldBy, Own, ScopeBuffer.Valid;
      forall n | n in scopes ensures Serves(n, scopes[n]) { assert old(Serves(n, scopes[n])); }
    }

    // What the two ways to unlink a scope share.
    method Unlink(name: string, bytes: int, count: int)
      requires Valid() && name in scopes
      modifies this`scopes, ledger`totalBytes, ledger`totalItems, ledger`scopeCount, scopes[name]
      ensures Valid() && Spread()
      ensures View() == old(View()).(scopes := old(View()).scopes - {name}, total := old(ledger.totalBytes) - (bytes + SCOPE_OVERHEAD),
                                     items := old(ledger.totalItems) - count, count := old(ledger.scopeCount) - 1)
      ensures old(scopes)[name].detached && old(scopes)[name].ledger == null
    {
      hide HeldBy, Own, Serves, ScopeBuffer.Valid;
      SnapIsView(name);
      var buf := scopes[name];
      BufInOwn(buf);
      scopes := scopes - {name};
      ledger.totalBytes := ledger.totalBytes - (bytes + SCOPE_OVERHEAD);
      ledger.totalItems := ledger.totalItems - count;
      ledger.scopeCount := ledger.scopeCount - 1;
      OwnKinds(buf);
      KeptBy(buf);
      buf.Detach();
      forall n | n in scopes ensures Kept(scopes[n]) {
        OwnKinds(scopes[n]);
        KeptBy(scopes[n]);
      }
      Removed(name);
    }

    twostate lemma {:induction false} BufInOwn(b: ScopeBuffer)
      ensures b in old(Own(b))
    {
    }

    /** cleanupIfEmptyAndUnused: only the caller's own buffer, only while mapped, only while empty. */
    method Cleanup(name: string, buf: ScopeBuffer)
      requires Valid()
      modifies this`scopes, ledger`totalBytes, ledger`totalItems, ledger`scopeCount
      modifies if name in scopes && scopes[name] == buf then {buf} else {}
      ensures Valid() && Spread()
      ensures View() == if name in old(scopes) && old(scopes)[name] == buf then Rollback(old(View()), name) else old(View())
      ensures name in old(scopes) && old(scopes)[name] == buf && old(|buf.Abs().items|) == 0 ==>
                View() == old(View()).(scopes := old(View()).scopes - {name}, total := old(View()).total - 1024, count := old(View()).count - 1)
      ensures !(name in old(scopes) && old(scopes)[name] == buf && old(|buf.Abs().items|) == 0) ==> View() == old(View())
    {
      hide Own, Serves, ScopeBuffer.Valid;
      if name !in scopes || scopes[name] != buf {
        return;
      }
      SnapIsView(name);
      LiveLength(buf);
      if buf.items.len != 0 {
        return;
      }
      Unlink(name, 0, 0);
    }

    lemma {:induction false} LiveLength(b: ScopeBuffer)
      requires b.Valid()
      ensures b.items.len == |b.Abs().items|
    {
    }

    /** deleteScope, up to its event. */
    method DropNamed(name: string, now: int) returns (result: Result<Option<Reply>>)
      requires Valid()
      modifies this`scopes, ledger, if name in scopes then {scopes[name]} else {}
      ensures Valid() && Spread()
      ensures name !in old(scopes) ==> View() == old(View()) && result == Ok(None)
      ensures name in old(scopes) ==>
                && View() == DropScope(old(View()), name, now)
                && result == Ok(Some(CountReply(|old(View()).scopes[name].scope.items|)))
    {
      hide Own, Serves, ScopeBuffer.Valid, ScopeBuffer.Abs;
      if name !in scopes {
        return Ok(None);
      }
      SnapIsView(name);
      var buf := scopes[name];
      LiveLength(buf);
      buf.Reading();
      var count, bytes := buf.items.len, buf.bytes;
      Unlink(name, bytes, count);
      label Unlinked:
      ledger.BumpLastWriteTS(now);
      forall n | n in scopes ensures Kept@Unlinked(scopes[n]) {
        OwnKinds@Unlinked(scopes[n]);
        KeptBy@Unlinked(scopes[n]);
      }
      NoneMoved@Unlinked();
      return Ok(Some(CountReply(count)));
    }

    // ---- the public operations ----

    lemma {:induction false} Owned(name: string)
      requires name in scopes
      ensures Own(scopes[name]) <= Footprint() && scopes[name] in Footprint()
    {
    }

    /** A request up to the point where it would emit its event. */
    method Commit(r: Request, now: int) returns (result: Result<Option<Reply>>)
      requires Valid()
      modifies this`scopes, ledger, Footprint()
      ensures Valid() && Spread() && drops == old(drops)
      ensures (View(), result) == Write(cfg, old(View()), r, now)
    {
      hide Own, Serves, ScopeBuffer.Valid, HeldBy, Valid, OpOf, Perform, Footprint;
      if !Accepts(cfg, r) {
        return Err(Invalid);
      }
      AcceptedId(cfg, r);
      if r.scope in scopes { Owned(r.scope); }
      ViewNames();
      if r.DeleteScopeReq? {
        result := DropNamed(r.scope, now);
        return;
      }
      var created := false;
      if CreatesScope(r) {
        var e;
        created, e := GetOrCreate(r.scope, now);
        if e.Some? {
          return Err(e.value);
        }
      } else if r.scope !in scopes {
        return Ok(None);
      }
      var buf := scopes[r.scope];
      result := CallBuffer(r.scope, r, now);
      if result.Err? {
        if created {
          Cleanup(r.scope, buf);
        }
        return;
      }
      if created && r.CounterReq? {
        Bump(now);
      }
    }

    lemma {:induction false} ViewNames()
      ensures View().scopes.Keys == scopes.Keys
    {
    }

    method Bump(now: int)
      requires Valid()
      modifies ledger`lastWriteTS
      ensures Valid() && Spread() && View() == old(View()).(writeTS := Max(old(ledger.lastWriteTS), now))
    {
      hide HeldBy, Own, Serves, ScopeBuffer.Valid;
      ledger.BumpLastWriteTS(now);
      forall n | n in scopes ensures Kept(scopes[n]) {
        OwnKinds(scopes[n]);
        KeptBy(scopes[n]);
      }
      NoneMoved();
    }

    /** appendOne and its siblings: commit, then emit outside every lock. */
    method Submit(r: Request, now: int, later: int) returns (result: Result<Option<Reply>>)
      requires Valid()
      modifies this`scopes, this`drops, ledger, Footprint()
      ensures Valid() && Spread()
      ensures (View(), result) == Single(cfg, old(View()), r, now, later)
      decreases if r.scope == EVENTS then 0 else 2, 0
    {
      hide Valid, Table, Write, Emit, Footprint, EventOf;
      result := Commit(r, now);
      if result.Ok? && result.value.Some? && EventsEnabled(cfg, r.scope) {
        EmitEvent(EventOf(r, result.value.value, later), later);
      }
    }

    /** emitEvent: whatever goes wrong with the event is counted, and nothing else. */
    method EmitEvent(e: WriteEvent, now: int)
      requires Valid()
      modifies this`scopes, this`drops, ledger, Footprint()
      ensures Valid() && Spread()
      ensures View() == Emit(cfg, old(View()), e, now)
      decreases 1, 0
    {
      hide Valid, Table, Write, Single, Footprint, Carried;
      match cfg.codec.marshal(Carried(cfg, e))
      case None =>
        CountDrop();
      case Some(body) =>
        var r := Submit(AppendReq(EVENTS, "", body, 0, 0), now, now);
        if r.Err? {
          CountDrop();
        }
    }

    method CountDrop()
      requires Valid()
      modifies this`drops
      ensures Valid() && Spread() && View() == old(View()).(drops := old(drops) + 1)
    {
      hide HeldBy, Own, Serves, ScopeBuffer.Valid;
      drops := drops + 1;
      forall n | n in scopes ensures Kept(scopes[n]) {
        OwnKinds(scopes[n]);
        KeptBy(scopes[n]);
      }
      NoneMoved();
    }

    // ---- /wipe ----

    // Detach every mapped buffer, one lock at a time.
    method DetachAll() returns (count: nat, items: int)
      requires Valid()
      modifies set n | n in scopes :: scopes[n]
      ensures scopes == old(scopes) && count == |scopes| && ledger.cfg == cfg
      ensures items == MapSum(old(Table()), Count)
      ensures forall n :: n in scopes ==> scopes[n].detached && scopes[n].ledger == null
    {
      hide Own, ScopeBuffer.Valid, MapSum, Table, Count, Serves, Awaits, Valid;
      AllDifferent();
      Lengths();
      var left := scopes.Keys;
      ghost var rest := Table();
      count, items := 0, 0;
      while left != {}
        invariant left <= scopes.Keys && count + |left| == |scopes.Keys|
        invariant rest.Keys == left && items + MapSum(rest, Count) == MapSum(old(Table()), Count)
        invariant forall n :: n in left ==> Awaits(scopes[n], rest[n])
        invariant forall n :: n in scopes && n !in left ==> scopes[n].detached && scopes[n].ledger == null
        decreases |left|
      {
        var n :| n in left;
        MapSumRemove(rest, Count, n);
        label Before:
        var size := DetachOne(scopes[n], rest[n]);
        items := items + size;
        forall k | k in left && k != n ensures Awaits(scopes[k], rest[k]) { StillAwaits@Before(scopes[k], rest[k]); }
        left, rest := left - {n}, rest - {n};
        count := count + 1;
      }
      NothingLeft(rest);
    }

    // A buffer yet to be detached, with the items the table says.
    ghost predicate Awaits(b: ScopeBuffer, h: Held)
      reads b.Repr(), b, b.items
    {
      b.Valid() && b.items.len == Count(h)
    }

    method DetachOne(b: ScopeBuffer, ghost h: Held) returns (size: int)
      requires Awaits(b, h)
      modifies b`detached, b`ledger
      ensures b.detached && b.ledger == null && size == Count(h)
    {
      hide ScopeBuffer.Valid;
      size := b.items.len;
      b.Detach();
    }

    twostate lemma {:induction false} StillAwaits(b: ScopeBuffer, new h: Held)
      requires old(Awaits(b, h)) && unchanged(b) && unchanged(old(b.items)) && unchanged(old(b.items.data))
      ensures Awaits(b, h)
    {
    }

    lemma {:induction false} Lengths()
      requires Valid()
      ensures Table().Keys == scopes.Keys && forall n :: n in scopes ==> Awaits(scopes[n], Table()[n])
    {
      hide ScopeBuffer.Valid;
      forall n | n in scopes ensures n in Table() && Awaits(scopes[n], Table()[n]) {
        assert Serves(n, scopes[n]);
        LiveLength(scopes[n]);
      }
    }

    lemma {:induction false} AllDifferent()
      requires Valid()
      ensures ledger.cfg == cfg
      ensures forall m, n :: m in scopes && n in scopes && m != n ==> scopes[m] != scopes[n]
    {
      hide ScopeBuffer.Valid;
      forall m, n | m in scopes && n in scopes && m != n ensures scopes[m] != scopes[n] {
        assert scopes[m] in Own(scopes[m]) && scopes[n] in Own(scopes[n]);
      }
    }

    /** wipe: every buffer detached, every counter reset, the reserved scopes made anew. */
    method Wipe(now: int) returns (scopeCount: nat, totalItems: int, freedBytes: int)
      requires Valid()
      modifies this`scopes, ledger, set n | n in scopes :: scopes[n]
      ensures Valid() && View() == StoreSpec.Wipe(old(View()), now) && scopes.Keys == {EVENTS, INBOX}
      ensures scopeCount == |old(scopes)| && freedBytes == old(ledger.totalBytes)
      ensures totalItems == MapSum(old(View()).scopes, Count)
      ensures forall n :: n in old(scopes) ==> old(scopes)[n].detached
    {
      hide Own, Serves, HeldBy, ScopeBuffer.Valid, Valid, Table, MapSum, WithReserved;
      scopeCount, totalItems := DetachAll();
      freedBytes := ledger.totalBytes;
      StartOver(now);
    }

    method StartOver(now: int)
      requires ledger.cfg == cfg
      modifies this`scopes, ledger
      ensures Valid() && scopes.Keys == {EVENTS, INBOX}
      ensures View() == WithReserved(Store(map[], 0, 0, 0, Max(old(ledger.lastWriteTS), now), drops))
    {
      hide Own, Serves, HeldBy, ScopeBuffer.Valid, Valid, Table;
      Clear(now);
      InitReserved();
    }

    // Counters to zero, the map emptied.
    method Clear(now: int)
      requires ledger.cfg == cfg
      modifies this`scopes, ledger
      ensures Valid() && scopes == map[]
      ensures View() == Store(map[], 0, 0, 0, Max(old(ledger.lastWriteTS), now), drops)
    {
      hide Own, Serves, HeldBy;
      ledger.totalBytes, ledger.totalItems, ledger.scopeCount := 0, 0, 0;
      ledger.BumpLastWriteTS(now);
      scopes := map[];
    }

    // ---- /warm ----

    // Phase 1.5: what each batch scope holds now, and the net growth of the whole batch.
    method Measure(plans: seq<Plan>, ghost targets: seq<Target>) returns (delta: int, olds: seq<int>)
      requires Valid() && RealisesAll(plans, targets)
      ensures delta == Sum(targets, BytesOver(View().scopes)) && |olds| == |plans|
      ensures forall i :: 0 <= i < |olds| ==> olds[i] == OldScope(View().scopes, targets[i].name).Bytes()
      ensures Valid() && View() == old(View())
    {
      hide HeldBy, Own, Serves, ScopeBuffer.Valid, Valid, Table, Sum;
      delta, olds := 0, [];
      ViewNames();
      assert targets[..0] == [];
      SumZero(targets[..0], BytesOver(View().scopes));
      for i := 0 to |plans|
        invariant |olds| == i && delta == Sum(targets[..i], BytesOver(View().scopes))
        invariant forall j :: 0 <= j < i ==> olds[j] == OldScope(View().scopes, targets[j].name).Bytes()
      {
        assert Realises(plans[i], targets[i]);
        var size := StoredBytes(plans[i].name);
        delta := delta + plans[i].newBytes - size + if plans[i].name in scopes then 0 else SCOPE_OVERHEAD;
        olds := olds + [size];
        assert targets[..i + 1] == targets[..i] + [targets[i]];
        SumAppend(targets[..i], targets[i], BytesOver(View().scopes));
      }
      assert targets[..|targets|] == targets;
    }

    method StoredBytes(name: string) returns (n: int)
      requires Valid()
      ensures n == OldScope(View().scopes, name).Bytes()
    {
      hide HeldBy, Own, Serves, ScopeBuffer.Valid, ScopeBuffer.Abs;
      if name !in scopes {
        assert EMPTY_SCOPE.Bytes() == 0;
        return 0;
      }
      SnapIsView(name);
      scopes[name].Reading();
      return scopes[name].bytes;
    }

    // Phase 2 on one scope: make it if need be, then swap its content in.
    method CommitOne(plan: Plan, size: int, now: int, ghost target: Target) returns (added: bool)
      requires Valid() && Realises(plan, target) && size == OldScope(View().scopes, target.name).Bytes()
      modifies this`scopes, ledger`totalBytes, ledger`totalItems, ledger`lastWriteTS
      modifies if plan.name in scopes then Own(scopes[plan.name]) else {}
      ensures Valid() && Spread() && added == (target.name !in old(View()).scopes)
      ensures View() == Committed(old(View()), target, now)
    {
      hide HeldBy, Own, Serves, ScopeBuffer.Valid, Valid, Table, Installs, ScopeBuffer.Abs;
      var name := plan.name;
      ViewNames();
      added := name !in scopes;
      if added {
        Map(name, now);
      }
      label Mapped:
      EmptyOld(old(View()), View(), name, now);
      Swap(name, plan, size, now, target);
    }

    // The swap itself.
    method Swap(name: string, plan: Plan, size: int, now: int, ghost target: Target)
      requires Valid() && Realises(plan, target) && name == plan.name && name in scopes
      requires size == OldScope(View().scopes, name).Bytes()
      modifies ledger`totalBytes, ledger`totalItems, ledger`lastWriteTS, Own(scopes[name])
      ensures Valid() && Spread() && scopes == old(scopes)
      ensures View() == Committed(old(View()), target, now)
    {
      hide HeldBy, Own, Serves, ScopeBuffer.Valid, Installs, Table, ScopeBuffer.Abs;
      var buf := scopes[name];
      SnapIsView(name);
      OwnKinds(buf);
      ReprInOwn(buf);
      CommitSwap(buf, ledger, plan, size, now, target);
      assert scopes == old(scopes) && drops == old(drops);
      forall n | n in scopes && n != name ensures Kept(scopes[n]) {
        OwnKinds(scopes[n]);
        KeptBy(scopes[n]);
      }
      Refold(name);
    }

    // Phase 2 on the whole batch; it cannot fail.
    method CommitAll(plans: seq<Plan>, olds: seq<int>, now: int, ghost targets: seq<Target>) returns (added: int)
      requires Valid() && RealisesAll(plans, targets) && DistinctTargets(targets) && |olds| == |plans|
      requires forall i :: 0 <= i < |olds| ==> olds[i] == OldScope(View().scopes, targets[i].name).Bytes()
      modifies this`scopes, ledger`totalBytes, ledger`totalItems, ledger`lastWriteTS, Footprint()
      ensures Valid() && Spread() && View() == CommittedAll(old(View()), targets, now)
      ensures added == Sum(targets, ScopesOver(old(View()).scopes))
    {
      hide HeldBy, Own, Serves, ScopeBuffer.Valid, Valid, Table, Sum, CommittedAll, Committed, Realises, Install, Footprint;
      added := 0;
      ghost var st := View();
      CommittedNone(st, targets, now);
      for i := 0 to |plans|
        invariant Valid() && Spread()
        invariant View() == CommittedAll(st, targets[..i], now)
        invariant added == Sum(targets[..i], ScopesOver(st.scopes))
      {
        CommittedNext(st, targets, i, now);
        ViewNames();
        NameOf(plans[i], targets[i]);
        if plans[i].name in scopes { Owned(plans[i].name); }
        var isNew := CommitOne(plans[i], olds[i], now, targets[i]);
        added := added + if isNew then 1 else 0;
      }
      assert targets[..|targets|] == targets;
    }

    /** replaceScopes: build everything, reserve the net growth once, then swap every scope in. */
    method ReplaceScopes(batch: seq<Entry>, now: int, later: int) returns (result: Result<nat>)
      requires Valid() && OneEntryEach(batch)
      modifies this`scopes, this`drops, ledger, Footprint()
      ensures Valid() && Spread()
      ensures (View(), result) == Warm(cfg, old(View()), batch, now, later)
    {
      hide HeldBy, Own, Serves, ScopeBuffer.Valid, Valid, Table, Sum, Realises, Install, Prepare, Emit, Footprint;
      var built := Build(cfg, batch, now);
      if built.Err? {
        return Err(built.error);
      }
      var plans := built.value;
      ghost var targets := Prepare(cfg, batch, now, [], []).value;
      PreparedGood(cfg, batch, now);
      TargetsDistinct(cfg, batch, now);
      var delta, olds := Measure(plans, targets);
      var e := Reserve(delta);
      if e.Some? {
        return Err(e.value);
      }
      label Reserved:
      var added := CommitAll(plans, olds, now, targets);
      CountScopes(added);
      assert View() == Warmed(cfg, old(View()), targets, now);
      if |plans| > 0 && cfg.mode != Off {
        EmitEvent(WarmEvent(later), later);
      }
      return Ok(|plans|);
    }

    method Reserve(delta: int) returns (e: Option<Error>)
      requires Valid()
      modifies ledger`totalBytes
      ensures Valid() && Spread()
      ensures e == if Admits(old(ledger.totalBytes), cfg.maxStoreBytes, delta) then None
                   else Some(StoreFull(old(ledger.totalBytes), delta, cfg.maxStoreBytes))
      ensures View() == old(View()).(total := old(ledger.totalBytes) + if e.None? then delta else 0)
    {
      hide HeldBy, Own, Serves, ScopeBuffer.Valid;
      e := ledger.ReserveBytes(delta);
      forall n | n in scopes ensures Kept(scopes[n]) {
        OwnKinds(scopes[n]);
        KeptBy(scopes[n]);
      }
      NoneMoved();
    }

    // ---- /rebuild ----

    // A map of buffers fit to become the store's.
    ghost predicate Fit(made: map<string, ScopeBuffer>)
      reads *
    {
      && (forall n :: n in made ==> Serves(n, made[n]))
      && (forall m, n :: m in made && n in made && m != n ==> Own(made[m]) !! Own(made[n]))
    }

    ghost function TableOf(made: map<string, ScopeBuffer>): map<string, Held>
      reads *
    {
      map n | n in made :: HeldBy(made[n])
    }

    // One buffer of the new store: its id-byte counter stays at zero.
    method BuildBuffer(plan: Plan, now: int, ghost target: Target) returns (buf: ScopeBuffer)
      requires Realises(plan, target)
      ensures Serves(plan.name, buf) && HeldBy(buf) == Held(Bare(target).scope, now) && fresh(Own(buf))
    {
      hide ScopeBuffer.Valid, Represents;
      buf := new ScopeBuffer(ledger, cfg.MaxItemsFor(plan.name), now);
      buf.Install(plan.replacement, plan.newBytes, 0, Bare(target).scope);
    }

    method BuildBuffers(plans: seq<Plan>, now: int, ghost targets: seq<Target>)
      returns (made: map<string, ScopeBuffer>, size: int, items: int)
      requires RealisesAll(plans, targets) && DistinctTargets(targets)
      ensures Fit(made) && forall n :: n in made ==> fresh(Own(made[n]))
      ensures TableOf(made) == StoreSpec.Install(map[], BareAll(targets), now)
      ensures size == Sum(targets, TargetWeight) && items == Sum(targets, TargetItems)
    {
      hide HeldBy, Own, Serves, ScopeBuffer.Valid, Sum, Realises, StoreSpec.Install, Bare;
      made, size, items := map[], 0, 0;
      ghost var bare := BareAll(targets);
      TotalsNone(targets, bare, now);
      BareDistinct(targets);
      for i := 0 to |plans|
        invariant Fit(made) && forall n :: n in made ==> fresh(Own(made[n]))
        invariant TableOf(made) == StoreSpec.Install(map[], bare[..i], now)
        invariant size == Sum(targets[..i], TargetWeight) && items == Sum(targets[..i], TargetItems)
      {
        TotalsNext(targets, i);
        InstallLast(map[], bare, i, now);
        NameOf(plans[i], targets[i]);
        BareName(targets[i]);
        NewName(bare, i, now);
        size := size + plans[i].newBytes + SCOPE_OVERHEAD;
        items := items + |plans[i].replacement.items|;
        label Before:
        ghost var others := made;
        assert plans[i].name !in TableOf(made);
        var buf := BuildBuffer(plans[i], now, targets[i]);
        made := made[plans[i].name := buf];
        forall n | n in others ensures Kept@Before(others[n]) {
          OwnKinds@Before(others[n]);
          KeptBy@Before(others[n]);
        }
        JoinFit@Before(others, plans[i].name, buf);
      }
      assert targets[..|targets|] == targets && bare[..|bare|] == bare;
    }

    lemma {:induction false} TableKeys(made: map<string, ScopeBuffer>)
      ensures TableOf(made).Keys == made.Keys
    {
    }

    // A new buffer beside others that did not move.
    twostate lemma {:induction false} JoinFit(others: map<string, ScopeBuffer>, new name: string, new buf: ScopeBuffer)
      requires old(Fit(others)) && name !in others
      requires forall n :: n in others ==> Kept(others[n])
      requires Serves(name, buf) && fresh(Own(buf))
      ensures Fit(others[name := buf]) && TableOf(others[name := buf]) == old(TableOf(others))[name := HeldBy(buf)]
      ensures forall n :: n in others ==> Own(others[n]) == old(Own(others[n]))
    {
      hide HeldBy, Own, ScopeBuffer.Valid;
      forall n | n in others ensures Serves(n, others[n]) && Own(others[n]) !! Own(buf) {
        OwnKinds(others[n]);
        assert old(Serves(n, others[n])) && Kept(others[n]);
      }
    }

    // Moved as a whole, a fit map stays fit.
    twostate lemma {:induction false} StayFit(made: map<string, ScopeBuffer>)
      requires old(Fit(made)) && forall n :: n in made ==> Kept(made[n])
      ensures Fit(made) && TableOf(made) == old(TableOf(made))
    {
      hide HeldBy, Own, ScopeBuffer.Valid;
      forall n | n in made ensures Serves(n, made[n]) { assert old(Serves(n, made[n])); }
    }

    /** rebuildAll: the input becomes the store, or nothing changes. */
    method RebuildAll(batch: seq<Entry>, now: int) returns (result: Result<nat>, totalItems: int)
      requires Valid() && OneEntryEach(batch)
      modifies this`scopes, ledger, set n | n in scopes :: scopes[n]
      ensures Valid() && totalItems == if result.Ok? then View().items else 0
      ensures (View(), result) == Rebuild(cfg, old(View()), batch, now)
    {
      hide HeldBy, Own, Serves, ScopeBuffer.Valid, Table, Sum, Realises, StoreSpec.Install, Prepare;
      var built := Build(cfg, batch, now);
      if built.Err? {
        return Err(built.error), 0;
      }
      ghost var targets := Prepare(cfg, batch, now, [], []).value;
      PreparedGood(cfg, batch, now);
      TargetsDistinct(cfg, batch, now);
      var made, size, items := BuildBuffers(built.value, now, targets);
      if size + RESERVED_OVERHEAD > cfg.maxStoreBytes {
        forall n | n in scopes ensures Kept(scopes[n]) {
          OwnKinds(scopes[n]);
          KeptBy(scopes[n]);
        }
        NoneMoved();
        return Err(StoreFull(0, size + RESERVED_OVERHEAD, cfg.maxStoreBytes)), 0;
      }
      label Built:
      var _, _ := DetachAll();
      forall n | n in made ensures Kept@Built(made[n]) {
        OwnKinds@Built(made[n]);
        KeptBy@Built(made[n]);
      }
      StayFit@Built(made);
      NoReservedTargets(cfg, batch, now);
      assert TableOf(made).Keys == made.Keys by { TableKeys(made); }
      Adopt(made, size, items, |built.value|, now);
      InitReserved();
      return Ok(|built.value|), items;
    }

    // Swap the map in and set all three counters.
    method Adopt(made: map<string, ScopeBuffer>, size: int, items: int, count: int, now: int)
      requires ledger.cfg == cfg && Fit(made)
      modifies this`scopes, ledger
      ensures Valid() && scopes == made
      ensures View() == Store(old(TableOf(made)), size, items, count, Max(old(ledger.lastWriteTS), now), drops)
    {
      hide HeldBy, Own, Serves, ScopeBuffer.Valid;
      scopes := made;
      ledger.totalBytes, ledger.totalItems, ledger.scopeCount := size, items, count;
      ledger.BumpLastWriteTS(now);
      forall n | n in made ensures Kept(made[n]) {
        OwnKinds(made[n]);
        KeptBy(made[n]);
      }
      StayFit(made);
    }
  }

  // A store after one scope of a batch was swapped in, its bytes being settled already.
  function Committed(st: Store, t: Target, now: int): Store {
    st.(scopes := st.scopes[t.name := Held(t.scope, now)],
        items := st.items + ItemsOver(st.scopes)(t),
        writeTS := Max(st.writeTS, now))
  }

  // And after all of them.
  function CommittedAll(st: Store, targets: seq<Target>, now: int): Store {
    st.(scopes := Install(st.scopes, targets, now),
        items := st.items + Sum(targets, ItemsOver(st.scopes)),
        writeTS := if targets == [] then st.writeTS else Max(st.writeTS, now))
  }

  lemma {:induction false} NothingLeft(m: map<string, Held>)
    requires m.Keys == {}
    ensures MapSum(m, Count) == 0
  {
    assert m == map[];
  }

  lemma {:induction false} NameOf(p: Plan, t: Target)
    requires Realises(p, t)
    ensures p.name == t.name && p.newBytes == t.scope.Bytes() && |p.replacement.items| == |t.scope.items|
  {
  }

  lemma {:induction false} CommittedNone(st: Store, targets: seq<Target>, now: int)
    ensures CommittedAll(st, targets[..0], now) == st
    ensures Sum(targets[..0], ScopesOver(st.scopes)) == 0
  {
    assert targets[..0] == [];
  }

  lemma {:induction false} InstallLast(scopes: map<string, Held>, targets: seq<Target>, i: nat, now: int)
    requires i < |targets|
    ensures Install(scopes, targets[..i + 1], now) == Install(scopes, targets[..i], now)[targets[i].name := Held(targets[i].scope, now)]
    decreases i
  {
    if i == 0 {
      assert targets[..1][1..] == [] && targets[..0] == [];
    } else {
      var rest := targets[1..];
      assert targets[..i + 1][1..] == rest[..i] && targets[..i][1..] == rest[..i - 1] && rest[i - 1] == targets[i];
      InstallLast(scopes[targets[0].name := Held(targets[0].scope, now)], rest, i - 1, now);
    }
  }

  // One more scope of the batch.
  lemma {:induction false} CommittedNext(st: Store, targets: seq<Target>, i: nat, now: int)
    requires i < |targets| && DistinctTargets(targets)
    ensures var before := CommittedAll(st, targets[..i], now);
      && OldScope(before.scopes, targets[i].name) == OldScope(st.scopes, targets[i].name)
      && (targets[i].name in before.scopes <==> targets[i].name in st.scopes)
      && CommittedAll(st, targets[..i + 1], now) == Committed(before, targets[i], now)
      && Sum(targets[..i + 1], ScopesOver(st.scopes))
           == Sum(targets[..i], ScopesOver(st.scopes)) + if targets[i].name in st.scopes then 0 else 1
  {
    hide Sum, Install;
    InstallLast(st.scopes, targets, i, now);
    InstallAt(st.scopes, targets[..i], now);
    assert forall j :: 0 <= j < i ==> targets[..i][j].name != targets[i].name;
    assert targets[..i + 1] == targets[..i] + [targets[i]];
    SumAppend(targets[..i], targets[i], ItemsOver(st.scopes));
    SumAppend(targets[..i], targets[i], ScopesOver(st.scopes));
  }

  lemma {:induction false} TotalsNone(targets: seq<Target>, bare: seq<Target>, now: int)
    ensures Sum(targets[..0], TargetWeight) == 0 && Sum(targets[..0], TargetItems) == 0
    ensures StoreSpec.Install(map[], bare[..0], now) == map[]
  {
    assert targets[..0] == [] && bare[..0] == [];
  }

  lemma {:induction false} TotalsNext(targets: seq<Target>, i: nat)
    requires i < |targets|
    ensures Sum(targets[..i + 1], TargetWeight) == Sum(targets[..i], TargetWeight) + targets[i].scope.Bytes() + SCOPE_OVERHEAD
    ensures Sum(targets[..i + 1], TargetItems) == Sum(targets[..i], TargetItems) + |targets[i].scope.items|
  {
    hide Sum;
    assert targets[..i + 1] == targets[..i] + [targets[i]];
    SumAppend(targets[..i], targets[i], TargetWeight);
    SumAppend(targets[..i], targets[i], TargetItems);
  }

  lemma {:induction false} BareDistinct(targets: seq<Target>)
    requires DistinctTargets(targets)
    ensures DistinctTargets(BareAll(targets))
  {
  }

  lemma {:induction false} NoReservedTargets(cfg: Config, batch: seq<Entry>, now: int)
    requires Prepare(cfg, batch, now, [], []).Ok? && OneEntryEach(batch)
    ensures var m := StoreSpec.Install(map[], BareAll(Prepare(cfg, batch, now, [], []).value), now); EVENTS !in m && INBOX !in m
  {
    hide Prepare, StoreSpec.Install, Built;
    PreparedGood(cfg, batch, now);
    TargetsDistinct(cfg, batch, now);
    var bare := BareAll(TargetsOf(cfg, batch, now));
    InstallAt(map[], bare, now);
    assert forall i :: 0 <= i < |bare| ==> bare[i] == Bare(TargetOf(cfg, batch[i], now));
  }

  lemma {:induction false} BareName(t: Target)
    ensures Bare(t).name == t.name
  {
  }

  lemma {:induction false} NewName(bare: seq<Target>, i: nat, now: int)
    requires i < |bare| && DistinctTargets(bare)
    ensures bare[i].name !in StoreSpec.Install(map[], bare[..i], now)
  {
    hide StoreSpec.Install;
    InstallAt(map[], bare[..i], now);
  }

  lemma {:induction false} EmptyOld(st: Store, st': Store, name: string, now: int)
    requires if name in st.scopes then st' == st
             else st' == CreateScope(st, name, now).(total := st.total, count := st.count)
    ensures OldScope(st'.scopes, name) == OldScope(st.scopes, name) && name in st'.scopes
    ensures forall t: Target :: t.name == name ==> Committed(st', t, now) == Committed(st, t, now)
  {
    forall t: Target | t.name == name ensures Committed(st', t, now) == Committed(st, t, now) {
      assert st'.scopes[name := Held(t.scope, now)] == st.scopes[name := Held(t.scope, now)];
    }
  }

  lemma {:induction false} ReprInOwn(b: ScopeBuffer)
    ensures b.Repr() <= Own(b)
  {
  }

  method CommitSwap(buf: ScopeBuffer, ledger: Ledger, plan: Plan, size: int, now: int, ghost target: Target)
    requires buf.Valid() && !buf.detached && buf.ledger == ledger && Realises(plan, target)
    requires size == buf.Abs().Bytes()
    modifies buf.Repr(), ledger`totalBytes, ledger`totalItems, ledger`lastWriteTS
    ensures buf.Valid() && buf.Framed() && !buf.detached
    ensures buf.Snapshot() == Snap(target.scope, false, now, old(ledger.totalBytes),
                                   old(ledger.totalItems) + |target.scope.items| - |old(buf.Abs()).items|,
                                   Max(old(ledger.lastWriteTS), now))
  {
    hide ScopeBuffer.Valid, Installs;
    buf.CommitPreReserved(plan.replacement, plan.newBytes, size, now, target.scope);
  }

  lemma {:induction false} AcceptedId(cfg: Config, r: Request)
    requires Accepts(cfg, r)
    ensures r.CounterReq? ==> r.id != ""
  {
  }

  lemma {:induction false} KeepsAttached(env: Env, b: Snap, op: Op, now: int)
    ensures Perform(env, b, op, now).0.detached == b.detached
  {
    hide Apply, Sum;
  }

  method Dispatch(buf: ScopeBuffer, ledger: Ledger, r: Request, now: int) returns (result: Result<Option<Reply>>)
    requires buf.Valid() && !buf.detached && buf.ledger == ledger
    requires !r.DeleteScopeReq? && (r.CounterReq? ==> r.id != "")
    modifies ledger, Own(buf)
    ensures buf.Valid() && buf.Framed()
    ensures (buf.Snapshot(), result) == Perform(old(buf.EnvFor(r.scope)), old(buf.Snapshot()), OpOf(ledger.cfg, r), now)
  {
    hide ScopeBuffer.Valid, Perform, ScopeBuffer.Abs;
    var codec := ledger.cfg.codec;
    match r
    case AppendReq(scope, id, payload, _, _) =>
      result := buf.AppendItem(scope, id, payload, codec.decodeString(payload), now);
    case UpsertReq(scope, id, payload, _, _) =>
      result := buf.UpsertByID(scope, id, payload, codec.decodeString(payload), now);
    case UpdateReq(scope, id, payload, sq, _) =>
      if id != "" {
        result := buf.UpdateByID(id, payload, codec.decodeString(payload), now, scope);
      } else {
        result := buf.UpdateBySeqNo(sq, payload, codec.decodeString(payload), now, scope);
      }
    case CounterReq(scope, id, inc) =>
      result := buf.CounterAdd(scope, id, inc, now);
    case DeleteReq(scope, id, sq) =>
      if id != "" {
        result := buf.DeleteByID(id, now, scope);
      } else {
        result := buf.DeleteBySeqNo(sq, now, scope);
      }
    case DeleteUpToReq(scope, maxSeq) =>
      result := buf.DeleteUpToSeq(maxSeq, now, scope);
  }
}
