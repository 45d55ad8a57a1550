/** What /warm accepts, what it leaves behind, and that the order of the Go map is of no consequence. */
module StoreWarm {
  import opened Types
  import opened Sums
  import opened ScopeSpec
  import opened BufferSpec
  import opened StoreSpec
  import opened StoreLaws
  import opened StoreBulk

  // Emission touches one scope: _events.
  ghost predicate SameBesideEvents(st: Store, st': Store) {
    forall n :: n != EVENTS ==> (n in st.scopes <==> n in st'.scopes) && (n in st.scopes ==> st'.scopes[n] == st.scopes[n])
  }

  lemma {:induction false} WriteBeside(cfg: Config, st: Store, r: Request, now: int)
    requires r.scope == EVENTS
    ensures SameBesideEvents(st, Write(cfg, st, r, now).0)
  {
    hide Perform, Accepts, OpOf, Admits;
  }

  lemma {:induction false} EmitBeside(cfg: Config, st: Store, e: WriteEvent, now: int)
    ensures SameBesideEvents(st, Emit(cfg, st, e, now))
  {
    hide Write, Carried;
    match cfg.codec.marshal(Carried(cfg, e))
    case None =>
    case Some(body) => WriteBeside(cfg, st, AppendReq(EVENTS, "", body, 0, 0), now);
  }

  ghost predicate WarmAccepted(cfg: Config, st: Store, batch: seq<Entry>, now: int) {
    && !AnyMalformed(cfg, batch)
    && OverfullNames(cfg, batch) == []
    && Admits(st.total, cfg.maxStoreBytes, Sum(TargetsOf(cfg, batch, now), BytesOver(st.scopes)))
  }

  /** All or nothing: a refused batch changes nothing, an accepted one replaces its scopes and no other. */
  lemma {:induction false} WarmMeans(cfg: Config, st: Store, batch: seq<Entry>, now: int, later: int)
    requires OneEntryEach(batch)
    ensures var (st', r) := Warm(cfg, st, batch, now, later);
      && (r.Ok? <==> WarmAccepted(cfg, st, batch, now))
      && (r.Err? ==> st' == st)
      && (r.Ok? ==>
            && r.value == |batch|
            && (forall i :: 0 <= i < |batch| ==>
                  && batch[i].scope in st'.scopes
                  && st'.scopes[batch[i].scope] == Held(Built(cfg.codec, ToIncoming(cfg.codec, batch[i].items), now), now))
            && (forall n :: n != EVENTS && (forall i :: 0 <= i < |batch| ==> batch[i].scope != n) ==>
                  (n in st'.scopes <==> n in st.scopes) && (n in st.scopes ==> st'.scopes[n] == st.scopes[n])))
  {
    hide Prepare, Sum, Emit, AnyMalformed, OverfullNames, Install, Malformed, Admits;
    PrepareMeans(cfg, batch, now);
    var targets := TargetsOf(cfg, batch, now);
    if WarmAccepted(cfg, st, batch, now) {
      TargetsDistinct(cfg, batch, now);
      InstallAt(st.scopes, targets, now);
      EmitBeside(cfg, Warmed(cfg, st, targets, now), WarmEvent(later), later);
      NoReservedEntries(cfg, batch);
      var st' := Warm(cfg, st, batch, now, later).0;
      forall i | 0 <= i < |batch|
        ensures batch[i].scope in st'.scopes
        ensures st'.scopes[batch[i].scope] == Held(Built(cfg.codec, ToIncoming(cfg.codec, batch[i].items), now), now)
      {
        assert targets[i] == TargetOf(cfg, batch[i], now) && batch[i].scope != EVENTS;
      }
      forall n | n != EVENTS && forall i :: 0 <= i < |batch| ==> batch[i].scope != n
        ensures (n in st'.scopes <==> n in st.scopes) && (n in st.scopes ==> st'.scopes[n] == st.scopes[n])
      {
        assert forall i :: 0 <= i < |targets| ==> targets[i].name != n;
      }
    }
  }

  lemma {:induction false} NoReservedEntries(cfg: Config, batch: seq<Entry>)
    requires !AnyMalformed(cfg, batch)
    ensures forall i :: 0 <= i < |batch| ==> !IsReserved(batch[i].scope)
  {
    forall i | 0 <= i < |batch| ensures !IsReserved(batch[i].scope) { assert !Malformed(cfg, batch[i]); }
  }

  // ---- order ----

  lemma {:induction false} OverfullMember(cfg: Config, batch: seq<Entry>, n: string)
    ensures n in OverfullNames(cfg, batch) <==> exists i :: 0 <= i < |batch| && Overfull(cfg, batch[i]) && batch[i].scope == n
  {
    if batch != [] {
      OverfullMember(cfg, batch[1..], n);
      if i :| 0 <= i < |batch| && Overfull(cfg, batch[i]) && batch[i].scope == n {
        if i > 0 { assert batch[1..][i - 1] == batch[i]; }
      }
      if i :| 0 <= i < |batch[1..]| && Overfull(cfg, batch[1..][i]) && batch[1..][i].scope == n {
        assert batch[i + 1] == batch[1..][i];
      }
    }
  }

  lemma {:induction false} SameMembers<T>(a: seq<T>, b: seq<T>)
    requires multiset(a) == multiset(b)
    ensures forall x :: x in a <==> x in b
  {
    forall x ensures x in a <==> x in b { assert x in multiset(a) <==> x in multiset(b); }
  }

  lemma {:induction false} MalformedEitherWay(cfg: Config, a: seq<Entry>, b: seq<Entry>)
    requires multiset(a) == multiset(b) && AnyMalformed(cfg, a)
    ensures AnyMalformed(cfg, b)
  {
    hide Malformed;
    SameMembers(a, b);
    var i :| 0 <= i < |a| && Malformed(cfg, a[i]);
    assert a[i] in b;
    var j :| 0 <= j < |b| && b[j] == a[i];
    assert Malformed(cfg, b[j]);
  }

  lemma {:induction false} OverfullEitherWay(cfg: Config, a: seq<Entry>, b: seq<Entry>)
    requires multiset(a) == multiset(b)
    ensures forall n :: n in OverfullNames(cfg, a) <==> n in OverfullNames(cfg, b)
  {
    hide OverfullNames;
    SameMembers(a, b);
    forall n ensures n in OverfullNames(cfg, a) <==> n in OverfullNames(cfg, b) {
      OverfullMember(cfg, a, n);
      OverfullMember(cfg, b, n);
      if i :| 0 <= i < |a| && Overfull(cfg, a[i]) && a[i].scope == n { assert a[i] in b; }
      if i :| 0 <= i < |b| && Overfull(cfg, b[i]) && b[i].scope == n { assert b[i] in a; }
    }
  }

  function OfEntry(cfg: Config, f: Target -> int, now: int): Entry -> int {
    (e: Entry) => f(TargetOf(cfg, e, now))
  }

  lemma {:induction false} SumsEitherWay(cfg: Config, a: seq<Entry>, b: seq<Entry>, f: Target -> int, now: int)
    requires multiset(a) == multiset(b)
    ensures Sum(TargetsOf(cfg, a, now), f) == Sum(TargetsOf(cfg, b, now), f)
  {
    hide Sum, TargetOf;
    SumEq(TargetsOf(cfg, a, now), a, f, OfEntry(cfg, f, now));
    SumEq(TargetsOf(cfg, b, now), b, f, OfEntry(cfg, f, now));
    SumPermute(a, b, OfEntry(cfg, f, now));
  }

  lemma {:induction false} InstallEitherWay(cfg: Config, scopes: map<string, Held>, a: seq<Entry>, b: seq<Entry>, now: int)
    requires multiset(a) == multiset(b) && OneEntryEach(a) && OneEntryEach(b)
    ensures Install(scopes, TargetsOf(cfg, a, now), now) == Install(scopes, TargetsOf(cfg, b, now), now)
  {
    hide Install, Built, ToIncoming;
    SameMembers(a, b);
    var ta, tb := TargetsOf(cfg, a, now), TargetsOf(cfg, b, now);
    TargetsDistinct(cfg, a, now);
    TargetsDistinct(cfg, b, now);
    InstallAt(scopes, ta, now);
    InstallAt(scopes, tb, now);
    var ma, mb := Install(scopes, ta, now), Install(scopes, tb, now);
    forall n ensures (n in ma <==> n in mb) && (n in ma ==> ma[n] == mb[n]) {
      if i :| 0 <= i < |ta| && ta[i].name == n {
        assert a[i] in b;
        var j :| 0 <= j < |b| && b[j] == a[i];
        assert tb[j] == ta[i];
      } else {
        forall j | 0 <= j < |tb| ensures tb[j].name != n {
          assert b[j] in a;
          var i :| 0 <= i < |a| && a[i] == b[j];
          assert ta[i] == tb[j];
        }
      }
    }
  }

  ghost predicate AlikeErrors(a: Error, b: Error) {
    if a.ScopesFull? && b.ScopesFull? then forall n :: n in a.offenders <==> n in b.offenders
    else a == b
  }

  /** Whatever order the map is walked in, the batch fares alike and leaves the same store. */
  lemma {:induction false} WarmAnyOrder(cfg: Config, st: Store, a: seq<Entry>, b: seq<Entry>, now: int, later: int)
    requires multiset(a) == multiset(b) && OneEntryEach(a) && OneEntryEach(b)
    ensures var (sa, ra) := Warm(cfg, st, a, now, later);
            var (sb, rb) := Warm(cfg, st, b, now, later);
      sa == sb && if ra.Ok? then rb == ra else rb.Err? && AlikeErrors(ra.error, rb.error)
  {
    hide Prepare, Sum, Emit, AnyMalformed, OverfullNames, Install, Admits, TargetsOf;
    PrepareMeans(cfg, a, now);
    PrepareMeans(cfg, b, now);
    if AnyMalformed(cfg, a) { MalformedEitherWay(cfg, a, b); }
    if AnyMalformed(cfg, b) { MalformedEitherWay(cfg, b, a); }
    OverfullEitherWay(cfg, a, b);
    assert OverfullNames(cfg, a) == [] <==> OverfullNames(cfg, b) == [] by {
      if OverfullNames(cfg, a) != [] { assert OverfullNames(cfg, a)[0] in OverfullNames(cfg, b); }
      if OverfullNames(cfg, b) != [] { assert OverfullNames(cfg, b)[0] in OverfullNames(cfg, a); }
    }
    SumsEitherWay(cfg, a, b, BytesOver(st.scopes), now);
    SumsEitherWay(cfg, a, b, ItemsOver(st.scopes), now);
    SumsEitherWay(cfg, a, b, ScopesOver(st.scopes), now);
    InstallEitherWay(cfg, st.scopes, a, b, now);
    assert |a| == |b| by { assert |multiset(a)| == |multiset(b)|; }
    TargetsLength(cfg, a, now);
    TargetsLength(cfg, b, now);
  }

  lemma {:induction false} TargetsLength(cfg: Config, batch: seq<Entry>, now: int)
    ensures |TargetsOf(cfg, batch, now)| == |batch|
  {
  }
}
