/** Phase 1 of /warm and /rebuild: validate the whole input and build every replacement off to the side. */
module BulkBuild {
  import opened Types
  import opened Sums
  import opened ScopeSpec
  import opened Slots
  import opened StoreSpec
  import opened StoreBulk

  datatype Plan = Plan(name: string, replacement: Replacement, newBytes: int)

  ghost predicate Realises(p: Plan, t: Target) {
    && p.name == t.name && Installs(p.replacement, t.scope)
    && p.newBytes == t.scope.Bytes() && p.replacement.idKeyBytes == t.scope.idKeyBytes
  }

  ghost predicate RealisesAll(plans: seq<Plan>, targets: seq<Target>) {
    |plans| == |targets| && forall i :: 0 <= i < |plans| ==> Realises(plans[i], targets[i])
  }

  /** sumItemBytes. */
  method SumItemBytes(items: seq<Slot>) returns (n: int)
    ensures n == Sum(items, SlotSize)
  {
    n := 0;
    assert items[..0] == [];
    SumZero(items[..0], SlotSize);
    for i := 0 to |items|
      invariant n == Sum(items[..i], SlotSize)
    {
      assert items[..i + 1] == items[..i] + [items[i]];
      SumAppend(items[..i], items[i], SlotSize);
      n := n + SlotSize(items[i]);
    }
    assert items[..|items|] == items;
  }

  method ValidEntry(cfg: Config, e: Entry) returns (ok: bool)
    ensures ok == EntryOk(cfg, e)
  {
    if !ScopeOk(cfg.codec, e.scope) || IsReserved(e.scope) {
      return false;
    }
    for i := 0 to |e.items|
      invariant forall j :: 0 <= j < i ==>
        var x := e.items[j];
        WriteItemOk(cfg.codec, x.scope, x.id, x.payload, x.sq, x.ts, cfg.maxItemBytes) && x.scope == e.scope
    {
      var x := e.items[i];
      if !WriteItemOk(cfg.codec, x.scope, x.id, x.payload, x.sq, x.ts, cfg.maxItemBytes) || x.scope != e.scope {
        return false;
      }
    }
    return true;
  }

  method BuildOne(cfg: Config, e: Entry, now: int) returns (r: Result<Plan>)
    ensures r.Ok? <==> DistinctIds(ToIncoming(cfg.codec, e.items))
    ensures r.Err? ==> r.error == Invalid
    ensures r.Ok? ==> Realises(r.value, TargetOf(cfg, e, now))
  {
    hide Built, Sum;
    var built := BuildReplacement(cfg.codec, ToIncoming(cfg.codec, e.items), now);
    match built
    case Err(error) => return Err(error);
    case Ok(replacement) =>
      var newBytes := SumItemBytes(replacement.items);
      return Ok(Plan(e.scope, replacement, newBytes));
  }

  /** The walk over the input: it ends as the specification of phase 1 says, with one plan per target. */
  method Build(cfg: Config, batch: seq<Entry>, now: int) returns (r: Result<seq<Plan>>)
    ensures r.Ok? <==> Prepare(cfg, batch, now, [], []).Ok?
    ensures r.Ok? ==> RealisesAll(r.value, Prepare(cfg, batch, now, [], []).value)
    ensures r.Err? ==> r.error == Prepare(cfg, batch, now, [], []).error
  {
    hide Prepare, Realises, EntryOk, DistinctIds, TargetOf;
    var offenders: seq<string>, plans: seq<Plan> := [], [];
    ghost var targets: seq<Target> := [];
    assert batch[0..] == batch;
    for i := 0 to |batch|
      invariant Prepare(cfg, batch, now, [], []) == Prepare(cfg, batch[i..], now, offenders, targets)
      invariant RealisesAll(plans, targets)
    {
      var e := batch[i];
      assert batch[i..][0] == e && batch[i..][1..] == batch[i + 1..];
      PrepareStep(cfg, batch[i..], now, offenders, targets);
      var ok := ValidEntry(cfg, e);
      if !ok {
        return Err(Invalid);
      }
      if |e.items| > cfg.scopeMaxItems {
        offenders := offenders + [e.scope];
      } else {
        var plan := BuildOne(cfg, e, now);
        if plan.Err? {
          return Err(Invalid);
        }
        plans := plans + [plan.value];
        targets := targets + [TargetOf(cfg, e, now)];
      }
    }
    PrepareEnds(cfg, now, offenders, targets);
    assert batch[|batch|..] == [];
    return if offenders != [] then Err(ScopesFull(offenders)) else Ok(plans);
  }

  lemma {:induction false} PrepareEnds(cfg: Config, now: int, offenders: seq<string>, targets: seq<Target>)
    ensures Prepare(cfg, [], now, offenders, targets) == if offenders != [] then Err(ScopesFull(offenders)) else Ok(targets)
  {
  }
}
