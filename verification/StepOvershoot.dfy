/**
  Two runs around one /warm whose scope loses its item inside the window. In one the commit
  pays the bytes back without a cap check, and the counter passes the cap; in the other the
  batch had reserved its own shrinkage already, and the counter goes negative meanwhile.
 */
module StepOvershoot {
  import opened Types
  import opened Sums
  import opened ScopeSpec
  import opened EventJson
  import opened Steps
  import opened StepRequests
  import StoreSpec
  import StoreBulk

  const NAME := "a"

  function Shard(n: string): nat { if n == NAME then 0 else 1 }

  // The payloads of these runs are JSON numbers, and nothing else passes for one.
  const CODEC := Codec(_ => None, _ => None, (p: Bytes) => IsNumber(p), _ => true, _ => None)

  function Limited(limit: int): World {
    World(Config(10, limit, 10_000, 10, 10_000, Off, CODEC), Shard)
  }

  function Only(name: string, p: Bytes): Item { Item(name, "", 1, 0, Plain(p, None)) }
  function One(name: string, p: Bytes): Scope { Scope([Only(name, p)], 1, 0) }
  const GONE := Scope([], 1, 0)

  // Appends one item.
  function Adds(p: Bytes): Op { Append("", p, None) }

  // The bytes of scope a with its one item.
  function Size(p: Bytes): int { 49 + |p| }

  // A batch that leaves scope a with one item, or with none.
  const REFILL := StoreSpec.Entry(NAME, [StoreSpec.RawItem(NAME, "", "1", 0, 0)])
  const EMPTYING := StoreSpec.Entry(NAME, [])

  lemma {:induction false} AddsAsked(limit: int, name: string, p: Bytes)
    requires name != "" && |name| <= 100 && IsNumber(p) && |p| <= 5000
    ensures Asked(Limited(limit).cfg, Start(name, Adds(p)))
  {
    assert AsksFor(Limited(limit).cfg, StoreSpec.AppendReq(name, "", p, 0, 0), name, Adds(p));
  }

  lemma {:induction false} DeleteAsked(limit: int)
    ensures Asked(Limited(limit).cfg, Start(NAME, DeleteBySeq(1)))
  {
    assert AsksFor(Limited(limit).cfg, StoreSpec.DeleteReq(NAME, "", 1), NAME, DeleteBySeq(1));
  }

  lemma {:induction false} WarmAsked(limit: int, batch: Batch)
    requires Checked(Limited(limit).cfg, batch)
    ensures Asked(Limited(limit).cfg, StartWarm(batch))
  {
  }

  // Going on asks for nothing new.
  lemma {:induction false} StepsAsked(limit: int)
    ensures forall now :: Asked(Limited(limit).cfg, Continue(now))
  {
  }

  lemma {:induction false} BatchesAsked(limit: int)
    ensures Checked(Limited(limit).cfg, [(NAME, One(NAME, "1"))])
    ensures Checked(Limited(limit).cfg, [(NAME, EMPTY_SCOPE)])
  {
    var cfg := Limited(limit).cfg;
    assert !IsReserved(NAME);
    assert Built(CODEC, StoreSpec.ToIncoming(CODEC, REFILL.items), 0).items == [Only(NAME, "1")];
    assert StoreBulk.TargetOf(cfg, REFILL, 0).scope == One(NAME, "1");
    assert Prepared(cfg, [REFILL], 0, [(NAME, One(NAME, "1"))]);
    assert Built(CODEC, StoreSpec.ToIncoming(CODEC, []), 0).items == [];
    assert StoreBulk.TargetOf(cfg, EMPTYING, 0).scope == EMPTY_SCOPE;
    assert Prepared(cfg, [EMPTYING], 0, [(NAME, EMPTY_SCOPE)]);
  }

  lemma {:induction false} RefillAsked()
    ensures IsNumber("1") && Checked(Limited(3128).cfg, [(NAME, One(NAME, "1"))])
    ensures Asked(Limited(3128).cfg, Start(EVENTS, Adds("1")))
  {
    hide Asked, Checked;
    BatchesAsked(3128);
    AddsAsked(3128, EVENTS, "1");
  }

  const DELETER := Ready(2, DeleteBySeq(1), false)

  // The states of a run: the _events buffer, the buffer of scope a, three threads.
  function At3(e: Buf, a: Buf, p0: Pc, p1: Pc, p2: Pc, total: int, items: int, shrunk: int): Sys {
    Sys([e, NewBuf(INBOX, EMPTY_SCOPE), a], map[EVENTS := 0, INBOX := 1, NAME := 2], [p0, p1, p2], total, items, 3, shrunk)
  }

  lemma {:induction false} OneBytes(name: string, p: Bytes)
    ensures One(name, p).Bytes() == 48 + |name| + |p|
    ensures EMPTY_SCOPE.Bytes() == 0 && GONE.Bytes() == 0
  {
    SumOne(Only(name, p), ItemSize);
  }

  // The outcomes of the writes in the runs.
  lemma {:induction false} Outcomes(limit: int, name: string, p: Bytes)
    ensures var cfg := Limited(limit).cfg;
            var env := Env(cfg, cfg.MaxItemsFor(name), name);
      && Apply(env, EMPTY_SCOPE, Adds(p), 0).Changed? && Apply(env, EMPTY_SCOPE, Adds(p), 0).next == One(name, p)
      && Apply(env, One(name, p), DeleteBySeq(1), 0).Changed? && Apply(env, One(name, p), DeleteBySeq(1), 0).next == GONE
  {
    assert IndexOfId([], "") == None;
    assert IndexOfSeq([Only(name, p)], 1) == Some(0);
    assert [Only(name, p)][..0] + [Only(name, p)][1..] == [];
  }

  lemma {:induction false} BootMaps()
    ensures NewMaps(Whole([]), 0) == map[EVENTS := 0, INBOX := 1]
    ensures NewBufs(Whole([])) == [NewBuf(EVENTS, EMPTY_SCOPE), NewBuf(INBOX, EMPTY_SCOPE)]
  {
    var whole := Whole([]);
    assert whole == [(EVENTS, EMPTY_SCOPE), (INBOX, EMPTY_SCOPE)];
    assert whole[..1] == [(EVENTS, EMPTY_SCOPE)] && whole[..1][..0] == [];
    assert NewMaps([], 0) == map[];
    assert NewMaps(whole[..1], 0) == map[EVENTS := 0];
  }

  lemma {:induction false} Booted(w: World, s: Sys)
    requires (forall n :: w.shardOf(n) < SHARDS) && w.cfg.maxStoreBytes >= RESERVED_OVERHEAD
    requires s == Sys([NewBuf(EVENTS, EMPTY_SCOPE), NewBuf(INBOX, EMPTY_SCOPE)], map[EVENTS := 0, INBOX := 1],
                      [Idle, Idle, Idle], 2048, 0, 2, 0)
    ensures Brought(w, s)
  {
    hide NewMaps, NewBufs, Do, Enabled;
    BootMaps();
    assert Boot(w, s) && Exec(w, s, []) == Some(s);
  }

  // Boot, then thread 0 creates scope a for an operation.
  lemma {:induction false} Created(limit: int, op: Op)
    requires limit >= 3072 && Creates(op) && Asked(Limited(limit).cfg, Start(NAME, op))
    ensures Brought(Limited(limit),
              At3(NewBuf(EVENTS, EMPTY_SCOPE), NewBuf(NAME, EMPTY_SCOPE), Ready(2, op, true), Idle, Idle, 3072, 0, 0))
  {
    hide Apply, Sum, Brought, Asked;
    StepsAsked(limit);
    var w := Limited(limit);
    var e := NewBuf(EVENTS, EMPTY_SCOPE);
    var s0 := Sys([e, NewBuf(INBOX, EMPTY_SCOPE)], map[EVENTS := 0, INBOX := 1], [Idle, Idle, Idle], 2048, 0, 2, 0);
    Booted(w, s0);
    var s1 := s0.(threads := [Missing(NAME, op), Idle, Idle]);
    Extend(w, s0, 0, Start(NAME, op));
    assert Do(w, s0, 0, Start(NAME, op)) == s1;
    var s2 := s1.(threads := [Inserting(NAME, op), Idle, Idle], total := 3072);
    Extend(w, s1, 0, Continue(0));
    assert Do(w, s1, 0, Continue(0)) == s2;
    Extend(w, s2, 0, Continue(0));
    assert Do(w, s2, 0, Continue(0)) == At3(e, NewBuf(NAME, EMPTY_SCOPE), Ready(2, op, true), Idle, Idle, 3072, 0, 0);
  }

  // Scope a with one item.
  lemma {:induction false} Filled(limit: int, p: Bytes)
    requires limit >= 3072 + Size(p) && IsNumber(p) && |p| <= 5000
    ensures Brought(Limited(limit),
              At3(NewBuf(EVENTS, EMPTY_SCOPE), NewBuf(NAME, One(NAME, p)), Idle, Idle, Idle, 3072 + Size(p), 1, 0))
  {
    hide Apply, Sum, Brought, IsNumber, Asked;
    OneBytes(NAME, p);
    Outcomes(limit, NAME, p);
    AddsAsked(limit, NAME, p);
    StepsAsked(limit);
    Created(limit, Adds(p));
    var w := Limited(limit);
    var e := NewBuf(EVENTS, EMPTY_SCOPE);
    var s3 := At3(e, NewBuf(NAME, EMPTY_SCOPE), Ready(2, Adds(p), true), Idle, Idle, 3072, 0, 0);
    var s4 := At3(e, NewBuf(NAME, EMPTY_SCOPE).(hold := Held(0, One(NAME, p))), Writing(2), Idle, Idle, 3072 + Size(p), 0, 0);
    Extend(w, s3, 0, Continue(0));
    assert Do(w, s3, 0, Continue(0)) == s4;
    Extend(w, s4, 0, Continue(0));
    assert Do(w, s4, 0, Continue(0)) == At3(e, NewBuf(NAME, One(NAME, p)), Idle, Idle, Idle, 3072 + Size(p), 1, 0);
  }

  // Thread 1 looks scope a up; then thread 0 runs /warm up to holding its shard.
  lemma {:induction false} Locked(limit: int, p: Bytes, target: Scope, k: nat)
    requires limit >= 3072 + Size(p) && IsNumber(p) && |p| <= 5000 && k <= SHARDS
    requires Checked(Limited(limit).cfg, [(NAME, target)])
    ensures Brought(Limited(limit), At3(NewBuf(EVENTS, EMPTY_SCOPE), NewBuf(NAME, One(NAME, p)),
                                          WarmLocking([(NAME, target)], k), DELETER, Idle, 3072 + Size(p), 1, 0))
  {
    hide Brought, Sum, IsNumber, Asked, Checked;
    StepsAsked(limit);
    DeleteAsked(limit);
    var w, batch := Limited(limit), [(NAME, target)];
    WarmAsked(limit, batch);
    var e, a := NewBuf(EVENTS, EMPTY_SCOPE), NewBuf(NAME, One(NAME, p));
    var s := At3(e, a, WarmLocking(batch, k), DELETER, Idle, 3072 + Size(p), 1, 0);
    if k == 0 {
      Filled(limit, p);
      var s0 := At3(e, a, Idle, Idle, Idle, 3072 + Size(p), 1, 0);
      var s1 := At3(e, a, Idle, DELETER, Idle, 3072 + Size(p), 1, 0);
      Extend(w, s0, 1, Start(NAME, DeleteBySeq(1)));
      assert Do(w, s0, 1, Start(NAME, DeleteBySeq(1))) == s1;
      Extend(w, s1, 0, StartWarm(batch));
      assert Do(w, s1, 0, StartWarm(batch)) == s;
    } else {
      Locked(limit, p, target, k - 1);
      var s0 := At3(e, a, WarmLocking(batch, k - 1), DELETER, Idle, 3072 + Size(p), 1, 0);
      Extend(w, s0, 0, Continue(0));
      assert Do(w, s0, 0, Continue(0)) == s;
    }
  }

  // The batch snapshots scope a and reserves what its target adds, which is no more than it frees.
  lemma {:induction false} Reserved(limit: int, p: Bytes, target: Scope)
    requires limit >= 3072 + Size(p) && IsNumber(p) && |p| <= 5000 && target.Bytes() <= Size(p)
    requires Checked(Limited(limit).cfg, [(NAME, target)])
    ensures Brought(Limited(limit), At3(NewBuf(EVENTS, EMPTY_SCOPE), NewBuf(NAME, One(NAME, p)).(window := Some(Size(p))),
                                          WarmWriting([Plan(NAME, target, Size(p), false)], 0, {0}),
                                          DELETER, Idle, 3072 + target.Bytes(), 1, 0))
  {
    hide Brought, Sum, Scope.Bytes, IsNumber, Asked, Checked;
    StepsAsked(limit);
    OneBytes(NAME, p);
    var plan := Plan(NAME, target, Size(p), false);
    SumOne(plan, PlanDelta);
    var w, batch := Limited(limit), [(NAME, target)];
    var e, a := NewBuf(EVENTS, EMPTY_SCOPE), NewBuf(NAME, One(NAME, p));
    Locked(limit, p, target, SHARDS);
    var s0 := At3(e, a, WarmLocking(batch, SHARDS), DELETER, Idle, 3072 + Size(p), 1, 0);
    assert Cover(w, batch) == {0} by { assert batch[0].0 == NAME; }
    var s1 := At3(e, a, WarmReading([], batch, {0}), DELETER, Idle, 3072 + Size(p), 1, 0);
    Extend(w, s0, 0, Continue(0));
    assert Do(w, s0, 0, Continue(0)) == s1;
    var s2 := At3(e, a.(window := Some(Size(p))), WarmReading([plan], [], {0}), DELETER, Idle, 3072 + Size(p), 1, 0);
    Extend(w, s1, 0, Continue(0));
    assert [] + [plan] == [plan] && batch[1..] == [];
    assert Do(w, s1, 0, Continue(0)) == s2;
    Extend(w, s2, 0, Continue(0));
    assert Do(w, s2, 0, Continue(0))
        == At3(e, a.(window := Some(Size(p))), WarmWriting([plan], 0, {0}), DELETER, Idle, 3072 + target.Bytes(), 1, 0);
  }

  // Inside the window the delete releases the bytes of the item.
  lemma {:induction false} Deleted(limit: int, p: Bytes, target: Scope)
    requires limit >= 3072 + Size(p) && IsNumber(p) && |p| <= 5000 && target.Bytes() <= Size(p)
    requires Checked(Limited(limit).cfg, [(NAME, target)])
    ensures Brought(Limited(limit), At3(NewBuf(EVENTS, EMPTY_SCOPE), NewBuf(NAME, GONE).(window := Some(Size(p))),
                                          WarmWriting([Plan(NAME, target, Size(p), false)], 0, {0}),
                                          Idle, Idle, 3072 + target.Bytes() - Size(p), 0, Size(p)))
  {
    hide Brought, Apply, Sum, Scope.Bytes, IsNumber, Asked, Checked;
    StepsAsked(limit);
    OneBytes(NAME, p);
    Outcomes(limit, NAME, p);
    Reserved(limit, p, target);
    var w := Limited(limit);
    var e, a := NewBuf(EVENTS, EMPTY_SCOPE), NewBuf(NAME, One(NAME, p)).(window := Some(Size(p)));
    var p0 := WarmWriting([Plan(NAME, target, Size(p), false)], 0, {0});
    var total := 3072 + target.Bytes();
    var s0 := At3(e, a, p0, DELETER, Idle, total, 1, 0);
    var s1 := At3(e, a.(hold := Held(1, GONE)), p0, Writing(2), Idle, total - Size(p), 1, Size(p));
    Extend(w, s0, 1, Continue(0));
    assert Do(w, s0, 1, Continue(0)) == s1;
    Extend(w, s1, 1, Continue(0));
    assert Do(w, s1, 1, Continue(0)) == At3(e, a.(scope := GONE), p0, Idle, Idle, total - Size(p), 0, Size(p));
  }

  // A write to _events then takes 56 bytes, up to a cap of 3128.
  lemma {:induction false} Refilled()
    ensures Brought(Limited(3128), At3(NewBuf(EVENTS, One(EVENTS, "1")), NewBuf(NAME, GONE).(window := Some(50)),
                                         WarmWriting([Plan(NAME, One(NAME, "1"), 50, false)], 0, {0}), Idle, Idle, 3128, 1, 50))
  {
    hide Brought, Apply, Sum, Scope.Bytes, Asked, Checked, IsNumber;
    StepsAsked(3128);
    RefillAsked();
    OneBytes(NAME, "1");
    OneBytes(EVENTS, "1");
    Outcomes(3128, EVENTS, "1");
    Deleted(3128, "1", One(NAME, "1"));
    var w := Limited(3128);
    var e, a := NewBuf(EVENTS, EMPTY_SCOPE), NewBuf(NAME, GONE).(window := Some(50));
    var p0 := WarmWriting([Plan(NAME, One(NAME, "1"), 50, false)], 0, {0});
    var s2 := At3(e, a, p0, Idle, Idle, 3072, 0, 50);
    var s3 := At3(e, a, p0, Idle, Ready(0, Adds("1"), false), 3072, 0, 50);
    Extend(w, s2, 2, Start(EVENTS, Adds("1")));
    assert Do(w, s2, 2, Start(EVENTS, Adds("1"))) == s3;
    var s4 := At3(e.(hold := Held(2, One(EVENTS, "1"))), a, p0, Idle, Writing(0), 3128, 0, 50);
    Extend(w, s3, 2, Continue(0));
    assert Do(w, s3, 2, Continue(0)) == s4;
    Extend(w, s4, 2, Continue(0));
    assert Do(w, s4, 2, Continue(0)) == At3(NewBuf(EVENTS, One(EVENTS, "1")), a, p0, Idle, Idle, 3128, 1, 50);
  }

  /** The commit adds the 50 bytes back without a cap check: the counter stands 50 above the cap. */
  lemma {:induction false} CapCanBePassed()
    ensures exists w, s :: Brought(w, s) && s.total == w.cfg.maxStoreBytes + 50 && s.shrunk == 50
  {
    hide Brought, Sum, Scope.Bytes, Asked;
    StepsAsked(3128);
    OneBytes(NAME, "1");
    Refilled();
    var w, plan := Limited(3128), Plan(NAME, One(NAME, "1"), 50, false);
    var a := NewBuf(NAME, GONE).(window := Some(50));
    var s0 := At3(NewBuf(EVENTS, One(EVENTS, "1")), a, WarmWriting([plan], 0, {0}), Idle, Idle, 3128, 1, 50);
    Extend(w, s0, 0, Continue(0));
    var s1 := Do(w, s0, 0, Continue(0));
    assert s1.total == 3178 && w.cfg.maxStoreBytes == 3128;
  }

  /** With an empty target and an item large enough, the release takes the counter below zero. */
  lemma {:induction false} TotalCanBeNegative()
    ensures exists w, s :: Brought(w, s) && s.total < 0
  {
    hide Brought, Sum, Scope.Bytes, Checked;
    var p: Bytes := seq(3100, _ => '1');
    BatchesAsked(10_000);
    OneBytes(NAME, p);
    Deleted(10_000, p, EMPTY_SCOPE);
    var s := At3(NewBuf(EVENTS, EMPTY_SCOPE), NewBuf(NAME, GONE).(window := Some(Size(p))),
                 WarmWriting([Plan(NAME, EMPTY_SCOPE, Size(p), false)], 0, {0}), Idle, Idle, 3072 - Size(p), 0, Size(p));
    assert Brought(Limited(10_000), s) && s.total < 0;
  }
}
