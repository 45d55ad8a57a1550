/** What every buffer operation keeps, whatever its arguments and outcome. */
module ScopeLaws {
  import opened Types
  import opened Sums
  import opened ScopeSpec

  // How far the O(1) id-byte counter lies below the true sum (0 except after /rebuild).
  function Shortfall(s: Scope): int {
    s.IdBytes() - s.idKeyBytes
  }

  lemma {:induction false} ReplaceLaws(s: Scope, i: nat, body: Body, ts: int)
    requires i < |s.items|
    ensures Replace(s, i, body, ts).IdBytes() == s.IdBytes()
    ensures Replace(s, i, body, ts).Bytes() == s.Bytes() - BodySize(s.items[i].body) + BodySize(body)
  {
    var x := s.items[i].(body := body, ts := ts);
    SumUpdate(s.items, i, x, ItemSize);
    SumUpdate(s.items, i, x, IdSize);
  }

  lemma {:induction false} ReplaceKeepsOrder(s: Scope, i: nat, body: Body, ts: int)
    requires i < |s.items| && WellFormed(s)
    ensures WellFormed(Replace(s, i, body, ts))
  {
  }

  lemma {:induction false} InsertLaws(s: Scope, scope: string, id: string, body: Body, now: int)
    ensures Insert(s, scope, id, body, now).IdBytes() == s.IdBytes() + |id|
    ensures Insert(s, scope, id, body, now).Bytes()
         == s.Bytes() + ItemSize(Item(scope, id, s.lastSeq + 1, now, body))
  {
    var x := Item(scope, id, s.lastSeq + 1, now, body);
    SumAppend(s.items, x, ItemSize);
    SumAppend(s.items, x, IdSize);
  }

  lemma {:induction false} InsertKeepsOrder(s: Scope, scope: string, id: string, body: Body, now: int)
    requires WellFormed(s) && IndexOfId(s.items, id).None?
    ensures WellFormed(Insert(s, scope, id, body, now))
  {
    var items := Insert(s, scope, id, body, now).items;
    assert items[..|s.items|] == s.items;
    assert forall i :: 0 <= i < |s.items| ==> items[i] == s.items[i];
    assert id != "" ==> forall i :: 0 <= i < |s.items| ==> s.items[i].id != id;
  }

  lemma {:induction false} RemoveLaws(s: Scope, i: nat)
    requires i < |s.items|
    ensures RemoveAt(s, i).Bytes() == s.Bytes() - ItemSize(s.items[i])
    ensures Shortfall(RemoveAt(s, i)) == if RemoveAt(s, i).items == [] then 0 else Shortfall(s)
  {
    SumRemove(s.items, i, ItemSize);
    SumRemove(s.items, i, IdSize);
  }

  lemma {:induction false} RemoveKeepsOrder(s: Scope, i: nat)
    requires i < |s.items| && WellFormed(s)
    ensures WellFormed(RemoveAt(s, i))
  {
    var kept := s.items[..i] + s.items[i + 1..];
    forall k | 0 <= k < |kept| ensures kept[k] == s.items[if k < i then k else k + 1] {}
  }

  lemma {:induction false} DrainLaws(s: Scope, maxSeq: nat)
    requires WellFormed(s)
    ensures Drain(s, maxSeq).Bytes() <= s.Bytes()
    ensures Shortfall(Drain(s, maxSeq)) == if Drain(s, maxSeq).items == [] then 0 else Shortfall(s)
  {
    var k := CutPoint(s.items, maxSeq);
    SumSplit(s.items, k, ItemSize);
    SumNonNegative(s.items[..k]);
  }

  lemma {:induction false} DrainKeepsOrder(s: Scope, maxSeq: nat)
    requires WellFormed(s)
    ensures WellFormed(Drain(s, maxSeq))
  {
    var k := CutPoint(s.items, maxSeq);
    assert forall i :: 0 <= i < |s.items[k..]| ==> s.items[k..][i] == s.items[k + i];
  }

  lemma {:induction false} SumNonNegative(items: seq<Item>)
    ensures Sum(items, ItemSize) >= 48 * |items|
  {
    if items != [] {
      SumNonNegative(items[1..]);
    }
  }

  /** Order and id uniqueness survive every operation, and lastSeq never goes back. */
  lemma {:induction false} ApplyKeepsOrder(env: Env, s: Scope, op: Op, now: int)
    requires WellFormed(s)
    ensures Apply(env, s, op, now).Changed? ==>
              && WellFormed(Apply(env, s, op, now).next)
              && Apply(env, s, op, now).next.lastSeq >= s.lastSeq
  {
    hide Apply, WellFormed, Replace, RemoveAt, Insert, Drain, IndexOfId;
    ApplyShape(env, s, op, now);
    if Apply(env, s, op, now).Changed? { ShapeKeepsOrder(env, s, op, now, Apply(env, s, op, now).next); }
  }

  lemma {:induction false} ShapeKeepsOrder(env: Env, s: Scope, op: Op, now: int, next: Scope)
    requires WellFormed(s)
    requires
      || (op.DeleteUpTo? && next == Drain(s, op.maxSeq))
      || (exists i, body, ts :: 0 <= i < |s.items| && next == Replace(s, i, body, ts))
      || (exists i :: 0 <= i < |s.items| && next == RemoveAt(s, i))
      || (exists id, body :: IndexOfId(s.items, id).None? && next == Insert(s, env.name, id, body, now))
    ensures WellFormed(next) && next.lastSeq >= s.lastSeq
  {
    hide WellFormed, IndexOfId, Above, Sum;
    if op.DeleteUpTo? && next == Drain(s, op.maxSeq) {
      DrainKeepsOrder(s, op.maxSeq);
    } else if i, body, ts :| 0 <= i < |s.items| && next == Replace(s, i, body, ts) {
      ReplaceKeepsOrder(s, i, body, ts);
    } else if i :| 0 <= i < |s.items| && next == RemoveAt(s, i) {
      RemoveKeepsOrder(s, i);
    } else {
      var id, body :| IndexOfId(s.items, id).None? && next == Insert(s, env.name, id, body, now);
      InsertKeepsOrder(s, env.name, id, body, now);
    }
  }

  // Every change is one of the three shapes, or a drain.
  lemma {:induction false} ApplyShape(env: Env, s: Scope, op: Op, now: int)
    ensures var r := Apply(env, s, op, now);
      r.Changed? ==>
        || (op.DeleteUpTo? && r.next == Drain(s, op.maxSeq))
        || (exists i, body, ts :: 0 <= i < |s.items| && r.next == Replace(s, i, body, ts))
        || (exists i :: 0 <= i < |s.items| && r.next == RemoveAt(s, i))
        || (exists id, body :: IndexOfId(s.items, id).None? && r.next == Insert(s, env.name, id, body, now))
  {
  }
}
