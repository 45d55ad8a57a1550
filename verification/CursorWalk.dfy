/** Paging GET /head with after_seq set to the last seq returned, while the scope keeps changing. */
module CursorWalk {
  import opened Types
  import opened ScopeSpec
  import opened ScopeLaws

  // returned: the pages so far; stayed: seqs present in every state since the walk began.
  datatype Walk = Walk(scope: Scope, cursor: nat, returned: seq<Item>, stayed: set<nat>, done: bool)

  datatype Step = Page(limit: nat) | Change(op: Op, now: int)

  ghost function Seqs(items: seq<Item>): set<nat> {
    set x | x in items :: x.sq
  }

  ghost predicate Can(env: Env, w: Walk, a: Step) {
    match a
    case Page(limit) => limit > 0
    case Change(op, now) => Apply(env, w.scope, op, now).Changed?
  }

  ghost function Take(env: Env, w: Walk, a: Step): Walk
    requires Can(env, w, a)
  {
    match a
    case Page(limit) =>
      var (page, more) := Since(w.scope.items, w.cursor, limit);
      w.(returned := w.returned + page,
         cursor := if page == [] then w.cursor else page[|page| - 1].sq,
         done := !more)
    case Change(op, now) =>
      var next := Apply(env, w.scope, op, now).next;
      w.(scope := next, stayed := w.stayed * Seqs(next.items), done := false)
  }

  ghost predicate Ok(w: Walk) {
    && WellFormed(w.scope)
    && w.stayed <= Seqs(w.scope.items)
    && (forall i, j :: 0 <= i < j < |w.returned| ==> w.returned[i].sq < w.returned[j].sq)
    && (forall i :: 0 <= i < |w.returned| ==> w.returned[i].sq <= w.cursor)
  }

  // Everything that stayed and lies between the start and the cursor has been returned.
  ghost predicate Complete(w: Walk, from: nat) {
    && from <= w.cursor
    && forall q :: q in w.stayed && from < q <= w.cursor ==> q in Seqs(w.returned)
  }

  // A page is a window of the list that starts right above the cursor.
  lemma {:induction false} PageIsWindow(s: Scope, cursor: nat, limit: nat) returns (k: nat)
    requires WellFormed(s) && limit > 0
    ensures k <= |s.items| && forall i :: 0 <= i < |s.items| ==> (i < k <==> s.items[i].sq <= cursor)
    ensures var (page, more) := Since(s.items, cursor, limit);
      && k + |page| <= |s.items| && page == s.items[k..k + |page|]
      && (more <==> k + |page| < |s.items|) && (more ==> page != [])
  {
    k := CutPoint(s.items, cursor);
    var page := Since(s.items, cursor, limit).0;
    assert s.items[k..][..|page|] == s.items[k..k + |page|];
  }

  // What a page holds: the items above the cursor up to its last seq, all of them, in order.
  lemma {:induction false} PageCovers(s: Scope, cursor: nat, limit: nat)
    requires WellFormed(s) && limit > 0
    ensures var (page, more) := Since(s.items, cursor, limit);
      && (forall i :: 0 <= i < |page| ==> page[i] in s.items && page[i].sq > cursor)
      && (forall i, j :: 0 <= i < j < |page| ==> page[i].sq < page[j].sq)
      && (forall q :: q in Seqs(s.items) && q > cursor && (!more || (page != [] && q <= page[|page| - 1].sq)) ==> q in Seqs(page))
      && (more ==> page != [])
  {
    hide Since;
    var k := PageIsWindow(s, cursor, limit);
    var (page, more) := Since(s.items, cursor, limit);
    var n := |page|;
    forall q | q in Seqs(s.items) && q > cursor && (!more || (page != [] && q <= page[n - 1].sq)) ensures q in Seqs(page) {
      var i :| 0 <= i < |s.items| && s.items[i].sq == q;
      assert k <= i < k + n;
      assert page[i - k] == s.items[i];
    }
  }

  lemma {:induction false} PageOk(env: Env, w: Walk, limit: nat, from: nat)
    requires Ok(w) && Complete(w, from) && limit > 0
    ensures var w' := Take(env, w, Page(limit));
      && Ok(w') && Complete(w', from)
      && (w'.done ==> forall q :: q in w'.stayed && q > from ==> q in Seqs(w'.returned))
  {
    hide Since, WellFormed;
    PageCovers(w.scope, w.cursor, limit);
    var w' := Take(env, w, Page(limit));
    var page := Since(w.scope.items, w.cursor, limit).0;
    forall q | q in w'.stayed && from < q && (q <= w'.cursor || w'.done) ensures q in Seqs(w'.returned) {
      assert q in Seqs(w.scope.items);
      if q <= w.cursor { assert q in Seqs(w.returned); } else { assert q in Seqs(page); }
    }
  }

  lemma {:induction false} ChangeOk(env: Env, w: Walk, op: Op, now: int, from: nat)
    requires Ok(w) && Complete(w, from) && Apply(env, w.scope, op, now).Changed?
    ensures var w' := Take(env, w, Change(op, now)); Ok(w') && Complete(w', from)
  {
    hide Apply, WellFormed;
    ApplyKeepsOrder(env, w.scope, op, now);
  }

  ghost function Exec(env: Env, w: Walk, run: seq<Step>): Option<Walk>
    decreases |run|
  {
    if run == [] then Some(w)
    else match Exec(env, w, run[..|run| - 1])
      case Some(m) => if Can(env, m, run[|run| - 1]) then Some(Take(env, m, run[|run| - 1])) else None
      case None => None
  }

  ghost predicate Start(w: Walk) {
    WellFormed(w.scope) && w.returned == [] && w.stayed == Seqs(w.scope.items) && !w.done
  }

  lemma {:induction false} RunOk(env: Env, w: Walk, run: seq<Step>)
    requires Start(w)
    ensures Exec(env, w, run).Some? ==>
      var r := Exec(env, w, run).value;
      && Ok(r) && Complete(r, w.cursor)
      && (r.done ==> forall q :: q in r.stayed && q > w.cursor ==> q in Seqs(r.returned))
    decreases |run|
  {
    hide Ok, Complete, Can, Take, Seqs;
    if run == [] {
      StartOk(w);
    } else {
      RunOk(env, w, run[..|run| - 1]);
      if Exec(env, w, run).Some? {
        var m, a := Exec(env, w, run[..|run| - 1]).value, run[|run| - 1];
        StepOk(env, m, a, w.cursor);
      }
    }
  }

  lemma {:induction false} StartOk(w: Walk)
    requires Start(w)
    ensures Ok(w) && Complete(w, w.cursor)
  {
  }

  lemma {:induction false} StepOk(env: Env, w: Walk, a: Step, from: nat)
    requires Ok(w) && Complete(w, from) && Can(env, w, a)
    ensures var w' := Take(env, w, a);
      && Ok(w') && Complete(w', from)
      && (w'.done ==> forall q :: q in w'.stayed && q > from ==> q in Seqs(w'.returned))
  {
    hide Ok, Complete;
    match a
    case Page(limit) => PageOk(env, w, limit, from);
    case Change(op, now) => ChangeOk(env, w, op, now, from);
  }

  /**
    Whatever appends, upserts, updates, counter adds and deletes fall between the pages,
    the walk returns strictly increasing seqs, so none twice; and when a page says that
    nothing is left, every item present throughout has been returned.
   */
  lemma {:induction false} WalkIsStable(env: Env, w: Walk, run: seq<Step>)
    requires Start(w) && Exec(env, w, run).Some?
    ensures var r := Exec(env, w, run).value;
      && (forall i, j :: 0 <= i < j < |r.returned| ==> r.returned[i].sq < r.returned[j].sq)
      && (r.done ==> forall q :: q in r.stayed && q > w.cursor ==> q in Seqs(r.returned))
  {
    hide Exec, Seqs;
    RunOk(env, w, run);
  }

  /** A page adds the items above the cursor, up to its limit, and says it is the last exactly if none is left above them. */
  lemma {:induction false} PageMeans(env: Env, w: Walk, limit: nat, k: nat)
    requires WellFormed(w.scope) && limit > 0
    requires k <= |w.scope.items| && forall i :: 0 <= i < |w.scope.items| ==> (i < k <==> w.scope.items[i].sq <= w.cursor)
    ensures var w', items := Take(env, w, Page(limit)), w.scope.items;
            var n := if |items| - k < limit then |items| - k else limit;
      && w'.returned == w.returned + items[k..k + n] && w'.scope == w.scope && w'.stayed == w.stayed
      && w'.cursor == (if n == 0 then w.cursor else items[k + n - 1].sq)
      && (w'.done <==> k + n == |items|)
  {
    hide Since, WellFormed, Seqs;
    SinceLength(w.scope.items, w.cursor, limit, k);
  }

  lemma {:induction false} SinceLength(items: seq<Item>, cursor: nat, limit: nat, k: nat)
    requires limit > 0 && k <= |items| && forall i :: 0 <= i < |items| ==> (i < k <==> items[i].sq <= cursor)
    ensures |Since(items, cursor, limit).0| == if |items| - k < limit then |items| - k else limit
    ensures Since(items, cursor, limit).1 <==> |items| - k > limit
    ensures Since(items, cursor, limit).0 == items[k..k + |Since(items, cursor, limit).0|]
  {
    AboveIsSuffix(items, k, cursor);
  }

  /** Between pages the scope becomes what an operation makes of it, and only what is still there has stayed. */
  lemma {:induction false} ChangeMeans(env: Env, w: Walk, op: Op, now: int)
    requires Can(env, w, Change(op, now))
    ensures var w' := Take(env, w, Change(op, now));
      && Apply(env, w.scope, op, now).Changed? && w'.scope == Apply(env, w.scope, op, now).next
      && w'.returned == w.returned && w'.cursor == w.cursor
      && forall q :: q in w'.stayed <==> q in w.stayed && exists x :: x in w'.scope.items && x.sq == q
  {
    hide Apply;
  }
}
