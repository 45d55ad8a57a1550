/** Listing scopes by name (store.go, scopeList): one page, and a walk over pages while scopes come and go. */
module ScopeList {
  import opened Types

  // ---- Go's order on strings ----

  predicate Less(a: string, b: string) {
    if b == "" then false
    else if a == "" then true
    else if a[0] != b[0] then a[0] < b[0]
    else Less(a[1..], b[1..])
  }

  lemma {:induction false} LessTotal(a: string, b: string)
    ensures !Less(a, a)
    ensures a != b ==> (Less(a, b) <==> !Less(b, a))
  {
    if a != "" { LessTotal(a[1..], a[1..]); }
    if a != "" && b != "" && a[0] == b[0] {
      assert a == [a[0]] + a[1..] && b == [b[0]] + b[1..];
      LessTotal(a[1..], b[1..]);
    }
  }

  lemma {:induction false} LessTrans(a: string, b: string, c: string)
    requires Less(a, b) && Less(b, c)
    ensures Less(a, c)
  {
    if a != "" && b != "" && c != "" && a[0] == b[0] == c[0] { LessTrans(a[1..], b[1..], c[1..]); }
  }

  predicate Sorted(names: seq<string>) {
    forall i, j :: 0 <= i < j < |names| ==> Less(names[i], names[j])
  }

  /** A set of names has one sorted list. */
  lemma {:induction false} SortedUnique(a: seq<string>, b: seq<string>)
    requires Sorted(a) && Sorted(b) && forall n :: n in a <==> n in b
    ensures a == b
  {
    assert b == [] || b[0] in a;
    assert a == [] || a[0] in b;
    if a != [] {
      FirstIsLeast(a, b[0]);
      FirstIsLeast(b, a[0]);
      LessTotal(a[0], b[0]);
      forall n ensures n in a[1..] <==> n in b[1..] {
        TailMember(a, n);
        TailMember(b, n);
      }
      SortedUnique(a[1..], b[1..]);
      assert a == [a[0]] + a[1..] && b == [b[0]] + b[1..];
    }
  }

  lemma {:induction false} FirstIsLeast(a: seq<string>, n: string)
    requires Sorted(a) && n in a
    ensures n == a[0] || Less(a[0], n)
  {
    var i :| 0 <= i < |a| && a[i] == n;
  }

  lemma {:induction false} TailMember(a: seq<string>, n: string)
    requires Sorted(a) && a != []
    ensures n in a[1..] <==> n in a && n != a[0]
  {
    if n in a[1..] {
      var i :| 0 <= i < |a[1..]| && a[1..][i] == n;
      assert a[i + 1] == n && Less(a[0], a[i + 1]);
      LessTotal(n, n);
    }
    if n in a && n != a[0] {
      var i :| 0 <= i < |a| && a[i] == n;
      assert a[1..][i - 1] == n;
    }
  }

  // ---- one page ----

  predicate Matches(n: string, prefix: string, after: string) {
    (prefix == "" || prefix <= n) && (after == "" || Less(after, n))
  }

  // The sorted list of the matching names among those seen.
  ghost predicate Lists(seen: set<string>, prefix: string, after: string, all: seq<string>) {
    Sorted(all) && forall n :: n in all <==> n in seen && Matches(n, prefix, after)
  }

  /** The first names of that list, and whether there are more. */
  ghost predicate IsPage(seen: set<string>, prefix: string, after: string, limit: int, page: seq<string>, truncated: bool) {
    if limit <= 0 then page == [] && !truncated
    else exists all :: Lists(seen, prefix, after, all) && truncated == (|all| > limit) && page == if truncated then all[..limit] else all
  }

  /** The page depends on the names alone, not on how they are spread over shards. */
  lemma {:induction false} PageUnique(seen: set<string>, prefix: string, after: string, limit: int,
                                      p: seq<string>, tp: bool, q: seq<string>, tq: bool)
    requires IsPage(seen, prefix, after, limit, p, tp) && IsPage(seen, prefix, after, limit, q, tq)
    ensures p == q && tp == tq
  {
    if limit > 0 {
      var a :| Lists(seen, prefix, after, a) && tp == (|a| > limit) && p == if tp then a[..limit] else a;
      var b :| Lists(seen, prefix, after, b) && tq == (|b| > limit) && q == if tq then b[..limit] else b;
      SortedUnique(a, b);
    }
  }

  // sort.Slice, on names that are all different.
  method Sort(refs: seq<string>) returns (sorted: seq<string>)
    requires forall i, j :: 0 <= i < j < |refs| ==> refs[i] != refs[j]
    ensures Sorted(sorted) && forall n :: n in sorted <==> n in refs
  {
    sorted := [];
    for i := 0 to |refs|
      invariant Sorted(sorted) && forall n :: n in sorted <==> n in refs[..i]
    {
      var k := 0;
      while k < |sorted| && Less(sorted[k], refs[i])
        invariant k <= |sorted|
        invariant forall j :: 0 <= j < k ==> Less(sorted[j], refs[i])
      {
        k := k + 1;
      }
      assert refs[..i + 1] == refs[..i] + [refs[i]];
      assert refs[i] !in sorted;
      InsertSorted(sorted, k, refs[i]);
      sorted := sorted[..k] + [refs[i]] + sorted[k..];
    }
    assert refs[..|refs|] == refs;
  }

  lemma {:induction false} InsertSorted(s: seq<string>, k: nat, x: string)
    requires Sorted(s) && k <= |s| && x !in s
    requires forall j :: 0 <= j < k ==> Less(s[j], x)
    requires k < |s| ==> !Less(s[k], x)
    ensures var t := s[..k] + [x] + s[k..]; Sorted(t) && forall n :: n in t <==> n == x || n in s
  {
    hide Less;
    InsertMembers(s, k, x);
    var t := s[..k] + [x] + s[k..];
    forall j | k <= j < |s| ensures Less(x, s[j]) {
      LessTotal(x, s[k]);
      if j > k { LessTrans(x, s[k], s[j]); }
    }
    assert forall j :: 0 <= j < |t| ==> t[j] == if j < k then s[j] else if j == k then x else s[j - 1];
  }

  lemma {:induction false} InsertMembers(s: seq<string>, k: nat, x: string)
    requires k <= |s|
    ensures forall n :: n in s[..k] + [x] + s[k..] <==> n == x || n in s
  {
    assert s == s[..k] + s[k..];
  }

  ghost function NamesOf(shards: seq<seq<string>>): set<string> {
    set i, j | 0 <= i < |shards| && 0 <= j < |shards[i]| :: shards[i][j]
  }

  // A name lives in one shard, once.
  ghost predicate AllDistinct(shards: seq<seq<string>>) {
    forall a, b, c, d ::
      0 <= a < |shards| && 0 <= b < |shards[a]| && 0 <= c < |shards| && 0 <= d < |shards[c]| && (a != c || b != d)
      ==> shards[a][b] != shards[c][d]
  }

  // The part of the walk already collected, up to one name of one shard.
  ghost predicate Collected(shards: seq<seq<string>>, i: nat, j: nat, prefix: string, after: string, refs: seq<string>) {
    forall n :: n in refs <==>
      Matches(n, prefix, after) && exists a, b :: 0 <= a < |shards| && 0 <= b < |shards[a]| && shards[a][b] == n && (a < i || (a == i && b < j))
  }

  /** scopeList over the names found in each shard. */
  method List(shards: seq<seq<string>>, prefix: string, after: string, limit: int) returns (page: seq<string>, truncated: bool)
    requires AllDistinct(shards)
    ensures IsPage(NamesOf(shards), prefix, after, limit, page, truncated)
  {
    if limit <= 0 {
      return [], false;
    }
    var refs := [];
    for i := 0 to |shards|
      invariant Collected(shards, i, 0, prefix, after, refs)
      invariant forall x, y :: 0 <= x < y < |refs| ==> refs[x] != refs[y]
    {
      for j := 0 to |shards[i]|
        invariant Collected(shards, i, j, prefix, after, refs)
        invariant forall x, y :: 0 <= x < y < |refs| ==> refs[x] != refs[y]
      {
        var name := shards[i][j];
        assert name !in refs;
        if Matches(name, prefix, after) {
          refs := refs + [name];
        }
      }
    }
    page := Sort(refs);
    assert Lists(NamesOf(shards), prefix, after, page);
    truncated := |page| > limit;
    if truncated {
      page := page[..limit];
    }
  }

  // ---- a walk ----

  // stayed: names present in every state since the walk began.
  datatype Walk = Walk(after: string, returned: seq<string>, stayed: set<string>, done: bool)

  // Shards are read one by one, so a page sees some set of names: at least those that stay.
  datatype Step = Page(limit: nat, seen: set<string>, page: seq<string>, truncated: bool) | Change(names: set<string>)

  ghost predicate Can(w: Walk, prefix: string, a: Step) {
    a.Page? ==> a.limit > 0 && w.stayed <= a.seen && "" !in a.seen && IsPage(a.seen, prefix, w.after, a.limit, a.page, a.truncated)
  }

  ghost function Take(w: Walk, a: Step): Walk {
    match a
    case Page(_, _, page, truncated) =>
      Walk(if page == [] then w.after else page[|page| - 1], w.returned + page, w.stayed, !truncated)
    case Change(names) => w.(stayed := w.stayed * names, done := false)
  }

  ghost predicate Ok(w: Walk, prefix: string) {
    && Sorted(w.returned)
    && (forall n :: n in w.returned ==> n != "" && (prefix == "" || prefix <= n) && (n == w.after || Less(n, w.after)))
    && (w.after == "" ==> w.returned == [])
    && (forall n :: n in w.stayed && n != "" && (prefix == "" || prefix <= n) && (n == w.after || Less(n, w.after)) ==> n in w.returned)
    && (w.done ==> forall n :: n in w.stayed && n != "" && (prefix == "" || prefix <= n) ==> n in w.returned)
  }

  lemma {:induction false} EmptyLeast(n: string)
    ensures n != "" <==> Less("", n)
    ensures !Less(n, "")
  {
  }

  // A page holds every seen, matching name up to its last one.
  lemma {:induction false} PageCovers(seen: set<string>, prefix: string, after: string, limit: nat, page: seq<string>, truncated: bool)
    requires limit > 0 && IsPage(seen, prefix, after, limit, page, truncated)
    ensures Sorted(page) && (truncated ==> page != [])
    ensures forall n :: n in page ==> n in seen && Matches(n, prefix, after)
    ensures forall n :: n in seen && Matches(n, prefix, after) && (!truncated || n == page[|page| - 1] || Less(n, page[|page| - 1])) ==> n in page
  {
    var all :| Lists(seen, prefix, after, all) && truncated == (|all| > limit) && page == if truncated then all[..limit] else all;
    forall n | n in seen && Matches(n, prefix, after) && (!truncated || n == page[|page| - 1] || Less(n, page[|page| - 1])) ensures n in page {
      var i :| 0 <= i < |all| && all[i] == n;
      if truncated && i >= limit {
        assert Less(all[limit - 1], all[i]);
        LessTotal(all[limit - 1], all[i]);
      } else {
        assert page[i] == n;
      }
    }
  }

  lemma {:induction false} Appended(w: Walk, page: seq<string>)
    requires Sorted(w.returned) && Sorted(page)
    requires forall n, m :: n in w.returned && m in page ==> Less(n, m)
    ensures Sorted(w.returned + page)
  {
    var both := w.returned + page;
    forall i, j | 0 <= i < j < |both| ensures Less(both[i], both[j]) {
      if i < |w.returned| <= j { assert both[i] in w.returned && both[j] in page; }
    }
  }

  lemma {:induction false} PageOk(w: Walk, prefix: string, a: Step)
    requires Ok(w, prefix) && Can(w, prefix, a) && a.Page?
    ensures Ok(Take(w, a), prefix)
  {
    hide IsPage, Less;
    PageCovers(a.seen, prefix, w.after, a.limit, a.page, a.truncated);
    var page, w' := a.page, Take(w, a);
    forall n, m | n in w.returned && m in page ensures Less(n, m) {
      if w.after != "" && n != w.after { LessTrans(n, w.after, m); }
    }
    Appended(w, page);
    if page != [] {
      var last := page[|page| - 1];
      forall n | n in w'.returned ensures n != "" && (prefix == "" || prefix <= n) && (n == last || Less(n, last)) {
        if n in page {
          var i :| 0 <= i < |page| && page[i] == n;
        } else {
          assert n in w.returned && last in page && Less(n, last);
        }
      }
    }
    forall n | n in w'.stayed && n != "" && (prefix == "" || prefix <= n) && (w'.done || n == w'.after || Less(n, w'.after))
      ensures n in w'.returned
    {
      LessTotal(w.after, n);
      EmptyLeast(n);
      if n == w.after || Less(n, w.after) {
        assert n in w.returned;
      } else {
        assert Matches(n, prefix, w.after) && n in a.seen;
        assert n in page;
      }
    }
  }

  ghost function Exec(w: Walk, prefix: string, run: seq<Step>): Option<Walk>
    decreases |run|
  {
    if run == [] then Some(w)
    else match Exec(w, prefix, run[..|run| - 1])
      case Some(m) => if Can(m, prefix, run[|run| - 1]) then Some(Take(m, run[|run| - 1])) else None
      case None => None
  }

  /**
    Paging with after set to the last name returned: strictly increasing names with the
    prefix, none twice, whatever scopes come and go; and after an untruncated page every
    matching scope that existed throughout has been returned.
   */
  lemma {:induction false} ListingWalk(names: set<string>, prefix: string, run: seq<Step>)
    requires "" !in names && Exec(Walk("", [], names, false), prefix, run).Some?
    ensures var r := Exec(Walk("", [], names, false), prefix, run).value;
      && Sorted(r.returned)
      && (forall n :: n in r.returned ==> prefix == "" || prefix <= n)
      && (r.done ==> forall n :: n in r.stayed && (prefix == "" || prefix <= n) ==> n in r.returned)
  {
    hide Can, Take;
    RunOk(names, prefix, run);
  }

  lemma {:induction false} RunOk(names: set<string>, prefix: string, run: seq<Step>)
    requires "" !in names
    ensures var r := Exec(Walk("", [], names, false), prefix, run);
      r.Some? ==> Ok(r.value, prefix) && "" !in r.value.stayed
    decreases |run|
  {
    hide Can, Take, Less;
    if run == [] {
      forall n ensures !Less(n, "") { EmptyLeast(n); }
    } else {
      RunOk(names, prefix, run[..|run| - 1]);
      if Exec(Walk("", [], names, false), prefix, run).Some? {
        StepOk(Exec(Walk("", [], names, false), prefix, run[..|run| - 1]).value, prefix, run[|run| - 1]);
      }
    }
  }

  lemma {:induction false} StepOk(w: Walk, prefix: string, a: Step)
    requires Ok(w, prefix) && "" !in w.stayed && Can(w, prefix, a)
    ensures Ok(Take(w, a), prefix) && "" !in Take(w, a).stayed
  {
    if a.Page? { PageOk(w, prefix, a); }
  }

  /** The order is that of Go: at the first place where the strings differ the smaller byte comes first, and a proper prefix before what it starts. */
  lemma {:induction false} LessMeans(a: string, b: string, k: nat)
    requires k <= |a| && k <= |b| && a[..k] == b[..k]
    requires k == |a| || k == |b| || a[k] != b[k]
    ensures Less(a, b) <==> if k < |a| && k < |b| then a[k] < b[k] else k == |a| && k < |b|
    decreases k
  {
    if k > 0 {
      assert a[0] == a[..k][0] == b[..k][0] == b[0];
      assert a[1..][..k - 1] == a[..k][1..] && b[1..][..k - 1] == b[..k][1..];
      LessMeans(a[1..], b[1..], k - 1);
    }
  }

  /** A page holds matching names in order, at most its limit; what it leaves out comes after it, and is there exactly if it says so. */
  lemma {:induction false} PageMeans(seen: set<string>, prefix: string, after: string, limit: int, page: seq<string>, truncated: bool)
    requires IsPage(seen, prefix, after, limit, page, truncated) && limit > 0
    ensures forall i, j :: 0 <= i < j < |page| ==> Less(page[i], page[j])
    ensures forall n :: n in page ==> n in seen && (prefix == "" || prefix <= n) && (after == "" || Less(after, n))
    ensures |page| <= limit && (truncated ==> |page| == limit)
    ensures forall n :: n in seen && (prefix == "" || prefix <= n) && (after == "" || Less(after, n)) && n !in page ==>
      truncated && forall i :: 0 <= i < |page| ==> Less(page[i], n)
    ensures truncated ==>
      exists n :: n in seen && (prefix == "" || prefix <= n) && (after == "" || Less(after, n)) && n !in page
  {
    hide Less;
    var all :| Lists(seen, prefix, after, all) && truncated == (|all| > limit) && page == if truncated then all[..limit] else all;
    CutMeans(all, limit, page, truncated);
    forall n | n in page ensures n in seen && (prefix == "" || prefix <= n) && (after == "" || Less(after, n)) {
      assert n in all && Matches(n, prefix, after);
    }
    forall n | n in seen && (prefix == "" || prefix <= n) && (after == "" || Less(after, n)) && n !in page
      ensures truncated && forall i :: 0 <= i < |page| ==> Less(page[i], n)
    {
      assert Matches(n, prefix, after) && n in all;
    }
    if truncated {
      var n :| n in all && n !in page;
      assert Matches(n, prefix, after) && n in seen;
      LeftOut(seen, prefix, after, page, n);
    }
  }

  lemma {:induction false} LeftOut(seen: set<string>, prefix: string, after: string, page: seq<string>, n: string)
    requires n in seen && Matches(n, prefix, after) && n !in page
    ensures exists n :: n in seen && (prefix == "" || prefix <= n) && (after == "" || Less(after, n)) && n !in page
  {
    hide Less;
  }

  // A sorted list cut at a length: what is left out comes after what is kept.
  lemma {:induction false} CutMeans(all: seq<string>, limit: int, page: seq<string>, truncated: bool)
    requires Sorted(all) && limit > 0 && truncated == (|all| > limit) && page == if truncated then all[..limit] else all
    ensures forall n :: n in page ==> n in all
    ensures forall n :: n in all && n !in page ==> truncated && forall i :: 0 <= i < |page| ==> Less(page[i], n)
    ensures truncated ==> exists n :: n in all && n !in page
  {
    hide Less;
    forall i | 0 <= i < |all| && (!truncated || i < limit) ensures all[i] in page { assert page[i] == all[i]; }
    forall n | n in all && n !in page ensures truncated && forall i :: 0 <= i < |page| ==> Less(page[i], n) {
      var i :| 0 <= i < |all| && all[i] == n;
    }
    if truncated {
      var n := all[limit];
      forall i | 0 <= i < |page| ensures page[i] != n { LessTotal(n, n); }
      assert n in all && n !in page;
    }
  }

  /** What a client makes of a page: it goes on after the last name, and is done when nothing was cut off. */
  lemma {:induction false} WalkMeans(w: Walk, a: Step)
    ensures a.Page? ==> var w' := Take(w, a);
      && w'.returned == w.returned + a.page && w'.stayed == w.stayed && (w'.done <==> !a.truncated)
      && w'.after == if a.page == [] then w.after else a.page[|a.page| - 1]
    ensures a.Change? ==> Take(w, a) == Walk(w.after, w.returned, set n | n in w.stayed && n in a.names, false)
  {
  }
}
