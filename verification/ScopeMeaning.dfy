/** What each operation on a list answers and leaves, by positions, numbers and fields alone. */
module ScopeMeaning {
  import opened Types
  import opened Rendering
  import opened Sums
  import opened ScopeSpec

  // ---- where an item is ----

  predicate IdAt(s: Scope, i: nat, id: string) {
    i < |s.items| && s.items[i].id == id && id != ""
  }

  ghost predicate NoId(s: Scope, id: string) {
    forall i :: 0 <= i < |s.items| ==> !IdAt(s, i, id)
  }

  predicate SeqAt(s: Scope, i: nat, sq: nat) {
    i < |s.items| && s.items[i].sq == sq
  }

  ghost predicate NoSeq(s: Scope, sq: nat) {
    forall i :: 0 <= i < |s.items| ==> s.items[i].sq != sq
  }

  lemma {:induction false} FindsId(s: Scope, id: string)
    requires WellFormed(s)
    ensures forall i: nat :: IdAt(s, i, id) ==> IndexOfId(s.items, id) == Some(i)
    ensures NoId(s, id) ==> IndexOfId(s.items, id) == None
  {
    var r := IndexOfId(s.items, id);
    if r.Some? { assert IdAt(s, r.value, id); }
  }

  lemma {:induction false} FindsSeq(s: Scope, sq: nat)
    requires WellFormed(s)
    ensures forall i: nat :: SeqAt(s, i, sq) ==> IndexOfSeq(s.items, sq) == Some(i)
    ensures NoSeq(s, sq) ==> IndexOfSeq(s.items, sq) == None
  {
  }

  // The render bytes a plain item is stored with: those handed in, or what decodes from the payload.
  function Rendered(env: Env, payload: Bytes, pre: Option<Bytes>): Option<Bytes> {
    match pre
    case Some(bytes) => Some(bytes)
    case None => env.cfg.codec.decodeString(payload)
  }

  predicate Full(env: Env, s: Scope) {
    env.maxItems != 0 && |s.items| >= env.maxItems
  }

  // One more item at the end, with the next seq; nothing else moves.
  predicate Grows(env: Env, s: Scope, next: Scope, id: string, body: Body, now: int) {
    && next.items == s.items + [Item(env.name, id, s.lastSeq + 1, now, body)]
    && next.lastSeq == s.lastSeq + 1 && next.idKeyBytes == s.idKeyBytes + |id|
  }

  // The item at one position takes another body and time; nothing else moves.
  predicate Rewrites(s: Scope, next: Scope, i: nat, body: Body, ts: int) {
    && |next.items| == |s.items| && next.lastSeq == s.lastSeq && next.idKeyBytes == s.idKeyBytes
    && forall k :: 0 <= k < |s.items| ==>
         next.items[k] == if k != i then s.items[k]
                          else Item(s.items[k].scope, s.items[k].id, s.items[k].sq, ts, body)
  }

  /** What an item is charged (types.go): 48 bytes, its strings, and its payload with render bytes or 56 for a counter. */
  lemma {:induction false} SizeMeans(x: Item)
    ensures ItemSize(x) == 48 + |x.scope| + |x.id|
      + match x.body
        case Plain(payload, None) => |payload|
        case Plain(payload, Some(render)) => |payload| + |render|
        case Counter(_) => 56
  {
  }

  // ---- writes ----

  /** /append: refused when the scope is full or has the id, else one more item, which is the answer. */
  lemma {:induction false} AppendMeans(env: Env, s: Scope, id: string, payload: Bytes, pre: Option<Bytes>, now: int)
    requires WellFormed(s)
    ensures var r := Apply(env, s, Append(id, payload, pre), now);
      if Full(env, s) then r == Rejected(ScopeFull(|s.items|, env.maxItems))
      else if !NoId(s, id) then r == Rejected(DuplicateId)
      else
        && r.Changed? && Grows(env, s, r.next, id, Plain(payload, Rendered(env, payload, pre)), now)
        && r.reply == ItemReply(r.next.items[|s.items|], true)
  {
    hide IndexOfId;
    FindsId(s, id);
    if !NoId(s, id) { var i :| 0 <= i < |s.items| && IdAt(s, i, id); }
  }

  /** /upsert: the item with the id takes the payload, or a new one does, if the scope is not full. */
  lemma {:induction false} UpsertMeans(env: Env, s: Scope, id: string, payload: Bytes, pre: Option<Bytes>, now: int)
    requires WellFormed(s)
    ensures var r := Apply(env, s, Upsert(id, payload, pre), now);
            var body := Plain(payload, Rendered(env, payload, pre));
      && (forall i: nat :: IdAt(s, i, id) ==>
            && r.Changed? && Rewrites(s, r.next, i, body, now)
            && r.reply == ItemReply(s.items[i].(body := body, ts := now), false))
      && (NoId(s, id) && Full(env, s) ==> r == Rejected(ScopeFull(|s.items|, env.maxItems)))
      && (NoId(s, id) && !Full(env, s) ==>
            && r.Changed? && Grows(env, s, r.next, id, body, now)
            && r.reply == ItemReply(r.next.items[|s.items|], true))
  {
    hide IndexOfId;
    FindsId(s, id);
  }

  /** /update by id: the payload of the item with the id, or a miss. */
  lemma {:induction false} UpdateIdMeans(env: Env, s: Scope, id: string, payload: Bytes, pre: Option<Bytes>, now: int)
    requires WellFormed(s)
    ensures var r := Apply(env, s, UpdateById(id, payload, pre), now);
      && (NoId(s, id) ==> r == Missed)
      && (forall i: nat :: IdAt(s, i, id) ==>
            && r.Changed? && Rewrites(s, r.next, i, Plain(payload, Rendered(env, payload, pre)), now)
            && r.reply == CountReply(1))
  {
    hide IndexOfId;
    FindsId(s, id);
  }

  /** /update by seq: the same by seq, refused if the item with its own id would pass its cap. */
  lemma {:induction false} UpdateSeqMeans(env: Env, s: Scope, sq: nat, payload: Bytes, pre: Option<Bytes>, now: int)
    requires WellFormed(s)
    ensures var r := Apply(env, s, UpdateBySeq(sq, payload, pre), now);
            var render := Rendered(env, payload, pre);
      && (NoSeq(s, sq) ==> r == Missed)
      && (forall i: nat :: SeqAt(s, i, sq) ==>
            var size := 48 + |s.items[i].scope| + |s.items[i].id| + |payload| + if render.Some? then |render.value| else 0;
            if size > env.cfg.MaxItemBytesFor(s.items[i].scope) then r == Rejected(Invalid)
            else r.Changed? && Rewrites(s, r.next, i, Plain(payload, render), now) && r.reply == CountReply(1))
  {
    hide IndexOfSeq;
    FindsSeq(s, sq);
  }

  predicate CounterFits(v: int) {
    -9_007_199_254_740_991 <= v <= 9_007_199_254_740_991
  }

  // What a counter_add on the item at i starts from: its counter, or the integer its payload reads as.
  function StartsFrom(env: Env, x: Item): Option<int> {
    match x.body
    case Counter(v) => Some(v)
    case Plain(payload, _) =>
      match env.cfg.codec.parseInteger(payload)
      case Some(v) => if CounterFits(v) then Some(v) else None
      case None => None
  }

  /**
    /counter_add: on an item that reads as v it leaves the counter v + inc and answers it, or
    is refused if that is out of range; on any other payload it is refused; without such an
    item it creates the counter inc.
   */
  lemma {:induction false} CounterAddMeans(env: Env, s: Scope, id: string, inc: int, now: int)
    requires WellFormed(s)
    ensures var r := Apply(env, s, CounterAdd(id, inc), now);
      && (NoId(s, id) && Full(env, s) ==> r == Rejected(ScopeFull(|s.items|, env.maxItems)))
      && (NoId(s, id) && !Full(env, s) ==>
            r.Changed? && Grows(env, s, r.next, id, Counter(inc), now) && r.reply == ValueReply(inc, true))
      && (forall i: nat :: IdAt(s, i, id) ==>
            match StartsFrom(env, s.items[i])
            case None => r == Rejected(CounterPayload)
            case Some(v) =>
              if !CounterFits(v + inc) then r == Rejected(CounterOverflow(v, inc))
              else
                && r.Changed? && r.reply == ValueReply(v + inc, false)
                && Rewrites(s, r.next, i, Counter(v + inc),
                            if s.items[i].body.Counter? && s.items[i].ts > now then s.items[i].ts else now))
  {
    hide IndexOfId;
    FindsId(s, id);
  }

  // One item fewer, the others in order; lastSeq stays.
  predicate Drops(s: Scope, next: Scope, i: nat) {
    && i < |s.items| && |next.items| == |s.items| - 1 && next.lastSeq == s.lastSeq
    && (forall k :: 0 <= k < |next.items| ==> next.items[k] == s.items[if k < i then k else k + 1])
    && next.idKeyBytes == if |s.items| == 1 then 0 else s.idKeyBytes - |s.items[i].id|
  }

  /** /delete: the one item with the id, or a miss. */
  lemma {:induction false} DeleteIdMeans(env: Env, s: Scope, id: string, now: int)
    requires WellFormed(s)
    ensures var r := Apply(env, s, DeleteById(id), now);
      && (NoId(s, id) ==> r == Missed)
      && (forall i: nat :: IdAt(s, i, id) ==> r.Changed? && Drops(s, r.next, i) && r.reply == CountReply(1))
  {
    hide IndexOfId;
    FindsId(s, id);
  }

  /** And the same by seq. */
  lemma {:induction false} DeleteSeqMeans(env: Env, s: Scope, sq: nat, now: int)
    requires WellFormed(s)
    ensures var r := Apply(env, s, DeleteBySeq(sq), now);
      && (NoSeq(s, sq) ==> r == Missed)
      && (forall i: nat :: SeqAt(s, i, sq) ==> r.Changed? && Drops(s, r.next, i) && r.reply == CountReply(1))
  {
    hide IndexOfSeq;
    FindsSeq(s, sq);
  }

  // How many items lie at or below a cursor: the prefix of that length does.
  predicate CutAt(items: seq<Item>, cursor: nat, k: nat) {
    && k <= |items|
    && (forall i :: 0 <= i < k ==> items[i].sq <= cursor)
    && (forall i :: k <= i < |items| ==> items[i].sq > cursor)
  }

  /** /delete_up_to: the items at or below the cursor go, their number is the answer, none is a miss. */
  lemma {:induction false} DeleteUpToMeans(env: Env, s: Scope, maxSeq: nat, k: nat, now: int)
    requires WellFormed(s) && CutAt(s.items, maxSeq, k)
    ensures var r := Apply(env, s, DeleteUpTo(maxSeq), now);
      if k == 0 then r == Missed
      else
        && r.Changed? && r.reply == CountReply(k) && r.next.items == s.items[k..] && r.next.lastSeq == s.lastSeq
        && r.next.idKeyBytes == if k == |s.items| then 0 else s.idKeyBytes - Sum(s.items[..k], IdSize)
  {
    hide Above, Sum;
    AboveIsSuffix(s.items, k, maxSeq);
    SumSplit(s.items, k, IdSize);
  }

  // ---- reads ----

  // The stored items from a position on are what a read answers.
  predicate Answers(items: seq<Item>, from: nat, out: seq<Item>) {
    from + |out| <= |items| && forall j :: 0 <= j < |out| ==> Shows(items[from + j], out[j])
  }

  /** /head after a cursor: the first items above it, up to the limit, and whether one more is there. */
  ghost predicate HeadAnswers(items: seq<Item>, cursor: nat, limit: int, out: seq<Item>, more: bool) {
    if limit <= 0 then out == [] && !more
    else forall k: nat :: CutAt(items, cursor, k) ==>
      && Answers(items, k, out) && |out| == (if |items| - k < limit then |items| - k else limit)
      && (more <==> k + |out| < |items|)
  }

  /** /tail: the last items after leaving out the newest `offset`, up to the limit, and whether an older one is there. */
  predicate TailAnswers(items: seq<Item>, limit: int, offset: int, out: seq<Item>, more: bool) {
    if limit <= 0 || offset < 0 || offset >= |items| then out == [] && !more
    else
      var end := |items| - offset;
      && |out| == (if end < limit then end else limit) && Answers(items, end - |out|, out)
      && (more <==> end - |out| > 0)
  }

  lemma {:induction false} HeadMeans(items: seq<Item>, cursor: nat, limit: int)
    ensures var (window, more) := Since(items, cursor, limit); HeadAnswers(items, cursor, limit, MaterialiseAll(window), more)
  {
    hide Above, Shows, Materialise;
    var (window, _) := Since(items, cursor, limit);
    forall k: nat | CutAt(items, cursor, k) ensures Above(items, cursor) == items[k..] { AboveIsSuffix(items, k, cursor); }
    forall j | 0 <= j < |window| ensures Shows(window[j], MaterialiseAll(window)[j]) { MaterialiseShows(window[j]); }
  }

  lemma {:induction false} TailMeans(items: seq<Item>, limit: int, offset: int)
    ensures var (window, more) := Tail(items, limit, offset); TailAnswers(items, limit, offset, MaterialiseAll(window), more)
  {
    hide Shows, Materialise;
    var (window, _) := Tail(items, limit, offset);
    forall j | 0 <= j < |window| ensures Shows(window[j], MaterialiseAll(window)[j]) { MaterialiseShows(window[j]); }
  }

  /** /get: the item with the id, or with the seq, as a reader sees it. */
  ghost predicate IdAnswers(s: Scope, id: string, r: Option<Item>) {
    && (NoId(s, id) ==> r == None)
    && (forall i: nat :: IdAt(s, i, id) ==> r.Some? && Shows(s.items[i], r.value))
  }

  ghost predicate SeqAnswers(s: Scope, sq: nat, r: Option<Item>) {
    && (NoSeq(s, sq) ==> r == None)
    && (forall i: nat :: SeqAt(s, i, sq) ==> r.Some? && Shows(s.items[i], r.value))
  }

  lemma {:induction false} GetMeans(s: Scope, id: string, sq: nat)
    requires WellFormed(s)
    ensures IdAnswers(s, id, match IndexOfId(s.items, id) case None => None case Some(i) => Some(Materialise(s.items[i])))
    ensures SeqAnswers(s, sq, match IndexOfSeq(s.items, sq) case None => None case Some(i) => Some(Materialise(s.items[i])))
  {
    hide IndexOfId, IndexOfSeq, Shows, Materialise;
    FindsId(s, id);
    FindsSeq(s, sq);
    forall i | 0 <= i < |s.items| ensures Shows(s.items[i], Materialise(s.items[i])) { MaterialiseShows(s.items[i]); }
  }
}
