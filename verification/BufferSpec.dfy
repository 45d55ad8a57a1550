/** One call on one buffer, as a pure function of the buffer and of the counters it shares. */
module BufferSpec {
  import opened Types
  import opened ScopeSpec
  import opened ScopeLaws

  /** Everything a caller can observe of a buffer and of the counters it shares. */
  datatype Snap = Snap(
    scope: Scope, detached: bool, writeTS: int,
    total: int, items: int, storeTS: int)

  // Counter operations are silent on both freshness stamps (buffer_counter.go:24-35).
  function Commit(b: Snap, limit: int, next: Scope, now: int, silent: bool): (Snap, Option<Error>) {
    var delta := next.Bytes() - b.scope.Bytes();
    if Admits(b.total, limit, delta) then
      (Snap(next, b.detached, if silent then b.writeTS else now,
            b.total + delta, b.items + |next.items| - |b.scope.items|,
            if silent then b.storeTS else Max(b.storeTS, now)), None)
    else (b, Some(StoreFull(b.total, delta, limit)))
  }

  /** One buffer call, as a function of the state it finds. */
  function Perform(env: Env, b: Snap, op: Op, now: int): (Snap, Result<Option<Reply>>) {
    if b.detached then (b, Err(Detached))
    else match Apply(env, b.scope, op, now)
      case Rejected(e) => (b, Err(e))
      case Missed => (b, Ok(None))
      case Changed(next, reply) =>
        match Commit(b, env.cfg.maxStoreBytes, next, now, op.CounterAdd?)
        case (after, None) => (after, Ok(Some(reply)))
        case (after, Some(e)) => (after, Err(e))
  }

  // How a committed insertion answers.
  lemma {:induction false} PerformAppend(env: Env, b: Snap, id: string, payload: Bytes, pre: Option<Bytes>, now: int)
    requires !b.detached
    ensures
      var r := Perform(env, b, Append(id, payload, pre), now);
      var next := Insert(b.scope, env.name, id, Plain(payload, RenderBytes(env.cfg.codec, pre, payload)), now);
      var (after, e) := Commit(b, env.cfg.maxStoreBytes, next, now, false);
      if CapExceeded(env.maxItems, |b.scope.items| + 1) then r == (b, Err(ScopeFull(|b.scope.items|, env.maxItems)))
      else if IndexOfId(b.scope.items, id).Some? then r == (b, Err(DuplicateId))
      else r == (after, if e.None? then Ok(Some(ItemReply(next.items[|next.items| - 1], true))) else Err(e.value))
  {
  }

  // How an in-place rewrite of position i answers.
  function Rewritten(env: Env, b: Snap, i: nat, body: Body, ts: int, now: int, silent: bool, reply: Reply): (Snap, Result<Option<Reply>>)
    requires i < |b.scope.items|
  {
    var (after, e) := Commit(b, env.cfg.maxStoreBytes, Replace(b.scope, i, body, ts), now, silent);
    (after, if e.None? then Ok(Some(reply)) else Err(e.value))
  }

  lemma {:induction false} PerformUpsert(env: Env, b: Snap, id: string, payload: Bytes, pre: Option<Bytes>, now: int)
    requires !b.detached
    ensures
      var r := Perform(env, b, Upsert(id, payload, pre), now);
      var body := Plain(payload, RenderBytes(env.cfg.codec, pre, payload));
      var next := Insert(b.scope, env.name, id, body, now);
      var (after, e) := Commit(b, env.cfg.maxStoreBytes, next, now, false);
      match IndexOfId(b.scope.items, id)
      case Some(i) =>
        r == Rewritten(env, b, i, body, now, now, false, ItemReply(b.scope.items[i].(body := body, ts := now), false))
      case None =>
        if CapExceeded(env.maxItems, |b.scope.items| + 1) then r == (b, Err(ScopeFull(|b.scope.items|, env.maxItems)))
        else r == (after, if e.None? then Ok(Some(ItemReply(next.items[|next.items| - 1], true))) else Err(e.value))
  {
  }

  lemma {:induction false} PerformUpdate(env: Env, b: Snap, id: string, sq: nat, payload: Bytes, pre: Option<Bytes>, now: int)
    requires !b.detached
    ensures
      var body := Plain(payload, RenderBytes(env.cfg.codec, pre, payload));
      && (var r := Perform(env, b, UpdateById(id, payload, pre), now);
          match IndexOfId(b.scope.items, id)
          case None => r == (b, Ok(None))
          case Some(i) => r == Rewritten(env, b, i, body, now, now, false, CountReply(1)))
      && (var r := Perform(env, b, UpdateBySeq(sq, payload, pre), now);
          match IndexOfSeq(b.scope.items, sq)
          case None => r == (b, Ok(None))
          case Some(i) =>
            if ItemSize(b.scope.items[i].(body := body)) > env.cfg.MaxItemBytesFor(b.scope.items[i].scope)
            then r == (b, Err(Invalid))
            else r == Rewritten(env, b, i, body, now, now, false, CountReply(1)))
  {
  }

  lemma {:induction false} PerformCreate(env: Env, b: Snap, id: string, inc: int, now: int)
    requires !b.detached && IndexOfId(b.scope.items, id).None?
    ensures
      var r := Perform(env, b, CounterAdd(id, inc), now);
      var (after, e) := Commit(b, env.cfg.maxStoreBytes, Insert(b.scope, env.name, id, Counter(inc), now), now, true);
      if CapExceeded(env.maxItems, |b.scope.items| + 1) then r == (b, Err(ScopeFull(|b.scope.items|, env.maxItems)))
      else r == (after, if e.None? then Ok(Some(ValueReply(inc, true))) else Err(e.value))
  {
  }

  lemma {:induction false} PerformIncrement(env: Env, b: Snap, id: string, i: nat, inc: int, now: int)
    requires !b.detached && IndexOfId(b.scope.items, id) == Some(i) && b.scope.items[i].body.Counter?
    ensures
      var r := Perform(env, b, CounterAdd(id, inc), now);
      var v := b.scope.items[i].body.value;
      if InCounterRange(v + inc)
      then r == Rewritten(env, b, i, Counter(v + inc), Max(b.scope.items[i].ts, now), now, true, ValueReply(v + inc, false))
      else r == (b, Err(CounterOverflow(v, inc)))
  {
  }

  lemma {:induction false} PerformPromote(env: Env, b: Snap, id: string, i: nat, inc: int, now: int)
    requires !b.detached && IndexOfId(b.scope.items, id) == Some(i) && b.scope.items[i].body.Plain?
    ensures
      var r := Perform(env, b, CounterAdd(id, inc), now);
      match ParseCounter(env.cfg.codec, b.scope.items[i].body.payload)
      case None => r == (b, Err(CounterPayload))
      case Some(v) =>
        if InCounterRange(v + inc)
        then r == Rewritten(env, b, i, Counter(v + inc), now, now, true, ValueReply(v + inc, false))
        else r == (b, Err(CounterOverflow(v, inc)))
  {
  }

  // How a committed removal answers: shrinking is never refused.
  lemma {:induction false} PerformDelete(env: Env, b: Snap, op: Op, i: nat, now: int)
    requires !b.detached && i < |b.scope.items|
    requires
      || (op.DeleteById? && IndexOfId(b.scope.items, op.id) == Some(i))
      || (op.DeleteBySeq? && IndexOfSeq(b.scope.items, op.sq) == Some(i))
    ensures Perform(env, b, op, now)
         == (Commit(b, env.cfg.maxStoreBytes, RemoveAt(b.scope, i), now, false).0, Ok(Some(CountReply(1))))
  {
    RemoveLaws(b.scope, i);
  }

  lemma {:induction false} PerformMiss(env: Env, b: Snap, op: Op, now: int)
    requires !b.detached
    requires
      || (op.DeleteById? && IndexOfId(b.scope.items, op.id).None?)
      || (op.DeleteBySeq? && IndexOfSeq(b.scope.items, op.sq).None?)
    ensures Perform(env, b, op, now) == (b, Ok(None))
  {
  }

  lemma {:induction false} PerformDrain(env: Env, b: Snap, maxSeq: nat, k: nat, now: int)
    requires !b.detached && WellFormed(b.scope)
    requires k <= |b.scope.items| && Above(b.scope.items, maxSeq) == b.scope.items[k..]
    ensures Perform(env, b, DeleteUpTo(maxSeq), now)
         == if k == 0 then (b, Ok(None))
            else (Commit(b, env.cfg.maxStoreBytes, Drain(b.scope, maxSeq), now, false).0, Ok(Some(CountReply(k))))
  {
    DrainLaws(b.scope, maxSeq);
  }
}
