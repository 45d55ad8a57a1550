/** Which record an operation puts into the log, field by field and mode by mode (events.go). */
module RecordMeaning {
  import opened Types
  import opened Sums
  import opened ScopeSpec
  import opened BufferSpec
  import opened StoreSpec
  import opened StoreLaws
  import opened StoreBulk
  import opened StoreWarm
  import opened StoreEvents

  /** What the caller asked for, and for a new or replaced item the seq and the time it was given. */
  predicate Records(r: Request, reply: Reply, later: int, e: WriteEvent) {
    match r
    case AppendReq(scope, id, payload, _, _) =>
      reply.ItemReply? ==> e == WriteEvent("append", scope, id, reply.item.sq, reply.item.ts, Some(payload), None, 0)
    case UpsertReq(scope, id, payload, _, _) =>
      reply.ItemReply? ==> e == WriteEvent("upsert", scope, id, reply.item.sq, reply.item.ts, Some(payload), None, 0)
    case UpdateReq(scope, id, payload, sq, _) => e == WriteEvent("update", scope, id, sq, 0, Some(payload), None, 0)
    case CounterReq(scope, id, inc) => e == WriteEvent("counter_add", scope, id, 0, 0, None, Some(inc), 0)
    case DeleteReq(scope, id, sq) => e == WriteEvent("delete", scope, id, sq, 0, None, None, 0)
    case DeleteUpToReq(scope, maxSeq) => e == WriteEvent("delete_up_to", scope, "", 0, 0, None, None, maxSeq)
    case DeleteScopeReq(scope) => e == WriteEvent("delete_scope", scope, "", 0, later, None, None, 0)
  }

  // The record as the log carries it: in notify mode without the payload, every other field the same.
  predicate AsCarried(mode: EventsMode, e: WriteEvent, c: WriteEvent) {
    && c.op == e.op && c.scope == e.scope && c.id == e.id && c.sq == e.sq && c.ts == e.ts && c.inc == e.inc && c.maxSeq == e.maxSeq
    && c.payload == if mode == Notify then None else e.payload
  }

  /** A record in the log: its bytes appended to _events as a client would append them, or one drop counted. */
  ghost predicate Logged(cfg: Config, st: Store, c: WriteEvent, now: int, st': Store) {
    match cfg.codec.marshal(c)
    case None => st' == st.(drops := st.drops + 1)
    case Some(body) =>
      var (after, answer) := Write(cfg, st, AppendReq("_events", "", body, 0, 0), now);
      st' == if answer.Ok? then after else after.(drops := st.drops + 1)
  }

  lemma {:induction false} EmitLogs(cfg: Config, st: Store, e: WriteEvent, now: int)
    ensures exists c :: AsCarried(cfg.mode, e, c) && Logged(cfg, st, c, now, Emit(cfg, st, e, now))
  {
    hide Write;
    var c := Carried(cfg, e);
    assert AsCarried(cfg.mode, e, c);
    match cfg.codec.marshal(c)
    case None =>
    case Some(body) =>
      var r := AppendReq(EVENTS, "", body, 0, 0);
      assert Single(cfg, st, r, now, now) == Write(cfg, st, r, now);
      DropsKept(cfg, st, r, now);
  }

  lemma {:induction false} DropsKept(cfg: Config, st: Store, r: Request, now: int)
    ensures Write(cfg, st, r, now).0.drops == st.drops
  {
    hide Perform, Accepts, OpOf;
  }

  /**
    In every mode but off, an effective write outside _events is followed by its record; any
    other write, and every write in mode off, is the bare write.
   */
  lemma {:induction false} SingleRecords(cfg: Config, st: Store, r: Request, now: int, later: int)
    ensures var (bare, answer) := Write(cfg, st, r, now);
            var after := Single(cfg, st, r, now, later);
      && after.1 == answer
      && if cfg.mode == Off || r.scope == "_events" || !Effective(answer) then after.0 == bare
         else exists e, c ::
           Records(r, answer.value.value, later, e) && AsCarried(cfg.mode, e, c) && Logged(cfg, bare, c, later, after.0)
  {
    hide Write, Emit, AsCarried, Logged;
    var (bare, answer) := Write(cfg, st, r, now);
    if cfg.mode != Off && r.scope != "_events" && Effective(answer) {
      var e := EventOf(r, answer.value.value, later);
      assert Records(r, answer.value.value, later, e);
      EmitLogs(cfg, bare, e, later);
      var c :| AsCarried(cfg.mode, e, c) && Logged(cfg, bare, c, later, Emit(cfg, bare, e, later));
    }
  }

  /** A /warm that replaced something is followed by one record of its own, with its time and nothing else. */
  lemma {:induction false} WarmRecords(cfg: Config, st: Store, batch: seq<Entry>, now: int, later: int)
    requires Warm(cfg, st, batch, now, later).1.Ok?
    ensures var bare := Warmed(cfg, st, TargetsOf(cfg, batch, now), now);
            var st' := Warm(cfg, st, batch, now, later).0;
      if cfg.mode == Off || batch == [] then st' == bare
      else exists c ::
        AsCarried(cfg.mode, WriteEvent("warm", "", "", 0, later, None, None, 0), c) && Logged(cfg, bare, c, later, st')
  {
    hide Write, Emit, Prepare, Sum, Install, Admits, AnyMalformed, OverfullNames;
    PrepareMeans(cfg, batch, now);
    EmitLogs(cfg, Warmed(cfg, st, TargetsOf(cfg, batch, now), now), WarmEvent(later), later);
  }
}
