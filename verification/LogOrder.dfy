/**
  Commit and emission as two steps: a record is taken under the scope lock and appended to
  _events after it is released (events.go:23-26), so other operations may come between.
 */
module LogOrder {
  import opened Types
  import opened Sums
  import opened ScopeSpec
  import opened BufferSpec
  import opened StoreSpec
  import opened StoreLaws
  import opened StoreWarm
  import opened StoreEvents
  import opened Replay

  // A committed request whose record is not in the log yet, and the store it found.
  datatype Waiting = Waiting(x: Request, now: int, e: WriteEvent, found: Store)

  datatype State = State(st: Store, waiting: seq<Waiting>, log: seq<WriteEvent>)

  datatype Step =
    | Commit(x: Request, now: int, later: int)
    | Emits(i: nat, now: int)

  predicate Can(d: State, a: Step) {
    a.Emits? ==> a.i < |d.waiting|
  }

  function Take(cfg: Config, d: State, a: Step): State
    requires Can(d, a)
  {
    match a
    case Commit(x, now, later) =>
      var (st', result) := Write(cfg, d.st, x, now);
      if Effective(result) && EventsEnabled(cfg, x.scope)
      then d.(st := st', waiting := d.waiting + [Waiting(x, now, EventOf(x, result.value.value, later), d.st)])
      else d.(st := st')
    case Emits(i, now) =>
      var e := d.waiting[i].e;
      var st' := Emit(cfg, d.st, e, now);
      State(st', d.waiting[..i] + d.waiting[i + 1..],
            if st'.drops == d.st.drops then d.log + [Carried(cfg, e)] else d.log)
  }

  function Exec(cfg: Config, d: State, run: seq<Step>): Option<State>
    decreases |run|
  {
    if run == [] then Some(d)
    else match Exec(cfg, d, run[..|run| - 1])
      case Some(m) => if Can(m, run[|run| - 1]) then Some(Take(cfg, m, run[|run| - 1])) else None
      case None => None
  }

  /** The records of one scope reach the log in the order of its commits. */
  predicate InOrder(d: State, a: Step) {
    a.Emits? && a.i < |d.waiting| ==> forall j :: 0 <= j < a.i ==> d.waiting[j].x.scope != d.waiting[a.i].x.scope
  }

  ghost predicate AllInOrder(cfg: Config, d: State, run: seq<Step>) {
    forall k :: 0 <= k < |run| ==> Exec(cfg, d, run[..k]).Some? && InOrder(Exec(cfg, d, run[..k]).value, run[k])
  }

  // ---- replaying, with the reason it stops ----

  function Redo(cfg: Config, r: Store, log: seq<WriteEvent>, clock: nat -> int): Result<Store>
    decreases |log|
  {
    if log == [] then Ok(r)
    else
      var k := |log| - 1;
      match Redo(cfg, r, log[..k], clock)
      case Err(e) => Err(e)
      case Ok(m) =>
        match RequestOf(log[k])
        case None => Err(Invalid)
        case Some(x) =>
          var (m', result) := Single(EventsOff(cfg), m, x, clock(k), clock(k));
          match result
          case Err(e) => Err(e)
          case Ok(reply) => if reply.Some? then Ok(m') else Err(Invalid)
  }

  lemma {:induction false} RedoIsReplayed(cfg: Config, r: Store, log: seq<WriteEvent>, clock: nat -> int)
    ensures Replayed(cfg, r, log, clock) == match Redo(cfg, r, log, clock) case Ok(m) => Some(m) case Err(_) => None
    decreases |log|
  {
    hide Single, RequestOf;
    if log != [] { RedoIsReplayed(cfg, r, log[..|log| - 1], clock); }
  }

  // ---- one scope at a time ----

  /** The two stores agree on one scope, timestamps aside. */
  predicate LikeAt(a: Store, b: Store, n: string) {
    (n in a.scopes <==> n in b.scopes) && (n in a.scopes ==> Like(a.scopes[n].scope, b.scopes[n].scope))
  }

  lemma {:induction false} LikeOn(a: Scope, b: Scope, c: Scope)
    requires Like(a, b) && Like(b, c)
    ensures Like(a, c)
  {
    forall i | 0 <= i < |a.items| ensures c.items[i] == a.items[i].(ts := c.items[i].ts) {
      assert b.items[i] == a.items[i].(ts := b.items[i].ts);
    }
  }

  lemma {:induction false} LikeAtOn(a: Store, b: Store, c: Store, n: string)
    requires LikeAt(a, b, n) && LikeAt(b, c, n)
    ensures LikeAt(a, c, n)
  {
    hide Like;
    if n in a.scopes { LikeOn(a.scopes[n].scope, b.scopes[n].scope, c.scopes[n].scope); }
  }

  lemma {:induction false} SelfLike(a: Store, n: string)
    ensures LikeAt(a, a, n)
  {
  }

  // A call that takes effect here does so there, or finds no room.
  lemma {:induction false} CallLikeAt(cfg: Config, a: Store, b: Store, n: string, op: Op, now: int, later: int)
    requires n in a.scopes && n in b.scopes && Like(a.scopes[n].scope, b.scopes[n].scope)
    requires Effective(CallScope(cfg, a, n, op, now).1)
    ensures var (a', _) := CallScope(cfg, a, n, op, now);
            var (b', result) := CallScope(EventsOff(cfg), b, n, op, later);
      if Effective(result) then LikeAt(a', b', n) else result.Err? && result.error.StoreFull?
  {
    hide Apply, Like, Sum, Scope.Bytes;
    ApplyLike(cfg, n, a.scopes[n].scope, b.scopes[n].scope, op, now, later);
  }

  /** So a request depends on its scope alone, but for room. */
  lemma {:induction false} WriteLikeAt(cfg: Config, a: Store, b: Store, x: Request, now: int, later: int)
    requires LikeAt(a, b, x.scope) && x.scope != EVENTS && Effective(Write(cfg, a, x, now).1)
    ensures var (a', _) := Write(cfg, a, x, now);
            var (b', result) := Single(EventsOff(cfg), b, x, later, later);
      if Effective(result) then LikeAt(a', b', x.scope) else result.Err? && result.error.StoreFull?
  {
    hide CallScope, Like, Scope.Bytes;
    SameRequest(cfg, x);
    hide Accepts, OpOf;
    var n := x.scope;
    if x.DeleteScopeReq? {
    } else if n in a.scopes {
      CallLikeAt(cfg, a, b, n, OpOf(cfg, x), now, later);
    } else {
      EmptyLike();
      CallLikeAt(cfg, CreateScope(a, n, now), CreateScope(b, n, later), n, OpOf(cfg, x), now, later);
    }
  }

  lemma {:induction false} EmptyLike()
    ensures Like(EMPTY_SCOPE, EMPTY_SCOPE)
  {
  }

  // A request leaves every other scope alone.
  lemma {:induction false} WriteElsewhere(cfg: Config, a: Store, x: Request, now: int, n: string)
    requires n != x.scope
    ensures LikeAt(a, Write(cfg, a, x, now).0, n)
  {
    hide Perform, Accepts, OpOf, Sum;
  }

  lemma {:induction false} SingleElsewhere(cfg: Config, a: Store, x: Request, now: int, n: string)
    requires n != x.scope && x.scope != EVENTS
    ensures LikeAt(a, Single(EventsOff(cfg), a, x, now, now).0, n)
  {
    hide Write;
    WriteElsewhere(EventsOff(cfg), a, x, now, n);
  }

  lemma {:induction false} EmitElsewhere(cfg: Config, a: Store, e: WriteEvent, now: int, n: string)
    requires n != EVENTS
    ensures LikeAt(a, Emit(cfg, a, e, now), n)
  {
    hide Write, Carried;
    match cfg.codec.marshal(Carried(cfg, e))
    case None =>
    case Some(body) => WriteElsewhere(cfg, a, AppendReq(EVENTS, "", body, 0, 0), now, n);
  }

  // ---- the log so far, against the store ----

  predicate Idle(d: State, n: string) {
    forall i :: 0 <= i < |d.waiting| ==> d.waiting[i].x.scope != n
  }

  // Scope n as the log has it so far: what its first waiting record found, or the store itself.
  function Next(st: Store, waiting: seq<Waiting>, n: string): Store {
    if waiting == [] then st
    else if waiting[0].x.scope == n then waiting[0].found
    else Next(st, waiting[1..], n)
  }

  lemma {:induction false} NextOfIdle(st: Store, waiting: seq<Waiting>, n: string)
    requires forall i :: 0 <= i < |waiting| ==> waiting[i].x.scope != n
    ensures Next(st, waiting, n) == st
  {
    if waiting != [] { NextOfIdle(st, waiting[1..], n); }
  }

  lemma {:induction false} NextLike(a: Store, b: Store, waiting: seq<Waiting>, n: string)
    requires LikeAt(a, b, n)
    ensures LikeAt(Next(a, waiting, n), Next(b, waiting, n), n)
  {
    hide LikeAt;
    if waiting != [] {
      if waiting[0].x.scope == n { SelfLike(waiting[0].found, n); } else { NextLike(a, b, waiting[1..], n); }
    }
  }

  lemma {:induction false} NextAppend(st: Store, waiting: seq<Waiting>, v: Waiting, n: string)
    ensures Next(st, waiting + [v], n) == Next(if v.x.scope == n then v.found else st, waiting, n)
  {
    if waiting == [] {
      assert waiting + [v] == [v] && [v][1..] == [];
    } else {
      assert (waiting + [v])[1..] == waiting[1..] + [v];
      NextAppend(st, waiting[1..], v, n);
    }
  }

  // Taking out a record of another scope, or the first of this one.
  lemma {:induction false} NextWithout(st: Store, waiting: seq<Waiting>, i: nat, n: string)
    requires i < |waiting|
    requires waiting[i].x.scope == n ==> forall j :: 0 <= j < i ==> waiting[j].x.scope != n
    ensures var rest := waiting[..i] + waiting[i + 1..];
      if waiting[i].x.scope != n then Next(st, rest, n) == Next(st, waiting, n)
      else Next(st, waiting, n) == waiting[i].found && Next(st, rest, n) == Next(st, waiting[i + 1..], n)
    decreases i
  {
    var rest := waiting[..i] + waiting[i + 1..];
    if i == 0 {
      assert rest == waiting[1..];
    } else {
      var tail := waiting[1..];
      assert tail[..i - 1] + tail[i - 1 + 1..] == rest[1..] && tail[i - 1 + 1..] == waiting[i + 1..];
      assert rest[0] == waiting[0];
      NextWithout(st, tail, i - 1, n);
    }
  }

  // A record not yet in the log: its request leads from what it found to what the next one of its scope found.
  predicate WaitsOk(cfg: Config, st: Store, v: Waiting, after: seq<Waiting>) {
    && v.x.scope != EVENTS && RequestOf(Carried(cfg, v.e)) == Some(v.x)
    && Effective(Write(cfg, v.found, v.x, v.now).1)
    && LikeAt(Write(cfg, v.found, v.x, v.now).0, Next(st, after, v.x.scope), v.x.scope)
  }

  ghost predicate Tracks(cfg: Config, d: State, end: Store) {
    && EVENTS in d.st.scopes
    && (forall n :: n != EVENTS ==> LikeAt(Next(d.st, d.waiting, n), end, n))
    && (forall i :: 0 <= i < |d.waiting| ==> WaitsOk(cfg, d.st, d.waiting[i], d.waiting[i + 1..]))
  }

  lemma {:induction false} LikeAtBack(a: Store, b: Store, n: string)
    requires LikeAt(a, b, n)
    ensures LikeAt(b, a, n)
  {
  }

  // Another store that looks the same to the scope of a waiting record.
  lemma {:induction false} StillWaits(cfg: Config, st: Store, st': Store, v: Waiting, after: seq<Waiting>, after': seq<Waiting>)
    requires WaitsOk(cfg, st, v, after)
    requires LikeAt(Next(st, after, v.x.scope), Next(st', after', v.x.scope), v.x.scope)
    ensures WaitsOk(cfg, st', v, after')
  {
    hide Write, LikeAt, RequestOf, Carried;
    LikeAtOn(Write(cfg, v.found, v.x, v.now).0, Next(st, after, v.x.scope), Next(st', after', v.x.scope), v.x.scope);
  }

  // A commit with a record: the new one goes to the end of its scope's queue.
  lemma {:induction false} CommitQueued(cfg: Config, d: State, end: Store, st': Store, v: Waiting)
    requires Tracks(cfg, d, end) && EVENTS in st'.scopes && v.found == d.st && v.x.scope != EVENTS
    requires forall n :: n != v.x.scope ==> LikeAt(d.st, st', n)
    requires RequestOf(Carried(cfg, v.e)) == Some(v.x)
    requires Effective(Write(cfg, d.st, v.x, v.now).1) && Write(cfg, d.st, v.x, v.now).0 == st'
    ensures Tracks(cfg, d.(st := st', waiting := d.waiting + [v]), end)
  {
    hide Write, LikeAt, RequestOf, Carried, Next;
    var waiting := d.waiting + [v];
    forall n | n != EVENTS ensures LikeAt(Next(st', waiting, n), end, n) { AppendLike(d.st, st', d.waiting, v, n, end); }
    forall i | 0 <= i < |waiting| ensures WaitsOk(cfg, st', waiting[i], waiting[i + 1..]) {
      if i < |d.waiting| {
        var u := d.waiting[i];
        assert waiting[i + 1..] == d.waiting[i + 1..] + [v];
        SelfLike(Next(d.st, d.waiting[i + 1..], u.x.scope), u.x.scope);
        AppendLike(d.st, st', d.waiting[i + 1..], v, u.x.scope, Next(d.st, d.waiting[i + 1..], u.x.scope));
        LikeAtBack(Next(st', waiting[i + 1..], u.x.scope), Next(d.st, d.waiting[i + 1..], u.x.scope), u.x.scope);
        StillWaits(cfg, d.st, st', u, d.waiting[i + 1..], waiting[i + 1..]);
      } else {
        assert waiting[i + 1..] == [];
        NextOfIdle(st', [], v.x.scope);
        SelfLike(st', v.x.scope);
      }
    }
  }

  lemma {:induction false} AppendLike(st: Store, st': Store, waiting: seq<Waiting>, v: Waiting, n: string, end: Store)
    requires v.found == st && (n != v.x.scope ==> LikeAt(st, st', n)) && LikeAt(Next(st, waiting, n), end, n)
    ensures LikeAt(Next(st', waiting + [v], n), end, n)
  {
    hide LikeAt;
    NextAppend(st', waiting, v, n);
    if n != v.x.scope {
      NextLike(st, st', waiting, n);
      LikeAtBack(Next(st, waiting, n), Next(st', waiting, n), n);
      LikeAtOn(Next(st', waiting, n), Next(st, waiting, n), end, n);
    }
  }

  // A change to _events alone leaves every queue as it was.
  lemma {:induction false} EventsMove(cfg: Config, d: State, end: Store, st': Store)
    requires Tracks(cfg, d, end) && EVENTS in st'.scopes && forall n :: n != EVENTS ==> LikeAt(d.st, st', n)
    ensures Tracks(cfg, d.(st := st'), end)
  {
    hide Write, LikeAt, RequestOf, Carried, Next;
    forall n | n != EVENTS ensures LikeAt(Next(st', d.waiting, n), end, n) {
      NextLike(d.st, st', d.waiting, n);
      LikeAtBack(Next(d.st, d.waiting, n), Next(st', d.waiting, n), n);
      LikeAtOn(Next(st', d.waiting, n), Next(d.st, d.waiting, n), end, n);
    }
    forall i | 0 <= i < |d.waiting| ensures WaitsOk(cfg, st', d.waiting[i], d.waiting[i + 1..]) {
      NextLike(d.st, st', d.waiting[i + 1..], d.waiting[i].x.scope);
      StillWaits(cfg, d.st, st', d.waiting[i], d.waiting[i + 1..], d.waiting[i + 1..]);
    }
  }

  lemma {:induction false} CommitTracks(cfg: Config, d: State, end: Store, a: Step)
    requires cfg.mode == Full && Tracks(cfg, d, end) && a.Commit?
    ensures Tracks(cfg, Take(cfg, d, a), end)
  {
    hide Write, LikeAt, EventOf, RequestOf, Carried, Accepts, Tracks, Next;
    var x := a.x;
    var (st', result) := Write(cfg, d.st, x, a.now);
    TracksEvents(cfg, d, end);
    WriteTakes(cfg, d.st, x, a.now);
    if !Effective(result) {
      FailureChangesNothing(cfg, d.st, x, a.now);
    } else {
      forall n | n != x.scope ensures LikeAt(d.st, st', n) { WriteElsewhere(cfg, d.st, x, a.now, n); }
      if x.scope == EVENTS {
        EventsMove(cfg, d, end, st');
      } else {
        EffectiveAccepted(cfg, d.st, x, a.now);
        RecordIsRequest(cfg, x, result.value.value, a.later);
        CommitQueued(cfg, d, end, st', Waiting(x, a.now, EventOf(x, result.value.value, a.later), d.st));
      }
    }
  }

  lemma {:induction false} TracksEvents(cfg: Config, d: State, end: Store)
    requires Tracks(cfg, d, end)
    ensures EVENTS in d.st.scopes
  {
    hide LikeAt;
  }

  // The first record of a scope leaves its queue, and its request is made of the copy.
  lemma {:induction false} Unqueued(cfg: Config, d: State, end: Store, i: nat, end': Store)
    requires Tracks(cfg, d, end) && i < |d.waiting|
    requires forall j :: 0 <= j < i ==> d.waiting[j].x.scope != d.waiting[i].x.scope
    requires LikeAt(Write(cfg, d.waiting[i].found, d.waiting[i].x, d.waiting[i].now).0, end', d.waiting[i].x.scope)
    requires forall k :: k != d.waiting[i].x.scope ==> LikeAt(end, end', k)
    ensures Tracks(cfg, d.(waiting := d.waiting[..i] + d.waiting[i + 1..]), end')
  {
    hide Write, LikeAt, RequestOf, Carried, Next;
    var v, rest := d.waiting[i], d.waiting[..i] + d.waiting[i + 1..];
    var n := v.x.scope;
    assert WaitsOk(cfg, d.st, v, d.waiting[i + 1..]);
    forall k | k != EVENTS ensures LikeAt(Next(d.st, rest, k), end', k) {
      NextWithout(d.st, d.waiting, i, k);
      if k == n {
        LikeAtBack(Write(cfg, v.found, v.x, v.now).0, Next(d.st, d.waiting[i + 1..], n), n);
        LikeAtOn(Next(d.st, rest, n), Write(cfg, v.found, v.x, v.now).0, end', n);
      } else {
        LikeAtOn(Next(d.st, rest, k), end, end', k);
      }
    }
    forall j | 0 <= j < |rest| ensures WaitsOk(cfg, d.st, rest[j], rest[j + 1..]) { RestWaits(cfg, d, i, j); }
  }

  lemma {:induction false} RestWaits(cfg: Config, d: State, i: nat, j: nat)
    requires i < |d.waiting| && j < |d.waiting| - 1
    requires forall k :: 0 <= k < i ==> d.waiting[k].x.scope != d.waiting[i].x.scope
    requires forall k :: 0 <= k < |d.waiting| ==> WaitsOk(cfg, d.st, d.waiting[k], d.waiting[k + 1..])
    ensures var rest := d.waiting[..i] + d.waiting[i + 1..]; WaitsOk(cfg, d.st, rest[j], rest[j + 1..])
  {
    hide Write, LikeAt, RequestOf, Carried, Next;
    var rest := d.waiting[..i] + d.waiting[i + 1..];
    if j < i {
      var u, after := d.waiting[j], d.waiting[j + 1..];
      assert rest[j] == u && rest[j + 1..] == after[..i - j - 1] + after[i - j - 1 + 1..];
      assert WaitsOk(cfg, d.st, u, after);
      NextWithout(d.st, after, i - j - 1, u.x.scope);
      SelfLike(Next(d.st, after, u.x.scope), u.x.scope);
      StillWaits(cfg, d.st, d.st, u, after, rest[j + 1..]);
    } else {
      assert rest[j] == d.waiting[j + 1] && rest[j + 1..] == d.waiting[j + 2..];
      assert WaitsOk(cfg, d.st, d.waiting[j + 1], d.waiting[j + 1 + 1..]);
    }
  }

  // The record lands, and its request is made of the copy: they keep up, or the copy had no room.
  lemma {:induction false} EmitTracks(cfg: Config, d: State, end: Store, a: Step, when: int)
    requires cfg.mode == Full && Tracks(cfg, d, end) && Can(d, a) && a.Emits? && InOrder(d, a)
    ensures var (end', result) := Single(EventsOff(cfg), end, d.waiting[a.i].x, when, when);
      if Effective(result) then Tracks(cfg, Take(cfg, d, a), end') else result.Err? && result.error.StoreFull?
  {
    hide Write, LikeAt, Single, Emit, RequestOf, Carried, Next, Tracks;
    var v := d.waiting[a.i];
    var (end', result) := Single(EventsOff(cfg), end, v.x, when, when);
    FirstFound(cfg, d, end, a.i);
    WriteLikeAt(cfg, v.found, end, v.x, v.now, when);
    if Effective(result) {
      forall k | k != v.x.scope ensures LikeAt(end, end', k) { SingleElsewhere(cfg, end, v.x, when, k); }
      Unqueued(cfg, d, end, a.i, end');
      TracksEvents(cfg, d, end);
      EmitLands(cfg, d.st, v.e, a.now);
      var st' := Emit(cfg, d.st, v.e, a.now);
      forall k | k != EVENTS ensures LikeAt(d.st, st', k) { EmitElsewhere(cfg, d.st, v.e, a.now, k); }
      var rest := d.waiting[..a.i] + d.waiting[a.i + 1..];
      EventsMove(cfg, d.(waiting := rest), end', st');
      SameLog(cfg, State(st', rest, d.log), Take(cfg, d, a), end');
    }
  }

  lemma {:induction false} FirstFound(cfg: Config, d: State, end: Store, i: nat)
    requires Tracks(cfg, d, end) && i < |d.waiting|
    requires forall j :: 0 <= j < i ==> d.waiting[j].x.scope != d.waiting[i].x.scope
    ensures var v := d.waiting[i];
      && v.x.scope != EVENTS && Effective(Write(cfg, v.found, v.x, v.now).1) && LikeAt(v.found, end, v.x.scope)
  {
    hide Write, LikeAt, RequestOf, Carried, Next;
    assert WaitsOk(cfg, d.st, d.waiting[i], d.waiting[i + 1..]);
    NextWithout(d.st, d.waiting, i, d.waiting[i].x.scope);
  }

  lemma {:induction false} SameLog(cfg: Config, d: State, d': State, end: Store)
    requires Tracks(cfg, d, end) && d'.st == d.st && d'.waiting == d.waiting
    ensures Tracks(cfg, d', end)
  {
    hide WaitsOk, LikeAt, Next;
  }

  // ---- runs ----

  lemma {:induction false} DropsStay(cfg: Config, d: State, a: Step)
    requires EVENTS in d.st.scopes && Can(d, a)
    ensures Take(cfg, d, a).st.drops >= d.st.drops && EVENTS in Take(cfg, d, a).st.scopes
  {
    hide Write, Emit, EventOf, Carried;
    match a
    case Commit(x, now, _) => WriteTakes(cfg, d.st, x, now);
    case Emits(i, now) => EmitLands(cfg, d.st, d.waiting[i].e, now);
  }

  lemma {:induction false} DropsAlong(cfg: Config, d: State, run: seq<Step>)
    requires EVENTS in d.st.scopes && Exec(cfg, d, run).Some?
    ensures Exec(cfg, d, run).value.st.drops >= d.st.drops && EVENTS in Exec(cfg, d, run).value.st.scopes
    decreases |run|
  {
    hide Take, Can;
    if run != [] {
      DropsAlong(cfg, d, run[..|run| - 1]);
      DropsStay(cfg, Exec(cfg, d, run[..|run| - 1]).value, run[|run| - 1]);
    }
  }

  lemma {:induction false} Shorter(cfg: Config, d: State, run: seq<Step>)
    requires run != [] && AllInOrder(cfg, d, run)
    ensures var before := run[..|run| - 1];
      && AllInOrder(cfg, d, before) && Exec(cfg, d, before).Some? && InOrder(Exec(cfg, d, before).value, run[|run| - 1])
  {
    hide Exec, InOrder;
    var before := run[..|run| - 1];
    forall k | 0 <= k < |before| ensures Exec(cfg, d, before[..k]).Some? && InOrder(Exec(cfg, d, before[..k]).value, before[k]) {
      assert before[..k] == run[..k] && before[k] == run[k];
    }
  }

  // Nothing waits and nothing is logged yet.
  function Beginning(s: Store): State { State(s, [], []) }

  lemma {:induction false} RunTracks(cfg: Config, s: Store, r: Store, run: seq<Step>, clock: nat -> int)
    requires cfg.mode == Full && EVENTS in s.scopes && (forall n :: n != EVENTS ==> LikeAt(s, r, n))
    requires AllInOrder(cfg, Beginning(s), run) && Exec(cfg, Beginning(s), run).Some?
    requires Exec(cfg, Beginning(s), run).value.st.drops == s.drops
    ensures var d := Exec(cfg, Beginning(s), run).value;
      match Redo(cfg, r, d.log, clock)
      case Ok(end) => Tracks(cfg, d, end)
      case Err(e) => e.StoreFull?
    decreases |run|
  {
    hide Take, Can, LikeAt, Tracks, AllInOrder, InOrder, Redo;
    if run == [] {
      StartTracks(cfg, s, r, clock);
    } else {
      var before, a := run[..|run| - 1], run[|run| - 1];
      Shorter(cfg, Beginning(s), run);
      var d := Exec(cfg, Beginning(s), before).value;
      DropsAlong(cfg, Beginning(s), before);
      DropsStay(cfg, d, a);
      RunTracks(cfg, s, r, before, clock);
      StepTracks(cfg, d, r, a, clock);
    }
  }

  lemma {:induction false} StartTracks(cfg: Config, s: Store, r: Store, clock: nat -> int)
    requires EVENTS in s.scopes && forall n :: n != EVENTS ==> LikeAt(s, r, n)
    ensures Redo(cfg, r, [], clock) == Ok(r) && Tracks(cfg, Beginning(s), r)
  {
    hide LikeAt;
  }

  lemma {:induction false} StepTracks(cfg: Config, d: State, r: Store, a: Step, clock: nat -> int)
    requires cfg.mode == Full && Can(d, a) && InOrder(d, a) && Take(cfg, d, a).st.drops == d.st.drops
    requires match Redo(cfg, r, d.log, clock) case Ok(end) => Tracks(cfg, d, end) case Err(e) => e.StoreFull?
    ensures var d' := Take(cfg, d, a);
      match Redo(cfg, r, d'.log, clock) case Ok(end) => Tracks(cfg, d', end) case Err(e) => e.StoreFull?
  {
    hide Write, Emit, Single, RequestOf, Carried, Tracks, EventOf, InOrder;
    var rest := Redo(cfg, r, d.log, clock);
    if a.Commit? {
      if rest.Ok? { CommitTracks(cfg, d, rest.value, a); }
    } else {
      var e := Carried(cfg, d.waiting[a.i].e);
      assert (d.log + [e])[..|d.log|] == d.log && (d.log + [e])[|d.log|] == e;
      if rest.Ok? {
        EmitTracks(cfg, d, rest.value, a, clock(|d.log|));
        WaitingIsRecorded(cfg, d, rest.value, a.i);
      }
    }
  }

  lemma {:induction false} WaitingIsRecorded(cfg: Config, d: State, end: Store, i: nat)
    requires Tracks(cfg, d, end) && i < |d.waiting|
    ensures RequestOf(Carried(cfg, d.waiting[i].e)) == Some(d.waiting[i].x)
  {
    hide Write, LikeAt, RequestOf, Carried;
    assert WaitsOk(cfg, d.st, d.waiting[i], d.waiting[i + 1..]);
  }

  /**
    Commits and emissions of any operations in any order, any number of records waiting, only
    that the records of one scope reach the log in the order of its commits; none dropped.
    Replaying the log onto a copy can be refused for lack of room only, and if it is not,
    every scope with no record still to come is rebuilt, timestamps aside.
   */
  lemma {:induction false} OrderedLogRebuilds(cfg: Config, s: Store, r: Store, run: seq<Step>, clock: nat -> int)
    requires cfg.mode == Full && EVENTS in s.scopes && (forall n :: n != EVENTS ==> LikeAt(s, r, n))
    requires AllInOrder(cfg, Beginning(s), run) && Exec(cfg, Beginning(s), run).Some?
    requires Exec(cfg, Beginning(s), run).value.st.drops == s.drops
    ensures var d := Exec(cfg, Beginning(s), run).value;
            var redone := Redo(cfg, r, d.log, clock);
      && Replayed(cfg, r, d.log, clock) == (if redone.Ok? then Some(redone.value) else None)
      && (redone.Err? ==> redone.error.StoreFull?)
      && (redone.Ok? ==> forall n :: n != EVENTS && Idle(d, n) ==> LikeAt(d.st, redone.value, n))
  {
    hide Exec, LikeAt, AllInOrder, Redo, Replayed, Next, WaitsOk;
    RunTracks(cfg, s, r, run, clock);
    var d := Exec(cfg, Beginning(s), run).value;
    RedoIsReplayed(cfg, r, d.log, clock);
    forall n | Idle(d, n) ensures Next(d.st, d.waiting, n) == d.st { NextOfIdle(d.st, d.waiting, n); }
  }

  // ---- two records that change places ----

  // A payload that is accepted and is not a JSON string.
  predicate Opaque(codec: Codec, p: Bytes) {
    codec.payloadOk(p) && codec.decodeString(p) == None
  }

  // A store with room for two appends to one scope and for their records.
  ghost predicate RoomForTwo(cfg: Config, s: Store, name: string, p: Bytes, q: Bytes, now: int) {
    && EVENTS in s.scopes && name in s.scopes && name != "" && !IsReserved(name)
    && cfg.codec.nameOk(name) && cfg.codec.nameOk(EVENTS) && Opaque(cfg.codec, p) && Opaque(cfg.codec, q)
    && 48 + |name| + |p| <= cfg.maxItemBytes && 48 + |name| + |q| <= cfg.maxItemBytes
    && !CapExceeded(cfg.scopeMaxItems, |s.scopes[name].scope.items| + 2)
    && var a, b := cfg.codec.marshal(Added(s, name, p, 1, now)), cfg.codec.marshal(Added(s, name, q, 2, now));
       && a.Some? && b.Some? && Opaque(cfg.codec, a.value) && Opaque(cfg.codec, b.value)
       && 55 + |a.value| <= cfg.MaxItemBytesFor(EVENTS) && 55 + |b.value| <= cfg.MaxItemBytesFor(EVENTS)
       && s.total + 206 + 2 * |name| + |p| + |q| + |a.value| + |b.value| <= cfg.maxStoreBytes
  }

  // The record of the k-th append to come.
  function Added(s: Store, name: string, p: Bytes, k: nat, now: int): WriteEvent
    requires name in s.scopes
  {
    WriteEvent("append", name, "", s.scopes[name].scope.lastSeq + k, now, Some(p), None, 0)
  }

  // One append to the scope, as AppendAdmitted describes it.
  function With(s: Store, name: string, p: Bytes, now: int): Store
    requires name in s.scopes
  {
    var x := Item(name, "", s.scopes[name].scope.lastSeq + 1, now, Plain(p, None));
    s.(scopes := s.scopes[name := Held(s.scopes[name].scope.(items := s.scopes[name].scope.items + [x], lastSeq := x.sq), now)],
       total := s.total + 48 + |name| + |p|, items := s.items + 1, writeTS := Max(s.writeTS, now))
  }

  lemma {:induction false} CommitAppends(cfg: Config, d: State, name: string, p: Bytes, now: int)
    requires cfg.mode == Full && name in d.st.scopes && !IsReserved(name) && name != "" && cfg.codec.nameOk(name) && Opaque(cfg.codec, p)
    requires 48 + |name| + |p| <= cfg.maxItemBytes && !CapExceeded(cfg.scopeMaxItems, |d.st.scopes[name].scope.items| + 1)
    requires d.st.total + 48 + |name| + |p| <= cfg.maxStoreBytes
    ensures var x := AppendReq(name, "", p, 0, 0);
      Take(cfg, d, Commit(x, now, now))
        == State(With(d.st, name, p, now), d.waiting + [Waiting(x, now, Added(d.st, name, p, 1, now), d.st)], d.log)
  {
    hide Write;
    AppendAdmitted(cfg, d.st, name, p, now);
  }

  lemma {:induction false} EmitAppends(cfg: Config, d: State, i: nat, now: int, body: Bytes)
    requires cfg.mode == Full && i < |d.waiting| && EVENTS in d.st.scopes && cfg.codec.nameOk(EVENTS)
    requires cfg.codec.marshal(d.waiting[i].e) == Some(body) && Opaque(cfg.codec, body)
    requires 55 + |body| <= cfg.MaxItemBytesFor(EVENTS) && d.st.total + 55 + |body| <= cfg.maxStoreBytes
    ensures Take(cfg, d, Emits(i, now))
         == State(With(d.st, EVENTS, body, now), d.waiting[..i] + d.waiting[i + 1..], d.log + [d.waiting[i].e])
  {
    hide Write;
    AppendAdmitted(cfg, d.st, EVENTS, body, now);
    var r := AppendReq(EVENTS, "", body, 0, 0);
    assert Single(cfg, d.st, r, now, now) == Write(cfg, d.st, r, now);
    assert Carried(cfg, d.waiting[i].e) == d.waiting[i].e;
    assert Emit(cfg, d.st, d.waiting[i].e, now) == With(d.st, EVENTS, body, now);
  }

  lemma {:induction false} ExecOn(cfg: Config, d: State, run: seq<Step>, a: Step, m: State)
    requires Exec(cfg, d, run) == Some(m) && Can(m, a)
    ensures Exec(cfg, d, run + [a]) == Some(Take(cfg, m, a))
  {
    hide Take, Can;
    assert (run + [a])[..|run|] == run;
  }

  function Swapped(name: string, p: Bytes, q: Bytes, now: int): seq<Step> {
    [Commit(AppendReq(name, "", p, 0, 0), now, now), Commit(AppendReq(name, "", q, 0, 0), now, now), Emits(1, now), Emits(0, now)]
  }

  // Both appends commit, then the second record is emitted before the first.
  lemma {:induction false} SwappedRun(cfg: Config, s: Store, name: string, p: Bytes, q: Bytes, now: int)
    requires cfg.mode == Full && RoomForTwo(cfg, s, name, p, q, now)
    ensures var end := Exec(cfg, Beginning(s), Swapped(name, p, q, now));
      && end.Some? && end.value.waiting == [] && end.value.st.drops == s.drops
      && end.value.log == [Added(s, name, q, 2, now), Added(s, name, p, 1, now)]
      && name in end.value.st.scopes
      && end.value.st.scopes[name] == With(With(s, name, p, now), name, q, now).scopes[name]
  {
    hide Take;
    var run, d := Swapped(name, p, q, now), Beginning(s);
    var one, two, three := [run[0]], [run[0], run[1]], [run[0], run[1], run[2]];
    assert one == [] + [run[0]] && two == one + [run[1]] && three == two + [run[2]] && run == three + [run[3]];
    CommitAppends(cfg, d, name, p, now);
    ExecOn(cfg, d, [], run[0], d);
    var d1 := Take(cfg, d, run[0]);
    CommitAppends(cfg, d1, name, q, now);
    ExecOn(cfg, d, one, run[1], d1);
    var d2 := Take(cfg, d1, run[1]);
    EmitAppends(cfg, d2, 1, now, cfg.codec.marshal(Added(s, name, q, 2, now)).value);
    ExecOn(cfg, d, two, run[2], d2);
    var d3 := Take(cfg, d2, run[2]);
    EmitAppends(cfg, d3, 0, now, cfg.codec.marshal(Added(s, name, p, 1, now)).value);
    ExecOn(cfg, d, three, run[3], d3);
  }

  // Replaying appends the two in the order of the log.
  lemma {:induction false} SwappedReplay(cfg: Config, s: Store, name: string, p: Bytes, q: Bytes, now: int, clock: nat -> int)
    requires RoomForTwo(cfg, s, name, p, q, now)
    ensures Replayed(cfg, s, [Added(s, name, q, 2, now), Added(s, name, p, 1, now)], clock)
         == Some(With(With(s, name, q, clock(0)), name, p, clock(1)))
  {
    hide Write;
    var a, b := Added(s, name, q, 2, now), Added(s, name, p, 1, now);
    var off := EventsOff(cfg);
    var m := With(s, name, q, clock(0));
    AppendAdmitted(off, s, name, q, clock(0));
    AppendAdmitted(off, m, name, p, clock(1));
    assert [a, b][..1] == [a] && [a][..0] == [];
    assert Replayed(cfg, s, [a], clock) == Some(m);
  }

  /**
    The condition is needed: of two appends to one scope, none dropped and with room for
    everything, the records reach the log in reverse, and the replay ends with the two
    payloads the other way round.
   */
  lemma {:induction false} SwappedRecordsMisreplay(cfg: Config, s: Store, name: string, p: Bytes, q: Bytes, now: int, clock: nat -> int)
    requires cfg.mode == Full && RoomForTwo(cfg, s, name, p, q, now) && p != q
    ensures Exec(cfg, Beginning(s), Swapped(name, p, q, now)).Some?
    ensures var d := Exec(cfg, Beginning(s), Swapped(name, p, q, now)).value;
            var end := Replayed(cfg, s, d.log, clock);
      d.waiting == [] && d.st.drops == s.drops && end.Some? && !LikeAt(d.st, end.value, name)
  {
    hide Exec, Replayed;
    SwappedRun(cfg, s, name, p, q, now);
    SwappedReplay(cfg, s, name, p, q, now, clock);
    var items := s.scopes[name].scope.items;
    var a, b := With(With(s, name, p, now), name, q, now), With(With(s, name, q, clock(0)), name, p, clock(1));
    assert a.scopes[name].scope.items[|items|].body == Plain(p, None);
    assert b.scopes[name].scope.items[|items|].body == Plain(q, None);
  }
}
