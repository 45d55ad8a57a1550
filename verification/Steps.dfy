/**
  Any number of threads over one store, one lock section or one compare-and-swap per
  step. A thread's program point says which shard write locks it holds; a buffer's
  `hold` says who holds its mutex between reserving bytes and assigning the fields.

  Lookups take a shard read lock for the length of one step. /wipe and /rebuild are one
  operation, with an empty or a given new content.
 */
module Steps {
  import opened Types
  import opened Sums
  import opened ScopeSpec

  const SHARDS := 32

  datatype World = World(cfg: Config, shardOf: string -> nat)

  datatype Hold = Free | Held(owner: nat, next: Scope)

  datatype Buf = Buf(
    name: string, scope: Scope, detached: bool, hold: Hold,
    linked: bool,          // auxiliary: present in the shard maps
    window: Option<int>)   // auxiliary: bytes an open /warm recorded for this buffer

  datatype Plan = Plan(name: string, target: Scope, recorded: int, isNew: bool)

  type Batch = seq<(string, Scope)>

  datatype Pc =
    | Idle
    | Missing(name: string, op: Op)                  // lookup missed; wants the shard lock
    | Inserting(name: string, op: Op)                // shard lock held, overhead reserved
    | Ready(b: nat, op: Op, created: bool)           // has a pointer, wants the buffer lock
    | Writing(b: nat)                                // buffer lock held, bytes reserved
    | Failed(b: nat, name: string)                   // created the scope, write refused
    | RollingBack(b: nat, name: string)              // shard lock held, wants the buffer lock
    | Deleting(name: string)                         // shard lock held, wants the buffer lock
    | WarmLocking(batch: Batch, k: nat)
    | WarmReading(plans: seq<Plan>, rest: Batch, cover: set<nat>)
    | WarmWriting(plans: seq<Plan>, added: nat, cover: set<nat>)
    | ResetLocking(batch: Batch, k: nat)
    | ResetSweeping(batch: Batch)

  datatype Sys = Sys(
    bufs: seq<Buf>, maps: map<string, nat>, threads: seq<Pc>,
    total: int, items: int, scopes: int,
    shrunk: int)           // auxiliary: bytes released off buffers with an open window

  // ---- locks ----

  function Cover(w: World, batch: Batch): set<nat> {
    set i | 0 <= i < |batch| :: w.shardOf(batch[i].0)
  }

  /** Which shard write locks a thread holds, read off its program point. */
  predicate Holds(w: World, pc: Pc, k: nat) {
    match pc
    case Inserting(name, _) => k == w.shardOf(name)
    case RollingBack(_, name) => k == w.shardOf(name)
    case Deleting(name) => k == w.shardOf(name)
    case WarmLocking(batch, i) => k in Cover(w, batch) && k < i
    case WarmReading(_, _, cover) => k in cover
    case WarmWriting(_, _, cover) => k in cover
    case ResetLocking(_, i) => k < i
    case ResetSweeping(_) => k < SHARDS
    case _ => false
  }

  ghost predicate ShardFree(w: World, s: Sys, k: nat) {
    forall u :: 0 <= u < |s.threads| ==> !Holds(w, s.threads[u], k)
  }

  // ---- steps ----

  datatype Action =
    | Start(name: string, op: Op)
    | StartDelete(name: string)
    | StartWarm(batch: Batch)
    | StartReset(batch: Batch)
    | Continue(now: int)
    | Sweep(b: nat)

  predicate Creates(op: Op) {
    op.Append? || op.Upsert? || op.CounterAdd?
  }

  predicate DistinctNames(batch: Batch) {
    && (forall i, j :: 0 <= i < j < |batch| ==> batch[i].0 != batch[j].0)
    && (forall i :: 0 <= i < |batch| ==> !IsReserved(batch[i].0))
  }

  function BatchCharge(e: (string, Scope)): int { e.1.Bytes() + SCOPE_OVERHEAD }
  function BatchItems(e: (string, Scope)): int { |e.1.items| }
  function PlanDelta(p: Plan): int {
    p.target.Bytes() - p.recorded + if p.isNew then SCOPE_OVERHEAD else 0
  }

  predicate Unheld(s: Sys, name: string) {
    name in s.maps ==> s.maps[name] < |s.bufs| && s.bufs[s.maps[name]].hold.Free?
  }

  ghost predicate Enabled(w: World, s: Sys, t: nat, a: Action) {
    && t < |s.threads|
    && match a
       case Start(name, _) => s.threads[t].Idle? && ShardFree(w, s, w.shardOf(name))
       case StartDelete(name) => s.threads[t].Idle? && !IsReserved(name) && ShardFree(w, s, w.shardOf(name))
       case StartWarm(batch) => s.threads[t].Idle? && DistinctNames(batch)
       case StartReset(batch) =>
         && s.threads[t].Idle? && DistinctNames(batch)
         && (batch == [] || Sum(batch, BatchCharge) + RESERVED_OVERHEAD <= w.cfg.maxStoreBytes)
       case Sweep(b) =>
         && s.threads[t].ResetSweeping? && b < |s.bufs|
         && s.bufs[b].linked && !s.bufs[b].detached && s.bufs[b].hold.Free?
       case Continue(_) =>
         match s.threads[t]
         case Idle => false
         case Missing(name, _) => ShardFree(w, s, w.shardOf(name))
         case Inserting(_, _) => true
         case Ready(b, _, _) => b < |s.bufs| && s.bufs[b].hold.Free?
         case Writing(b) => b < |s.bufs| && s.bufs[b].hold.Held?
         case Failed(b, name) => b < |s.bufs| && ShardFree(w, s, w.shardOf(name))
         case RollingBack(b, _) => b < |s.bufs| && s.bufs[b].hold.Free?
         case Deleting(name) => name in s.maps && Unheld(s, name)
         case WarmLocking(batch, k) => k >= SHARDS || k !in Cover(w, batch) || ShardFree(w, s, k)
         case WarmReading(_, rest, _) => rest == [] || Unheld(s, rest[0].0)
         case WarmWriting(plans, _, _) => plans == [] || Unheld(s, plans[0].name)
         case ResetLocking(_, k) => k >= SHARDS || ShardFree(w, s, k)
         case ResetSweeping(_) => forall i :: 0 <= i < |s.bufs| && s.bufs[i].linked ==> s.bufs[i].detached
  }

  function At(s: Sys, t: nat, pc: Pc): Sys
    requires t < |s.threads|
  {
    s.(threads := s.threads[t := pc])
  }

  function NewBuf(name: string, scope: Scope): Buf {
    Buf(name, scope, false, Free, true, None)
  }

  // The shard read lock: find the buffer, or go on to create it.
  function DoLookup(s: Sys, t: nat, name: string, op: Op): Sys
    requires t < |s.threads|
  {
    if name in s.maps then At(s, t, Ready(s.maps[name], op, false))
    else if Creates(op) then At(s, t, Missing(name, op))
    else s
  }

  // Under the shard lock: look again, then reserve the scope overhead.
  function DoReserveScope(w: World, s: Sys, t: nat, name: string, op: Op): Sys
    requires t < |s.threads|
  {
    if name in s.maps then At(s, t, Ready(s.maps[name], op, false))
    else if Admits(s.total, w.cfg.maxStoreBytes, SCOPE_OVERHEAD) then
      At(s, t, Inserting(name, op)).(total := s.total + SCOPE_OVERHEAD)
    else At(s, t, Idle)
  }

  function DoInsert(s: Sys, t: nat, name: string, op: Op): Sys
    requires t < |s.threads|
  {
    At(s, t, Ready(|s.bufs|, op, true)).(
      bufs := s.bufs + [NewBuf(name, EMPTY_SCOPE)], maps := s.maps[name := |s.bufs|], scopes := s.scopes + 1)
  }

  // Take the buffer lock, check for detachment, plan the change, reserve its bytes.
  function DoReserve(w: World, s: Sys, t: nat, b: nat, op: Op, created: bool, now: int): Sys
    requires t < |s.threads| && b < |s.bufs|
  {
    var buf := s.bufs[b];
    var refused := At(s, t, if created then Failed(b, buf.name) else Idle);
    if buf.detached then refused
    else match Execute(Env(w.cfg, w.cfg.MaxItemsFor(buf.name), buf.name), buf.scope, op, now, s.total)
      case Rejected(_) => refused
      case Missed => At(s, t, Idle)
      case Changed(next, _) =>
        var delta := next.Bytes() - buf.scope.Bytes();
        At(s, t, Writing(b)).(
          bufs := s.bufs[b := buf.(hold := Held(t, next))],
          total := s.total + delta,
          shrunk := if buf.window.Some? && delta < 0 then s.shrunk - delta else s.shrunk)
  }

  function DoCommit(s: Sys, t: nat, b: nat): Sys
    requires t < |s.threads| && b < |s.bufs| && s.bufs[b].hold.Held?
  {
    var buf := s.bufs[b];
    At(s, t, Idle).(
      bufs := s.bufs[b := buf.(scope := buf.hold.next, hold := Free)],
      items := s.items + |buf.hold.next.items| - |buf.scope.items|)
  }

  function DoStartRollback(s: Sys, t: nat, b: nat, name: string): Sys
    requires t < |s.threads|
  {
    if name in s.maps && s.maps[name] == b then At(s, t, RollingBack(b, name)) else At(s, t, Idle)
  }

  function Unlink(s: Sys, t: nat, b: nat, name: string): Sys
    requires t < |s.threads| && b < |s.bufs|
  {
    At(s, t, Idle).(
      bufs := s.bufs[b := s.bufs[b].(detached := true, linked := false)],
      maps := s.maps - {name},
      total := s.total - s.bufs[b].scope.Bytes() - SCOPE_OVERHEAD,
      items := s.items - |s.bufs[b].scope.items|,
      scopes := s.scopes - 1)
  }

  // cleanupIfEmptyAndUnused: only while still empty.
  function DoRollback(s: Sys, t: nat, b: nat, name: string): Sys
    requires t < |s.threads| && b < |s.bufs|
  {
    if s.bufs[b].scope.items != [] then At(s, t, Idle) else Unlink(s, t, b, name)
  }

  function DoWarmRead(s: Sys, t: nat, plans: seq<Plan>, rest: Batch, cover: set<nat>): Sys
    requires t < |s.threads| && rest != []
    requires rest[0].0 in s.maps ==> s.maps[rest[0].0] < |s.bufs|
  {
    var (name, target) := rest[0];
    if name in s.maps then
      var b := s.maps[name];
      var recorded := s.bufs[b].scope.Bytes();
      At(s, t, WarmReading(plans + [Plan(name, target, recorded, false)], rest[1..], cover)).(
        bufs := s.bufs[b := s.bufs[b].(window := Some(recorded))])
    else At(s, t, WarmReading(plans + [Plan(name, target, 0, true)], rest[1..], cover))
  }

  function CloseWindows(w: World, bufs: seq<Buf>, cover: set<nat>): (r: seq<Buf>)
    ensures |r| == |bufs|
    ensures forall i :: 0 <= i < |r| ==>
              r[i] == if w.shardOf(bufs[i].name) in cover then bufs[i].(window := None) else bufs[i]
  {
    seq(|bufs|, i requires 0 <= i < |bufs| =>
      if w.shardOf(bufs[i].name) in cover then bufs[i].(window := None) else bufs[i])
  }

  // One compare-and-swap for the whole batch.
  function DoWarmReserve(w: World, s: Sys, t: nat, plans: seq<Plan>, cover: set<nat>): Sys
    requires t < |s.threads|
  {
    var delta := Sum(plans, PlanDelta);
    if Admits(s.total, w.cfg.maxStoreBytes, delta) then
      At(s, t, WarmWriting(plans, 0, cover)).(total := s.total + delta)
    else At(s, t, Idle).(bufs := CloseWindows(w, s.bufs, cover))
  }

  // commitReplacementPreReserved on one scope of the batch.
  function DoWarmCommit(s: Sys, t: nat, plans: seq<Plan>, added: nat, cover: set<nat>): Sys
    requires t < |s.threads| && plans != []
    requires plans[0].name in s.maps ==> s.maps[plans[0].name] < |s.bufs|
  {
    var p := plans[0];
    if p.name in s.maps then
      var b := s.maps[p.name];
      var drift := s.bufs[b].scope.Bytes() - p.recorded;
      At(s, t, WarmWriting(plans[1..], added, cover)).(
        bufs := s.bufs[b := s.bufs[b].(scope := p.target, window := None)],
        total := s.total - drift,
        items := s.items + |p.target.items| - |s.bufs[b].scope.items|)
    else
      At(s, t, WarmWriting(plans[1..], added + 1, cover)).(
        bufs := s.bufs + [NewBuf(p.name, p.target)],
        maps := s.maps[p.name := |s.bufs|],
        items := s.items + |p.target.items|)
  }

  function DoWarmFinish(s: Sys, t: nat, added: nat): Sys
    requires t < |s.threads|
  {
    At(s, t, Idle).(scopes := s.scopes + added)
  }

  function DoSweep(s: Sys, b: nat): Sys
    requires b < |s.bufs|
  {
    s.(bufs := s.bufs[b := s.bufs[b].(detached := true)])
  }

  function Whole(batch: Batch): Batch {
    batch + [(EVENTS, EMPTY_SCOPE), (INBOX, EMPTY_SCOPE)]
  }

  function Unlinked(bufs: seq<Buf>): (r: seq<Buf>)
    ensures |r| == |bufs|
    ensures forall i :: 0 <= i < |r| ==> r[i] == bufs[i].(linked := false, window := None)
  {
    seq(|bufs|, i requires 0 <= i < |bufs| => bufs[i].(linked := false, window := None))
  }

  function NewBufs(batch: Batch): (r: seq<Buf>)
    ensures |r| == |batch|
    ensures forall i :: 0 <= i < |r| ==> r[i] == NewBuf(batch[i].0, batch[i].1)
  {
    seq(|batch|, i requires 0 <= i < |batch| => NewBuf(batch[i].0, batch[i].1))
  }

  function NewMaps(batch: Batch, base: nat): (m: map<string, nat>)
    ensures forall n :: n in m ==> base <= m[n] < base + |batch| && batch[m[n] - base].0 == n
    ensures forall i :: 0 <= i < |batch| ==> batch[i].0 in m
  {
    if batch == [] then map[]
    else
      var last := |batch| - 1;
      var m := NewMaps(batch[..last], base);
      m[batch[last].0 := base + last]
  }

  // Every old buffer is detached: swap the maps, set all three counters, re-create the reserved scopes.
  function DoSwap(s: Sys, t: nat, batch: Batch): Sys
    requires t < |s.threads|
  {
    At(s, t, Idle).(
      bufs := Unlinked(s.bufs) + NewBufs(Whole(batch)),
      maps := NewMaps(Whole(batch), |s.bufs|),
      total := Sum(batch, BatchCharge) + RESERVED_OVERHEAD,
      items := Sum(batch, BatchItems),
      scopes := |batch| + 2)
  }

  ghost function Do(w: World, s: Sys, t: nat, a: Action): Sys
    requires Enabled(w, s, t, a)
  {
    match a
    case Start(name, op) => DoLookup(s, t, name, op)
    case StartDelete(name) => if name in s.maps then At(s, t, Deleting(name)) else s
    case StartWarm(batch) => At(s, t, WarmLocking(batch, 0))
    case StartReset(batch) => At(s, t, ResetLocking(batch, 0))
    case Sweep(b) => DoSweep(s, b)
    case Continue(now) =>
      match s.threads[t]
      case Missing(name, op) => DoReserveScope(w, s, t, name, op)
      case Inserting(name, op) => DoInsert(s, t, name, op)
      case Ready(b, op, created) => DoReserve(w, s, t, b, op, created, now)
      case Writing(b) => DoCommit(s, t, b)
      case Failed(b, name) => DoStartRollback(s, t, b, name)
      case RollingBack(b, name) => DoRollback(s, t, b, name)
      case Deleting(name) => Unlink(s, t, s.maps[name], name)
      case WarmLocking(batch, k) =>
        if k >= SHARDS then At(s, t, WarmReading([], batch, Cover(w, batch)))
        else At(s, t, WarmLocking(batch, k + 1))
      case WarmReading(plans, rest, cover) =>
        if rest == [] then DoWarmReserve(w, s, t, plans, cover)
        else DoWarmRead(s, t, plans, rest, cover)
      case WarmWriting(plans, added, cover) =>
        if plans == [] then DoWarmFinish(s, t, added)
        else DoWarmCommit(s, t, plans, added, cover)
      case ResetLocking(batch, k) =>
        if k >= SHARDS then At(s, t, ResetSweeping(batch))
        else At(s, t, ResetLocking(batch, k + 1))
      case ResetSweeping(batch) => DoSwap(s, t, batch)
  }

  // ---- the invariant ----

  ghost predicate PlanOk(w: World, bufs: seq<Buf>, maps: map<string, nat>, p: Plan, cover: set<nat>) {
    && w.shardOf(p.name) in cover
    && (p.isNew <==> p.name !in maps)
    && (p.isNew ==> p.recorded == 0)
    && (!p.isNew ==> maps[p.name] < |bufs| && bufs[maps[p.name]].window == Some(p.recorded))
  }

  ghost predicate PlansOk(w: World, bufs: seq<Buf>, maps: map<string, nat>, plans: seq<Plan>, cover: set<nat>) {
    && (forall i :: 0 <= i < |plans| ==> PlanOk(w, bufs, maps, plans[i], cover))
    && (forall i, j :: 0 <= i < j < |plans| ==> plans[i].name != plans[j].name)
  }

  ghost predicate PcOk(w: World, bufs: seq<Buf>, maps: map<string, nat>, t: nat, pc: Pc) {
    match pc
    case Inserting(name, _) => name !in maps
    case Ready(b, _, _) => b < |bufs|
    case Writing(b) => b < |bufs| && bufs[b].hold.Held? && bufs[b].hold.owner == t
    case Failed(b, name) => b < |bufs| && bufs[b].name == name
    case RollingBack(b, name) => name in maps && maps[name] == b
    case Deleting(name) => name in maps
    case WarmLocking(batch, k) => k <= SHARDS && DistinctNames(batch)
    case WarmReading(plans, rest, cover) =>
      && PlansOk(w, bufs, maps, plans, cover) && DistinctNames(rest) && Cover(w, rest) <= cover
      && (forall i, j :: 0 <= i < |plans| && 0 <= j < |rest| ==> plans[i].name != rest[j].0)
      && (forall c :: c in cover ==> c < SHARDS)
    case WarmWriting(plans, added, cover) =>
      && PlansOk(w, bufs, maps, plans, cover) && (forall c :: c in cover ==> c < SHARDS)
      && (added > 0 ==> cover != {})
    case ResetLocking(batch, k) => k <= SHARDS && ResetOk(w, batch)
    case ResetSweeping(batch) => ResetOk(w, batch)
    case _ => true
  }

  predicate ResetOk(w: World, batch: Batch) {
    && DistinctNames(batch)
    && (batch == [] || Sum(batch, BatchCharge) + RESERVED_OVERHEAD <= w.cfg.maxStoreBytes)
  }

  ghost predicate BufOk(s: Sys, i: nat)
    requires i < |s.bufs|
  {
    var b := s.bufs[i];
    && (b.linked <==> b.name in s.maps && s.maps[b.name] == i)
    && (!b.detached ==> b.linked)
    && (b.hold.Held? ==> !b.detached && b.hold.owner < |s.threads| && s.threads[b.hold.owner] == Writing(i))
    && (b.detached && b.linked ==> Sweeping(s))
  }

  ghost predicate Sweeping(s: Sys) {
    exists t :: 0 <= t < |s.threads| && s.threads[t].ResetSweeping?
  }

  ghost predicate Exclusive(w: World, s: Sys) {
    forall t, u, k ::
      0 <= t < |s.threads| && 0 <= u < |s.threads| && t != u && Holds(w, s.threads[t], k)
      ==> !Holds(w, s.threads[u], k)
  }

  ghost predicate MapsOk(s: Sys) {
    forall n :: n in s.maps ==> s.maps[n] < |s.bufs| && s.bufs[s.maps[n]].name == n
  }

  ghost predicate Structure(w: World, s: Sys) {
    && (forall n :: w.shardOf(n) < SHARDS)
    && MapsOk(s)
    && (forall i :: 0 <= i < |s.bufs| ==> BufOk(s, i))
    && (forall t :: 0 <= t < |s.threads| ==> PcOk(w, s.bufs, s.maps, t, s.threads[t]))
    && Exclusive(w, s)
  }

  // ---- what each counter stands for ----

  function Effective(b: Buf): int {
    if b.hold.Held? then b.hold.next.Bytes() else b.scope.Bytes()
  }

  function Charge(b: Buf): int { if b.linked then Effective(b) + SCOPE_OVERHEAD else 0 }
  function ChargeItems(b: Buf): int { if b.linked then |b.scope.items| else 0 }
  function ChargeScope(b: Buf): int { if b.linked then 1 else 0 }

  // Bytes a thread has reserved that no buffer shows yet.
  function Pending(pc: Pc): int {
    match pc
    case Inserting(_, _) => SCOPE_OVERHEAD
    case WarmWriting(plans, _, _) => Sum(plans, PlanDelta)
    case _ => 0
  }

  // Scopes a thread has linked but not yet counted.
  function Uncounted(pc: Pc): int {
    if pc.WarmWriting? then pc.added else 0
  }

  // How far a buffer has shrunk below what an open /warm recorded for it.
  function Credit(b: Buf): int {
    if b.linked && b.window.Some? && b.window.value > Effective(b) then b.window.value - Effective(b) else 0
  }

  ghost predicate Accounted(s: Sys) {
    && s.total == Sum(s.bufs, Charge) + Sum(s.threads, Pending)
    && s.items == Sum(s.bufs, ChargeItems)
    && s.scopes + Sum(s.threads, Uncounted) == Sum(s.bufs, ChargeScope)
  }

  ghost predicate Capped(w: World, s: Sys) {
    && s.total + Sum(s.bufs, Credit) <= w.cfg.maxStoreBytes + s.shrunk
    && Sum(s.bufs, Credit) <= s.shrunk
  }

  ghost predicate Inv(w: World, s: Sys) {
    Structure(w, s) && Accounted(s) && Capped(w, s) && w.cfg.maxStoreBytes >= RESERVED_OVERHEAD
  }

  // ---- runs ----

  // newStore: the reserved scopes exist, nobody is at work.
  ghost predicate Boot(w: World, s: Sys) {
    && (forall n :: w.shardOf(n) < SHARDS) && w.cfg.maxStoreBytes >= RESERVED_OVERHEAD
    && s.bufs == NewBufs(Whole([])) && s.maps == NewMaps(Whole([]), 0)
    && (forall t :: 0 <= t < |s.threads| ==> s.threads[t].Idle?)
    && s.total == RESERVED_OVERHEAD && s.items == 0 && s.scopes == 2 && s.shrunk == 0
  }

  type Schedule = seq<(nat, Action)>

  /** The state a schedule of steps leads to, if every step was enabled in its turn. */
  ghost function Exec(w: World, s: Sys, run: Schedule): Option<Sys>
    decreases |run|
  {
    if run == [] then Some(s)
    else
      var last := |run| - 1;
      match Exec(w, s, run[..last])
      case None => None
      case Some(m) => if Enabled(w, m, run[last].0, run[last].1) then Some(Do(w, m, run[last].0, run[last].1)) else None
  }

  ghost predicate Reachable(w: World, s: Sys) {
    exists start, run :: Boot(w, start) && Exec(w, start, run) == Some(s)
  }
}
