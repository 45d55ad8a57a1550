# A verified model of the scopecache store engine

scopecache is an in-memory store: a sharded map from scope names to buffers of ordered
items, one byte budget for the whole store kept in atomics, a write-event log in the
reserved scope `_events`, bulk operations that replace many scopes at once, and a
coalescing wake-up for whoever drains a reserved scope. This project models that engine in
Dafny 4.11 and proves what its four redundant views of one state are supposed to agree on.

`dafny verify dfyconfig.toml` checks everything.

## How the model is laid out

| layer | files | what it is |
|---|---|---|
| values | `Types`, `Rendering`, `Sums`, `ScopeSpec`, `ScopeMeaning`, `ScopeLaws`, `BufferSpec` | items, sizes, caps, and one scope as a plain list: every operation by linear scan, and what it answers and leaves by positions and fields alone |
| heap | `Slice`, `Slots`, `Buffer` | the buffer as the program keeps it: a backing array with zeroed tail, two index maps, shared counter cells, running sums. Each method is proved equal to the list operation |
| store | `StoreSpec`, `StoreMeaning`, `RecordMeaning`, `BulkMeaning`, `StoreLaws`, `StoreBulk`, `StoreWarm`, `StoreEvents`, `StoreEstimate`, `StoreStamps`, `StoreDump`, `Replay`, `EventJson`, `ReplayLimit`, `LogOrder`, `Drain`, `CursorWalk`, `ScopeList` | the whole store, one public operation at a time, with its event log; the `Meaning` modules say of each request exactly when it is accepted, what it answers, leaves and logs |
| store on the heap | `BulkBuild`, `StoreHeap` | lookup, creation, rollback, emission, `/wipe`, `/warm` and `/rebuild` over buffer objects, proved equal to `StoreSpec` |
| interleavings | `Steps`, `StepStructure`, `StepAccounts`, `StepSafety`, `StepTheorems`, `StepWindows`, `StepHolds`, `StepHistory`, `StepOrder`, `StepRollback`, `StepSolo`, `StepSoloBulk`, `StepStamps`, `StepRequests`, `StepOvershoot`, `StepSilence`, `Shards` | any number of threads, one lock section or compare-and-swap per step, stale buffer pointers, detachment, rollback, the snapshot/reserve/commit windows of `/warm` |
| single words and locks | `Cas`, `Counters` | the compare-and-swap loops, and counters under the scope's read and write lock |
| wake-ups | `Wakeups`, `Subscriptions` | writers, the notify call, subscriptions, the draining loop, buffers replaced underneath |

Conventions. One `char` stands for one byte. What encoding/json does (payload validity,
string decoding, marshalling, integer parsing) and the key-shape check are functions in
`Types.Codec`, about which nothing is assumed unless a lemma says so. Clocks are parameters
of each operation. Integers are unbounded; `Cas` shows separately what int64
changes: the subtraction form of the byte check admits exactly what fits, where the additive
form would wrap.

## Where the code and its comments part ways

The model follows the code.

- `rebuildAll` installs items, maps, lastSeq and bytes but not `idKeyBytes` (bulk.go:312-317),
  although buffer_replace.go:39-42 says the O(1) estimate stays right after `/rebuild`.
  `StoreEstimate` proves by how much it is off and for how long.
- buffer_replace.go:176-180 says the commit keeps the byte cap strict across batches.
  `/warm` pays back what a concurrent delete released, without a cap check
  (buffer_replace.go:200-203). `StepOvershoot.CapCanBePassed` is a run that ends above the
  cap, `StepTheorems.PassesCapExactlyWhen` says exactly which step does it, and
  `StepTheorems.Overshoot` bounds by how much: what such commits paid back since the counter
  was last within the cap. Inside an open window the counter can also go below zero
  (`StepOvershoot.TotalCanBeNegative`): `StepTheorems.NegativeExactlyWhen` says in which
  states it is, `StepTheorems.BecomesNegativeExactlyWhen` at which steps.
- buffer_counter.go:33-35 says scope creation bumps `lastWriteTS` in getOrCreateScope; it
  does not (store.go:595-602). A scope whose creating append is refused, and which a
  counter_add keeps alive, leaves no tick: `StepSilence.ScopeWithoutTick`.
- docs/scopecache-core-rfc.md:285-287 tells clients that nothing changed while the stamp is
  where it was. Beside counter activity, which is silent by design, a write can go unseen: it
  reads its clock under the buffer lock (buffer_write.go:47, buffer_write.go:64), and if a
  later write has bumped the stamp before it commits, its own bump changes nothing.
  `StepSilence.OvertakenWriteIsMissed` is such a run. `StepStamps.MissesExactlyWhen` says
  after which polls this can happen, `StepStamps.PollMisses` what is missed then.

## Where the code promises nothing

- events.go:43-47 calls the log replayable against an empty cache, and against one it is:
  `Replay.ReplayFromReset`. It says nothing of a copy that already holds items and events.
  There replay is refused for lack of room exactly when bytes outside `_events` do not fit
  beside the log the copy started with (`Replay.ReplayExactlyWhen`,
  `Replay.ReplayOntoExactCopy`). With records as long as encoding/json makes them this cannot
  happen to a copy taken after one `/warm` (`ReplayLimit.OneWarmIsNoObstacle`), and it can
  after two (`ReplayLimit.DrainedLogBlocksCopy`).
- Records are emitted after the scope lock is released (events.go:23-26). If two records of
  one scope change places, replay gives the scope another content
  (`LogOrder.SwappedRecordsMisreplay`); if the records of each scope reach the log in the
  order of its commits, it gives the right one or runs out of room
  (`LogOrder.OrderedLogRebuilds`).
- A drainer whose `/head` and `/delete_up_to` straddle a `/wipe` or `/rebuild` deletes items
  it never read, because seqs restart: `Drain.StraddlingLoses`. `Drain.StaleDropSkips` says
  exactly which, and `Drain.DrainedExactlyOnce` holds from each reset to the next.

## Model

| member | source | states |
|---|---|---|
| `StepTheorems.Conservation` | bulk.go:179-246 | in every reachable interleaving totalBytes is the sum over mapped scopes plus exactly what threads hold reserved; totalItems and scopeCount obey the same law |
| `StepTheorems.Quiescence` | store.go:88-140 | with no operation in flight all three counters are exact: bytes, items, and the number of names in the shard maps |
| `StepTheorems.Overshoot` | buffer_replace.go:194-217 | after any run totalBytes exceeds the cap by at most what commits paid back since it was last within the cap, hence not at all while nothing is paid back |
| `StepTheorems.PassesCapExactlyWhen` | buffer_replace.go:194-217 | a step takes totalBytes past the cap if and only if it commits a batch scope that shrank by more than the room left |
| `StepOvershoot.CapCanBePassed` | buffer_replace.go:200-203 | a run of validated requests from boot leaves totalBytes above the cap |
| `StepTheorems.NegativeExactlyWhen` | bulk.go:179-246 | totalBytes is below zero if and only if what threads past a /warm reservation owe exceeds what the mapped scopes hold and what is booked for them |
| `StepTheorems.BecomesNegativeExactlyWhen` | buffer_replace.go:194-217 | a step takes it below zero if and only if it releases more than the counter stood at, and then some /warm past its reservation owes its scopes a shrinkage |
| `StepOvershoot.TotalCanBeNegative` | bulk.go:179-246 | a run of validated requests from boot takes it there: a batch that empties a scope, then a delete from it in the open window |
| `StepStamps.UnmovedExactlyWhen` | store.go:183-199 | over any run the stamp is where it was if and only if every bump offered a time it had reached |
| `StepStamps.MissesExactlyWhen` | docs/scopecache-core-rfc.md:285-287 | after a poll, with every clock read from then on later than the stamp, more than counter activity can go unseen if and only if at the poll some buffer is held by a write that changes more than counters and has read a time no later than the stamp |
| `StepStamps.PollMisses` | docs/scopecache-core-rfc.md:285-287 | between two polls of a run from boot that find the stamp unmoved, with clocks read in between later than it: each buffer is as it was but for counters, or as the overtaken write in hand at the first poll leaves it but for counters |
| `StepStamps.PollMissesOnlyCounters` | docs/scopecache-core-rfc.md:285-287 | so if no write in hand at the first poll was overtaken, no item was lost or added but counters, and every scope that had items is still mapped |
| `StepStamps.WithoutBump` | store.go:157-172 | the same, whatever the clocks read, if no step between the polls bumps the stamp |
| `StepSilence.ScopeWithoutTick` | store.go:640-642 | a run of validated requests from boot ends with a new scope that holds an item, everything done, and lastWriteTS where it was |
| `StepSilence.OvertakenWriteIsMissed` | buffer_write.go:246-292 | a run of validated requests from boot in which an append commits between two polls, unseen, because a later write had bumped the stamp already |
| `StepHistory.SequentialHistory` | buffer_write.go:29-54 | under any interleaving from boot each buffer is what its commits, played one after the other, make of what it held when published; every write takes effect there as it did in the run, and one still in hand is what its operation does to the buffer as it stands |
| `StepOrder.OrderedAlways` | buffer_locked.go:1-22 | whatever validated requests run at once, every buffer holds strictly increasing seqs up to lastSeq and unique ids |
| `StepOrder.SeqsNeverGoBack` | buffer_replace.go:194-217 | no step makes a buffer's lastSeq go back, except a /warm that replaces the list |
| `StepSolo.SoloWrite` | store.go:548-851 | from any quiet state the steps of a validated request that runs alone add up to the store operation: the same scopes, bytes, items and scope count |
| `StepSoloBulk.SoloWarm` | bulk.go:154-261 | so do the steps of a /warm: the whole batch, or nothing when its growth does not fit |
| `StepSoloBulk.SoloReset` | bulk.go:267-371 | and those of a /wipe or /rebuild: exactly the given scopes and the two reserved ones, empty |
| `StepWindows.OpenWindows` | bulk.go:186-246 | a window is open only on a mapped buffer, and only while a /warm that holds its shard has yet to commit it |
| `StepTheorems.LiveIsMapped` | buffer_write.go:29-36 | every published buffer that is not detached is the one mapped under its name, and a buffer locked for an accepted write is not detached |
| `StepTheorems.WriteLands` | store.go:600-649 | an accepted write ends up in the scope a reader of that name finds |
| `StepTheorems.DetachedLeavesNoTrace` | store.go:627-649 | the rollback of a write refused on a detached buffer finds nothing to undo: the guard on the mapped buffer fails |
| `StepRollback.NothingLeftBehind` | store.go:611-649 | whatever ran at once, when nothing is under way every scope that a single write made and that is still mapped has been written to: a refused write has undone the scope it made, unless another write came to use it |
| `StepTheorems.ReleasedOnce` | store.go:627-649 | over any run a detached buffer is frozen and a buffer once unlinked is never linked, so its overhead is released once |
| `StepTheorems.NoDeadlock` | store.go:425-461 | in every reachable state with an unfinished operation, some unfinished operation can take its next step |
| `StepSafety.Reached` | store.go:1-34 | the lock, map, pointer and accounting invariant holds in every reachable state |
| `StepAccounts.WarmCommitBooks` | buffer_replace.go:160-217 | settling only the drift keeps the totals law and the cap law |
| `StepAccounts.SwapBooks` | bulk.go:344-371 | /wipe and /rebuild may overwrite the counters: no other thread owes them anything |
| `StepStructure.SweeperAlone` | bulk.go:46-85 | while a thread detaches every buffer no other thread holds a shard or a reservation |
| `Shards.ShardsForScopes` | store.go:398-420 | exactly the shards the batch touches, each once, strictly ascending |
| `Cas.Word.Run` | store.go:189-199 | the retry loop acts as one atomic step on the last value it met |
| `Cas.Linearizable` | buffer_counter.go:97-121 | any interleaving of loops on one word equals a sequential history in which each finished loop has its place, no older than its call |
| `Cas.RetryMeansProgress` | buffer_counter.go:116-120 | a swap fails only because another operation took effect since the load |
| `Cas.BudgetHolds` | store.go:478-493 | a byte counter under its cap stays there, whoever reserves and releases |
| `Cas.CounterIsSum` | buffer_counter.go:97-121 | a counter is its start plus the accepted increments and stays within range |
| `Cas.StampIsLatest` | store.go:183-199 | a freshness stamp is the latest time offered |
| `Counters.LiveCounters` | buffer_counter.go:63-93 | under any interleaving with create, promote, strip and delete a live counter is its base plus its accepted increments, in range, on a cell no other id has |
| `Counters.RunAnswers` | buffer_counter.go:63-93 | every answered value is the counter just after the caller's own increment |
| `Counters.RunHistory` | buffer_counter.go:129-258 | over any run a cell's ts never goes back and its growth is what was accepted meanwhile; a stripped cell is frozen and never returns |
| `Slots.CounterCell.Add` | buffer_counter.go:97-121 | one increment: range check, new value, ts as a maximum |
| `Slices.Slice.RemoveAt` | buffer_delete.go:30-44 | the tail shift removes one element and zeroes the slot past the new end |
| `Slices.Slice.DropPrefix` | buffer_delete.go:160-170 | the kept suffix moves to storage of its own |
| `Buffer.ScopeBuffer.IndexBySeq` | buffer_locked.go:115-138 | binary search finds the one slot with this seq, or there is none |
| `Buffer.ScopeBuffer.AppendItem` | buffer_write.go:29-54 | equals the list append, errors included, counters and stamps included |
| `Buffer.ScopeBuffer.UpsertByID` | buffer_write.go:56-119 | equals the list upsert; the branch marked unreachable is dead |
| `Buffer.ScopeBuffer.UpdateByID` | buffer_write.go:129-158 | equals the list update by id |
| `Buffer.ScopeBuffer.UpdateBySeqNo` | buffer_write.go:168-229 | equals the list update by seq, with the item cap re-checked on the stored id |
| `Buffer.ScopeBuffer.CounterAdd` | buffer_counter.go:63-93 | equals the list counter_add, on the fast path and the slow one |
| `Buffer.ScopeBuffer.CounterAddSlow` | buffer_counter.go:129-258 | create and promote reserve exactly the size they add |
| `Buffer.ScopeBuffer.DeleteByID` | buffer_delete.go:87-107 | equals the list delete by id |
| `Buffer.ScopeBuffer.DeleteBySeqNo` | buffer_delete.go:109-128 | equals the list delete by seq |
| `Buffer.ScopeBuffer.DeleteUpToSeq` | buffer_delete.go:136-186 | equals dropping every item at or below the cursor |
| `Buffer.ScopeBuffer.CommitPreReserved` | buffer_replace.go:194-217 | installs the built list and settles only the drift since the snapshot |
| `Buffer.ScopeBuffer.SinceSeq` | buffer_read.go:86-116 | the items above the cursor, oldest first, cut at the limit, and whether more remain |
| `Buffer.ScopeBuffer.TailOffset` | buffer_read.go:53-80 | the newest items after the offset, and whether older ones remain |
| `Buffer.ScopeBuffer.GetByID` | buffer_read.go:118-126 | the item a linear scan by id finds, counters rendered |
| `Buffer.ScopeBuffer.GetBySeq` | buffer_read.go:128-136 | the item a linear scan by seq finds, counters rendered |
| `Buffer.ScopeBuffer.ApproxSizeBytes` | buffer_stats.go:33-45 | the O(1) estimate equals the full walk less the ids idKeyBytes does not know of |
| `Slots.BuildReplacement` | buffer_replace.go:56-127 | rejects exactly the inputs that repeat an id, else builds them in order with seqs 1..n |
| `Slots.IndexSizes` | buffer_stats.go:33-45 | both index maps have exactly the entries the list calls for |
| `ScopeLaws.ApplyKeepsOrder` | buffer_locked.go:1-22 | every operation keeps seqs strictly increasing and at most lastSeq, ids unique, and lastSeq from going back |
| `ScopeMeaning.AppendMeans` | buffer_write.go:29-54 | refused when the scope is full or has the id, else one more item with the next seq, which is the answer |
| `ScopeMeaning.UpsertMeans` | buffer_write.go:56-119 | the item with the id takes payload and time and keeps seq and place, or a new one is added unless the scope is full |
| `ScopeMeaning.CounterAddMeans` | buffer_counter.go:129-277 | an item that reads as v becomes the counter v + inc, which is the answer; refused if either is out of range or the payload is no integer; without the item a new counter inc |
| `ScopeMeaning.DeleteUpToMeans` | buffer_delete.go:136-186 | the items at or below the cursor go, the rest stays, their number is the answer, none is a miss |
| `ScopeMeaning.HeadMeans` | buffer_read.go:86-116 | the first items above the cursor, by position, up to the limit, each as a reader sees it, and whether one more is there |
| `ScopeMeaning.TailMeans` | buffer_read.go:53-80 | the last items after leaving out the newest offset ones, by position, up to the limit, and whether an older one is there |
| `ScopeMeaning.GetMeans` | buffer_read.go:118-136 | the item with the id or seq, a counter shown as the integer it stands at, nothing if there is none |
| `StoreBulk.RunGood` | store.go:88-140 | after any sequence of public operations from boot each counter is the sum it stands for, the cap holds, every item respects the cap of its scope |
| `StoreLaws.ApplyFits` | validation.go:157-167 | no accepted request leaves an item above the cap of its scope, update by seq and promotion included |
| `StoreLaws.FailureChangesNothing` | store.go:606-649 | a refused or missed operation leaves the whole store as it was, scope existence and stamps included |
| `StoreMeaning.AcceptsExactlyWhen` | validation.go:227-370 | exactly which requests pass validation, with every limit spelled out: the item cap of a user scope, of `_inbox` and of `_events`, reserved names, id or seq, the counter range |
| `StoreMeaning.AppendTakes` | store.go:661-698 | an accepted append adds one item, in a scope made for it if there is none, exactly if the scope is below its count cap, has no such id, and what it costs fits the byte cap; the counters and stamps move with it |
| `StoreMeaning.UpsertTakes` | store.go:703-720 | an accepted upsert replaces in place or adds, in a new scope too, whenever there is room |
| `StoreMeaning.UpdateTakes` | store.go:775-805 | an accepted update rewrites the item addressed if there is room; a miss without the item or the scope |
| `StoreMeaning.CounterAddTakes` | store.go:728-760 | an accepted counter_add adds to the counter or to the integer a payload reads as, or makes a counter, whenever there is room; silent on the stamps unless it made the scope |
| `StoreMeaning.DeleteTakes` | store.go:807-831 | an accepted delete removes the item addressed, whatever the caps; a miss without it |
| `StoreMeaning.DeleteUpToTakes` | store.go:833-851 | an accepted delete_up_to removes the items at or below the cursor, whatever the caps; a miss if there are none |
| `StoreEvents.FailuresLeakNothing` | store.go:651-698 | any number of failed writes to any scopes leaves the store unchanged |
| `StoreEvents.EventsNeverInterfere` | events.go:14-22 | the reply and every scope but _events are the same whether or not the event lands |
| `StoreEvents.EveryChangeCounted` | events.go:1-35 | over any run, resets included, the items `_events` took and the events dropped number the effective changes outside it plus direct appends to it |
| `RecordMeaning.SingleRecords` | events.go:82-255 | in every mode but off an effective write outside `_events` is followed by its record, field by field, in notify mode without the payload, appended to `_events` or counted as one drop; otherwise nothing is |
| `RecordMeaning.WarmRecords` | events.go:232-238 | a /warm that replaced something is followed by one record with its time and nothing else |
| `StoreWarm.WarmMeans` | bulk.go:87-261 | a batch is accepted on exactly the stated condition; refused, nothing changes; accepted, its scopes are replaced and no others |
| `StoreWarm.WarmAnyOrder` | bulk.go:102-149 | two walks of the same input map fare alike and leave the same store |
| `BulkMeaning.WarmAcceptedExactlyWhen` | bulk.go:87-215 | accepted exactly if every entry names a user scope with distinct, valid, unnumbered items within the caps, and the growth of all of them together fits |
| `BulkMeaning.WarmStamps` | buffer_replace.go:194-217 | an accepted non-empty batch moves the stamp of the store to its time at least and that of each of its scopes to it; an empty one changes nothing |
| `BulkMeaning.RebuildAcceptedExactlyWhen` | bulk.go:267-345 | accepted exactly if every entry fits and all of them fit the cap beside the reserved scopes; refused, nothing changes |
| `BulkMeaning.RebuildMeans` | bulk.go:267-371 | accepted, exactly the scopes of the batch with seqs 1..n and the two reserved ones are there, counters and the stamp of the store to match |
| `StoreBulk.PrepareMeans` | bulk.go:96-153 | phase 1 answers by the set of entries alone: malformed, over-full, or one built target per entry |
| `StoreDump.RoundTrip` | bulk.go:267-371 | rebuilding from the dump of a reachable store is accepted, brings back the same ids and payloads in order with seqs from 1, and dumps to the same batch |
| `Rendering.RenderShort` | types.go:293-308 | a counter in range renders in at most 17 bytes, within the 56 it is charged |
| `Rendering.RenderReadsBack` | buffer_counter.go:279-284 | the rendered integer reads back as itself |
| `Rendering.MaterialiseShows` | buffer_read.go:23-45 | a reader is shown a counter as the integer it stands at, in canonical digits, and any other item unchanged |
| `StoreEstimate.EstimateGap` | buffer_stats.go:33-45 | after every run from boot the estimate of each scope misses exactly what its history says: the ids a /rebuild left uncounted, until the scope is emptied, dropped, wiped or warmed by name |
| `StoreEstimate.EstimateExact` | buffer_stats.go:33-45 | in particular it is exact for every scope on every run free of /rebuild |
| `StoreEstimate.RebuildFallsShort` | bulk.go:309-321 | right after /rebuild each scope is underestimated by exactly the ids it holds |
| `StoreEstimate.ShortfallPersists` | buffer_delete.go:74-85 | whatever a single operation does, each scope, `_events` included, keeps its shortfall unless it ends empty |
| `StoreEstimate.WarmClears` | buffer_replace.go:194-217 | /warm clears the shortfall of the scopes it names and keeps every other |
| `StoreStamps.WriteStamps` | buffer_counter.go:24-35 | a write moves the store stamp exactly if it had an effect and is not counter activity in an existing scope |
| `StoreStamps.StampNeverBack` | store.go:157-172 | over any run, resets included, the store stamp never goes back |
| `Replay.ReplayExactlyWhen` | events.go:41-58 | for every full-mode run with no dropped event, applying its records in order to a copy that agrees outside `_events` is never refused if and only if every growth outside `_events` fits beside the log the copy started with; and then every scope but `_events` is rebuilt, timestamps aside |
| `Replay.ReplayOntoExactCopy` | events.go:41-58 | onto an exact copy of a state within the cap: if and only if the bytes outside `_events` after every prefix, plus the log kept, stay within maxStoreBytes |
| `Replay.ReplayRebuilds` | events.go:41-58 | a corollary: never refused when the copy's `_events` is empty or the original's is not drained |
| `Replay.ReplayPastSmallLog` | events.go:100-120 | nor when every record of a request that can add bytes takes at least the bytes the copy's log holds |
| `ReplayLimit.OneWarmIsNoObstacle` | events.go:72-81 | so with records no shorter than encoding/json can make them, a copy with a log of one /warm, or of at most 94 bytes, follows every run |
| `Replay.ReplayFromReset` | events.go:41-58 | from boot, /wipe or /rebuild an exact copy will do, whatever the drainer does |
| `ReplayLimit.DrainedLogBlocksCopy` | events.go:41-48 | for every codec that treats names, numbers and records as encoding/json does: two /warm after boot lead to a state from which a run without dropped events cannot be replayed onto an exact copy |
| `LogOrder.OrderedLogRebuilds` | events.go:23-26 | with commit and emission apart, any number of records waiting and other operations between, if the records of each scope reach the log in the order of its commits, replay can be refused for lack of room only, and rebuilds every scope with no record to come |
| `LogOrder.SwappedRecordsMisreplay` | events.go:23-26 | two appends to one scope whose records are emitted in reverse replay to a different scope |
| `Drain.DrainedExactlyOnce` | scripts/drain_events.sh:74-99 | from each reset to the next, written items are a prefix of everything the scope took, in seq order, and between batches exactly the rest is stored, whatever else the store does; only if the reset came between a read and its delete do skipped items precede them |
| `Drain.DrainsAll` | scripts/drain_events.sh:74-99 | left to itself the loop ends, with everything that was stored written out in order |
| `Drain.StaleDropSkips` | buffer_delete.go:136-186 | a delete overtaken by a reset takes exactly the new items with seqs up to its cursor, all of them unread |
| `Drain.StraddlingLoses` | scripts/drain_events.sh:74-99 | one item read, a /wipe, one item appended: the delete removes it unread |
| `CursorWalk.WalkIsStable` | buffer_read.go:86-116 | paging by last seq returns strictly increasing seqs and, once done, every item present throughout |
| `CursorWalk.PageMeans` | buffer_read.go:86-116 | a page adds the items above the cursor up to its limit and is the last exactly if none is left above them |
| `ScopeList.List` | store.go:1202-1257 | the first names in order matching prefix and cursor, with an exact truncated flag |
| `ScopeList.PageUnique` | store.go:1202-1257 | a page depends on the names alone, not on their shards |
| `ScopeList.PageMeans` | store.go:1202-1257 | a page holds matching names in order, at most its limit; what it leaves out comes after it and is there exactly if it says truncated |
| `ScopeList.LessMeans` | store.go:1202-1257 | the order is by the first byte that differs, a proper prefix first |
| `ScopeList.ListingWalk` | store.go:1202-1257 | paging by last name returns strictly increasing names and, once done, every matching scope present throughout |
| `Wakeups.NoLostWakeup` | subscribe.go:84-160 | every stored item committed under the current subscription has a writer yet to notify, a token in the slot, or a subscriber that will read the mapped buffer before it waits |
| `Wakeups.WriterRings` | store.go:661-698 | an undisturbed writer stores its item with the next seq and leaves a token in the slot |
| `Wakeups.LoopRound` | scripts/drain_events.sh:74-99 | one look and delete of an undisturbed subscriber removes exactly the first items up to its limit, and another look is due |
| `Wakeups.LoopDrains` | subscriber_command.go:107-134 | an undisturbed subscriber that took a token ends up waiting, with the scope empty |
| `Wakeups.RestMeansDrained` | subscriber_command.go:107-134 | with all writers done and the subscriber waiting without a token, nothing it subscribed for is left |
| `Wakeups.NoSendOnClosed` | subscribe.go:120-160 | no send meets a closed channel |
| `Subscriptions.Registry.Subscribe` | subscribe.go:84-101 | attaches exactly when the scope is reserved and free |
| `Subscriptions.Registry.Unsubscribe` | subscribe.go:103-130 | idempotent; closes the channel it removes, and no other |
| `Subscriptions.Registry.Notify` | subscribe.go:132-160 | fills the one slot of the subscriber, however often it is called |
| `StoreHeap.LiveStore.GetOrCreate` | store.go:548-609 | finds the buffer, or makes it if its overhead fits |
| `StoreHeap.LiveStore.Cleanup` | store.go:627-649 | undoes a creation whose write was refused, if that very buffer is still mapped and the scope still empty; otherwise changes nothing |
| `StoreHeap.LiveStore.Commit` | store.go:661-851 | validation, lookup, buffer call and rollback over buffer objects equal the store operation |
| `StoreHeap.LiveStore.DropNamed` | store.go:1010-1043 | unlinks, detaches and releases the scope |
| `StoreHeap.LiveStore.Submit` | store.go:661-851 | the public write operations with their emission equal the store operation; the recursion into _events ends |
| `StoreHeap.LiveStore.EmitEvent` | events.go:100-120 | the second append, its failure counted and nothing else |
| `StoreHeap.LiveStore.Wipe` | bulk.go:46-85 | detaches every buffer and leaves the boot store with a stamp; reports the scopes, items and bytes it freed |
| `BulkBuild.Build` | bulk.go:96-153 | the loop over the input ends as the specification of phase 1 says |
| `StoreHeap.LiveStore.ReplaceScopes` | bulk.go:87-261 | snapshot, one reservation, and one commit per scope equal the all-or-nothing batch |
| `StoreHeap.LiveStore.RebuildAll` | bulk.go:267-371 | building off the map, detaching, swapping and re-creating the reserved scopes equal the specified store; reports the items installed |
| `StoreHeap.LiveStore.InitReserved` | store.go:313-352 | both reserved scopes, empty, charged and counted |
| `Types.WithDefaults` | types.go:205-222 | a positive value the operator supplies is kept, maxStoreBytes raised to the overhead of the reserved scopes where smaller, and whatever is supplied every cap is positive |

## Helper facts

These read one definition back in a form other proofs use or a reader may want, and are
not results of their own: `StepTheorems.DetachedRefuses`, `StepTheorems.OnlyWindowsShrink`,
`StepTheorems.ByteCap` (a looser form of `Overshoot`), `StepStamps.OffersMean`,
`StepStamps.TickMeans`, `StepSoloBulk.ResetsAre`, `StoreEvents.EmitLands`,
`StoreEvents.ResetsEmitNothing`, `StoreStamps.ScopeStamps`, `ScopeMeaning.SizeMeans`,
`ScopeMeaning.UpdateIdMeans`, `ScopeMeaning.UpdateSeqMeans`, `ScopeMeaning.DeleteIdMeans`,
`ScopeMeaning.DeleteSeqMeans`, `StoreMeaning.CapsMean`, `StoreMeaning.DeleteScopeTakes`,
`StoreMeaning.OthersRefused`, `BulkMeaning.WipeMeans`, `Replay.RecordIsRequest`,
`Drain.OnlyAppendsAndDeletes`, `CursorWalk.ChangeMeans`, `ScopeList.WalkMeans`,
`Counters.LookMeans`, `Counters.StampMeans`, `Counters.WriteMeans`, `Counters.OthersMean`,
`Cas.NextMeans`, `Cas.ReservationFailsClosed`, `Cas.AdditiveFormFailsOpen`,
`Cas.ClampedIsNearest`, `Wakeups.Looks`, `Wakeups.Drops`, `Wakeups.ReceiveMeans`,
`Wakeups.RefusedMeans`, `Wakeups.OthersMean`, `Wakeups.RunAscends`, `EventJson.Example`,
`EventJson.FieldExamples`.

`StepRequests.BroughtIsReachable`, `EventJson.SomeCodecEncodes`,
`ReplayLimit.PlainRecordsAreThisLong` and `ReplayLimit.OneWarmLogs` check that the
conditions of other results can be met.

## Left out

- HTTP handlers, response shaping, body limits, query parsing, the Caddy module, the standalone binary, sockets, signals, init and subscriber processes: plumbing and I/O.
- JSON validity, string decoding, marshalling and the key-shape rules are parameters of the model. What a theorem assumes of them is in its contract: `StoreDump.RoundTrip` that bare integers are valid payloads, are not strings, and parse back; `ReplayLimit` how encoding/json writes plain names, numbers and records, or how short a record can be; `LogOrder.SwappedRecordsMisreplay` that its two payloads and records are accepted.
- The uint64 wrap of seqs and lastSeq is not modelled: a scope would need 2^64 inserts.
- Buffers that belong to no store (the `store == nil` branches before detachment) occur only in unit tests.
- `commitReplacement` and `replaceAll` are a test-only path without a cap check; `ensureScope`, `listScopes`, the read-heat counters, created_ts, `/stats` formatting and `maxItemBytesAnyScope` would add only easy members.
- `StepStamps` follows the store-wide stamp only. The bump a counter_add makes after creating its scope (store.go:754-756) is one step with its commit there, and the clock reading of /delete_scope, of a /warm commit and of a reset is one step with its bump; `StepStamps.UnmovedExactlyWhen` and `StepStamps.WithoutBump` hold whatever those clocks read.
- In the step model a lookup under the shard read lock, and a read of one buffer under its read lock, is one step; /wipe and /rebuild are one operation with an empty or a given content, and the final swap of maps and counters is one step, since every shard is held and every buffer detached by then.
- The replay theorems of `Replay` are for runs in which each operation emits before the next commits; `LogOrder` takes commit and emission apart, one operation being one step otherwise.
- `StoreHeap.LiveStore` keeps one map of buffers; the split into 32 shards appears only in the step model and in `Shards`. Its operations run one at a time: interference is the step model's matter.
- Replay.ReplayExactlyWhen: runs of single write operations in which no event is dropped; a /warm leaves no record of its content (events.go:56-57) and a reset empties the log, so neither can be replayed.
- Wakeups.NoLostWakeup: items committed before the subscription are not promised a wake-up, as the code says; a draining command that is killed or fails for its own reasons is not modelled, except for the refusal after a reset.
- Cas.Linearizable: says nothing of fairness; a single loop may be overtaken any number of times.
