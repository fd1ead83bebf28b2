# pg-sprite: copy and replay, verified

pg-sprite rebuilds a live PostgreSQL table: it copies the table chunk by chunk into a shadow while a
change stream is replayed over the copy, compares the two, and swaps them. This project models that
protocol in Dafny and proves what it promises: that the shadow converges to the source over every
interleaving, and what each part of the machinery keeps on the way.

Run `dafny verify dfyconfig.toml` in this directory to check it.

## How it is put together

The protocol as one state machine, over every interleaving of its parts:

- `Options.dfy`, `Rows.dfy`: rows, columns with the unchanged marker, changes, histories.
- `Entries.dfy`, `Flushing.dfy`: what one event does to the buffer and one flush to an entry, as functions.
- `Protocol.dfy`: the state and its thirteen kinds of step. `Invariant.dfy`: what every step keeps.
  `Steps.dfy`, `CatchupSteps.dfy`, `Delivery.dfy`: that every step keeps it. `Convergence.dfy`: what follows
  for every run. `Counterexample.dfy`: where the code does not meet its promise, and exactly when.
- `DrainOrder.dfy`, `FlushOrder.dfy`, `CycleOrder.dfy`: the drain's snapshot, position and decision, and the
  flush's reads and commit, each at its own moment with the rest of the world going on between them; every such
  run is a run of the protocol. `Reuse.dfy`: what the reused mark of a moved image says, over every run.
- `CopySteps.dfy`, `WorkerSteps.dfy`, `CycleSteps.dfy`: what the workers, a resume and a catch-up cycle do as
  coded, as steps of the protocol. `WholeRun.dfy`: workers, catch-up and source all at once, and the end-to-end
  theorem.

The parts in their own form, each proved against those functions or against an independent definition:

- `Buffer.dfy`, `Draining.dfy`, `ColumnLists.dfy`, `Coalescing.dfy`, `Flusher.dfy`, `FlushExample.dfy`,
  `HeldExample.dfy`, `ExampleRows.dfy`, `Catchup.dfy`, `Emptying.dfy`, `Snapshots.dfy` (`pkg/applier`, `pkg/decode`).
- `Copying.dfy`, `Ledger.dfy`, `Copier.dfy`, `Passes.dfy`, `Workers.dfy`, `Resuming.dfy` (`pkg/copier`).
- `Checksum.dfy`, `Recopying.dfy`, `Checking.dfy` (`pkg/checksum`).
- `Checkpoints.dfy` (`pkg/checkpoint`).

`WholeRun.MigrationConverges` is where they meet: any number of workers over their ledger, the catch-up in its own
order, and the source, interleaved in any way, stopped and resumed any number of times, leave the source in the
shadow once the ledger's watermark has reached the last key, every change was delivered and nothing is buffered.

## How the world is modelled

- The source is a base table and the committed changes in order. A position of the stream is a number of
  changes handed over. What a reader sees of a key is any prefix of its changes, growing key by key in any
  order, and no less than a snapshot shows.
- SQL is its meaning: upsert, update if present, insert where no row stands, range delete. Unique indexes
  and exclusion constraints are one relation between rows that may not stand together, checked row by row.
- A transaction takes effect at its commit. Entries handed to a flush stay in the modelled buffer until the
  flush ends, which is what bounds the confirmed position meanwhile.
- The server's answers (boundaries, reads, pass outcomes, confirmed positions) are arbitrary functions of
  how often they were asked. Workers and the catch-up are interleaved steps.
- Digests are the rows they digest.
- Keys are 64-bit integers: `Keyed` says that the source never has a row anywhere else.

## Where the code and its promises differ

- `applyWholeRows` fills markers in place in entries whose column slices are shared with the batch, so a
  deferred batch does not go back as the drain handed it out (`pkg/applier/requeue.go:5-11` says it does).
  The filled value can be another row's, and a later key move carries it: `Counterexample.Diverges` is such a
  run. `Convergence.HoldsExactly` says exactly which runs keep the invariant: those in which no key move takes a
  wrong filled value along. `Convergence.CarriedRuns` gives a condition that can be seen in the event: the move
  carries every column the fallback filled. Everything proved of a `Run` holds of exactly these runs, and
  `Convergence.HoldsFrom` says that it holds again from any state in which the invariant does.
- With every key landed, a refused batch ends the catch-up as unable to converge
  (`pkg/applier/catchup.go:388-393`). `Counterexample.LandedIsNotCaughtUp` is a reachable state where that is
  premature; `Counterexample.RefusalIsOutstanding` says that over a consistent source it always is: a row of the
  pair that collides has a change buffered or not delivered yet.
- With every key landed, every change delivered and a source that never broke a constraint, a batch can still be
  refused, and that too ends the catch-up: a held image is not written, and the stale row at its key can be in the
  way of a row that is. `HeldExample.HeldRowBlocks` is such a stream. `Emptying.TwoCyclesEmpty` says what holds
  otherwise: after one cycle that commits, the next is never refused except for a constraint, and empties the buffer;
  with every change delivered such a flush breaks none (`Counterexample.CaughtUpIsNeverRefused`).
- `HasMarker` looks at every decoded column and `split` at the shadow's. `Flusher.ReleasedIsWritten` says exactly which
  moved images are therefore held again in every cycle, and `Flusher.Flush.WholeRows` with
  `FlushExample.OffShadowIsRefused` exactly when the fallback refuses what the column-wise path writes.
- The proof comparison in `sameValue` is by number literal and the server's is by value.
  `Checkpoints.DiagnosisIsRight` says exactly when the diagnosis is the guard's own reason.
- A chunk can be found diverged although the shadow follows it if and only if its contents alternate: one
  state, another, the one again, the other again (`Checksum.DivergedExactly`). Coming back once is safe.

The order the catch-up takes its drain in matters: `DrainOrder.PositionFirstLoses` is a run that loses a change
when the position is read before the snapshot.

## Model

| member | source | states |
|---|---|---|
| `Convergence.LandedKeysConverge` | pkg/applier/drain.go:88-166 | In every state of every run, the shadow row of a landed key with the key's unflushed and undelivered changes replayed over it is the source's row. |
| `Convergence.Converges` | pkg/applier/drain.go:88-166 | When every 64-bit key has landed, every change was delivered and nothing is buffered, the shadow row at every key, and nowhere else, is the source's. |
| `Convergence.TableConverges` | pkg/copier/position.go:77-108 | The same for the history of a table with 64-bit keys: the shadow table equals the source table projected on the columns the shadow holds. |
| `WholeRun.MigrationConverges` | pkg/copier/copier.go:363-412 | Any number of workers over their ledger, the catch-up in its own order, the source and any number of resumes, interleaved in any way: when a snapshot of the ledger has its watermark at the last key, every change was delivered and nothing is buffered, the shadow shows the source at every key. |
| `WholeRun.MigrationHolds` | pkg/copier/position.go:45-108 | In every state of every such run the state is one the protocol reaches, so is whatever the open drain or flush leads to, and the ledger classifies every key as the phase of it says. |
| `WholeRun.ResumeIsFine` | pkg/copier/resume.go:41-74 | So it is after a resume from any watermark the ledger had reached, whatever was under way. |
| `WorkerSteps.ActIsStep` | pkg/copier/copier.go:391-457 | Whatever a worker does (claim, pass, record, land) is one step of the protocol or none, and leaves ledger and phases tied together. |
| `WorkerSteps.PassTies` | pkg/copier/copy_chunk.go:46-80 | A committed pass, as the insert its answer describes, is the step that copies exactly the keys it got in: those in flight it did not leave out, each with the row it read where none stood. |
| `WorkerSteps.SettleTies` | pkg/copier/ledger.go:80-98 | Recording what a pass left out is the step that lands exactly the keys it copied. |
| `WorkerSteps.LandTies` | pkg/copier/ledger.go:106-117 | Landing a complete chunk is the step that lands every key of it still in flight. |
| `WorkerSteps.FinishedIsLanded` | pkg/copier/position.go:45-49 | A ledger whose snapshot has its watermark at the last key has every 64-bit key landed. |
| `CycleSteps.CycleIsRun` | pkg/applier/catchup.go:344-407 | A cycle as coded, gathering, draining by a snapshot of the ledger, flushing or putting back against the shadow it finds after the world has gone on, and confirming, ends in a buffer, a shadow and a confirmed position that a run of the protocol ends in. |
| `CycleSteps.GatherIsRun` | pkg/applier/catchup.go:471-491 | What the cycle gathers from the stream is what the protocol delivers: the same buffer and the same position. |
| `CycleSteps.DrainIsRun` | pkg/applier/drain.go:121-166 | The batch drained and the rest kept are those of a drain of the protocol. |
| `CycleSteps.FlushIsRun` | pkg/applier/catchup.go:386-407 | What is written and held, or put back filled, is what a flush or a deferral of the protocol leaves. |
| `CycleSteps.ConfirmIsRun` | pkg/applier/catchup.go:497-516 | The highest position the buffer allows is the bound the protocol confirms. |
| `Convergence.RunHolds` | pkg/copier/resume.go:56-74 | The protocol's invariant holds in every state of every run, through commits, visibility, deliveries, releases, drains, flushes, deferrals, confirmations, claims, passes, landings and resumes that clear above the watermark. |
| `Convergence.HoldsFrom` | pkg/applier/catchup.go:344-407 | From any state in which the invariant holds, however it came about, it goes on to hold while no key move takes a wrong filled value along. |
| `Convergence.NextKeeps` | pkg/applier/catchup.go:344-407 | A step of the protocol keeps the invariant, but for a delivered key move, which keeps it if and only if it takes no wrong filled value along. |
| `Convergence.HoldsExactly` | pkg/applier/buffer.go:145-171 | The invariant holds in every state of a run of the protocol as coded if and only if no key move in the run takes along a wrong value the fallback filled in. |
| `Convergence.CarriedRuns` | pkg/applier/buffer.go:155-171 | It does when every key move carries the columns the fallback filled in the image it starts from. |
| `Convergence.TracksReplays` | pkg/applier/entry.go:97-108 | The invariant's per-column condition on a shadow row holds if and only if replaying the key's remaining changes over the row gives the source's row. |
| `Convergence.RunNeverRefuses` | pkg/applier/buffer.go:68-89 | In every state of every run the buffer accepts the next change the source made. |
| `Convergence.ResumeMissesNothing` | pkg/applier/catchup.go:493-516 | No position a run may be resumed from lies past a change that is neither in the shadow nor waived as uncut. |
| `Convergence.ConfirmNeverRefused` | pkg/decode/feedback.go:28-47 | In every state of every run the bound given to Confirm is at or above the confirmed position and at or below the delivered one, so neither refusal is reached, and it never passes the first change an entry stands for. |
| `Convergence.ReleasedCompletions` | pkg/applier/hold.go:78-98 | A completion read at or below the delivered position carries, for every column still a marker, the value the image's own row has on the source at that point of the stream. |
| `Convergence.AbsenceNeverRefused` | pkg/applier/absent.go:53-87 | No flush in any run meets an image whose row is still absent after it was awaited. |
| `Steps.CommitKeeps` | pkg/applier/drain.go:88-120 | A source commit keeps the invariant. |
| `Steps.ShowKeeps` | pkg/applier/snapshot.go:20-27 | Readers coming to see more, key by key in any order, keeps the invariant. |
| `Steps.ClaimKeeps` | pkg/copier/copier.go:420-434 | Claiming keys for a chunk keeps the invariant. |
| `Steps.CopyKeeps` | pkg/copier/copy_chunk.go:46-80 | A committed pass that inserts each row it read only where the shadow holds none keeps the invariant. |
| `Steps.LandKeeps` | pkg/copier/copier.go:436-444 | Landing copied keys keeps the invariant. |
| `Steps.RestartKeeps` | pkg/copier/resume.go:41-74 | Resuming from any position at or below a confirmed one and any watermark below which all had landed, with the shadow cleared above it, keeps the invariant. |
| `Steps.ConfirmKeeps` | pkg/applier/catchup.go:497-505 | Confirming the lowest of the delivered position and every buffered first position keeps the invariant. |
| `CatchupSteps.ReleaseKeeps` | pkg/applier/hold.go:86-98 | Letting completions in keeps the invariant. |
| `CatchupSteps.DrainKeeps` | pkg/applier/drain.go:121-166 | Handing over landed visible entries and dropping uncut visible ones, in any choice, keeps the invariant. |
| `CycleOrder.CyclesAreReachable` | pkg/applier/catchup.go:377-386 | Taking the snapshot, then the position, then draining, then the flush's reads, then its commit, with source commits, claims, passes and landings anywhere in between, reaches only states that runs of the protocol reach. |
| `CycleOrder.CyclesConverge` | pkg/applier/catchup.go:377-386 | So the shadow converges in every such run. |
| `DrainOrder.StaysDrainable` | pkg/applier/catchup.go:377-385 | What a drain will decide by what it observed stays right through any step of the source or the copier. |
| `DrainOrder.PositionFirstLoses` | pkg/applier/catchup.go:377-384 | With the position read before the snapshot it is not so: a run in which a change is dropped as uncut and the shadow ends without it, everything landed and delivered. |
| `FlushOrder.StaysCommittable` | pkg/applier/flusher.go:247-275 | What a flush has decided to write stays right to commit through any step of the source or the copier. |
| `FlushOrder.CopyCommutes` | pkg/copier/copy_chunk.go:46-80 | A pass that commits while a flush is open does what it would have done after it. |
| `CatchupSteps.DeferKeeps` | pkg/applier/flusher.go:254-275 | Requeueing a refused batch with its unmoved images filled in place keeps the invariant. |
| `CatchupSteps.FlushKeeps` | pkg/applier/flusher.go:247-275 | A committed flush keeps the invariant, whatever rows its completions read. |
| `CatchupSteps.WriteTracks` | pkg/applier/flusher.go:286-408 | What a flush writes under a landed key, or deletes, converges under the changes not delivered yet, and no image of a drained batch is refused. |
| `CatchupSteps.HeldIsRight` | pkg/applier/flusher.go:319-340 | A completion a flush reads for a moved image is its own row's value unless a change not yet delivered will drop it. |
| `Delivery.DeliverKeeps` | pkg/applier/buffer.go:73-177 | Merging any change the source can make keeps the invariant, a key move if and only if every filled column it does not carry holds the source value. |
| `Delivery.MoveKeepsTruth` | pkg/applier/buffer.go:155-171 | Delivering a key move leaves an entry that agrees with the source if and only if every column filled in place, and not carried by the move, holds the source value. |
| `Delivery.CarriedIsRight` | pkg/applier/buffer.go:155-171 | A move that carries every filled column takes no wrong value along. |
| `Delivery.NeverRefuses` | pkg/applier/buffer.go:73-89 | Under the invariant the next change is never refused. |
| `Counterexample.Diverges` | pkg/applier/flusher.go:420-440 | A run of the protocol as coded that ends with all landed, all delivered, nothing buffered, and a shadow row that is not the source's: an image filled in place by the fallback, requeued, then moved. |
| `Counterexample.RequeuedUnchanged` | pkg/applier/requeue.go:5-24 | A requeued entry is as the drain handed it out if and only if the fallback found nothing to fill in it. |
| `Counterexample.RefusalIsOutstanding` | pkg/applier/catchup.go:388-393 | In any run state with every 64-bit key landed and a source that breaks no constraint, a flush that is refused collides over a pair of rows one of which has a change buffered or not delivered yet. |
| `Counterexample.CaughtUpIsNeverRefused` | pkg/applier/catchup.go:388-393 | So with every change delivered and nothing buffered beyond what is written, it is never refused. |
| `Counterexample.LandedIsNotCaughtUp` | pkg/applier/catchup.go:388-393 | Landing alone is not enough: a reachable state with every key landed and a consistent source in which a flush is refused, although the changes that resolve it are still to be delivered. |
| `Coalescing.CoalescingPreservesMeaning` | pkg/applier/buffer.go:73-177 | For every stream a source can produce no Add refuses, and the merged entries, markers read at the key or the inherited origin, give the same table as replaying the changes one by one. |
| `Coalescing.AddStands` | pkg/applier/buffer.go:73-89 | One legal change is accepted and the buffer goes on standing for the table it leads to. |
| `Coalescing.RefusesExactly` | pkg/applier/buffer.go:73-177 | A change is refused if and only if a buffered key denies it: an insert or a move onto a row the buffered entries say is there, an update or a move of one they say is gone. A delete never is. |
| `Coalescing.RefusesMalformed` | pkg/applier/buffer.go:73-115 | An event of no known kind and an insert that leaves a column out are refused whatever is buffered. |
| `Coalescing.UpdateInPlace` | pkg/applier/buffer.go:117-143 | An update of a buffered image changes that image's columns and transaction and nothing else in the buffer: carried columns take their value, the others keep what was there. |
| `Coalescing.ReleaseLetsIn` | pkg/applier/hold.go:86-98 | A completion is taken out if and only if it was read at or below the position; then its values fill the columns its image has none for; every other completion and entry stays. |
| `Coalescing.MoveStands` | pkg/applier/buffer.go:145-171 | A key move, chained or returning, leaves an image that reads as the moved row over the starting table. |
| `Coalescing.OverlayPatches` | pkg/applier/entry.go:97-108 | Overlaying an image's columns reads as patching the row it stands for. |
| `Reuse.ReuseIsExact` | pkg/applier/buffer.go:185-192 | In every state of every run, through drains, flushes, holds, deferrals and resumes: the row of a moved image left its origin with a delivered key move and stands at the image key, and the image is marked reused if and only if another row has stood at the origin since it left. |
| `Reuse.DeliverMarks` | pkg/applier/buffer.go:73-177 | Merging any change keeps every mark exact. |
| `Reuse.MovedOnMarks` | pkg/applier/buffer.go:155-171 | A chained or returning key move inherits origin, mark and the moment of leaving. |
| `Reuse.RowsAreIdentified` | pkg/applier/buffer.go:131-144 | Every source history determines which row stands at which key after each change. |
| `Reuse.OnePlace` | pkg/applier/buffer.go:145-171 | A row stands at one key at a time. |
| `Buffer.ChangeBuffer.Add` | pkg/applier/buffer.go:73-89 | Merges an event as specified or refuses it and changes nothing; the index, the oldest position and the pending completions stay exact. |
| `Buffer.ChangeBuffer.AddInsert` | pkg/applier/buffer.go:95-108 | As specified or refused unchanged, indexes exact. |
| `Buffer.ChangeBuffer.AddUpdate` | pkg/applier/buffer.go:116-129 | As specified or refused unchanged, indexes exact. |
| `Buffer.ChangeBuffer.AddKeyMove` | pkg/applier/buffer.go:145-171 | As specified or refused unchanged, indexes exact. |
| `Buffer.ChangeBuffer.AddDelete` | pkg/applier/buffer.go:175-177 | The key holds a delete marker, indexes exact. |
| `Buffer.ChangeBuffer.MarkOldKeyReused` | pkg/applier/buffer.go:185-192 | Walking the index marks exactly the images that left the key, but the mover, and drops their completions. |
| `Buffer.ChangeBuffer.Put` | pkg/applier/buffer.go:199-212 | Replacing an entry by one that owes no later a position keeps the inverse index exact and the oldest position the true minimum. |
| `Buffer.ChangeBuffer.Remove` | pkg/applier/buffer.go:216-220 | Drops the entry and its completion, index exact. |
| `Buffer.ChangeBuffer.Unindex` | pkg/applier/buffer.go:224-233 | The index becomes exact for the entries without the key. |
| `Buffer.ChangeBuffer.TrackOldest` | pkg/applier/buffer.go:237-242 | The tracked position becomes the lower of the two. |
| `Buffer.ChangeBuffer.OldestPending` | pkg/applier/buffer.go:64-66 | The least first position of the buffered entries, or that there is none. |
| `Buffer.ChangeBuffer.Hold` | pkg/applier/hold.go:58-76 | Puts back every held image with its completion, or refuses and changes nothing exactly when a key is taken. |
| `Buffer.ChangeBuffer.Release` | pkg/applier/hold.go:86-98 | Exactly the completions read at or below the position are let in, filling markers only; counts them. |
| `Buffer.ChangeBuffer.Requeue` | pkg/applier/requeue.go:12-24 | Puts the batch back, or refuses and changes nothing exactly when a key is taken. |
| `Buffer.ChangeBuffer.Drain` | pkg/applier/drain.go:121-166 | An entry is handed over if and only if it is seen, landed and not pending, every image that left its key is seen, and the entry at the key its row left does not wait; it is dropped if and only if it is seen, uncut and not pending; everything else stays with the oldest position recomputed, and each count is that of the entries that went its way. |
| `Buffer.ChangeBuffer.constructor` | pkg/applier/buffer.go:44-50 | An empty buffer. |
| `Draining.DeferPairs` | pkg/applier/drain.go:182-206 | Ends at the least fixed point: pairs kept together, nothing held back that any other way of keeping them together lets go. |
| `Draining.DeferOnce` | pkg/applier/drain.go:193-205 | One pass either holds back more or finds every pair together. |
| `Draining.Pairs` | pkg/applier/drain.go:183-191 | Lists exactly the moved images whose old key is buffered. |
| `Draining.LeastIsUnique` | pkg/applier/drain.go:168-206 | The least deferral is unique, so the order the pairs come in does not matter. |
| `Draining.SplitIsExact` | pkg/applier/drain.go:135-159 | Flushed, discarded, deferred, held and unseen are disjoint and cover the buffer. |
| `Draining.NeverAheadOfOrigin` | pkg/applier/drain.go:208-219 | An image that is flushed leaves the entry at its old key neither in flight nor unseen: that one is flushed or discarded too, or stays behind only for a pending completion. |
| `Draining.LandedIsHeldExactly` | pkg/applier/drain.go:102-120 | A landed visible entry is held back if and only if an image that left its key is unseen, or it is itself an image whose buffered origin, other than its own key, is held back. |
| `Draining.HeldBackExactly` | pkg/applier/drain.go:182-206 | An entry is held back if and only if a chain of images that could go, each having left the key of the next, leads from it to an entry that waits on its own account: unseen, in flight, or with an unseen image that left its key. |
| `Draining.DrainExactly` | pkg/applier/drain.go:121-166 | Where each entry goes, as an if-and-only-if for each of the five ways, in terms of how keys are classified, which transactions are seen, which completions are pending and which images left which keys. |
| `Draining.UncutStays` | pkg/applier/drain.go:214-217 | An uncut key's entry is never held back by its pair. |
| `Draining.DrainIsChoice` | pkg/applier/drain.go:121-166 | What the drain does, judging keys by any classification that agrees with the phases, is one of the choices the protocol allows. |
| `CopySteps.DrainIsTaken` | pkg/copier/position.go:77-108 | Judging keys by a snapshot of the ledger read when the phases were observed, the drain takes what the protocol lets a drain take, whatever the workers have done since. |
| `Flusher.Flush.Apply` | pkg/applier/flusher.go:247-275 | Refused exactly for an image awaited in vain, or when the column-wise writes collide and an image has a marker on a column the shadow lacks; deferred exactly when they collide and the planned shadow breaks a constraint, giving the batch back filled; otherwise commits the planned shadow with exactly the rest held. |
| `Flusher.Flush.Prepare` | pkg/applier/flusher.go:252-259 | Yields exactly the plan and the held images, and is refused exactly for an image awaited in vain. |
| `Flusher.Flush.WritePlan` | pkg/applier/flusher.go:260-275 | Column by column, and whole rows exactly when that collides. |
| `Flusher.Flush.ColumnWise` | pkg/applier/flusher.go:349-385 | Collides if and only if some image, at its turn in key order after the deletes and the images before it, meets a row it may not stand beside; then the shadow is as it was, else as planned. |
| `Flusher.WriteImages` | pkg/applier/flusher.go:364-385 | The deletes and then the images in order leave the planned shadow if and only if none meets such a row. |
| `Flusher.Flush.WholeRows` | pkg/applier/flusher.go:420-462 | Succeeds if and only if the planned shadow breaks no constraint, and then leaves the same shadow as the column-wise path; fills the batch in place; is refused if and only if an image carries a marker and has no row. |
| `Flusher.WriteOne` | pkg/applier/flusher.go:393-408 | Writes the row the plan says; refused exactly when a column is missing and no row stands, collides exactly when the row may not stand. |
| `Flusher.Flush.Complete` | pkg/applier/flusher.go:423-441 | Fills every marker-bearing image from its own row in place, in the batch too. |
| `Flusher.Flush.Reinsert` | pkg/applier/flusher.go:442-461 | Delete all, insert all: succeeds if and only if the result breaks no constraint. |
| `Flusher.Flush.CompleteMoved` | pkg/applier/flusher.go:286-317 | Keeps and holds exactly what `HeldIsWhole` describes: takes out the moved images with markers, each held with the values the row that completes it has for the columns it lacks, or turned into a deletion when no row could. |
| `Flusher.Flush.HoldAbsent` | pkg/applier/absent.go:53-87 | Holds exactly the images that need their own row and lack it; refused if and only if one of them had waited before. |
| `Flusher.TwoStepsArePlan` | pkg/applier/flusher.go:252-259 | Completing the moved images and then holding the absent ones leaves exactly the plan to write and holds exactly the rest. |
| `Flusher.FilledIsWritten` | pkg/applier/flusher.go:430-440 | A filled image is whole, and inserting it leaves the row the column-wise write would. |
| `Flusher.InsertRows` | pkg/applier/flusher.go:445-461 | Inserting rows one by one collides if and only if the table with all of them breaks a constraint. |
| `Flusher.FlushIsStep` | pkg/applier/flusher.go:247-275 | What a flush of a drained batch does is the protocol's flush step, key by key. |
| `Flusher.DeferIsStep` | pkg/applier/flusher.go:254-275 | A flush deferred because what it would leave breaks a constraint is the protocol's deferral, the batch back with its unmoved images filled. |
| `Flusher.HeldIsWhole` | pkg/applier/flusher.go:286-340 | A moved image is taken out of the batch if and only if it lacks a value, and held if and only if a row can complete it; its completion then has a value for exactly the shadow columns the image has none for, each from the row at the key it left while that may be its own and else from the source's row at its key; with neither row it becomes a deletion. |
| `Flusher.ReleasedIsWritten` | pkg/applier/drain.go:77-86 | Once its completion is let in, a held image lacks no column of the shadow and every later flush writes it, whatever the shadow and the source then are; it is held again if and only if it carries a marker on a column the shadow does not hold. |
| `Flusher.AwaitedOnce` | pkg/applier/absent.go:23-90 | An unmoved image that lacks a value and finds no row waits once, as it was and without a completion: when it comes back a flush that finds the row writes it and one that does not is refused. |
| `Flusher.StrayIsOffShadow` | pkg/applier/flusher.go:428-438 | The fallback finds an image without its row exactly when the plan writes one that carries a marker on a column the shadow lacks and has no row. |
| `FlushExample.OffShadowIsRefused` | pkg/applier/flusher.go:428-438 | A batch the fallback refuses although what it would leave breaks no constraint: two rows that swap a unique value, and an update with a marker on a column the shadow lacks under a key without a row. |
| `Flusher.AllColumnsHeld` | pkg/applier/flush_sql.go:19-28 | When the shadow holds every decoded column there is no such image. |
| `Flusher.FilledIsRequeued` | pkg/applier/requeue.go:5-24 | The batch a deferred flush gives back is the handed-over one with each unmoved image filled from its own row. |
| `ColumnLists.ImageColumns.Overlay` | pkg/applier/entry.go:97-108 | The list ends as the overlaid map, names in place and new ones appended. |
| `ColumnLists.ImageColumns.Fill` | pkg/applier/entry.go:114-129 | The list ends as the filled map: markers and missing names filled, no value replaced. |
| `ColumnLists.ImageColumns.HasMarker` | pkg/applier/entry.go:86-93 | True exactly when some column is a marker. |
| `ColumnLists.ImageColumns.Split` | pkg/applier/flush_sql.go:19-28 | The present columns and, as the rest, exactly the writable names without a value. |
| `Catchup.Stream.Confirm` | pkg/decode/feedback.go:28-47 | Moves the confirmed position exactly when it does not fall and does not pass the delivered one. |
| `Catchup.Cycler.Cycle` | pkg/applier/catchup.go:344-365 | Succeeds if and only if every change handed over is accepted and the flush is neither refused nor unable to converge. Merges what is delivered, lets in the completions passed, drains and settles a batch against the shadow as the copier left it; the confirmed position never falls, passes neither the delivered position nor any buffered first position, and is as high as those allow. |
| `Catchup.Cycler.Proceed` | pkg/applier/catchup.go:350-365 | The part after the deliveries: release, drain, flush and confirm, with the same guarantees. |
| `Emptying.TwoCyclesEmpty` | pkg/applier/catchup.go:344-407 | After a cycle that commits with every buffered key landed and seen, nothing pending, a row for every unmoved image that lacks a value and markers only on columns the shadow holds, the next one with nothing delivered between hands over all that was held and is never refused; it empties the buffer unless the rows it would leave break a constraint. |
| `Emptying.FirstLeavesReady` | pkg/applier/hold.go:58-98 | What such a cycle leaves is exactly images that, once let in, wait for nothing and are written by any flush. |
| `Emptying.DrainsAll` | pkg/applier/drain.go:121-166 | With every buffered key landed and seen and nothing pending the drain hands over the whole buffer. |
| `HeldExample.HeldRowBlocks` | pkg/applier/catchup.go:388-393 | A stream over a source that breaks no constraint at any point, all of it delivered over a shadow that is the copied start, whose flush is deferred: the held image leaves the old row at its key in the way of an inserted one. |
| `Catchup.Cycler.ApplyBatch` | pkg/applier/catchup.go:372-407 | A paused cycle changes nothing. Otherwise the flush is refused if and only if an image was awaited in vain or the writes clash and a marker has no row; it ends the catch-up if and only if it is deferred with every key landed, and is put back if and only if it is deferred before; else it is written. The buffer ends with the rest and the held images, the rest and the batch filled, or the rest; putting back is never refused. |
| `Catchup.Cycler.Gather` | pkg/applier/catchup.go:471-491 | Merges every delivered change in order, or stops at exactly the first that is refused, and keeps every buffered first position at or above the confirmed one. |
| `Catchup.InKeyOrder` | pkg/applier/drain.go:160-165 | The keys of a batch, ascending, each once. |
| `Catchup.Cycler.Confirm` | pkg/applier/catchup.go:497-516 | Never refused by the stream, and the highest position every buffered entry allows is confirmed. |
| `Catchup.AddKeeps` | pkg/applier/buffer.go:247-254 | No event leaves an entry that owes the stream a position below all that were owed before and the event's own. |
| `Snapshots.LiftIsExact` | pkg/applier/snapshot.go:124-139 | Away from the largest 64-bit ids, widening recovers an id if and only if it lies within half an epoch of xmax. |
| `Snapshots.VisibleIsExact` | pkg/applier/snapshot.go:99-122 | Within half an epoch a 32-bit id is visible if and only if the snapshot stands for everything or was read and shows the 64-bit id. |
| `Snapshots.VisibleIsKept` | pkg/applier/snapshot.go:20-24 | What one snapshot shows visible every later one does. |
| `Copying.StartAfter` | pkg/copier/chunker.go:180-189 | The first key above a frontier: exactly the keys from it on are not reached. |
| `Copying.BinarySearch` | pkg/copier/position.go:101-104 | Finds a key in an ascending list if and only if it is there. |
| `Copying.ClassifyKey` | pkg/copier/position.go:77-108 | The search through chunks and pending lists answers as specified, on lists that ascend. |
| `Copying.ClassifyInChunk` | pkg/copier/position.go:94-108 | Inside a chunk in flight, exactly the keys of its pending list are in flight. |
| `Copying.DefaultsFit` | pkg/copier/chunker.go:66-120 | Exactly when the options given agree with each other do the completed ones pass validation. |
| `Ledger.Chunker.Next` | pkg/copier/chunker.go:224-264 | Returns the next consecutive chunk, ends after the largest key, and refuses a boundary below its lower bound without moving. |
| `Ledger.Chunker.Cut` | pkg/copier/chunker.go:204-214 | The cut frontier is the end of the last chunk returned. |
| `Ledger.DoneCovers` | pkg/copier/chunker.go:216-242 | A chunker that is done has covered every key above its resume point in exactly one chunk. |
| `Ledger.Tiles` | pkg/copier/ledger.go:119-138 | Consecutive chunks hold every key between their ends exactly once. |
| `Ledger.ClaimIsExact` | pkg/copier/ledger.go:57-78 | A claim at the frontier keeps the ledger exact: tiling, counts, order. |
| `Ledger.SettleIsExact` | pkg/copier/ledger.go:88-98 | A settle replaces what the chunk was counted with and moves nothing. |
| `Ledger.LandIsExact` | pkg/copier/ledger.go:106-138 | A land keeps the ledger exact, counts the chunk's total once and passes everything that now follows on. |
| `Ledger.AdvanceIsExact` | pkg/copier/ledger.go:122-138 | Advancing stops exactly at the first chunk still in flight. |
| `Ledger.ClassifyIsExact` | pkg/copier/position.go:77-108 | A key reads uncut if and only if the cut frontier has not reached it, in flight if and only if a claimed chunk still owes it, and landed otherwise. |
| `Ledger.BetweenIsTiled` | pkg/copier/ledger.go:8-14 | Every key between the watermark and the cut frontier lies in exactly one chunk in flight or waiting. |
| `Ledger.SnapshotAscends` | pkg/copier/ledger.go:143-156 | The pending lists of a snapshot ascend, so they can be searched. |
| `Ledger.SnapshotIsRight` | pkg/copier/ledger.go:143-156 | Every key the snapshot's watermark reaches reads landed from the same snapshot, the key just above it lies in a chunk in flight unless nothing is cut above it, and the row count is the sum over the chunks ever claimed of what each is credited with. |
| `Ledger.Located` | pkg/copier/ledger.go:24-31 | A chunk is in flight or waiting exactly when it was claimed above the watermark, never both and never twice. |
| `Ledger.WatermarkIsHighest` | pkg/copier/ledger.go:119-138 | While anything is cut above the watermark the chunk just above it is in flight; with nothing in flight the two frontiers meet. |
| `Ledger.WatermarkIsLanded` | pkg/copier/position.go:45-49 | Every key at or below the watermark reads as landed. |
| `Copier.Book.Claim` | pkg/copier/ledger.go:57-65 | Claims at the frontier and nowhere else. |
| `Copier.Book.Settle` | pkg/copier/ledger.go:88-98 | Records the total and the pending keys of a chunk in flight, and nothing otherwise. |
| `Copier.Book.Land` | pkg/copier/ledger.go:106-117 | Lands a chunk in flight and advances, and does nothing otherwise. |
| `Copier.Book.Forward` | pkg/copier/ledger.go:122-138 | The loop passes exactly the waiting chunks contiguous with the watermark. |
| `Copier.Book.Position` | pkg/copier/ledger.go:143-156 | The snapshot is that of the ledger as it stands: watermark, cut frontier, chunks in flight, row count, and the pending keys in the order of the chunks in flight, each list ascending if the recorded ones do. |
| `Copier.Book.constructor` | pkg/copier/ledger.go:46-50 | The ledger after a resume watermark. |
| `Copier.LedgerHolds` | pkg/copier/ledger.go:8-50 | After any sequence of claims, settles and lands, refused or not, the ledger is exact. |
| `Copier.NeverBack` | pkg/copier/position.go:66-92 | Over any run whose settles shrink, a key only goes from uncut to in flight to landed. |
| `Workers.WorkersNeverBack` | pkg/copier/position.go:66-92 | Over any interleaving of any number of workers a key only goes from uncut to in flight to landed; that settles shrink is proved of the passes. |
| `Workers.RowsAreInserted` | pkg/copier/ledger.go:80-117 | Over any interleaving the row count of a snapshot is the sum over every chunk ever claimed of what its committed passes inserted, each once: all of a landed chunk, and of one in flight all but a last pass that is not recorded yet. |
| `Workers.AnyInterleaving` | pkg/copier/copier.go:391-457 | Whatever the workers do and in whatever order, the ledger is exact and holds of every chunk what its worker has done. |
| `Workers.PerformKeeps` | pkg/copier/copier.go:391-457 | One action by any worker keeps that. |
| `Workers.PassNarrows` | pkg/copier/copy_pending.go:35-54 | Every settle a worker makes owes no key the last one did not. |
| `CopySteps.ClaimIsStep` | pkg/copier/ledger.go:57-78 | A claim the ledger accepts is the protocol step that claims exactly those keys, and the ledger goes on standing where the protocol does. |
| `CopySteps.SettleIsStep` | pkg/copier/ledger.go:80-98 | Recording a pass is the protocol step that lands exactly the keys it copied. |
| `CopySteps.LandIsStep` | pkg/copier/ledger.go:106-117 | Landing a chunk is the protocol step that lands every key of it still in flight. |
| `CopySteps.ResumeIsStep` | pkg/copier/resume.go:41-74 | Resuming from a watermark at or below that of a snapshot of the ledger, with the shadow cleared above it, is a restart of the protocol, and the new ledger stands where the protocol then does. |
| `Copier.ClaimMovesForward` | pkg/copier/ledger.go:57-65 | A claim turns its chunk's keys from uncut to in flight and touches no other. |
| `Copier.SettleMovesForward` | pkg/copier/ledger.go:80-98 | A settle lands exactly the chunk's keys not pending and touches no other. |
| `Copier.LandMovesForward` | pkg/copier/ledger.go:106-117 | A land lands all the chunk's keys and touches no other. |
| `Copier.StillInFlight` | pkg/copier/copier.go:436-457 | Whatever else lands, a worker's chunk is still in flight with what it recorded. |
| `Passes.CopyRun.Claim` | pkg/copier/copier.go:420-434 | A claim is refused as breaking the frontier only after an earlier cut's transaction was lost; otherwise the chunk cut is registered in flight. |
| `Passes.CopyRun.CopyUntilClear` | pkg/copier/retry.go:114-125 | At most the allowed passes are made; success is exactly nothing left owed; it ends early if and only if the last answer is one no pass retries, and else outlasts the passes; the total is what the committed passes inserted; the ledger records what is owed, and the collisions counted are the passes that had to be repeated. |
| `Passes.CopyRun.CopyAround` | pkg/copier/retry.go:144-184 | The same for the passes around held-off rows. |
| `Passes.CopyRun.PassAround` | pkg/copier/retry.go:157-182 | One pass: a deadlock changes nothing, a committed pass settles the chunk with what it left out. |
| `Passes.CopyRun.Conclude` | pkg/copier/retry.go:149-184 | What the passes come to: copied, ended, outlasted, or the strict insert rerun while passes are left. |
| `Passes.CopyRun.RerunWhole` | pkg/copier/retry.go:195-212 | The same for rerunning the strict insert, which settles nothing. |
| `Passes.CopyRun.Work` | pkg/copier/copier.go:391-412 | A chunk that lands has every key landed and the rows counted grown by what its passes inserted; one that does not stays in flight as recorded. |
| `Passes.CopyRun.Finish` | pkg/copier/copier.go:363-381 | Clean if and only if nothing is in flight and every key reads landed; with the chunker done, no cut lost and nothing in flight it always is. |
| `Passes.TotalIsInserted` | pkg/copier/retry.go:173-183 | The total equals the sum of the committed passes' inserts. |
| `Passes.Earns` | pkg/copier/retry.go:114-212 | An answer ends the copy if and only if it is an error of another kind, a shadow that cannot be copied around at the strict insert or after rows were left out, or a collision of a pass that leaves colliding rows out; it completes the chunk if and only if it committed and left nothing out; every deadlock and every collision of a strict insert earns another pass. |
| `Passes.PassesAddUp` | pkg/copier/retry.go:114-212 | Every pass over a chunk is repeated, or the last, or the single one that turned back to the strict insert, and only those repeated are counted. |
| `Passes.OwedAfter` | pkg/copier/retry.go:127-143 | What a chunk owes is exactly the keys every committed pass left out. |
| `Passes.OwedNarrows` | pkg/copier/copy_pending.go:35-54 | A later pass can only take keys off the pending list. |
| `Passes.OwedAscends` | pkg/copier/copy_pending.go:35-54 | The keys a chunk owes ascend when the rows its first committed pass read do. |
| `Passes.ReadsAsCommitted` | pkg/copier/position.go:61-75 | Until its chunk lands a key reads as landed if and only if some committed pass got it in. |
| `Passes.AtFrontier` | pkg/copier/copier.go:414-433 | The next chunk cut starts at the ledger's frontier if and only if the ledger holds every chunk cut before it. |
| `Resuming.ClearAbove` | pkg/copier/resume.go:56-74 | Ends with exactly the rows the watermark reaches, untouched. |
| `Resuming.ClearBatch` | pkg/copier/resume.go:80-102 | Removes up to the limit, and fewer only when none is left. |
| `Checksum.Sweep` | pkg/checksum/verifier.go:326-360 | Ends, compares ranges that tile every key through the watermark, lists exactly the differing ones, and never runs out of chunks first. |
| `Checksum.SweptOnce` | pkg/checksum/verifier.go:412-452 | A key lies in a compared range if and only if it is at or below the watermark, and in one only. |
| `Checksum.SweepFindsAll` | pkg/checksum/verifier.go:326-360 | Over tables that stand still, every difference through the watermark lies in a range found differing. |
| `Checksum.Settle` | pkg/checksum/settle.go:71-95 | Makes rereads, each after its predecessor was confirmed and only while the chunk is hot, up to the attempts left and one in any case; ends judged by the last two reads, still hot with all of them made, or lagging at the first position not reached. |
| `Checksum.ResolvesOneWay` | pkg/checksum/settle.go:71-95 | For given reads there is one way a settle can end, and one number of rereads it makes. |
| `Checksum.HotIsMoving` | pkg/checksum/settle.go:43-62 | A reread leaves a chunk open if and only if its sides differ and one has moved since the read before, the shadow not to where the source was; it is clean if and only if the shadow is where the source is or was. |
| `Checksum.StillIsClean` | pkg/checksum/settle.go:25-41 | When the source stands still from the first read and the shadow, following it, is confirmed past that read, the first reread is clean. |
| `Checksum.CleanEndsSettle` | pkg/checksum/settle.go:71-95 | A chunk whose first reread is clean is settled by it. |
| `Checksum.AwaitConfirmed` | pkg/checksum/settle.go:102-119 | Succeeds if and only if the position is reached within the polls, at the first such poll. |
| `Checksum.NeverDiverged` | pkg/checksum/settle.go:25-62 | A shadow that follows the source, confirmed past each earlier read, is never found diverged unless the chunk alternates between two states. |
| `Checksum.DivergedExactly` | pkg/checksum/settle.go:48-62 | Some reads of a shadow that follows the chunk are judged diverged if and only if the chunk alternates: one state, another, the one again, the other again. |
| `Checksum.SwingIsFound` | pkg/checksum/settle.go:48-62 | Every alternating chunk has reads at those four states that are judged diverged. |
| `Checksum.NonRecurringIsSafe` | pkg/checksum/settle.go:25-41 | A chunk whose states do not recur does not alternate. |
| `Checksum.ComingBackIsSafe` | pkg/checksum/settle.go:25-41 | One that recurs need not: coming back for good is safe. |
| `Checksum.SettledIsSeen` | pkg/checksum/settle.go:25-41 | Equal or settled means the shadow was found in a state the source was read in during the pass. |
| `Recopying.Recopy` | pkg/checksum/repair.go:88-137 | Commits if and only if the result breaks no constraint; a collision leaves the shadow alone. |
| `Recopying.RecopyIsSource` | pkg/checksum/repair.go:76-87 | The recopy leaves the source if and only if the chunks cover every difference, and then does not collide with a consistent source. |
| `Checking.RecopyUntilClear` | pkg/checksum/recopy_retry.go:40-89 | At most the allowed recopies, every one before the last collided and changed nothing; a later comparison that finds nothing mints the proof; otherwise the shadow is as the one committed recopy leaves it or as it began. |
| `Checking.Check` | pkg/checksum/check.go:95-147 | Over a source that may move between comparisons: the outcome is clean if and only if the last comparison made found nothing, and then mints the proof, the full one only for a complete watermark; each error is given exactly for its cause; a committed recopy replaces exactly what the last comparison found, and makes the tables agree when they stood still; an abort changes nothing. |
| `Checking.Compare` | pkg/checksum/verifier.go:326-360 | Yields exactly the ranges that differ, tiling every key through the watermark. |
| `Checking.RereadAll` | pkg/checksum/repair.go:46-50 | Succeeds if and only if every repaired chunk reads equal. |
| `Checking.RepairTakes` | pkg/checksum/repair.go:28-50 | While the source stands still every recopied chunk does. |
| `Checking.CheckLive` | pkg/checksum/live.go:259-307 | Clean if and only if every range was equal or came clean on the last of the rereads made of it, as all do that come clean with their first; the divergence error is given if and only if the policy aborts and some range diverged; a pass that repairs recopies exactly the ranges that diverged, mints no proof, and ends without an error only when every one of them took. |
| `Checking.SettleAll` | pkg/checksum/live.go:316-352 | Each differing chunk is counted once as settled, unsettled or diverged on the rereads made of it, within the attempts: the diverged are listed, all and no other, and all count as settled if and only if each came clean. |
| `Checking.SettleRepair` | pkg/checksum/live_repair.go:95-127 | A repaired chunk took if and only if its first read found it equal or the last of the rereads came clean, and is still diverged if and only if the first differed and the last was judged so. |
| `Checking.SettleRepairs` | pkg/checksum/live_repair.go:29-35 | All took if and only if each did; otherwise the answer is that of the first that did not, and none after it is read. |
| `Checking.RepairLive` | pkg/checksum/live_repair.go:25-95 | Recopies all the diverged chunks and no other in one transaction, if and only if that breaks no constraint; ends without an error if and only if every one took and nothing was left unsettled, and as a failed repair if and only if the recopy collides or a chunk is still diverged; never mints a proof. |
| `Checking.RecopiedAgree` | pkg/checksum/repair.go:35-55 | Recopying what a sweep found makes source and shadow agree through the watermark. |
| `Checking.AgreeingIsEqual` | pkg/checksum/check.go:137-147 | Agreeing through the largest key is being the same table. |
| `Checkpoints.CheckpointStore.Save` | pkg/checkpoint/store.go:144-239 | Accepted exactly when no row stands or the guard admits it; a refusal leaves the row and always has a reason. |
| `Checkpoints.CheckpointStore.Load` | pkg/checkpoint/load.go:39-61 | Returns the row exactly when its identity is the wanted one and its phase is known. |
| `Checkpoints.CheckpointStore.Delete` | pkg/checkpoint/store.go:247-303 | Removes exactly the row with the identity shown; the unexplained failure is unreachable. |
| `Checkpoints.WrittenOnce` | pkg/checkpoint/store.go:124-168 | Over any sequence of operations without a matching delete, a target keeps its row, its identity, and a proof and a statement once written. |
| `Checkpoints.LoadsTheLastSave` | pkg/checkpoint/load.go:212-244 | Over any sequence of operations a target has a row if and only if the last operation to change it was an accepted save, and what is loaded is then that save. |
| `Checkpoints.KeepsTheLast` | pkg/checkpoint/store.go:124-168 | A row holds a proof, or a statement, if and only if a save since the row was made carried one, and it is the one the last such save carried. |
| `Checkpoints.RefusalHasReason` | pkg/checkpoint/store.go:208-233 | The diagnosis covers every clause of the guard. |
| `Checkpoints.DiagnosisIsRight` | pkg/checkpoint/shadow_proof.go:79-143 | A blamed proof is the guard's own reason if and only if it also differs by value; a blamed statement always is. |
| `Checkpoints.MismatchIsRight` | pkg/checkpoint/load.go:182-205 | The field named is the first of format, source and target that the row differs on, or an unknown phase; one is named if and only if there is one. |
| `Checkpoints.SavesWhatLoads` | pkg/checkpoint/store.go:124-168 | A row takes a save if and only if a load for the same run would give it back and neither its proof, by value, nor its statement would be replaced; what is then stored loads again. |
| `Checkpoints.BlamesTheProof` | pkg/checkpoint/shadow_proof.go:97-143 | A refusal over the statement that is blamed on a proof the server holds equal: one number written two ways. |
| `Checkpoints.LiteralIsValue` | pkg/checkpoint/shadow_proof.go:115-143 | Proofs the program holds equal the server holds equal. |
| `Checkpoints.SameIsTransitive` | pkg/checkpoint/shadow_proof.go:115-143 | The server's equality of proofs is transitive. |
| `Checkpoints.SameIsMeaning` | pkg/checkpoint/shadow_proof.go:105-143 | Two documents are the same, by literal or by value, if and only if they mean the same with objects as maps: the order of fields does not matter and everything else does. |
| `Checkpoints.ParsePhase` | pkg/checkpoint/checkpoint.go:55-85 | Reads back exactly the phase whose name it is given. |

## Left out

- Convergence.Converges: of the runs in which no key move takes a wrong filled value along, because of others it is false; see above.
- Conversions and the shadow's form of a value: a completion is kept as the value it reads; which rendering it is in is not modelled.
- Stragglers: a chunk transaction or flush of an earlier run that commits after a resume began clearing is taken to be fenced.
- Copier.NeverBack: takes it that settles shrink; `Workers.WorkersNeverBack` proves it of the passes.
- Passes.CopyRun.CopyUntilClear: runs the passes of a chunk with no other worker between them, as one worker sees them; `Workers` and `WholeRun` state the total, the record and the shadow for any interleaving.
- Passes.CopyRun.CopyAround: likewise.
- Passes.CopyRun.Work: likewise.
- Catchup.Cycler.Cycle: the copier's writes are in `found`, the shadow the flush begins with; `CycleSteps.CycleIsRun` and `CycleOrder` say where they may fall.
- CycleOrder.CyclesAreReachable: all reads of one flush are made at one moment; the code makes each with a position of its own.
- Checking.CheckLive: the fenced recopy and the rereads are given as answers; that flushes are held off during it is taken.
- Row counts of reports and repairs, the counters of a flush's result, the oldest position of a batch on its own, progress counters, status and lag.
- Chunk sizing by feedback (`nextRows`, `Feedback`): floating point over elapsed time, and no property above depends on a chunk's size.
- `parseSnapshot` and the texts of positions, phases of older formats, `containsNUL`, `retryTransient`: parsing, validation and a bounded retry.
- Options other than the chunker's, error texts and wrapping, contexts, timeouts and cancellation.
- The table lock: taken to be held throughout; losing it ends a run, which is a resume here.
- SQL text, sessions, roles, catalog checks, slots and publications, the swap itself, and orphan reaping.
