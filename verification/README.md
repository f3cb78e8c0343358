# Verified model of the import service

This project models the import-job core of the service in Dafny and proves what its design rests on:
the job table as a protocol between users, workers and a cleaner that may interleave in any way; the
streaming pipeline from an uploaded file over validation to the normalized file and back to the
provider; and the provider session that replays batches over an unreliable stream. The dataset
catalog and the connection cache of the provider client are modelled as well.

`dafny verify dfyconfig.toml` checks everything (Dafny 4.11).

## How the model is built

**The protocol (values).** `Jobs` holds one row of the job table and every conditional UPDATE as a
function that yields the row left behind, or nothing when the WHERE clause does not match. `Protocol`
is the shared state (rows, outbox, normalized files, claims of workers, the messages ever sent to the
provider and those that have arrived, and a record of the past) with one step per committed transaction,
storage access, message sent, message arrived and answer. A *run* is any sequence of steps by any actors:
events may be delivered again at any time, every message ever sent may arrive at any time and any number
of times, and a worker whose job has been canceled goes on until it stops by itself. `Histories` proves
facts about the life of one job, `Runs` lifts them to all runs, `EndToEnd` links the validated rows to the
rows sent to be applied, `Effects` says what runs leave with the provider, and `Attempts` what that is
when attempts are kept apart. `Scenarios` has the building blocks of concrete runs, from which
`StaleFinish`, `ReusedKeys` and `StaleExpiry` build the runs that show which assumptions the promises need.

**The operations (imperative).** `Worlds`, `Transactions`, `Services`, `Workers` and `Cleaners` are the
repository, the transactor, the user operations, the worker and its event handler, and the sweeps as
classes that change the world in place. Before every access, `World.Others` lets anybody else take any
steps. Every statement, commit, storage access and provider call may fail, commits may succeed and be
reported as failed, and a worker may stop half-way. Each of these methods keeps the invariant
that the world is exactly where the protocol is after the steps on its ghost trace (`World.Valid`), so
every theorem about runs holds of every execution of the operations, whatever was done to the job or
sent to the provider before or meanwhile; and an operation that reports success has made its own step the
last one (`Services.Made`).
`Hiding` keeps big definitions folded where only their name matters; it says nothing about the service.

**The pipeline (imperative).** `Readers` (the limiting reader and the line scanner), `Outputs` (the
bounded writer and the buffered error report), `Parser` (`StreamRows` with its emit callback, CSV and
JSON Lines), `Consumers` (the two callbacks of the worker), `Sessions` (the replaying session), `Remotes`
(the provider in the shared world, as the worker of one claim sees it) and `Pipelines` (both phases as a
whole) are classes and loops like the original's. They are proved against `Lines`, `Files`, `Batching`,
`Tallies`, `Providers` and `Deliveries`, which say what a file contains, how rows are cut into batches, what
answers add up to and what deliveries leave behind, without any reading or writing. `SameOutcome` compares
validations with different batch sizes.

Reads may be short in every possible way or return nothing at all (a buffered reader gives up after 100 or
101 such reads in a row, as in the original's libraries), scanners and CSV readers read ahead by any
amount, and buffers empty at any time. While a worker streams, everybody else goes on, with the rows as
well as with the provider.

JSON, CSV, the checksum, trimming and letter case are functions of a `Codec`. What is asked of them is
stated in `Files.Lawful`: an encoded row is one line, not blank, and decodes to that row.

## Main results

- **The provider in every run.** With any number of attempts, surviving workers and late or repeated
  messages, the provider never has two effects under one key, every effect is a batch some worker of the
  job has sent, every answered batch has its effect, and the effects of a job are those of batches
  1, 2, ..., n in this order (`Effects.OneEffectPerKey`, `Effects.EffectsAreSent`,
  `Effects.AnsweredIsUsed`, `Effects.EffectsAreInOrder`).
- **When an apply puts its file in place.** From the moment a worker has loaded its file: it ends up with
  every batch in its place in every run in which nobody else sends for the job meanwhile, **if and only if**
  every key already used was used for the same rows and everything under way under an unused key carries
  the same rows (`Effects.HoldsInEveryRun`). It ends up with its batches and nothing else **if and only
  if** every effect the job has is one of these batches, and so is everything under way under an unused key
  (`Effects.ExactlyInEveryRun`). Whatever others send meanwhile, the same conditions over all that was ever
  sent are enough (`Effects.HoldsDespiteOthers`), and `Workers.Worker.Apply` ends with them.
- **Exactly once, end to end.** When workers store, send and finish only within the attempt they have
  claimed, and a job is retried only if none of its workers has sent anything, the provider holds for a job
  that succeeded the rows its own attempt validated, each batch once, in order, and nothing else
  (`Attempts.SucceededHoldsExactly`, `Workers.SucceededInWorld`); in every other state of such a run the
  job's effects are the batches its worker has sent, or all but the last (`Attempts.EffectsInStep`). The
  same holds of an apply whose batches are all that was ever sent for the job, for example by attempts with
  the same file (`Workers.Worker.AppliedExactlyOnce`, `Attempts.SucceededWasAnswered`).
- **What is sent is what was validated.** In every run in which each store or finish of a worker happens
  within the attempt it has claimed, a job that succeeded has applied = valid = total, and the rows sent
  are, one by one, those of its own validation (`EndToEnd.SucceededSentAll`). A worker can tell by its
  version (`EndToEnd.OwnVersionIsCurrent`), and runs in which no worker survives a retry are of this kind
  (`EndToEnd.NoSurvivorIsTimely`, `EndToEnd.NoSurvivorSentAll`).
- **Row-only safety in all runs**: counters, confirmation keys, bounded lifetime, outbox accounting,
  absorbed deliveries, unique idempotency keys, cancel wins, expired is final, purged rows never return.
- **Batching.** `StreamRows` calls back with the cutting of the file's rows into batches, or with the first
  of them and an error that is the file's own fault, the provider's or the context's; the row limit, the
  byte limit and the checksum are blamed on a file only if it breaks them, and an error blamed on the
  outputs or on an answer is the fault of the provider's answers (`Parser.StreamRows`,
  `Pipelines.JudgeFile`).
- **Batch size does not matter.** Two validations of a file by a provider that judges row by row, with
  whatever batch sizes and limits, have the same counters, normalized file and error report
  (`Pipelines.SameResult`, over the requests and responses of the two sessions). If one is accepted, the
  other with the same limits is refused only for something around it: the provider's connection, the context
  or storage, or a last line without end of 16 MiB or more, which fits the buffer or not depending on how it
  is read (`SameOutcome.SucceedsTogether`). And **limits agree** between the phases.

## Where the code does not keep a promise

Each of these is a property that fails for some input; the project shows such an input and proves when
the property holds.

- Idempotency keys are `job:batch` and do not contain the attempt, so the provider may take a batch of a
  later attempt for a duplicate, and the job succeeds with applied = valid = total while the provider holds
  old rows. The old batch may have been applied before the retry (`ReusedKeys.SucceededWithOldRows`); its
  message may still be under way, when the provider knows no key of the job yet
  (`ReusedKeys.SucceededAfterLateMessage`); or a worker whose apply was canceled may send it later
  (`ReusedKeys.SucceededDespiteSurvivor`). An earlier, longer file may also leave its tail behind
  (`ReusedKeys.TailRemains`). The exact conditions are those of the second main result.
- `FinishValidation`, `FinishApply` and `Fail` compare the status and not the version. A worker that
  survives cancel and retry can finish a later attempt, and a job can succeed with a valid row that was
  never applied (`StaleFinish.SucceededWithoutApplying`). The row about to be changed belongs to the
  attempt of the claim if and only if its version is still the one the claim created
  (`Runs.OwnershipIsVersion`), which is the comparison the statements leave out. Adding it to the
  statements alone is not enough, because the survivor can still overwrite the normalized file
  (`StaleFinish.FinishChecksAreNotEnough`).
- `Expire` compares the status and not the version, too. A row that is listed, canceled, retried and back
  in the listed status is expired before it is due (`StaleExpiry.ExpiredEarly`). The row about to be
  expired is the listed one if and only if its version is the listed one (`Runs.ExpiresTheListed`).
- The start of a catalog page is a 32-bit product. A page is right if and only if the product does not
  wrap, or wraps from beyond the list to beyond the list (`Catalog.PageIsRight`); page 2147483647 with
  size 100 has a negative start and fails at run time (`Catalog.FarPageFails`). The same product is the
  offset of the job list.
- `Apply` reads lines of less than 16 MiB, and `Validate` writes lines of any length. A file can be accepted
  and its normalized file refused (`LongRows.ValidationAccepts`, `LongRows.ApplyRefuses`). Without a
  failure of the provider, the context or storage, a normalized file is read back if and only if every
  encoding is shorter than that (`Pipelines.ReadBackExactly`).
- The retry delay is a shift that may leave 64 bits. Delays never shrink if and only if the largest shift
  fits (`Sessions.DelaysGrow`); with a first backoff of 2^60 nanoseconds, which the check of the
  configuration accepts (internal/config/config.go:763), the fourth delay is shorter than the third
  (`Sessions.DelaysMayShrink`). That check also keeps backoffs positive.
- The rotation over candidates is a 64-bit counter modulo their number. A full turn picks each of them
  once if and only if the counter does not wrap within the turn, or 2^64 is a multiple of that number
  (`Connections.RotationIsFair`, `Connections.Provider.Turn`); three candidates and a counter about to wrap
  are not served fairly (`Connections.UnfairTurn`).

## Model

| member | source | states |
|---|---|---|
| Protocol.NextKeeps | internal/importjob/repository.go:97-171 | every step of every actor keeps lawful histories, one event per announced change, recorded claims and unique keys |
| Protocol.RunKeeps | internal/importjob/repository.go:97-189 | the same over whole runs, in any interleaving |
| Protocol.CommitKeeps | internal/database/transaction.go:17-35 | a committed row change with its event, whatever it is, keeps the invariant as long as it is admissible |
| Protocol.RequestKeeps | internal/importjob/service.go:118-249 | the user statements and the expiry statement lead from lawful rows to lawful rows |
| Protocol.WorkerStepKeeps | internal/importjob/worker.go:138-217 | storing, loading, sending, being answered, finishing, failing and giving up keep the invariant |
| Protocol.TakeClaimKeeps | internal/importjob/repository.go:148-159 | a claim is recorded with the version it created, and versions of claims of one job increase |
| Histories.VersionIsPosition | internal/importjob/repository.go:97-171 | the version of a row is the number of changes committed to it |
| Histories.RankFalls | internal/importjob/repository.go:97-171 | within an attempt every change moves the status strictly towards its end |
| Histories.OncePerAttempt | internal/importjob/repository.go:97-171 | an attempt visits each status at most once and holds each kind of change at most once |
| Histories.BoundedLifetime | internal/importjob/repository.go:97-171 | version + rank is at most 9 + 8 per retry |
| Histories.EveryRowSound | internal/importjob/repository.go:107-141 | what counters and confirmation key are in each status |
| Histories.AnnouncedVersions | internal/importjob/service.go:285-291 | announced changes are version - 1 - claims |
| Histories.ClaimsAreRequested | internal/app/import_eventbus.go:110-126 | claims are paid for by completed uploads and by confirmations, one open request being one claim not yet taken |
| Histories.CancelWins | internal/importjob/repository.go:102-105 | after a cancel nothing follows before the next retry but one expiry |
| Histories.ExpiredIsFinal | internal/importjob/repository.go:168-171 | nothing follows an expiry |
| Histories.ConfirmationSticks | internal/importjob/repository.go:112-123 | a confirmation key stays until the next retry |
| Histories.IdempotencyKeySticks | internal/importjob/repository.go:107-110 | an idempotency key stays until the next retry |
| Runs.RowsAreSound | internal/importjob/worker.go:149-157 | total = valid + invalid in every reachable row; ready, apply_queued, applying and succeeded rows have no invalid rows; the confirmation key is set exactly where it must be |
| Runs.LifetimeIsBounded | internal/importjob/repository.go:97-171 | the lifetime bound in every reachable state |
| Runs.OutboxAccounts | internal/importjob/service.go:140-146 | events of a job = version - 1 - claims in every reachable state |
| Runs.EventsAreSnapshots | internal/importjob/service.go:285-291 | each event carries the row its own change left behind |
| Runs.EventsAreOrdered | internal/importjob/repository.go:191-194 | events of a job are written in strict version order |
| Runs.DeliveriesAreAbsorbed | internal/app/import_eventbus.go:110-126 | validation claims never exceed completed uploads, apply claims never exceed confirmations, however often events are delivered |
| Runs.OneClaimPerAttempt | internal/importjob/repository.go:125-159 | two claims of one kind on a job are separated by a retry |
| Runs.KeysAreUnique | migrations/postgres/000005_application_scope.up.sql:7 | (tenant, application, idempotency key) is unique in every reachable table |
| Runs.RowAndEventTogether | internal/database/transaction.go:17-35 | a step changes nothing of rows, outbox and record, or one row by one version with its event if it is announced, or is a purge |
| Runs.OnlyPurgeRemoves | internal/importjob/repository.go:179-189 | a row disappears only by a purge of an expired row at the listed version and older than the cutoff |
| Runs.SameStatusSameRow | internal/importjob/repository.go:97-171 | seeing the same status twice within an attempt is seeing the same row |
| Runs.CancelHolds | internal/importjob/repository.go:102-110 | at any later time of the attempt a canceled row is unchanged or expired one version later |
| Runs.ExpiredHolds | internal/importjob/repository.go:168-189 | an expired row is the same at any later time, as long as it exists |
| Runs.GoneHolds | internal/importjob/repository.go:179-189 | a purged job never comes back |
| Runs.ConfirmRepeats | internal/importjob/repository.go:112-123 | confirming again with the same key within the attempt changes nothing, at any later time and with any version |
| Runs.CreateRepeats | internal/importjob/repository.go:43-63 | creating again with the same key adds no row, and the key is held by the first job alone |
| Runs.OwnershipIsVersion | internal/importjob/repository.go:129-146 | a row in the status a finish statement asks for belongs to the attempt of the claim if and only if its version is the claim's |
| Runs.ExpiresTheListed | internal/importjob/repository.go:168-171 | a row found by the expiry is the one listed earlier if and only if its version is the listed one |
| StaleExpiry.ExpiredEarly | internal/importjob/repository.go:161-171 | a reachable table, a row listed as due, and a later table in which the expiry ends that job before it is due |
| EndToEnd.NextLinks | internal/importjob/worker.go:138-217 | objects, claims and histories stay linked in every step in which a worker that stores or finishes is within its attempt |
| EndToEnd.TimelyRunsLink | internal/importjob/worker.go:138-217 | the same over whole runs |
| EndToEnd.SucceededSentAll | internal/importjob/worker.go:189-206 | succeeded implies applied = valid = total, and the rows sent are those of the validation three changes before |
| EndToEnd.OwnVersionIsCurrent | internal/importjob/repository.go:148-159 | a worker whose job still has the version of its claim is within its attempt |
| EndToEnd.NoSurvivorIsTimely | internal/importjob/service.go:192-227 | runs in which no worker survives a retry are runs in which workers keep to their attempts |
| EndToEnd.NoSurvivorSentAll | internal/importjob/service.go:192-227 | the end-to-end theorem for these runs |
| Effects.NetKeeps | internal/importjob/provider_grpc.go:286-331 | a claim has sent the first batches of its file, all but the last are answered, what is answered has arrived, and what arrives was sent by a claim |
| Effects.OneEffectPerKey | README.md:44-46 | the provider never has two effects under one key |
| Effects.EffectsAreSent | internal/importjob/worker.go:189-190 | every effect is a batch that a claim of the job has sent |
| Effects.AnsweredIsUsed | README.md:44-46 | what has been answered has its effect |
| Effects.EffectsAreInOrder | internal/importjob/worker.go:189-202 | in every run, the effects of a job are under the keys of batches 1, 2, ..., n, in this order |
| Effects.SettledHolds | README.md:44-46 | once every message of the job has its key used, and no new one is sent, the job's effects stay as they are |
| Effects.HoldsInEveryRun | internal/importjob/worker.go:189-202 | a worker that has just loaded its file puts every batch in its place, in every run in which nobody else sends for the job meanwhile, if and only if used keys and messages under way agree with the file |
| Effects.ExactlyInEveryRun | internal/importjob/worker.go:189-202 | in these runs the job's effects end up being the batches of the file and nothing else if and only if all effects it has, and all messages under way under unused keys, are among them |
| Effects.HoldsDespiteOthers | internal/importjob/worker.go:189-202 | the same conditions over all that was ever sent are enough when others send meanwhile |
| Effects.AnsweredAlone | internal/importjob/worker.go:189-202 | when the batches of an answered claim are all that is ever sent for the job, its effects are exactly these, then and later |
| Attempts.ApartKeeps | internal/importjob/worker.go:171-218 | when attempts are kept apart, each step keeps one sender for each job, and the job's effects in step with what it has sent |
| Attempts.EffectsInStep | internal/importjob/worker.go:189-202 | in such runs the job's effects are always the batches its worker has sent, or all but the last, and nobody else has sent any |
| Attempts.SucceededWasAnswered | internal/importjob/worker.go:189-217 | in any run, a job that succeeded was finished by a claim that got an answer to every batch of the recorded rows; if these are all that was ever sent, the provider holds exactly them |
| Attempts.SucceededHoldsExactly | internal/importjob/worker.go:171-218 | when attempts are kept apart, the provider holds for a job that succeeded the rows its own attempt validated, each batch once, in order, and nothing else |
| Attempts.FreshRetriesHoldExactly | internal/importjob/service.go:192-227 | that is so when no worker survives a retry and no job is retried after something was sent for it |
| StaleFinish.SucceededWithoutApplying | internal/importjob/repository.go:138-141 | a reachable state with a succeeded job, one valid row and no applied row |
| StaleFinish.FinishChecksAreNotEnough | internal/importjob/worker.go:138-141 | the same state, reached although every finish has the version of its claim |
| StaleFinish.TwoRunning | internal/importjob/service.go:192-227 | a reachable state in which workers of two attempts of one job are running |
| Worlds.World.Others | internal/app/import_eventbus.go:110-126 | any steps of other actors, except on the claim and the fresh id that are one's own, keep the world on the protocol |
| Worlds.ForeignKeepsClaim | internal/importjob/repository.go:148-159 | a claim changes only by steps of its own worker |
| Worlds.ForeignKeepsFresh | internal/importjob/service.go:72 | an id nobody else draws stays unused |
| Transactions.Transaction.End | internal/database/transaction.go:17-35 | all writes of a transaction take effect as one step or none does; success implies they did, a failed callback that they did not |
| Transactions.InstalledIsCommit | internal/importjob/service.go:140-146 | a row written together with its event is one commit of the protocol |
| Transactions.Transaction.Update | internal/importjob/repository.go:196-208 | a row is returned only if one was updated; no row affected is reported as a stale version |
| Transactions.Transaction.AddOutbox | internal/importjob/repository.go:191-194 | success means the event is part of the transaction |
| Transactions.Transaction.Create | internal/importjob/repository.go:43-63 | a new row under a free key, or the row that holds the key, also when another request wins the race in between |
| Transactions.Transaction.CompleteUpload | internal/importjob/repository.go:97-100 | updates exactly the row the protocol step does; stale means its guard fails |
| Transactions.Transaction.Cancel | internal/importjob/repository.go:102-105 | updates exactly the row the protocol step does; stale means its guard fails |
| Transactions.Transaction.Retry | internal/importjob/repository.go:107-110 | the same, and never into a taken key |
| Transactions.Transaction.Confirm | internal/importjob/repository.go:112-123 | the same key repeats the answer without a write; otherwise the row the protocol step makes, although others act between read and update |
| Transactions.ReadyMeansUnconfirmed | internal/importjob/repository.go:117-120 | a row the confirming update can match holds no confirmation key |
| Transactions.Transaction.FinishValidation | internal/importjob/repository.go:129-132 | the row of the finish step, with the change its counters ask for |
| Transactions.Transaction.FinishApply | internal/importjob/repository.go:138-141 | the row of the finish step, counting the rows of the claim |
| Transactions.Transaction.Fail | internal/importjob/repository.go:143-146 | the row of the fail step, in the status the worker expects |
| Transactions.Transaction.Expire | internal/importjob/repository.go:168-171 | the row of the expiry step, in the listed status |
| Transactions.Transaction.DeleteExpiredMetadata | internal/importjob/repository.go:179-189 | deletes exactly a purgeable row |
| Services.Service.Create | internal/importjob/service.go:58-97 | a new job makes the create step the last one; a repeated request returns the row that holds the key, for the same dataset, service and format; either way the job waits for its upload; with a positive time for uploads, a conflict means that a job holds the key and is for something else or waits for no upload |
| Services.Service.CompleteUpload | internal/importjob/service.go:118-148 | success makes its step and its event the last ones; conflict and not-found are true of the world it returns in |
| Services.Service.Cancel | internal/importjob/service.go:175-190 | success makes its step and its event the last ones; conflict means the guard fails |
| Services.Service.Retry | internal/importjob/service.go:192-227 | a retry makes its step and its event the last ones; a repeated one returns the row waiting under that key; either way the job waits for its upload; with a positive time for uploads, a conflict means that the guard fails or the upload is overdue |
| Services.Service.Confirm | internal/importjob/service.go:229-249 | success makes its step and its event the last ones; a repeated one returns the row confirmed with that key |
| Workers.Worker.Claim | internal/importjob/repository.go:148-159 | a claimed job is running under a new claim, and the row read afterwards is that of the claimed job although others act in between; a claim that took effect and was reported as failed is given up |
| Workers.Worker.Fail | internal/importjob/worker.go:292-310 | the claim ends; success leaves the row failed with the given code, and its event |
| Workers.Worker.Upload | internal/importjob/worker.go:138-141 | the normalized file and the report of the claim are stored together; after a failed upload they may be |
| Workers.Worker.FinishValidation | internal/importjob/worker.go:149-168 | success leaves the row with the counters of the report, and its event |
| Workers.Worker.Persist | internal/importjob/worker.go:138-168 | from the checked file to the finished claim, failing the job in between |
| Workers.Worker.Validate | internal/importjob/worker.go:55-169 | whatever the claim has stored is the checked outcome of the file it read; its answers are the provider's responses to the batches of the file; success means that the row counts the file's rows, the normalized rows and the rows with issues |
| Workers.Worker.Load | internal/importjob/worker.go:178-182 | the file read is the encoding of the rows the object holds at that moment |
| Workers.Worker.FinishApply | internal/importjob/worker.go:203-217 | success leaves the row counting the loaded rows, and its event |
| Workers.Worker.Apply | internal/importjob/worker.go:171-218 | success means that the claim has sent every batch of the loaded rows, in order, and got every answer, and that they are in place, and nothing else is, under the conditions on what was used and sent; in every other case a prefix of the batches was sent |
| Workers.Worker.SendAll | internal/importjob/worker.go:189-217 | the same from the loaded file on |
| Workers.Worker.AppliedExactlyOnce | internal/importjob/worker.go:189-202 | if the batches of a finished apply are all that is ever sent for the job, the provider holds the loaded rows, each batch once, and nothing else, in every later state |
| Workers.Worker.Handle | internal/app/import_eventbus.go:110-126 | an event of another kind changes nothing; otherwise the claim taken is closed when the handler returns, and a successful apply has done what it says |
| Workers.SucceededInWorld | internal/importjob/worker.go:189-206 | the end-to-end theorem for the world the operations run in: applied = valid = total, and the provider holds the validated rows |
| Cleaners.Cleaner.List | internal/importjob/repository.go:161-177 | rows of the table, each once, all due and at most `limit`; all that are due if there are fewer |
| Cleaners.Cleaner.CleanupExpired | internal/importjob/worker.go:220-261 | the result counts jobs that are expired or gone when the sweep returns, at most `limit` |
| Cleaners.Cleaner.PurgeExpiredMetadata | internal/importjob/worker.go:265-290 | the result counts jobs whose rows are gone for good, at most `limit` |
| Cleaners.Cleaner.Expire | internal/importjob/worker.go:230-258 | an expired job stays expired; passed over is a row that is gone or no longer in the listed status |
| Cleaners.Cleaner.Purge | internal/importjob/worker.go:275-287 | a purged row is gone |
| Cleaners.FinishedHolds | internal/importjob/worker.go:220-261 | an expired or removed job is so at any later time |
| Readers.LimitReader.Read | internal/importjob/parser.go:223-240 | delivers the next bytes or none, never more than the limit in all, and raises the flag only on seeing one byte more |
| Readers.LimitReader.Pull | internal/importjob/parser.go:117-121 | a buffered reader gets some bytes, an error, or gives up after too many empty reads |
| Readers.LimitReader.EndMeansWhole | internal/importjob/parser.go:70-76 | at the end of the stream the flag is raised exactly for a file over the limit, and otherwise everything was read and hashed |
| Readers.Scanner.Scan | internal/importjob/parser.go:116-141 | the next line of the file, however reads are cut, or the end, or a line that does not fit the buffer |
| Readers.Scanner.WholeLines | internal/importjob/parser.go:116-141 | what has become lines is whole lines of the file, or all of it that the limit lets through |
| Lines.SplitConcat | internal/importjob/parser.go:117-120 | lines of complete lines and more are the lines of both |
| Lines.LongLineOf | internal/importjob/parser.go:118 | a stretch without newline at the start of a line lies in a line at least as long |
| Files.ReadBack | internal/importjob/worker.go:110-118 | the normalized file has one line for each row, and decodes to the rows written |
| Files.JsonPrefix | internal/importjob/parser.go:120-138 | whole lines at the start of a file give the first rows of the file |
| Files.CsvPrefix | internal/importjob/parser.go:90-112 | records at the start of a CSV file give the first rows of the file |
| Files.ZipIsFaithful | internal/importjob/parser.go:101-104 | with distinct column names every value of a record is under its own name, and nothing else |
| Batching.BatchesPartition | internal/importjob/parser.go:42-58 | batches lose and reorder nothing, are numbered from 1, start at row number (number-1)*size+2 (the line of a CSV file; JSON Lines files are counted the same), and all but the last are full |
| Batching.BatchesSnoc | internal/importjob/parser.go:52 | after k full batches the next rows make batch k+1 |
| Batching.BatchesPrefix | internal/importjob/parser.go:42-58 | fewer rows, cut at a batch boundary, give the first batches |
| Parser.RowStream.Emit | internal/importjob/parser.go:42-58 | the rows handed over are the batches of all rows so far; on an error the calls are a prefix within the row limit, and the row limit is reported only for more rows than allowed |
| Parser.ValidateHeaders | internal/importjob/parser.go:198-214 | accepts exactly usable column names, and leaves them trimmed in place |
| Parser.MakeRow | internal/importjob/parser.go:101-104 | the row of a record |
| Parser.CsvReader.Read | internal/importjob/parser.go:90-100 | the records of the file in order; the end or a malformed record only after all before it |
| Parser.RowStream.StreamCsv | internal/importjob/parser.go:79-114 | success means every row of the file was emitted, and only then; errors are explained by the file, its reader or the consumer |
| Parser.RowStream.StreamJsonl | internal/importjob/parser.go:116-143 | the same for JSON Lines, with the line length as one more reason |
| Parser.StreamRows | internal/importjob/parser.go:35-77 | success: the whole file within both limits, batch by batch, with its row count, length and checksum; an error: the first batches of the rows that can be seen under the byte limit, and a just reason; never more rows than allowed |
| Parser.RowsWithinAreFirst | internal/importjob/parser.go:223-240 | the rows that can be seen under the limit are the first rows of the file, unless the limit cuts a line of a JSON Lines file |
| Outputs.BoundedWriter.Write | internal/importjob/worker.go:29-36 | writes all of a value or, past the limit, none of it; the limit is reported exactly then |
| Outputs.ReportWriter.Flush | internal/importjob/worker.go:123-126 | no error means the file holds every record written and is within its limit |
| Tallies.CountsConserve | internal/importjob/worker.go:105-120 | valid + invalid over all accepted batches is the number of rows |
| Tallies.IssueRowsFit | internal/importjob/worker.go:94-106 | distinct rows with valid issues are at most the rows of the batch |
| Tallies.BatchesDoNotMatter | internal/importjob/worker.go:89-122 | answers to the batches put together are the answer to the file as one batch, for every batch size |
| Tallies.JudgedCounts | internal/importjob/worker.go:105-109 | judged row by row, rows with issues and normalized rows add up to all rows |
| Consumers.Consumer.WriteRows | internal/importjob/worker.go:110-118 | success appends the encoding of the rows; the limit is reported only if they are too long |
| Consumers.Consumer.WriteIssues | internal/importjob/worker.go:94-105 | success means every issue is valid and recorded, and counts the distinct rows; an error means that some issue is invalid or the report too long |
| Consumers.Consumer.Record | internal/importjob/worker.go:94-120 | an accepted answer is written to the report and the normalized file and counted, every row of the batch once |
| Consumers.Consumer.Validate | internal/importjob/worker.go:89-122 | an accepted batch adds one acceptable answer, which is the provider's response to this batch, with counters, normalized file and report in step; a refused one is refused for a reason in the response |
| Consumers.Consumer.Apply | internal/importjob/worker.go:189-199 | an accepted batch is the next one of the claim, has arrived and is answered; a failed one was sent or not |
| Consumers.Consumer.Consume | internal/importjob/worker.go:89-122 | either callback keeps what the consumer promises about everything handed over so far |
| Pipelines.JudgementIsFaithful | internal/importjob/worker.go:149-151 | the stored report counts every row of the file once, and its valid rows are the normalized ones |
| Pipelines.BatchSizeIndependence | internal/importjob/worker.go:89-122 | counters, normalized rows and error report are those of judging row after row, for every batch size |
| Pipelines.SameResult | internal/importjob/worker.go:89-137 | two validations of one file, with whatever batch sizes and limits, have the same result if the responses of the provider judge row by row |
| SameOutcome.SucceedsTogether | internal/importjob/worker.go:67-137 | if one of them is accepted, another with the same limits is refused only for something around it, or for a last line without end that is too long for the buffer |
| SameOutcome.NotToBlame | internal/importjob/worker.go:89-122 | no answer of such a provider is to blame for an error with one batch size and right with another |
| Pipelines.LimitsAgree | internal/importjob/worker.go:78-79 | a normalized file is never refused by the row or byte limit it was made under; only an encoding of 16 MiB or more can stop it |
| Pipelines.ReadBackWhole | internal/importjob/worker.go:189 | a normalized file streamed to its end delivers the normalized rows, in order |
| Pipelines.ReadBackExactly | internal/importjob/parser.go:118 | without a failure of provider, context or storage, the file is delivered if and only if every encoding is shorter than 16 MiB |
| LongRows.ValidationAccepts | internal/importjob/worker.go:110-118 | a lawful codec and a file that validation accepts, with an encoding of 16 MiB |
| LongRows.ApplyRefuses | internal/importjob/parser.go:118 | the normalized file of that validation is never delivered |
| Pipelines.Conclude | internal/importjob/worker.go:123-137 | after flushing, closing and comparing the checksum, the outputs are those of the answers to the announced file |
| Pipelines.JudgeFile | internal/importjob/worker.go:67-137 | the outcome of a validation is right and made of the provider's responses; an error blames limits, header, form or checksum on the file only if it is at fault, and the size of the outputs or an answer only if the responses are |
| Pipelines.ApplyFile | internal/importjob/worker.go:183-202 | whatever others do: success means that the claim has sent every batch of the file and got every answer; failure that it has sent all batches handed over, or all but the last |
| Deliveries.AgreementHolds | internal/importjob/worker.go:190 | whatever the order and number of deliveries, if used keys and messages under way agree, every batch whose key is used is in its place |
| Deliveries.OnlyTheseHold | internal/importjob/worker.go:190 | if nothing else is there or under way, nothing else gets there |
| ReusedKeys.SucceededWithOldRows | internal/importjob/worker.go:190 | a reachable state, in a run without survivors, in which a job's counters say its second file was applied while the provider holds the first one |
| ReusedKeys.SucceededAfterLateMessage | internal/importjob/provider_grpc.go:296-316 | the same, although the provider knew no key of the job when the second apply started |
| ReusedKeys.SucceededDespiteSurvivor | internal/importjob/repository.go:102-105 | the same, although nothing had been sent for the job when the second apply started |
| ReusedKeys.OldRowsAreWrong | internal/importjob/worker.go:190 | in these states the provider does not hold the second file |
| ReusedKeys.TailRemains | internal/importjob/worker.go:190 | every batch of a shorter file is in its place, and the provider holds more |
| Providers.LateDeliveriesAreHarmless | README.md:44-46 | messages whose key is used, and messages of other jobs, leave the job's effects alone |
| Providers.KeyInjective | internal/importjob/worker.go:190 | different jobs or batches never share an idempotency key |
| Providers.OwnDeliver | internal/importjob/worker.go:190 | a delivery for another job leaves the job's own effects alone, and one for the job acts on them as on all |
| Sessions.Session.Exchange | internal/importjob/provider_grpc.go:205-229 | the same message is sent at most as often as attempts are allowed, with the configured waits; an answer for the batch means that it has arrived, and the stream is open |
| Remotes.Remote.Recv | internal/importjob/provider_grpc.go:307-316 | an answer for the batch comes only after it has arrived; anything else says nothing |
| Sessions.Session.ValidateBatch | internal/importjob/provider_grpc.go:195-236 | success means an answer for this batch on an open stream, recorded with its request; a request of another scope or dataset sends nothing |
| Sessions.Session.ApplyBatch | internal/importjob/provider_grpc.go:286-331 | however often it is replayed, the batch is one batch of the claim, sent at most as often as attempts are allowed; when it is answered it has arrived; a request of another scope or dataset sends nothing |
| Sessions.Session.Open | internal/importjob/provider_grpc.go:352-369 | a stream is open exactly on success; giving up is reported at most once |
| Sessions.TotalWaitIsBounded | internal/importjob/provider_grpc.go:386-402 | n waits last at most n times the maximal backoff |
| Sessions.DelaysGrow | internal/importjob/provider_grpc.go:390-393 | for a non-negative backoff, delays never shrink if and only if the largest shift fits 64 bits |
| Sessions.DelaysMayShrink | internal/config/config.go:763 | a retry policy the check accepts under which they do |
| Catalog.SummarizeDatasets | internal/importjob/provider_grpc.go:71-104 | strictly sorted by service and code, one entry for each pair offered, with its number of offers and its first declaration |
| Catalog.CatalogIsUnique | internal/importjob/provider_grpc.go:93-103 | there is only one such catalog, so the order of the map leaves no trace |
| Catalog.CountsAddUp | internal/importjob/provider_grpc.go:84-90 | the counters add up to all matching declarations |
| Catalog.ListDatasets | internal/importjob/provider_grpc.go:30-46 | the requested page of the catalog and its length |
| Catalog.PageIsRight | internal/importjob/provider_grpc.go:39-45 | a page is the intended one if and only if the 32-bit product does not wrap, or wraps from beyond the list to beyond the list |
| Catalog.FarPageFails | internal/importjob/provider_grpc.go:40-45 | page 2147483647 of size 100 fails at run time, whatever the catalog |
| Catalog.PagesCoverList | internal/importjob/provider_grpc.go:38-45 | pages put together are the list, each entry once |
| Connections.Provider.Pick | internal/importjob/provider_grpc.go:436 | the candidate of the counter, which moves on by one modulo 2^64 |
| Connections.Provider.Connect | internal/importjob/provider_grpc.go:441-458 | open connections are exactly the cached ones, one for each instance, to the requested target; a failed dial leaves none behind |
| Connections.Provider.Client | internal/importjob/provider_grpc.go:415-459 | the next candidate in turn with its connection, or nothing |
| Connections.Provider.Close | internal/importjob/provider_grpc.go:502-518 | every connection to a provider and the one to the registry is closed, and the first failure is the one reported |
| Connections.Provider.Turn | internal/importjob/provider_grpc.go:436 | as many picks in a row as there are candidates follow the counter, and are fair exactly in the cases of the next row |
| Connections.RotationIsFair | internal/importjob/provider_grpc.go:436 | a full turn picks each candidate once if and only if the counter does not wrap within it or wraps at a multiple of their number |
| Connections.UnfairTurn | internal/importjob/provider_grpc.go:436 | three candidates and a counter about to wrap: a turn that is not fair |

## Left out

- Liveness: a worker that stops, or a claim whose confirmation is lost, leaves its row in validating or applying until somebody cancels it; the code makes no promise there.
- Parser.StreamRows: for a file read from failing storage it says only how many rows the consumer has seen, because the last line may be cut anywhere and a cut line may decode.
- SameOutcome.SucceedsTogether: says nothing about the batch size with which a last line without end of 16 MiB or more is accepted, which depends on how the source cuts its reads.
- Effects before the first run: the provider starts empty, because only this service makes keys of job ids it has drawn.
- XLSX: reading rows from a workbook is the work of a library; the model has CSV and JSON Lines, and any other format is unsupported.
- Inner workings of JSON, CSV, protobuf, SHA-256, UUIDs and string trimming: functions with the stated laws; a row that cannot be converted to protobuf counts as a failed request.
- Error texts: an error whose text contains "checksum" is given the checksum code by the original; the model gives that code to the mismatch only.
- Interleaving inside a transaction: others may act up to the first statement that writes; from there to the end of the transaction the row lock and the unique index are taken to keep them away.
- The error report as a stored object: its content is proved, but it is not part of the shared state, and nothing reads it back.
- Source files: the client uploads them directly, so a worker may find any bytes; only their checksum ties them to the job.
- Authorization, application access, checks of code patterns and of the dataset descriptor: a request may be refused for them before it touches anything.
- File names, listing and download of jobs, presigned URLs: no state beyond the row; the 32-bit offset of the job list is the same product as the catalog's.
- Order of the expiry listing: rows are taken in any order.
- Concurrency inside the provider client: picking is atomic and connecting is under a lock, so each is one call here; allow-lists and prefixes of targets only refuse or rewrite an address.
- Outbox dispatch, event bus, service discovery, object storage, HTTP and gRPC transport, metrics, locks, configuration: environment of the core; the bus is the adversary that delivers any event at any time.
