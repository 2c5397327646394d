# Verification of the quickspin sandbox lifecycle

quickspin keeps a table of sandboxes that callers want, and a reconciler that makes Docker
containers agree with it. API calls only record intent: a create inserts a pending row, a
keepalive moves a row's expiry, a destroy moves a running row to stopping. A reconcile pass
lists rows and containers, joins them by id, decides one action per pair and performs it.
Rows are changed by guarded writes that restate the state and version the writer observed,
and every state change appends one event in the same transaction.

The project models that protocol, the Docker adapter under it, and the arithmetic and
sequence code they rest on, and proves what callers and operators rely on: about one call,
about one pass, and about every run in which any number of callers, one reconciler, faults,
crashes and container exits interleave call by call.

## Layout

| file | content |
|---|---|
| `Wrappers.dfy` | results, errors, map lookup |
| `Lifecycle.dfy` | task states, legal transitions, lifetime rule |
| `SpecResolve.dfy` | spec documents, memory sizes with 64-bit wrap-around, limits |
| `Wire.dfy` | lifetimes on the wire, in whole seconds and 64-bit nanoseconds |
| `Tables.dfy` | rows, keys, events, and every transaction as a function on the tables |
| `SqliteStore.dfy` | the store as a class, proved against those functions |
| `RuntimeMap.dfy` | the runtime as a map from id to container state, with its failures |
| `Docker.dfy` | labelled containers; the adapter as a class that refines that map |
| `Decision.dfy` | decision table, actions as sequences of calls, whole passes |
| `Join.dfy` | pairing the two snapshots: the map-and-delete loops and the sort |
| `Passes.dfy` | isolation, order independence, convergence, reaping, compensation |
| `Control.dfy` | the API operations as a class over the store |
| `Answers.dfy` | what store and API operations return, on success and for each failure |
| `Reports.dfy` | what one action of a pass reports, with every call free to fail |
| `Reconciler.dfy` | the reconciler as a class over store and Docker adapter |
| `Protocol.dfy` | the transition system, one store or runtime call per step |
| `Safety.dfy` | the invariant of all runs, with any faults |
| `Agreement.dfy` | the invariant of fault-free runs |
| `Guarantees.dfy` | statements about whole runs, counterexample runs among them |
| `Renewal.dfy` | exactly when a keepalive keeps its sandbox |
| `Stream.dfy` | capped writers fed by a demultiplexer |
| `Paths.dfy` | slash-separated paths and their validators |
| `Archive.dfy` | files as tar entries, over a model of the daemon's file tree |

The three classes `Store`, `Runtime` and `Reconciler`, with `Control`, hold the code's own
loops and assignments. Each method's contract equates its effect with a function on values,
and the lemmas are about those functions. The protocol's steps are the same functions called
one at a time; `CreateStepsCompose`, `KeepaliveStepsCompose`, `DestroyStepsCompose`,
`ItemStepsCompose` and `PassStepsCompose` show that steps run back to back are the uninterrupted operations.

Failures are inputs. `Tables.Fault` picks the statement of a transaction that fails,
`RuntimeMap.CreateFault` and `DestroyFault` pick the daemon calls that do and whether they took
effect all the same. The clock, freshly minted ids and the order in which the store and the
daemon list things are inputs too.

## Where the code differs from what its comments suggest

- Destroy is documented as success for a sandbox that is absent or already past running
  (`internal/control/control.go:82-85`). It also succeeds, with no effect, on a pending row,
  which may run later. `DestroySticksIff` states exactly when a successful destroy holds
  forever; `DestroyWhilePending` is a run in which it does not.
- A successful keepalive does not change the row's version
  (`internal/store/sqlite/sqlite.go:44-48`), so a pass that listed the row before it still
  reaps the sandbox: `KeepaliveCanLose`. `LeaseKeepsIff` states exactly when a lease holds.
- The overflow guard of memory sizes is one-sided (`internal/sandbox/spec_resolve.go:90`).
  `ParseMemoryExact` gives the exact numbers for which the product does not wrap,
  `ResolvesIff` the texts a document resolves with, and `TurnsPositiveByUnit` the negative
  numbers among them.
- Docker's destroy removes one container of an id, so the id is gone if and only if it had at
  most one (`DestroysOne`).
- The conversion of whole seconds to nanoseconds wraps: 2^55 seconds arrive as zero and take
  the default lifetime (`WrappedRequestIsAdmitted`). A negative create lifetime also becomes
  the default, while a negative keepalive is kept negative and rejected (`NegativeDurations`).
- A pass that records a failure over an exited container leaves the container to the next
  pass: `OnePassConvergesIff`, and `OnePassIsNotEnough` is such a run.
- If the daemon creates a container and its reply is lost, Docker's create reports a plain
  failure and leaves it (`internal/runtime/docker/docker.go:267-275`): `LostReplyIsUnaccounted`.
  If somebody removes the container before the write-back, the write-back commits all the same:
  `VanishedIsUnaccounted`. `EveryCreateIsAccounted` shows that these are the only such cases, and
  the next passes clean up after both (`EveryRunRecovers`).

## Model

| member | source | states |
|---|---|---|
| Lifecycle.WalkIsShort | internal/sandbox/sandbox.go:25-46 | a walk along legal edges from pending has at most three edges, and the state reached fixes their number (failed has two ways in) |
| Lifecycle.SettledIsForever | internal/sandbox/sandbox.go:25-46 | no legal walk leads from stopping, stopped or failed back, and the last two end it |
| Lifecycle.TransitionMatrix | internal/sandbox/sandbox.go:25-46 | exactly five pairs of states are legal; every other pair of known states and every unknown state gets its own sentinel |
| SpecResolve.ParseMemory | internal/sandbox/spec_resolve.go:72-95 | the parsing code computes the specification of memory sizes, on every string |
| SpecResolve.GuardBoundsProduct | internal/sandbox/spec_resolve.go:90-94 | for non-negative numbers the guard admits exactly the products up to 2^62, and those do not wrap |
| SpecResolve.ParseMemoryExact | internal/sandbox/spec_resolve.go:84-94 | on success the result is digits times unit exactly if that product fits 64 bits, and always for non-negative digits, then at most 2^62 |
| SpecResolve.PrintedSizeParses | internal/sandbox/spec_resolve.go:65-95 | round trip: every number, printed under any unit letter in either case between any white space, parses to the product, or fails exactly when it exceeds 2^62 |
| SpecResolve.SizesInBytes | internal/sandbox/spec_resolve.go:63-95 | letters, blanks and multiples spelled out: a printed number followed by b, k, m or g in either case is that many bytes, times 1024, 1024^2 or 1024^3, a bare one bytes, and nothing past 2^62 |
| SpecResolve.PlusSignReads | internal/sandbox/spec_resolve.go:86 | a leading plus sign is read and means nothing |
| SpecResolve.StrangeTextIsRejected | internal/sandbox/spec_resolve.go:84-89 | any other character in the text, a fraction's point among them, makes it no size |
| SpecResolve.InnerBlankIsRejected | internal/sandbox/spec_resolve.go:73-89 | a blank between two other characters makes the text no size |
| SpecResolve.NoDigitIsRejected | internal/sandbox/spec_resolve.go:73-89 | a text without a digit is no size: neither unit nor sign stands alone |
| SpecResolve.ResolutionAnswers | internal/sandbox/spec_resolve.go:19-54 | field by field, what the document says is enforced and what it leaves out is the documented default; unreadable sizes and limits under their floors keep separate sentinels |
| SpecResolve.PrintedBytesParse | internal/sandbox/spec_resolve.go:78-94 | the same round trip without a unit: a bare number is bytes |
| SpecResolve.EmptySpecResolves | internal/sandbox/spec_resolve.go:12-54 | the empty document resolves to the documented defaults and passes the limits |
| SpecResolve.ResolvesIff | internal/sandbox/spec_resolve.go:45-95 | for every memory text: the document resolves if and only if its other limits pass and the number written is non-negative with a size from the floor to 2^62, or negative and, counted up to full turns of 64 bits of its unit, from the floor up to half a turn |
| SpecResolve.BytesByTurns | internal/sandbox/spec_resolve.go:94 | the wrapped product depends on the number written only up to full turns of its unit, and is that remainder or the remainder less a turn |
| SpecResolve.NegatedSizeWraps | internal/sandbox/spec_resolve.go:72-94 | every printed negative number, under any unit letter in either case between any white space, passes the guard and wraps |
| SpecResolve.NegativeSizeCanResolve | internal/sandbox/spec_resolve.go:45-94 | a document with a printed negative size of any unit resolves if and only if its other limits pass and the number turns positive |
| SpecResolve.TurnsPositiveByUnit | internal/sandbox/spec_resolve.go:65-94 | the negative numbers that turn positive, unit by unit: none in bytes; in kibibytes, mebibytes and gibibytes an interval below each multiple of 2^54, 2^44 and 2^34, with an instance of each |
| Wire.AdmittedLeaseIsBounded | internal/control/control.go:44-74 | for every int64 of seconds on the wire, wrapped product included, an admitted create or keepalive leases more than nothing and at most 24 hours |
| Wire.AdmissionWithoutWrap | internal/control/control.go:44-74 | where the product cannot wrap, create and keepalive follow the documented rule exactly: default for zero, reject negatives, reject or clamp above the cap |
| Wire.AdmissionFollowsRuleIff | internal/control/control.go:44-74 | on every int64, exactly when the wrapped product breaks the rule: a create out of range wraps into it, a negative renewal wraps to a non-negative one, a long renewal wraps below the cap |
| Wire.WrappedRequestIsAdmitted | internal/api/api.go:34-58 | that rule fails for 2^55 seconds and for as many below zero, which take the default lifetime on create and keepalive |
| Wire.TripKeepsDuration | internal/api/api.go:30-58 | a positive duration crosses the wire unshortened and lengthened by less than a second if and only if it is at most MaxInt64 - 999999999 ns |
| Wire.WholeSecondsRoundTrip | internal/api/api.go:177-182 | a whole number of seconds crosses unchanged |
| Wire.NegativeDurations | internal/api/api.go:45-58 | a negative duration is rejected as a keepalive and becomes the default as a create |
| Wire.NegativeSecondsExact | internal/api/api.go:45-54 | a negative keepalive crosses as its whole seconds, as minus one second if it has none |
| Wire.ZeroDurations | internal/api/api.go:177-182 | zero crosses as zero and takes fifteen minutes on create and keepalive |
| Tables.HistoryIsOrdered | internal/store/sqlite/sqlite.go:365-383 | the log read in insertion order is the log ordered by version |
| Tables.VersionFollowsState | internal/store/sqlite/sqlite.go:38-42 | a row with a sound history has a version fixed by its state, at most 4 |
| Tables.TransitionCommits | internal/store/sqlite/sqlite.go:194-243 | a transition commits if and only if the edge is legal, the row still has the observed state and version, the reason is present and the engine does not fail; then it advances that row by one version and appends that one event |
| Tables.RenewalIsUnseen | internal/store/sqlite/sqlite.go:44-48 | nobody notices a keepalive: after it, every sequence of transactions commits or fails exactly as without it, and leaves tables that differ in that one expiry alone |
| Tables.InsertCommits | internal/store/sqlite/sqlite.go:294-331 | a create commits if and only if its id and its key are both new; then row, key and first event appear together |
| Tables.ApplyKeepsSound | internal/store/sqlite/sqlite.go:159-334 | every transaction, failed ones included, keeps histories gapless and keys paired with rows, and loses nothing recorded |
| Tables.EveryHistoryIsSound | internal/store/sqlite/sqlite.go:194-331 | over any sequence of transactions: events carry versions 1..n, chain from the empty state along legal edges to the row's state, n is the row's version and at most 4 |
| Tables.OneWriterPerVersion | internal/store/sqlite/sqlite.go:38-42 | of all writers holding one observed version, at most one ever commits, whatever runs between |
| Tables.SettledStaysSettled | internal/store/sqlite/sqlite.go:38-48 | a stopping row never runs again and keeps its expiry; a stopped or failed row and its history never change |
| Tables.LosingCreateLeavesNothing | internal/store/sqlite/sqlite.go:294-331 | a create that missed the key but lost the race fails and leaves no row, key or event, at any later time |
| Answers.TransitionAnswers | internal/store/sqlite/sqlite.go:194-243 | a transition that commits returns the row as the table now holds it; one that does not returns the sentinel of the first thing wrong |
| Answers.RenewalAnswers | internal/store/sqlite/sqlite.go:159-192 | a renewal that commits returns the renewed row with the expiry asked for; otherwise missing expiry, not found, invalid state or the engine's failure, each in its case |
| Answers.CreateAnswers | internal/store/sqlite/sqlite.go:262-334 | a create returns the pending record it made or the record its key already named, as the table holds it; each failure has its sentinel and changes nothing |
| Answers.DuplicateEventIsRefused | internal/store/sqlite/sqlite.go:246-260 | a second event under one version of a sandbox is refused whatever else it says |
| Answers.CreateBlames | internal/control/control.go:35-61 | an unresolvable spec or a lifetime out of range comes back as the caller's error; whatever the store reports is the service's own |
| Answers.KeepaliveAnswers | internal/control/control.go:63-80 | a keepalive returns the row renewed to now plus the clamped lifetime, fifteen minutes for zero; a negative lifetime is invalid |
| Answers.DestroyFailsIff | internal/control/control.go:86-114 | a destroy fails if and only if the engine fails it, and otherwise stops a running row with one event |
| SqliteStore.Store.Rollback | internal/store/sqlite/sqlite.go:204-208 | a rolled-back transaction leaves the tables it began with |
| SqliteStore.Store.InsertEvent | internal/store/sqlite/sqlite.go:246-260 | the event is appended exactly when it is valid, its version is new and the statement succeeds |
| SqliteStore.Store.Reread | internal/store/sqlite/sqlite.go:212-220 | after a guarded update matched no row, one more read tells absent from stale, or its failure is the error |
| SqliteStore.Store.UpdateSandboxState | internal/store/sqlite/sqlite.go:194-243 | the statements, early returns and rollback come to the state transaction on the tables |
| SqliteStore.Store.UpdateSandboxExpiry | internal/store/sqlite/sqlite.go:159-192 | likewise the expiry transaction |
| SqliteStore.Store.GetIdempotencyKey | internal/store/sqlite/sqlite.go:130-145 | returns the sandbox of a key, or that there is none |
| SqliteStore.Store.CreateSandbox | internal/store/sqlite/sqlite.go:262-334 | look-up, replay of a known key, and the inserting transaction come to the create on the tables |
| SqliteStore.Store.GetSandbox | internal/store/sqlite/sqlite.go:336-346 | returns the row of an id or not-found |
| SqliteStore.Store.GetSandboxes | internal/store/sqlite/sqlite.go:348-363 | returns every row exactly once |
| SqliteStore.Store.GetSandboxEvents | internal/store/sqlite/sqlite.go:365-383 | returns the sandbox's history, which under a sound history is strictly ordered by version |
| RuntimeMap.RtCreate | internal/runtime/docker/docker.go:247-297 | success leaves a running container; an error leaves things as they were unless it reports a leak or the daemon lost the reply of its own create |
| RuntimeMap.RtDestroy | internal/runtime/docker/docker.go:720-745 | destroy that succeeds leaves no container, absent ones included; one that fails changes nothing unless the reply of the removal was lost |
| RuntimeMap.CreateAnswersBy | internal/runtime/docker/docker.go:247-297 | create's answer by what goes wrong first, and a leak reported exactly when the container may have outlived its clean-up |
| RuntimeMap.DestroyAnswersBy | internal/runtime/docker/docker.go:720-745 | destroy's answer: invalid id, failed listing, failed removal of a present container, else success |
| RuntimeMap.ValidIDsArePrinted | internal/runtime/ids.go:11-31 | an id is valid if and only if it is the prefix and the printed text of a UUID other than the nil one |
| Docker.LabelsSpelledOut | internal/runtime/docker/labels.go:7-60 | the two label keys and the marker value by name: what makes a container managed under an id |
| Docker.ListedByStatus | internal/runtime/docker/translate.go:16-31 | a sandbox is listed as started if and only if a container of its id is running or restarting, and as stopped if and only if one has any other status, known or not |
| Docker.MarkerFilterKeepsListing | internal/runtime/docker/labels.go:24-51 | the daemon's filter on the marker label hides no container that the listing would name |
| Docker.IdRoundTrips | internal/runtime/docker/labels.go:17-60 | the labels written for a valid id read back as that id |
| Docker.AbsOfHolds | internal/runtime/docker/docker.go:231-241 | an id is in the abstract map exactly when some container is managed under it |
| Docker.ListingIsDistinct | internal/runtime/docker/docker.go:231-241 | with at most one container per id, a listing names each id once |
| Docker.WithoutIsSubset | internal/runtime/docker/docker.go:709-718 | a removal keeps container ids unique and at most one container per sandbox |
| Docker.RemoveManaged | internal/runtime/docker/docker.go:736-745 | removing the one container of an id removes that id from the map and no unmanaged or unreadable container |
| Docker.DestroysOne | internal/runtime/docker/docker.go:736-745 | removing one container of an id removes the id if and only if it had no other, and no unmanaged or unreadable container |
| Docker.ExtensionIsCreate | internal/runtime/docker/docker.go:267-297 | one container more is the abstract create of its id in the state it was left, touches no foreign container, and keeps the bound of one where the id had none |
| Docker.SecondContainerSurvives | internal/runtime/docker/docker.go:783-789 | an instance with two containers of one id, of which a destroy leaves one |
| Docker.FilterFinds | internal/runtime/docker/docker.go:775-791 | the daemon's label filter loses no container of the id |
| Docker.Runtime.List | internal/runtime/docker/docker.go:218-245 | the listing is the abstract map, each id once, corrupt labels skipped |
| Docker.Runtime.Create | internal/runtime/docker/docker.go:247-297 | for every way each daemon call may fail, lost replies included: the abstract create, result and containers; at most one container more; the bound of one is kept where the id had none; no foreign container is touched |
| Docker.Runtime.CreateAndStart | internal/runtime/docker/docker.go:267-297 | the list gains exactly the container the fault leaves, or none, and the caller is told success, failure or leak accordingly |
| Docker.Runtime.StartOrCleanUp | internal/runtime/docker/docker.go:285-296 | a failed start removes the container again, whether or not it had started; a failed removal is reported as a leak |
| Docker.Runtime.CleanupFailed | internal/runtime/docker/docker.go:665-682 | the original cause is returned, wrapped as a leak exactly when the removal failed |
| Docker.Runtime.RemoveContainer | internal/runtime/docker/docker.go:707-718 | an absent container counts as removed |
| Docker.Runtime.Destroy | internal/runtime/docker/docker.go:720-745 | success leaves the id without a container if and only if it had at most one; under that bound it is the abstract destroy, lost replies included; a failure without one changes nothing; no foreign container is touched |
| Docker.Runtime.GetContainerBySandboxID | internal/runtime/docker/docker.go:768-792 | finds the id's container exactly when the map has the id; otherwise not-found, or the id is rejected |
| Decision.StepOp | internal/reconciler/reconciler.go:172-266 | each call of an action brings it nearer its end, and an error ends it |
| Join.SortItems | internal/reconciler/reconciler.go:141-143 | a permutation of the items in strict order of distinct ids |
| Join.IndexInfos | internal/reconciler/reconciler.go:120-123 | the index by id of the containers listed |
| Join.PairRows | internal/reconciler/reconciler.go:127-133 | each row once with its container or none; matched containers leave the index |
| Join.AddOrphans | internal/reconciler/reconciler.go:135-139 | what is left in the index is added, once each |
| Join.PairSnapshots | internal/reconciler/reconciler.go:119-146 | for distinct ids, the loops and the sort yield the declarative outer join, strictly sorted by id |
| Join.SortedJoinIsUnique | internal/reconciler/reconciler.go:115-118 | two strictly sorted outer joins of one pair of snapshots are equal |
| Join.BeforeIff | internal/reconciler/reconciler.go:141-143 | the order is ascending: the first character in which two ids differ decides, and a proper prefix comes first |
| Join.JoinIgnoresListingOrder | internal/reconciler/reconciler.go:115-118 | permuting either listing leaves the result identical |
| Passes.DecisionsDispatch | internal/reconciler/reconciler.go:172-266 | every decided action passes the dispatch checks, every write it leads to goes along a legal edge, and create is dispatched only for a pending row with no container |
| Passes.PassIsPointwise | internal/reconciler/reconciler.go:76-96 | what a pass leaves for an id is what that id's turn alone would leave |
| Passes.PassIgnoresOrderAndOtherFaults | internal/reconciler/reconciler.go:82-96 | another visiting order, or other faults for other ids, change nothing for an id |
| Passes.PassIgnoresOrder | internal/reconciler/reconciler.go:76-96 | any two visiting orders end with the same rows, containers and histories |
| Passes.TurnReachesTarget | internal/reconciler/reconciler.go:281-354 | a faultless turn takes row and container to the outcome of a separate target table |
| Passes.PassReachesTarget | internal/reconciler/reconciler.go:55-100 | a faultless pass from any valid mix of rows and containers takes every sandbox to its target |
| Passes.PassKeepsValid | internal/reconciler/reconciler.go:55-100 | a pass leaves a valid mix again |
| Passes.ConvergedPassDoesNothing | internal/reconciler/reconciler.go:74-99 | a pass reports no action if and only if every pair needs none, and then changes nothing |
| Passes.TargetsConverge | internal/reconciler/reconciler.go:281-354 | two targets in a row, at any two clock readings, leave nothing to do |
| Passes.TwoPassesConverge | internal/reconciler/reconciler.go:55-100 | from any valid mix, at any two clock readings, a third pass at the second reading does nothing |
| Passes.OnePassConvergesIff | internal/reconciler/reconciler.go:326-340 | one pass is not enough if and only if some live, unexpired row has an exited container |
| Guarantees.OnePassIsNotEnough | internal/reconciler/reconciler.go:336-350 | a run after which one faultless pass leaves work behind: a started container that exited |
| Passes.ExpiredIsReaped | internal/reconciler/reconciler.go:235-249 | a faultless pass after a row's expiry leaves it terminal with no container |
| Passes.CreateIsAllOrReported | internal/reconciler/reconciler.go:191-217 | with every call free to fail, a create ends with the write-back committed over a running container, or with the plant as before, or with an error naming the failure that left a container, or with the daemon having lost the reply of its create |
| Reports.DecisionTable | internal/reconciler/reconciler.go:281-311 | the documented decision table, cell by cell, expiry first |
| Reports.FailedDestroyStops | internal/reconciler/reconciler.go:218-240 | a destroy that fails ends a destroy, a reap or an orphan's removal with that very error, the tables untouched |
| Reports.DestroyComesFirst | internal/reconciler/reconciler.go:218-249 | after a destroy that succeeds the container is gone, and the mark that follows, or its failure, is the action's outcome |
| Reports.TakenDownMeansGone | internal/reconciler/reconciler.go:218-249 | whatever fails, a row that a destroy or a reap changes has no container left |
| Reports.FailedCreateStops | internal/reconciler/reconciler.go:203-205 | a create the runtime fails ends with the runtime's own error, the tables untouched |
| Reports.BadDispatchDoesNothing | internal/reconciler/reconciler.go:182-188 | an action dispatched without the side it works on does nothing but say so |
| Reports.NoErrorMeansDone | internal/reconciler/reconciler.go:172-279 | with every call free to fail: an action that reports no error has taken row and container to their target and recorded that one step with its own reason; one that reports an error has left row and history alone |
| Reports.PassReportsDecisions | internal/reconciler/reconciler.go:74-99 | a pass reports all its decisions in visiting order, whichever of them failed |
| Reconciler.Reconciler.MarkRow | internal/reconciler/reconciler.go:268-279 | the guarded write from the state and version the pass read |
| Reconciler.Reconciler.HandleAction | internal/reconciler/reconciler.go:172-266 | the dispatch has the error and does to the store what the action's call sequence says, and to the daemon too unless a create meets an existing container |
| Reconciler.Reconciler.HandleCreate | internal/reconciler/reconciler.go:191-217 | likewise for create |
| Reconciler.Reconciler.RecordRunning | internal/reconciler/reconciler.go:206-217 | likewise for the write-back of a create and the destroy that compensates for its failure |
| Reconciler.Reconciler.HandleDestroy | internal/reconciler/reconciler.go:219-233 | likewise for destroy and the mark that follows a finished stop |
| Reconciler.Reconciler.HandleReap | internal/reconciler/reconciler.go:235-249 | likewise for reaping |
| Reconciler.Reconciler.ReconcileOnce | internal/reconciler/reconciler.go:55-100 | refuses a second pass in flight; fails with nothing changed if a listing fails; otherwise is the whole pass over the sorted join, and keeps at most one container per id and every foreign container |
| Control.AdmitSandbox | internal/control/control.go:38-49 | a create is admitted if and only if its spec resolves and its lifetime is from 0 to 24 hours, and its expiry is then within 24 hours |
| Control.Control.CreateSandbox | internal/control/control.go:35-61 | the create on the tables; only an invalid spec is the caller's error |
| Control.Control.KeepaliveSandbox | internal/control/control.go:63-80 | the clamped renewal on the tables |
| Control.Control.DestroySandbox | internal/control/control.go:82-114 | load and guarded write come to the destroy on the tables |
| Control.DestroySettles | internal/control/control.go:86-114 | an uninterrupted destroy that succeeds leaves a row that was past pending settled, and changes nothing if there was no row, a pending row, or a failure |
| Protocol.AdvanceWrites | internal/control/control.go:35-114 | whatever an API call writes between any other steps is one transaction of the store, and of transitions only running to stopping |
| Protocol.DestroyStepsCompose | internal/control/control.go:86-114 | the protocol's two steps of a destroy, run back to back, are the uninterrupted destroy and tell its caller the same, a failing load included |
| Protocol.KeepaliveStepsCompose | internal/control/control.go:63-80 | the protocol's two steps of a keepalive, run back to back, are the uninterrupted keepalive |
| Protocol.CreateStepsCompose | internal/store/sqlite/sqlite.go:262-334 | the protocol's steps of a create, run back to back, are the uninterrupted create, replay and a failing key look-up included |
| Protocol.ItemStepsCompose | internal/reconciler/reconciler.go:172-266 | the protocol's calls for one item, run back to back, are its uninterrupted handling |
| Protocol.PassStepsCompose | internal/reconciler/reconciler.go:76-99 | a pass nothing interrupts is the whole pass, under any faults |
| Protocol.PassIsAlone | internal/reconciler/reconciler.go:58-61 | what a pass works on, nothing but its own calls and a crash changes, and no second pass begins before it is through |
| Safety.NextKeepsInv | internal/reconciler/reconciler.go:55-100 | every step of every caller, of the pass, of a fault, an exit or a crash keeps the invariant |
| Safety.RunsAreSafe | internal/control/control.go:35-114 | the invariant holds in every reachable world |
| Safety.DestroyWriteSettles | internal/control/control.go:101-110 | a destroy that read a row past pending and whose late guarded write is reported as success leaves the row settled, whatever ran between |
| Safety.CreateOnlyWhenAbsent | internal/reconciler/reconciler.go:69-82 | a create is called only for an id that has a row and, at that moment, no container |
| Agreement.ApiMoveKeepsClean | internal/control/control.go:35-114 | an API step between any two calls of a pass keeps the agreement invariant |
| Agreement.PassCallKeepsClean | internal/reconciler/reconciler.go:172-266 | a faultless call of a pass with a stale snapshot keeps it |
| Agreement.IdleMeansAgreement | internal/reconciler/reconciler.go:55-100 | in every fault-free run, whenever no pass is in flight: running rows have running containers, pending and terminal rows have none, containers have rows |
| Agreement.OnlyExpiredOrStoppingIsTakenDown | internal/reconciler/reconciler.go:191-260 | in every fault-free run, at every call of a pass: it never undoes a create, fails a row only past the expiry it listed, and removes a container only then or to finish a stop |
| Guarantees.HistoryOfEveryRun | internal/store/sqlite/sqlite.go:194-260 | in every run, with any faults and interleavings, a sandbox's events are gapless, legal, end at the row's state and version, and number at most four |
| Guarantees.CreatesWithOneKeyAgree | internal/store/sqlite/sqlite.go:276-331 | in every run all successful creates with one key returned the same sandbox and spec, which the row still has, and no other key names it |
| Guarantees.DestroySticksIff | internal/control/control.go:82-114 | a successful destroy leaves the sandbox settled at every later point of every run if and only if it had read a row past pending |
| Guarantees.DestroyBeforeCreate | internal/control/control.go:91-96 | a run in which a destroy of an absent id succeeds and the id is created later |
| Guarantees.DestroyWhilePending | internal/control/control.go:101-109 | a run in which a destroy succeeds on a pending row and the sandbox then runs |
| Guarantees.KeepaliveCanLose | internal/store/sqlite/sqlite.go:44-48 | a run in which a keepalive succeeds and a pass that listed the row before it still reaps the sandbox |
| Renewal.LeaseKeepsIff | internal/store/sqlite/sqlite.go:44-48 | at any point of any run, faults included: while a live row's lease stands no run destroys its container to reap it nor commits the reap, if and only if no pass in flight has this version of the row on its list under an older lease |
| Renewal.LapsedIsReaped | internal/reconciler/reconciler.go:76-96 | a pass that has the row on its list as expired works its way, call by call, to a reap that commits |
| Renewal.ReapIsLapsed | internal/reconciler/reconciler.go:321-324 | only an item past the lease it was listed with leads to a reap |
| Renewal.RunKeepsPending | internal/reconciler/reconciler.go:64-96 | in every run, a row a pass listed as pending stays pending until the pass makes a call for it |
| Guarantees.CreatedSpecsResolve | internal/reconciler/reconciler.go:191-202 | in every run all rows have specs that resolve, so a pass that decides to create never takes the branch for specs that do not |
| Guarantees.NeverASecondContainer | internal/reconciler/reconciler.go:69-82 | in every run, faults and crashes included, no pass creates over an existing container and no container lacks a row |
| Guarantees.EveryCreateIsAccounted | internal/reconciler/reconciler.go:191-217 | however API calls, outside changes to containers and faults interleave with the calls of a create, it ends committed over its container, or with the container gone, or with an error naming the failure that left it, if and only if its last call was neither a daemon create whose reply was lost nor a write-back over a container somebody else removed; a leak it reports is real, lost or outside removals aside |
| Guarantees.LostReplyIsUnaccounted | internal/runtime/docker/docker.go:267-275 | a run in which a create ends with a plain daemon error, its container there and its row pending |
| Guarantees.VanishedIsUnaccounted | internal/reconciler/reconciler.go:203-209 | a run in which the write-back of a create commits after its container was removed from outside |
| Guarantees.MarkFollowsDestroy | internal/reconciler/reconciler.go:218-249 | in every run, at the destroy of a destroy or reap: only its success leads on to the mark, the container gone; its failure ends the action with that error, the tables untouched |
| Guarantees.TakenDownIsGone | internal/reconciler/reconciler.go:218-257 | in every run with any faults, when a pass stops a row or fails it for its expiry the container is gone by then and through the write |
| Guarantees.EveryRunRecovers | internal/reconciler/reconciler.go:55-100 | from the state any run leaves, crashes included, two uninterrupted faultless passes converge |
| Guarantees.LeaseBoundsLife | internal/reconciler/reconciler.go:235-249 | the first uninterrupted faultless pass more than 24 hours after a row's last create or keepalive leaves it terminal and its container gone |
| Guarantees.EveryRowIsLeased | internal/control/control.go:44-74 | in every run each row's expiry is within 24 hours after the clock reading of its last create or keepalive |
| Stream.CappedWriter.Write | internal/runtime/docker/stream.go:24-33 | over every sequence of writes: the full length is claimed, the buffer is the first limit bytes of everything written or all of them, the flag is set exactly when more was written |
| Stream.CopyFrames | internal/runtime/docker/docker.go:393-398 | each writer receives exactly its own stream's payloads, in order |
| Stream.CaptureFrames | internal/runtime/docker/docker.go:317-327 | each stream's capture and truncation flag depend only on its own payload |
| Stream.InterleavingIsInvisible | internal/runtime/docker/docker.go:312-318 | swapping neighbouring frames of different streams changes neither payload |
| Stream.ChunkingIsInvisible | internal/runtime/docker/docker.go:312-318 | splitting a frame in two changes no payload |
| Paths.SplitOfJoin | internal/runtime/docker/file_archive.go:28-34 | joining components with slashes and splitting again gives them back |
| Paths.ComponentsOfRender | internal/runtime/file_info.go:33-35 | a rendered list of good components names those components, with or without a trailing slash |
| Paths.JoinPathAppends | internal/runtime/docker/file_archive.go:91-108 | joining an entry name onto a rooted parent appends its components |
| Paths.DirAndBase | internal/runtime/docker/file_archive.go:61-97 | parent and base name of a valid path are its components without the last, and the last |
| Paths.ValidPathsAreRenderings | internal/runtime/file_info.go:26-49 | a path is accepted exactly when it is the rendering of some list of good components, and for reading exactly when that list is not empty |
| Paths.CleaningLaws | internal/runtime/file_info.go:33-35 | cleaning a rooted path, one component at a time: an empty one and a dot are nothing, two dots leave the last directory and stay at the root, anything else is entered |
| Paths.ValidatorsAnswer | internal/runtime/file_info.go:26-65 | the validators' verdicts: invalid path, the root as file target, more than ten mebibytes |
| Archive.FileArchive | internal/runtime/docker/file_archive.go:20-57 | a validated path yields its ancestors as directory entries, outermost first, then the file with its permission bits |
| Archive.MakesDirs | internal/runtime/docker/file_archive.go:32-40 | extracting the directory entries makes exactly those directories and changes nothing else |
| Archive.WriteLands | internal/runtime/docker/docker.go:433-470 | extracting the archive puts the file in place under its ancestors, leaves the rest of the tree alone and the tree well formed |
| Archive.WrittenIsWellFormed | internal/runtime/docker/docker.go:433-470 | a tree after a write still has a directory above every node |
| Archive.FileUnarchive | internal/runtime/docker/file_archive.go:59-89 | the first regular entry of the base name decides: its bytes or its size cap; otherwise not-found, or the stream's own failure |
| Archive.WantedIsTheFile | internal/runtime/docker/file_archive.go:61-76 | in a stream of any subtree, links included, the only entry a read takes is the one of the path itself, and only if it is a file |
| Archive.WriteThenRead | internal/runtime/docker/docker.go:433-507 | after a validated write whose ancestors are absent or directories, reading any stream of that path returns exactly the bytes written |
| Archive.ReaderAnswers | internal/runtime/docker/file_archive.go:59-89 | over any stream, entry by entry: the first regular file of the name decides, by ten mebibytes; links and directories of the name are passed over, and where no file is left the path is not found or the stream's failure reported |
| Archive.ReadOfNoFile | internal/runtime/docker/file_archive.go:72-88 | reading a path that holds a directory, a link or nothing is not found, or the stream's failure |
| Archive.ModesSpelledOut | internal/runtime/docker/file_archive.go:18-54 | the archive's entries by name and number: directories 0750, the file its permission bits alone |
| Archive.WriteLeavesOtherFiles | internal/runtime/docker/docker.go:433-470 | every other file not below the path keeps its content |
| Archive.ListDirectoryFromTarStream | internal/runtime/docker/file_archive.go:91-128 | the whole list of kept entries when there are at most 1000 and the stream is sound; otherwise an error and no partial list |
| Archive.KeptAreDescendants | internal/runtime/docker/file_archive.go:107-120 | the entries kept describe the proper descendants, each under its absolute path, which the validator accepts |
| Archive.DescendantsAreExact | internal/runtime/docker/file_archive.go:111-113 | only the listed directory itself is skipped, and nothing appears twice |
| Archive.ListingIsExact | internal/runtime/docker/file_archive.go:91-128 | for a non-root directory and any stream of its subtree: with more than 1000 descendants the reader fails; otherwise, unless the stream breaks, it returns every descendant exactly once under an accepted absolute path, no two alike |
| Archive.ListingOfNoDirectory | internal/runtime/docker/file_archive.go:108-120 | listing a path that is no directory lists that one node: only a directory is left out of its own listing |

## Assumptions

- Platform ids and idempotency keys are unique columns, a new row has version 1, and a
  sandbox's event versions are unique
  (`internal/store/sqlite/migrations/000001_create_store.up.sql:1-32`). Transactions are atomic
  because the store holds one connection (`internal/store/sqlite/sqlite.go:113`).
- One reconciler: its passes do not overlap, and nobody else creates managed containers
  (`internal/reconciler/reconciler.go:308-310`). They may exit, come back and vanish at any time.
  At most one managed container per id, which `ReconcileOnce` requires and keeps, is what makes
  Docker's destroy, which removes the first match only, the abstract one;
  `CreateOnlyWhenAbsent` shows for every interleaving that a create finds none.
- A daemon call is done, or refused, or done with its reply lost; a listing is one atomic read.
- The stored spec decodes to the one submitted.

## Left out

- Columns that decide nothing: created, updated and event timestamps and autoincrement ids.
- A commit that fails after taking effect: a failed commit is a rolled-back one.
- The SQL engine, migrations, JSON and YAML decoding, tar block layout and UUID parsing; a canonical id is described by its characters.
- White space and letter case beyond ASCII in memory sizes.
- CPU limits as floating point: they are reals here, so NaN and infinity are not covered.
- The sorting algorithm of the standard library: the sort is an insertion sort with the same contract.
- Negative limits of a capped writer, which no caller passes.
- The daemon itself: how it extracts and streams archives is a model, in which symbolic links and special files are one kind of node that is never followed, without ownership, and with a header's size equal to its content's length.
- The clock may step to any value, forward or back; instants are integers and the zero instant is 0.
- Exec beyond its capture (attach, timeout, kill), image pulls beyond their failure, Inspect, RequireRunning and RemovePath.
- HTTP routing, client, command line, daemon wiring, logging and error wrapping; errors keep only the sentinel and, where one is reported beside another, both.
- Steps inside one call of the runtime: in the protocol, Docker's create, start and clean-up are one step, and so are its look-up and removal.
- The store's CreateIdempotencyKey (`internal/store/sqlite/sqlite.go:147-157`), which nothing calls: it could give a row a second key, and the pairing of keys and rows rests on its not being used.
- The ticker and jitter of `Start`: a pass may begin at any step.
- handleAction and pairSnapshots are one function each in the source and several methods here, one per switch arm or loop.
