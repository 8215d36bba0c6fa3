# Verified model of the JAM node core

A Dafny model of the parts of this repository that carry its logic, with proofs about them:

- the Gray Paper state transitions: Safrole (`Tickets`, `Safrole`, `SafroleRuns`, `SafroleLaws`), recent
  history with its Merkle mountain range (`MountainRange`, `History`) and disputes (`Multimap`, `Disputes`,
  `DisputesRuns`, `DisputesLaws`);
- the concurrent runtime: the task scheduler and its wake-up event (`TaskQueue`, `SchedulerMachine`,
  `SchedulerLaws`), the dispatcher (`DispatcherMachine`, `DispatcherLaws`), the channel's linking protocol
  (`Channel`, `ChannelRuns`, `ChannelLaws`), the subscription engine (`Subscription`, `SubscriptionRuns`,
  `SubscriptionLaws`) and the application state manager (`Lifecycle`, `LifecycleLaws`);
- the in-memory ordered store with its cursor and batch (`Hex`, `OrderedMap`, `Storage`, `StorageRuns`);
- the hand-written Keccak-256 (`KeccakPermutation`, `Sponge`, `Keccak`, `KeccakLaws`).

`dafny verify dfyconfig.toml` checks everything.

## How the model is built

Code that changes things step by step is a method or a class, proved equal to a specification function
on values; the theorems are about those functions and about whole runs of them. Concurrent code is a
machine whose steps are the source's atomic actions: every theorem about it covers every interleaving.

The modules named `Laws` say what the specification functions mean without relying on how they are
written: acceptance, every error and every part of the new state by conditions on the input; what a run
leaves behind in terms of the calls that were made; and Keccak in the terms of FIPS 202.

Calls into foreign code are parameters. Hashes, ring verification, ring commitments and signature checks
are arbitrary functions in a `Primitives` record, so nothing depends on what they compute; where a claim
rests on a collision-free hash the proof extracts the colliding inputs. Fixed-length byte strings are
numbers read big-endian, so that `<` is the byte order the source compares with. Clock readings are
inputs that do not decrease along a run.

Widths are written out where they matter: `5 * E` and `e + 1` wrap as `uint32_t` in Safrole, vote
counters wrap as `uint16_t` in disputes, and Keccak works on 64-bit vectors. Rotating by 0 is the
identity; the C++ expression shifts by 64 there, which the language leaves undefined.

Eight places where a natural reading is false of the code. Each has a concrete witness and an exact
condition:

- One dispute block can make a report both bad and good (`BadAndGoodAtOnce`). The verdict sets stay
  disjoint exactly when the block's culprits and faults agree with the verdicts (`DisjointExactly`).
- Committing a batch does not apply its removals (`RemovalIsLost`). It equals replaying the calls exactly
  when no stored key was last removed in the batch (`CommitReplaysExactly`).
- One dispute block can name a key twice in its offender mark (`MarkedTwice`). It does not exactly when
  none of its culprits is also a fault (`MarksOnceExactly`).
- A shutdown request tests the stage twice and then stores it, in three steps, so a store can come after
  the last stage has been reached. The stage goes backwards exactly when one does (`NeverBackwardsExactly`).
  `run` throws exactly when one falls between its last exchange and its final check (`ThrowsExactly`,
  with a witness in `LateRequestThrows`). Shutdown callbacks stay uncalled at the end exactly when some
  were accepted after a late store (`ShutdownCallsEach`, with a witness in `LateCallbackIsLost`).
- A sender's destructor signals the receiver after it has let it go, and by then the receiver's own
  destructor can have finished (`ReceiverGoesFirst`). The receiver stays alive up to the signal exactly
  when nobody finishes destroying it meanwhile (`ReleasedStaysAliveExactly`).
- Moving into a linked endpoint leaves its former opposite with a pointer that is not returned
  (`MoveLeavesStalePointer`). A move keeps pointers mutual exactly when its target is unlinked
  (`MoveNeedsUnlinkedTarget`).
- Two moves can block each other for good (`CrossingMovesBlock`). Two moves that hold their targets wait
  for each other exactly when each one's source is the other's target (`CrossingMovesExactly`).
- Ticket submission does not end after five sixths of every epoch (`TailWraps`): it does exactly when five
  times the epoch length fits 32 bits (`TailExactly`).

Three more where code and comments differ, modelled as coded. `seek` reports whether a position was
found, not whether the key was. `unsubscribe` of a set id reports whether the set has an entry, which an
emptied set still has. The duplicate check on tickets compares whole tickets although the set is ordered
by identifier alone, so an identifier that is already held under another attempt number passes
(`RepeatedIdentifierPasses`).

## Model

| member | source | states |
|---|---|---|
| Tickets.InsertKeepsOrder | test-vectors/safrole/safrole.hpp:33-38 | inserting into the ordered ticket set keeps it strictly ascending and adds only the new identifier |
| Tickets.LowestIsUnique | test-vectors/safrole/safrole.hpp:291-296 | "the k lowest identifiers" names one set, so accumulator claims pin down its contents |
| Safrole.Phi | test-vectors/safrole/safrole.hpp:201-210 | the loop blanks exactly the validators whose Ed25519 key offends and keeps every place |
| Safrole.BandersnatchKeys | test-vectors/safrole/safrole.hpp:65-73 | the loop collects each validator's Bandersnatch key in order |
| Safrole.AccumulateTickets | test-vectors/safrole/safrole.hpp:244-297 | the mutating loop with its early errors computes the accumulation function |
| Safrole.AdmitKeepsLowest | test-vectors/safrole/safrole.hpp:288-296 | insert-then-drop-largest leaves the E lowest identifiers of the accumulator and the newcomer |
| Safrole.AccumulateLowest | test-vectors/safrole/safrole.hpp:244-297 | for accepted extrinsics of any length the result is the E lowest identifiers of prior and submitted ones |
| Safrole.AdmittedExactly | test-vectors/safrole/safrole.hpp:250-289 | an extrinsic is admitted if and only if every envelope fits at its turn, and admission applies them all |
| Safrole.RepeatedIdentifierPasses | test-vectors/safrole/safrole.hpp:273-278 | a held identifier under another attempt is not a duplicate and leaves the accumulator alone; the same ticket is refused |
| Safrole.Sequence | test-vectors/safrole/safrole.hpp:301-320 | the two-iterator loop never leaves the range and gives the outside-in order, or fails on a wrong length |
| Safrole.SequenceInverse | test-vectors/safrole/safrole.hpp:301-320 | the sequencer has a two-sided inverse at every length |
| Safrole.SequencePermutes | test-vectors/safrole/safrole.hpp:308-318 | the sequencer loses, adds and repeats nothing |
| Safrole.FallbackKeys | test-vectors/safrole/safrole.hpp:324-336 | the loop draws one validator key per slot, always within the validator list |
| Safrole.RunTransition | test-vectors/safrole/safrole.hpp:102-382 | the step-by-step transition, with all its errors, is the transition function, whose every outcome and part of the state `SafroleLaws` and `SafroleRuns` determine |
| SafroleRuns.TimeIncreases | test-vectors/safrole/safrole.hpp:161-168 | along every run slots strictly increase and epochs never go back |
| SafroleRuns.NextEpochDoesNotWrap | test-vectors/safrole/safrole.hpp:339-343 | the `uint32_t` test for the next epoch is plain addition on every accepted block |
| SafroleRuns.AccumulatorStep | test-vectors/safrole/safrole.hpp:240-297 | one accepted block keeps the accumulator sound and makes it the E lowest of prior (or none in a new epoch) and submitted |
| SafroleRuns.TailFreezes | test-vectors/safrole/safrole.hpp:192-197 | after the submission tail an accepted block leaves the accumulator alone, or empty when it opens an epoch |
| SafroleRuns.AlwaysSound | test-vectors/safrole/safrole.hpp:244-297 | every reachable accumulator ascends strictly, has at most E tickets and only attempts below N |
| SafroleRuns.AccumulatorIsLowestOfEpoch | test-vectors/safrole/safrole.hpp:240-297 | at every moment of every run the accumulator is the E lowest of all identifiers submitted since its epoch began |
| SafroleRuns.SeriesMatchesMark | test-vectors/safrole/safrole.hpp:339-343 | entering the next epoch installs a ticket series if and only if the old epoch emitted a mark, and it is that mark; skipping an epoch installs keys |
| SafroleRuns.OneMarkPerEpoch | test-vectors/safrole/safrole.hpp:376-379 | on every run each epoch emits at most one tickets mark |
| SafroleRuns.SeriesIsLowestOfEpoch | test-vectors/safrole/safrole.hpp:299-343 | a ticket series has exactly E distinct tickets, the lowest of all submitted in the epoch before |
| SafroleRuns.RotationIsHistory | test-vectors/safrole/safrole.hpp:211-238 | in every reachable state the validator sets and epoch entropies are the last three of their histories at epoch changes |
| SafroleRuns.RingFollowsValidators | test-vectors/safrole/safrole.hpp:211-222 | validator list lengths are kept and the ring commitment is always that of the next set |
| SafroleRuns.EpochMarkAnnounces | test-vectors/safrole/safrole.hpp:345-356 | an epoch mark appears exactly on blocks that open an epoch, with the right entropies and keys |
| SafroleLaws.TailExactly | test-vectors/safrole/safrole.hpp:119 | submission ends after floor(5E/6) slots if and only if 5E fits 32 bits |
| SafroleLaws.TailWraps | test-vectors/safrole/safrole.hpp:119 | the shortest epoch for which it does not: submission ends at once |
| SafroleLaws.RefusedExactly | test-vectors/safrole/safrole.hpp:250-285 | an extrinsic is refused with an error if and only if the first envelope at fault has that fault; proof, attempt, duplicate and order are tried in this order |
| SafroleLaws.OutcomeExactly | test-vectors/safrole/safrole.hpp:166-297 | every outcome of a block by conditions on state and input: bad slot, more than 16 tickets, late tickets, wrong number of validators, ticket errors, acceptance; tickets are checked with the prior commitment and the posterior second entropy |
| SafroleLaws.EntropyIsFold | test-vectors/safrole/safrole.hpp:230 | on every run the entropy accumulator is the fold of all blocks' entropies, across epochs |
| SafroleLaws.OffendersAreBlanked | test-vectors/safrole/safrole.hpp:201-222 | opening an epoch blanks exactly the validators whose Ed25519 key offends; the epoch mark lists the Bandersnatch keys and the commitment is made over them |
| SafroleLaws.SeriesIsKept | test-vectors/safrole/safrole.hpp:339-343 | a block inside its epoch keeps the sealing series |
| SafroleLaws.SeriesLastsItsEpoch | test-vectors/safrole/safrole.hpp:339-343 | on every run all states of an epoch have the same series, the one its first block installed |
| SafroleLaws.KeySeriesIsDrawn | test-vectors/safrole/safrole.hpp:324-343 | a key series has E keys, each the Bandersnatch key drawn for its slot from the posterior current validators with the posterior second entropy |
| SafroleLaws.SeriesAlternates | test-vectors/safrole/safrole.hpp:301-320 | a ticket series alternates between the lowest and the highest identifier that is left |
| SafroleLaws.MarkExactly | test-vectors/safrole/safrole.hpp:376-379 | a tickets mark is emitted if and only if the block stays in its epoch, crosses the submission end and finds E tickets |
| SafroleLaws.TicketsAreGenuine | test-vectors/safrole/safrole.hpp:240-297 | on every run each accumulated ticket was proved for its own attempt by an envelope of the same epoch |
| MountainRange.AppendPeak | test-vectors/history/history.hpp:27-38 | the carry loop is the recursive append, and the pairs it hashes are the carried ones in order |
| MountainRange.RangeByLevels | test-vectors/history/history.hpp:27-38 | the lowest peak is the odd leaf and the rest is the range of the hashed pairs |
| MountainRange.PeakIsRoot | test-vectors/history/history.hpp:27-38 | peak n is present if and only if bit n of the count is set, and is the perfect tree root over its span |
| MountainRange.SpansTile | test-vectors/history/history.hpp:27-38 | the spans under the present peaks tile the leaves without gap or overlap |
| MountainRange.HashedExactly | test-vectors/history/history.hpp:27-38 | the pairs hashed by the appends from empty are exactly the pairs of all levels of the trees over the leaves |
| MountainRange.RangeBinds | test-vectors/history/history.hpp:27-38 | different leaf sequences with equal peaks, of any lengths, yield two colliding pairs, each hashed by the appends of its sequence |
| MountainRange.HashesByPopCount | test-vectors/history/history.hpp:27-38 | n appends from empty use exactly n minus popcount(n) hashes |
| History.Transition | test-vectors/history/history.hpp:43-71 | the in-place edit of the history computes the next history |
| History.HistoryIsRecent | test-vectors/history/history.hpp:43-71 | after any k blocks the history is exactly the last min(k, 8) records, each with its own range and the next block's parent root |
| History.HoldsLastEight | test-vectors/history/history.hpp:43-71 | after any run there are min(k, 8) records of the last blocks, each with its header hash, packages, range over all roots so far and the state root its child reported |
| History.NextExactly | test-vectors/history/history.hpp:43-71 | from any history, also one that is too long: one record goes when there are eight or more, the newest is completed, the others stay, and the range goes on from the newest |
| Multimap.GroupsPartition | test-vectors/disputes/disputes.hpp:34-69 | group iteration visits every entry exactly once, one group per key, keys ascending |
| Multimap.GroupIterator.Current | test-vectors/disputes/disputes.hpp:56-60 | the iterator's begin and end delimit the first remaining group |
| Multimap.GroupIterator.Advance | test-vectors/disputes/disputes.hpp:51-55 | advancing drops exactly that group |
| Disputes.CheckVotes | test-vectors/disputes/disputes.hpp:200-230 | the early-return loop over judgements reports the first error |
| Disputes.CheckVerdicts | test-vectors/disputes/disputes.hpp:168-245 | the verdict loop reports the first error, and otherwise registers exactly the votes on reports not judged before |
| Disputes.CheckCulprits | test-vectors/disputes/disputes.hpp:255-304 | the culprit loop reports the first error or builds the multimap of all culprits |
| Disputes.CheckFaults | test-vectors/disputes/disputes.hpp:313-374 | the fault loop reports the first error or builds the multimap of all faults |
| Disputes.CountVotes | test-vectors/disputes/disputes.hpp:376-384 | counting in any iteration order gives every report's tally |
| Disputes.FindOrphan | test-vectors/disputes/disputes.hpp:386-392 | reports a culprit whose report has no vote against it, if and only if there is one |
| Disputes.AnalyseVerdicts | test-vectors/disputes/disputes.hpp:420-462 | in any iteration order passes if and only if every tally has its required culprits and faults, and collects exactly the wonky reports |
| Disputes.AnalyseCulprits | test-vectors/disputes/disputes.hpp:464-473 | condemns exactly the culprits' reports and marks exactly their keys, in order |
| Disputes.AnalyseFaults | test-vectors/disputes/disputes.hpp:475-487 | clears exactly the faults' reports and marks exactly their keys, or stops at a fault that voted in favour |
| Disputes.ClearReports | test-vectors/disputes/disputes.hpp:489-504 | empties exactly the cores that hold a bad or wonky report |
| Disputes.Transition | test-vectors/disputes/disputes.hpp:99-518 | acceptance and the accepted state and mark do not depend on hash map iteration order; verdict, culprit and fault errors come in this order, then orphaned culprits, defective reports and favourable faults; `DisputesLaws` says what each means |
| DisputesRuns.VotesErrorExactly | test-vectors/disputes/disputes.hpp:200-230 | judgements pass if and only if all are signed by the named validator and indices strictly increase |
| DisputesRuns.VerdictsErrorExactly | test-vectors/disputes/disputes.hpp:172-231 | verdicts pass if and only if each is sound and reports strictly ascend |
| DisputesRuns.CulpritsErrorExactly | test-vectors/disputes/disputes.hpp:257-303 | culprits pass if and only if each is sound and keys strictly ascend |
| DisputesRuns.FaultsErrorExactly | test-vectors/disputes/disputes.hpp:315-373 | faults pass if and only if each is sound and keys strictly ascend |
| DisputesRuns.VotesBounded | test-vectors/disputes/disputes.hpp:192-230 | a verdict has at most one vote per validator |
| DisputesRuns.TallyIsTrue | test-vectors/disputes/disputes.hpp:376-384 | the 16-bit tally of an accepted verdict is its true vote count |
| DisputesRuns.ThresholdsExclusive | test-vectors/disputes/disputes.hpp:421-434 | the bad, good and wonky thresholds exclude each other if and only if V is below the super-majority and half of it |
| DisputesRuns.TwoThirdsExclusive | test-vectors/disputes/disputes.hpp:421-434 | two thirds plus one of a V divisible by three meets that condition |
| DisputesRuns.TalliesAreClear | test-vectors/disputes/disputes.hpp:421-434 | with V validators in both sets no registered tally meets two thresholds |
| DisputesRuns.VerdictsStick | test-vectors/disputes/disputes.hpp:394-487 | an accepted block grows all four sets and moves no judged report to another verdict |
| DisputesRuns.VerdictLands | test-vectors/disputes/disputes.hpp:421-487 | every report voted on lands in the set of its class |
| DisputesRuns.MarkIsNewOffenders | test-vectors/disputes/disputes.hpp:415-485 | the mark is exactly the new offenders, one entry per culprit and fault, all in the current validator set |
| DisputesRuns.CoresAreClean | test-vectors/disputes/disputes.hpp:492-504 | afterwards no core holds a bad or wonky report and the other cores are untouched |
| DisputesRuns.DisjointExactly | test-vectors/disputes/disputes.hpp:464-487 | an accepted block keeps the verdict sets disjoint if and only if its accusations are consistent with its verdicts |
| DisputesRuns.BadAndGoodAtOnce | test-vectors/disputes/disputes.hpp:464-487 | a concrete accepted block, at V = 3 and super-majority 3 and for any scheme that accepts its signatures, that makes one report both bad and good |
| DisputesRuns.VerdictsStickForever | test-vectors/disputes/disputes.hpp:394-487 | along every run the sets only grow and no judged report enters another verdict set |
| DisputesRuns.MarksOnceExactly | test-vectors/disputes/disputes.hpp:469-483 | an accepted block marks nobody twice if and only if no culprit is also a fault |
| DisputesRuns.MarkedTwice | test-vectors/disputes/disputes.hpp:469-483 | a concrete accepted block whose mark names one key twice |
| DisputesRuns.MarksAreDisjoint | test-vectors/disputes/disputes.hpp:415-485 | no two blocks of a run mark the same key |
| DisputesRuns.ConsistentRunsStayDisjoint | test-vectors/disputes/disputes.hpp:464-487 | runs of consistent blocks keep the three verdict sets disjoint |
| DisputesLaws.ProperExactly | test-vectors/disputes/disputes.hpp:170-231 | a verdict is sound if and only if it is of the current epoch and signed by kappa's keys, or of the one before and signed by lambda's, with enough judgements in strict order |
| DisputesLaws.AcceptedExactly | test-vectors/disputes/disputes.hpp:168-487 | a block is accepted if and only if its verdicts, culprits and faults are proper, its culprits are judged in it, and each new report has the culprits or faults its 16-bit vote counts demand |
| DisputesLaws.AftermathExactly | test-vectors/disputes/disputes.hpp:396-514 | the state after an accepted block in full: targets of faults become good, of culprits bad, undecided reports wonky, the accused offenders; cores lose bad and wonky reports; nothing else changes |
| DisputesLaws.MarkIsSorted | test-vectors/disputes/disputes.hpp:464-487 | the mark lists the culprits' keys and then the faults', each by report and then by key, none lost or added |
| DisputesLaws.VotesRefused | test-vectors/disputes/disputes.hpp:200-230 | the first judgement at fault decides the error, tried as order, index, signature |
| DisputesLaws.VerdictsRefused | test-vectors/disputes/disputes.hpp:172-231 | the first verdict at fault decides the error, tried as age, order, number of judgements, judgements |
| DisputesLaws.CulpritsRefused | test-vectors/disputes/disputes.hpp:255-304 | the first culprit at fault decides the error, tried as signature, judged before, validator, order, offender |
| DisputesLaws.FaultsRefused | test-vectors/disputes/disputes.hpp:313-374 | the first fault that is wrong decides the error, tried as wonky, verdict, validator, signature, order, offender |
| TaskQueue.InsertKeepsStable | src/se/impl/scheduler_impl.hpp:65-76 | insertion keeps deadlines sorted and puts a task behind those of equal deadline |
| TaskQueue.InsertMembers | src/se/impl/scheduler_impl.hpp:73-76 | insertion adds exactly the new task |
| TaskQueue.WaitEndsInTime | src/se/impl/scheduler_impl.hpp:96-111 | the wait never outlasts the earliest deadline and is less than a microsecond short of it |
| TaskQueue.ExtractedIsFirst | src/se/impl/scheduler_impl.hpp:78-93 | an extracted task is due and precedes all others, ties in insertion order |
| TaskQueue.NothingDue | src/se/impl/scheduler_impl.hpp:78-93 | when nothing is extracted no queued task is due |
| TaskQueue.Event.Set | src/se/impl/common.hpp:197-203 | signalling leaves the event signalled |
| TaskQueue.Event.Poll | src/se/impl/common.hpp:168-175 | the wait predicate reports the signal and consumes it |
| TaskQueue.Scheduler.FindAfter | src/se/impl/scheduler_impl.hpp:65-71 | the binary search finds the position after all tasks of no later deadline |
| TaskQueue.Scheduler.Add | src/se/impl/scheduler_impl.hpp:113-121 | queues the task in order, raises the event, and marks busy on zero delay |
| TaskQueue.Scheduler.ExtractExpired | src/se/impl/scheduler_impl.hpp:78-93 | takes the front task if and only if it is due, and busy says whether it did |
| TaskQueue.Scheduler.TimeUntilFirst | src/se/impl/scheduler_impl.hpp:96-111 | computes the wait, which no queued deadline undercuts |
| TaskQueue.Scheduler.UploadIfFree | src/se/impl/scheduler_impl.hpp:168-177 | takes the task if and only if it is free, otherwise changes nothing |
| TaskQueue.UploadToPool | src/se/impl/async_dispatcher_impl.hpp:73-80 | the first free worker gets the task and no other worker changes; nobody does if and only if all are busy |
| SchedulerMachine.WaitsForTheRightQueue | src/se/impl/scheduler_impl.hpp:128-156 | over every interleaving an unsignalled waiting worker's queue is the one it sampled, so no wake-up is lost |
| SchedulerMachine.NeverBlockedAfterDispose | src/se/impl/scheduler_impl.hpp:158-161 | after dispose the worker is never asleep without a signal |
| SchedulerMachine.ExitsSoonAfterDispose | src/se/impl/scheduler_impl.hpp:128-161 | after dispose the worker takes at most five more steps before it has left its loop |
| SchedulerMachine.TasksAreConserved | src/se/impl/scheduler_impl.hpp:113-177 | over every run each task is exactly one of queued, in hand and done; a free scheduler runs nothing and has nothing to run at once |
| SchedulerMachine.TakesTheEarliest | src/se/impl/scheduler_impl.hpp:78-93 | over every run the task taken is due and first |
| SchedulerLaws.TaskHistory | src/se/impl/scheduler_impl.hpp:113-190 | on every run each queued or running task was handed over with this delay and repetition, and created when it was last put into the queue |
| SchedulerLaws.NeverEarly | src/se/impl/scheduler_impl.hpp:78-94 | on every run a task is taken no earlier than its full delay, 1000 ns per microsecond, after it was last put into the queue; its time is the earliest of all queued, and on a tie it was first |
| SchedulerLaws.TakesWhenDue | src/se/impl/scheduler_impl.hpp:78-94 | an extraction takes a task if and only if some queued task is due |
| SchedulerLaws.NeverStuck | src/se/impl/scheduler_impl.hpp:128-156 | on every run the worker can go on until it has left its loop, unless an outsider holds the lock, who can always let go |
| SchedulerLaws.FinishExactly | src/se/impl/scheduler_impl.hpp:132-143 | a task that has run goes back if and only if it repeats and its predicate holds; otherwise it is done |
| SchedulerLaws.DoneIsFinal | src/se/impl/scheduler_impl.hpp:128-156 | on every run what is done is never queued or taken again |
| SchedulerLaws.ExitsOnlyOnDispose | src/se/impl/scheduler_impl.hpp:154-161 | on every run the worker leaves its loop only after a dispose has begun |
| SchedulerLaws.BusyForAReason | src/se/impl/scheduler_impl.hpp:78-123 | on every run a worker that found nothing to do is busy only when a task without delay is queued |
| SchedulerLaws.SleepIsMeasured | src/se/impl/scheduler_impl.hpp:96-111 | every wait was measured from the queue and clock at one step: whole microseconds to the first deadline, none when it is past, ten minutes when nothing is queued |
| SchedulerLaws.SleepIsBegun | src/se/impl/scheduler_impl.hpp:151 | every sleep was begun by an unsignalled test and lasts as long as was measured |
| SchedulerLaws.FallsAsleepExactly | src/se/impl/scheduler_impl.hpp:151 | the worker falls asleep if and only if the event is not signalled, and takes the signal away otherwise |
| SchedulerLaws.WakesExactly | src/se/impl/scheduler_impl.hpp:151 | a sleeping worker gets up if and only if it is signalled or its time has come |
| SchedulerLaws.ReaddSignals | src/se/impl/scheduler_impl.hpp:113-123 | every insertion, also that of a repeating task, ends with the event signalled |
| SchedulerLaws.AddIsTwoSteps | src/se/impl/scheduler_impl.hpp:113-123 | the scheduler object's add is the machine's insertion and signal |
| SchedulerLaws.UploadIsSteps | src/se/impl/scheduler_impl.hpp:168-177 | the scheduler object's upload is the machine's refusal, or insertion and signal |
| SchedulerLaws.ExtractIsStep | src/se/impl/scheduler_impl.hpp:78-94 | the scheduler object's extraction is the machine's step and yields the task that runs next |
| SchedulerLaws.MeasureIsStep | src/se/impl/scheduler_impl.hpp:96-111 | the scheduler object's waiting time is the machine's |
| DispatcherMachine.ExactlyOneScheduler | src/se/impl/async_dispatcher_impl.hpp:42-91 | over every interleaving each task is in transit or with exactly one scheduler |
| DispatcherMachine.PoolTakesOnlyWhenFree | src/se/impl/async_dispatcher_impl.hpp:73-80 | a pool worker takes a task only when it runs nothing and has nothing to run at once |
| DispatcherLaws.TasksKeepTheirTerms | src/se/impl/async_dispatcher_impl.hpp:42-92 | on every run each task a scheduler holds was dispatched with this very delay and repetition, to this scheduler or to the pool |
| DispatcherLaws.SpawnsWhenAllBusy | src/se/impl/async_dispatcher_impl.hpp:73-92 | a temporary worker is started only after every pool worker was found busy in turn, and gets that task alone |
| DispatcherLaws.TransitGoesOn | src/se/impl/async_dispatcher_impl.hpp:73-92 | on every run a task on its way can be offered to the next worker or given to a temporary one |
| ChannelRuns.LinksAreMutual | src/utils/channel.hpp:60-101 | over every interleaving two unlocked endpoints point at each other or neither does |
| ChannelRuns.QuietIsUnlocked | src/utils/channel.hpp:236-266 | with no operation in progress no lock is held, so mutual pointers hold for all endpoints |
| ChannelRuns.PointersAreSafe | src/utils/channel.hpp:169-285 | every endpoint reached through a pointer is alive before and while it is locked, and also when a send signals it after unlocking it; while locked it points back |
| ChannelRuns.ReleasedStaysAliveExactly | src/utils/channel.hpp:236-246 | an opposite that an operation has let go stays alive until a later moment if and only if no destructor of it finishes meanwhile |
| ChannelRuns.ReceiverGoesFirst | src/utils/channel.hpp:236-246 | a concrete run in which a sender's destructor is about to signal a receiver that is already destroyed |
| ChannelRuns.WaitsAreShort | src/utils/channel.hpp:169-285 | with one operation per endpoint at a time, except that sends may share a sender: an operation that is waited for does not itself wait, unless both are sends of one sender, and then the one it waits for does not |
| ChannelRuns.NoWaitCycles | src/utils/channel.hpp:169-285 | with one operation per endpoint at a time, except that sends may share a sender: no cycle of blocked acquisitions of any length arises over any interleaving |
| ChannelRuns.NeverStuck | src/utils/channel.hpp:169-285 | with one operation per endpoint at a time, except that sends may share a sender: while an operation is in progress some operation can take a step |
| ChannelRuns.CrossingMovesExactly | src/utils/channel.hpp:111-159 | without that assumption: two moves that hold their targets wait for each other if and only if each one's source is the other's target |
| ChannelRuns.CrossingMovesBlock | src/utils/channel.hpp:111-159 | two concrete crossing moves after which neither can take a step |
| ChannelRuns.MoveStepsAlone | src/utils/channel.hpp:111-159 | the steps of an uninterrupted move, from a linked or an unlinked source, have the stated effect on the pointers |
| ChannelRuns.MoveNeedsUnlinkedTarget | src/utils/channel.hpp:111-159 | a move keeps pointers mutual if and only if its target is unlinked |
| ChannelRuns.MoveLeavesStalePointer | src/utils/channel.hpp:111-159 | two channels in which a move into a linked sender leaves its former receiver pointing at it unreturned |
| ChannelLaws.LinksFollowCalls | src/utils/channel.hpp:60-285 | over every interleaving the connections change exactly by creation, by a destructor that has reached the opposite and by a move that has reached it; sends change none |
| ChannelLaws.FreePointersAreLinks | src/utils/channel.hpp:60-285 | over every interleaving the pointer of an unlocked endpoint is its connection and leads to a live endpoint |
| ChannelLaws.ReturnsExactly | src/utils/channel.hpp:60-285 | when an operation returns, a send has left the pointers alone, a destructor has removed its endpoint and connection, a move has left the source unconnected and the target with its connection |
| ChannelLaws.ReturnedHoldsNothing | src/utils/channel.hpp:60-285 | an operation that has returned holds no lock |
| ChannelLaws.CallsExactly | src/utils/channel.hpp:60-285 | which calls the runs contain: sends that share only with sends, and moves and destructors of endpoints nobody uses, moves into unconnected ones |
| Subscription.Engine.Subscribe | src/se/impl/subscription_engine.hpp:98-109 | appends one node under a new position, creating the list when needed |
| Subscription.Engine.Unsubscribe | src/se/impl/subscription_engine.hpp:116-127 | erases exactly the node at that position, and the key with its last node |
| Subscription.Engine.Notify | src/se/impl/subscription_engine.hpp:178-220 | schedules the live nodes in order and erases the dead ones; nothing without dispatcher or list |
| Subscription.Sweep | src/se/impl/subscription_engine.hpp:194-219 | the erase-while-iterating loop schedules each live node once and keeps exactly those |
| Subscription.PurgeHolds | src/se/impl/subscription_engine.hpp:199-218 | a notification removes a node if and only if it is under that key and its owner is dead |
| Subscription.Subscriber.Subscribe | src/se/impl/subscriber_impl.hpp:109-124 | adds an entry and a node unless the entry exists or the engine is gone |
| Subscription.Subscriber.UnsubscribeKey | src/se/impl/subscriber_impl.hpp:131-147 | drops the entry and its node, and reports whether there was one |
| Subscription.Subscriber.RemoveSet | src/se/impl/subscriber_impl.hpp:159-161 | the loop over a set removes its nodes in any key order, each position still valid at its turn |
| Subscription.Subscriber.UnsubscribeSet | src/se/impl/subscriber_impl.hpp:153-168 | drops the set and all its nodes, and reports whether the set had an entry |
| Subscription.Subscriber.UnsubscribeAll | src/se/impl/subscriber_impl.hpp:170-181 | drops all sets and all their nodes |
| SubscriptionRuns.AlwaysMatched | src/se/impl/subscriber_impl.hpp:109-181 | on every run every live subscriber's entries and its nodes in the engine match one to one |
| SubscriptionRuns.UnsubscribeRemovesOwn | src/se/impl/subscriber_impl.hpp:131-181 | each unsubscribe form removes exactly the nodes of its own subscriber, set and key |
| SubscriptionRuns.NotifySchedulesEach | src/se/impl/subscription_engine.hpp:178-220 | a notification schedules each live subscription of the key exactly once, in subscription order, and nothing else |
| SubscriptionLaws.SubscribedExactly | src/se/impl/subscriber_impl.hpp:109-181 | on every run a subscriber has an entry if and only if it asked for it while the engine existed and has not ended it since by any of the three unsubscribe forms |
| SubscriptionLaws.AliveExactly | src/se/impl/subscriber_impl.hpp:109-181 | on every run a subscriber exists from its creation to its destruction |
| SubscriptionLaws.NodesHaveACall | src/se/impl/subscription_engine.hpp:98-109 | on every run each node was made by a call of its owner for its set, key and thread |
| SubscriptionLaws.NotifyDropsDead | src/se/impl/subscription_engine.hpp:178-220 | a notification takes away exactly the nodes of its key whose owner is gone, and no key |
| SubscriptionLaws.SchedulesExactly | src/se/impl/subscription_engine.hpp:178-220 | a notification schedules exactly the nodes of its key whose owner lives |
| SubscriptionLaws.NothingAfterDispose | src/se/impl/subscription_engine.hpp:178-220 | on every run nothing is scheduled after the engine has been disposed of |
| SubscriptionLaws.RemoveKeysExactly | src/se/impl/subscription_engine.hpp:116-127 | a key goes if and only if its list loses its last node |
| Hex.RoundTrip | src/storage/in_memory/cursor.hpp:61-68 | decoding an encoded key gives the key back |
| Hex.EncodeKeepsOrder | src/storage/in_memory/cursor.hpp:22-24 | hexadecimal texts compare as the byte keys do, both ways |
| Hex.EncodeAt | src/storage/in_memory/cursor.hpp:22-24 | every byte becomes two lower-case digits, upper half first |
| Hex.KeyLessExactly | src/storage/in_memory/cursor.hpp:22-24 | the order of keys is lexicographic by bytes, a proper beginning first |
| OrderedMap.PutContents | src/storage/in_memory/in_memory_storage.cpp:35-46 | writing under a hex text updates exactly that key of the byte-keyed map |
| OrderedMap.EraseContents | src/storage/in_memory/in_memory_storage.cpp:52-59 | erasing a hex text removes exactly that key |
| Storage.InMemoryStorage.Get | src/storage/in_memory/in_memory_storage.cpp:17-24 | returns the stored value or not-found |
| Storage.InMemoryStorage.TryGet | src/storage/in_memory/in_memory_storage.cpp:26-33 | returns the stored value or nothing |
| Storage.InMemoryStorage.Contains | src/storage/in_memory/in_memory_storage.cpp:48-50 | says whether the key is stored |
| Storage.InMemoryStorage.Put | src/storage/in_memory/in_memory_storage.cpp:35-46 | updates one key and keeps the byte count exact; the source's assertion holds |
| Storage.InMemoryStorage.Remove | src/storage/in_memory/in_memory_storage.cpp:52-59 | removes one key and keeps the byte count exact |
| Storage.InMemoryStorage.ByteSizeHint | src/storage/in_memory/in_memory_storage.cpp:69-71 | is the total size of the stored values |
| Storage.InMemoryCursor.SeekFirst | src/storage/in_memory/cursor.hpp:18-20 | lands on the least key, or none on an empty store |
| Storage.InMemoryCursor.Seek | src/storage/in_memory/cursor.hpp:22-24 | lands on the least key not below the argument |
| Storage.InMemoryCursor.SeekLast | src/storage/in_memory/cursor.hpp:26-29 | lands on the greatest key |
| Storage.InMemoryCursor.Next | src/storage/in_memory/cursor.hpp:35-38 | lands on the least key above the current one, whether or not that is still stored |
| Storage.InMemoryCursor.Prev | src/storage/in_memory/cursor.hpp:40-44 | lands on the greatest key below the current one |
| Storage.InMemoryCursor.SeekReverse | src/storage/face/map_cursor.hpp:48-58 | lands on the greatest key not above the argument, or reports none |
| Storage.InMemoryBatch.Put | src/storage/in_memory/in_memory_batch.hpp:19-23 | adds or replaces one waiting put |
| Storage.InMemoryBatch.Remove | src/storage/in_memory/in_memory_batch.hpp:25-28 | cancels one waiting put |
| Storage.InMemoryBatch.Clear | src/storage/in_memory/in_memory_batch.hpp:38-40 | cancels all waiting puts |
| Storage.InMemoryBatch.Commit | src/storage/in_memory/in_memory_batch.hpp:30-36 | lays the waiting puts over the store |
| StorageRuns.ForwardAscends | src/storage/in_memory/cursor.hpp:18-38 | with puts and removes between the steps a forward traversal still visits strictly ascending keys, each an entry at its moment |
| StorageRuns.ForwardMissesNothing | src/storage/in_memory/cursor.hpp:18-38 | a finished forward traversal has visited every key that was present throughout |
| StorageRuns.FullForwardMissesNothing | src/storage/in_memory/cursor.hpp:18-38 | from the first entry to the end nothing present throughout is missed |
| StorageRuns.BackwardDescends | src/storage/in_memory/cursor.hpp:26-44 | backward traversals visit strictly descending keys |
| StorageRuns.BackwardMissesNothing | src/storage/in_memory/cursor.hpp:26-44 | a finished backward traversal has visited every key that was present throughout |
| StorageRuns.FullBackwardMissesNothing | src/storage/in_memory/cursor.hpp:26-44 | from the last entry to the beginning nothing present throughout is missed |
| StorageRuns.CommitReplaysExactly | src/storage/in_memory/in_memory_batch.hpp:19-36 | commit equals replaying all batched calls if and only if no stored key was last removed in the batch |
| StorageRuns.RemovalIsLost | src/storage/in_memory/in_memory_batch.hpp:25-28 | a concrete batched removal that commit does not apply |
| KeccakPermutation.ThetaStep | src/crypto/keccak.hpp:35-47 | the two loops are FIPS 202 theta |
| KeccakPermutation.PiInverts | src/crypto/keccak.hpp:49-55 | the source's target index is the inverse of the index in FIPS 202 pi |
| KeccakPermutation.RhoPiStep | src/crypto/keccak.hpp:49-55 | the scatter loop is FIPS 202 rho followed by pi |
| KeccakPermutation.ChiStep | src/crypto/keccak.hpp:57-62 | the loop is FIPS 202 chi |
| KeccakPermutation.IotaStep | src/crypto/keccak.hpp:64-68 | the seven shift-register steps add that round's constant and leave the next round's register |
| KeccakPermutation.RotationFollowsWalk | src/crypto/keccak.hpp:25-31 | the rotation table holds the triangular numbers modulo 64 along FIPS 202's walk, which reaches every lane but the origin, and 0 at the origin |
| KeccakPermutation.IotaAddsPublished | src/crypto/keccak.hpp:64-68 | in each of the 24 rounds the register yields the published round constant |
| KeccakPermutation.Permute | src/crypto/keccak.hpp:20-70 | the in-place rounds are Keccak-f[1600], which `KeccakLaws.PermutationIsFold` ties to all 24 published constants |
| Sponge.AddFirstIsAddBlock | src/crypto/keccak.hpp:89-98 | adding a block byte by byte adds its words to the lanes |
| Sponge.StreamingIsSponge | src/crypto/keccak.hpp:71-104 | hashing byte by byte equals absorbing the padded message in 136-byte blocks, for every message |
| Sponge.ChunksDoNotMatter | src/crypto/keccak.hpp:99-104 | however the input is split between calls the state is the same |
| Sponge.PadInjective | src/crypto/keccak.hpp:74-80 | different messages have different padded messages |
| Keccak.WordsAreLawful | src/crypto/keccak.hpp:89-92 | 64-bit exclusive-or and little-endian placing meet the laws the sponge theorems need |
| Keccak.BlocksAreLittleEndian | src/crypto/keccak.hpp:89-92 | the words a block adds are its bytes read little-endian |
| Keccak.DigestIsLanes | src/crypto/keccak.hpp:82-87 | the digest read back little-endian is the first four lanes |
| Keccak.Hasher.AddByte | src/crypto/keccak.hpp:90-92 | the indexed update changes exactly one lane |
| Keccak.Hasher.Update | src/crypto/keccak.hpp:89-98 | one byte, permuting at the block boundary; the offset stays below 136 |
| Keccak.Hasher.UpdateBytes | src/crypto/keccak.hpp:99-104 | the loop over a chunk |
| Keccak.Hasher.Finalize | src/crypto/keccak.hpp:71-88 | both padding bits, possibly in one byte, then the permutation and the digest |
| Keccak.Hasher.Hash | src/crypto/keccak.hpp:105-108 | hashes a copy, so the hasher itself is unchanged |
| Keccak.HashOf | src/crypto/keccak.hpp:109-111 | one-shot hashing is the Keccak-256 sponge digest of the message |
| KeccakLaws.RotatesLeft | src/crypto/keccak.hpp:21-23 | rotation goes to the left and brings back what leaves at the top |
| KeccakLaws.ThetaIsFips | src/crypto/keccak.hpp:35-47 | each lane takes up the parity of the column before it and the rotated parity of the one after it |
| KeccakLaws.RhoPiIsFips | src/crypto/keccak.hpp:49-55 | lane (x, y) is rotated by its offset and goes to (y, 2x + 3y) |
| KeccakLaws.ChiIsFips | src/crypto/keccak.hpp:57-62 | chi lane by lane as FIPS 202 writes it |
| KeccakLaws.PermutationIsFold | src/crypto/keccak.hpp:24-69 | the permutation is one round for each of the 24 published constants in order, each added to lane (0, 0) |
| KeccakLaws.PadExactly | src/crypto/keccak.hpp:71-82 | padding gives whole blocks of 136 bytes: the message, a 1 bit, zeros and a final 1 bit, sharing a byte when one is left |
| KeccakLaws.AbsorbsByBlocks | src/crypto/keccak.hpp:89-98 | absorbing starts from zero, and each block is seventeen little-endian words added to the lanes and then permuted |
| KeccakLaws.DigestIsAfterLast | src/crypto/keccak.hpp:71-88 | the digest is 32 bytes taken after the last block of the padded message |
| Lifecycle.StepKeepsInv | src/app/impl/state_manager_impl.cpp:124-283 | every step of the run thread, of callbacks and of other threads keeps the invariant and does not lower the stage |
| Lifecycle.NeverBackwardsExactly | src/app/impl/state_manager_impl.cpp:267-283 | on a run the stage never goes backwards if and only if no shutdown request stores it late |
| Lifecycle.AtomicRequestsAreTimely | src/app/impl/state_manager_impl.cpp:269-281 | requests whose two tests and store are one step are never late |
| Lifecycle.ThrowsExactly | src/app/impl/state_manager_impl.cpp:236-283 | on every run, `run` throws if and only if a request stores its stage between the last exchange and the final check |
| Lifecycle.NeverThrows | src/app/impl/state_manager_impl.cpp:148-260 | without late requests `run` meets no wrong-workflow exception |
| Lifecycle.LaunchFollowsPreparation | src/app/impl/state_manager_impl.cpp:148-208 | on every run a launch callback is called only after all accepted prepare callbacks were called and succeeded; each at most once, in order; a working application has launched them all; `LifecycleLaws.AcceptedExactly` says which were accepted |
| Lifecycle.ShutdownCallsEach | src/app/impl/state_manager_impl.cpp:210-234 | on every run shutdown callbacks are called at most once, in order; at the end all accepted ones were called if and only if none was accepted after a late store |
| Lifecycle.NeverStuck | src/app/impl/state_manager_impl.cpp:236-265 | on every run the run thread can go on unless it waits for a shutdown request |
| Lifecycle.LateCallbackIsLost | src/app/impl/state_manager_impl.cpp:140-146 | a concrete run in which an accepted shutdown callback is never called |
| Lifecycle.LateRequestThrows | src/app/impl/state_manager_impl.cpp:267-283 | a concrete run in which a late request makes `run` throw |
| LifecycleLaws.AcceptedExactly | src/app/impl/state_manager_impl.cpp:124-146 | on every run each queue has accepted exactly the callbacks registered for it in time, in order: to prepare up to stage Prepare, to launch up to Starting, for shutdown up to ShuttingDown |
| LifecycleLaws.CallsExactly | src/app/impl/state_manager_impl.cpp:148-234 | prepare and launch callbacks are called only in their own stage and skipped otherwise, shutdown ones always, each time the front of its own queue |
| LifecycleLaws.FailureShutsDown | src/app/impl/state_manager_impl.cpp:162-203 | on every run a failing callback makes the stage ShuttingDown |
| LifecycleLaws.LeavingIsFinal | src/app/impl/state_manager_impl.cpp:148-283 | on every run, once the manager shuts down it never works again and calls no further prepare or launch callback |
| LifecycleLaws.FailedPreparationLaunchesNothing | src/app/impl/state_manager_impl.cpp:148-208 | on every run after a failed prepare callback no launch callback is ever called |
| LifecycleLaws.LeavesForAReason | src/app/impl/state_manager_impl.cpp:148-283 | on every run the manager shuts down only after a stored request or a failed callback |
| LifecycleLaws.StageFollowsPlace | src/app/impl/state_manager_impl.cpp:148-265 | until then the stage is that of the place the thread has reached |
| LifecycleLaws.WorksUntilRequested | src/app/impl/state_manager_impl.cpp:262-283 | on every run a working manager stops working only by a stored request |
| LifecycleLaws.OtherQueuesAreEmptied | src/app/impl/state_manager_impl.cpp:210-234 | on every run nothing waits in the prepare and launch queues while shutdown callbacks are called or afterwards |

## Left out

- The Bandersnatch, Ed25519, Blake and SCALE code: foreign calls, kept as arbitrary functions.
- Safrole environment: the incoming validator set and the offender list may change between blocks in any way.
- Dispute sets are sets; the source keeps them in sorted containers, whose order plays no role in the transition.
- The authorization pools (`test-vectors/authorizations`): short per-core loops that would only add easy members.
- Size and time parsers (`src/utils/parsers.hpp`): string tables with little to prove.
- RocksDB storage, the spaced storage, configuration, chain specification, modules, injector, metrics and logging: I/O and plumbing.
- `size_t` overflow of the stored byte count: the model counts without bound.
- The library functions that convert between bytes and hexadecimal text: their code is not part of this model; they are taken to be the lower-case encoding and its inverse.
- The store's map is the sequence of its entries in key order, with positions for iterators; the tree behind it is not modelled.
- Iterators into the store held across changes: the source's cursor does not keep any.
- Channel payload and events: only linking, locking and lifetimes are modelled; an endpoint is used by one operation at a time, except that sends may share a sender. A receiver's `wait`, which takes its own lock briefly and does not touch the links, is not modelled.
- ChannelRuns.MoveStepsAlone: is about a move that nobody interrupts; interleaved moves are covered by the invariant theorems for unlinked targets.
- The C++ memory model and the destruction of mutexes.
- The temporary handler's counter, the dispatcher's dispose loop, `bind` and `unbind`, and dropping of tasks after the dispatcher's dispose: they depend on thread lifetime.
- Tasks that throw: the worker discards the exception and the task counts as done.
- Subscription operations are single steps: other threads between two engine calls of one bulk unsubscribe are not modelled.
- What a scheduled notification does when it runs (`on_notify`), the delay it is scheduled with, and the subscription id counter.
- The two `size` queries of the subscription engine.
- Lifecycle callbacks that throw, signal handling, and the protected `reset`, which nothing calls.
- The lifecycle is a machine of its atomic steps rather than a class, because its callbacks and requests interleave with the loops that drain the queues.
