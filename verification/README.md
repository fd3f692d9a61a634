# Ascetic DDD, verified

A Dafny model of the parts of the repository that order, deliver, undo and keep: what they do, and
proofs of what they are for. `dafny verify dfyconfig.toml` checks all of it.

## What is modelled

**The outbox relay** (`Snapshot`, `SnapshotText`, `Decimal`, `Ring`, `Ascending`, `Outbox*`).
Transactions take ids and positions and end in any order; a dispatcher hands rows on by epochs, each
the rows new in a snapshot; the table is a ring of partitions, emptied generation by generation.
Every statement is one step over the rows it reads, with a snapshot of its own; locks are owned
until the transaction ends. `OutboxProtocol` has the steps (transactions, position rows made and
dropped, dispatch, operators, reclamation), `OutboxInvariant` and `OutboxSteps` what each keeps,
`OutboxTheorems` what follows for every run. `OutboxDispatch` and `OutboxReclaim` are the methods as
their statements run, each step of theirs a step of a run, with whatever others do in between. A
crash is a run that stops, its transaction rolled back.

Commit order is a result about rows drawn and committed in real time: `drawnBefore` records, for each
transaction, the position counter when it committed. A position that was converted, made late or
moved ahead has rows it never hands on (`Unheard`); commit order is about the others, and
`CommitOrderFromTheStart` and `NothingIsPassedOver` about positions that have none (`NeverSkips`).

**The inbox** (`Inbox*`). Slots locked per dispatch, heads that wait for causal dependencies and are
woken by the dependency's mark, the subscriber in a savepoint, attempts, parking, resolve and unpark.
The check of a dependency, its lock, the wait, the mark and the resolve are separate steps, each under
its own snapshot (read committed), with one slot, where a mark takes no identity lock, and with many.

**The specification macro** (`Specification*`). The two-valued, lexically scoped Rust predicates the
macro takes, its translation with `Scope`, `Place` and what options hold, the tree builder that sees
constants and parameters (`null_test`), and the tree's three-valued evaluation over a candidate, its
items and the items further out.

**Saga slips** (`Saga*`). Slips shared by handle, nested through fallback and parallel activities,
run forward and undone over a queue and a stack, in place. What is outstanding is the multiset of
leaves done and not undone; what a run does is a sequence of events, branches run at once some
interleaving of theirs. `SagaRun` has the methods, in place over the shared slips; `SagaMachine` a
machine that moves one slip in flight at a time, whichever it is, over the trees the slips are
(`SagaView`), and `SagaMoves` how its runs are put together. What a method did is a run of the
machine, so that of every moment of it there is a state to speak of, parallel branches included.

**Cancelling** (`Cancelling`). A topic of the in-memory broker: subscriptions, deliveries admitted
under the lock, calls in flight, cancellers inside and outside a handler.

**Migrations** (`Migrations`, `MigrationRunner`). Any number of runners over one ledger, each step in a
transaction under the component's advisory lock, blocked, rolled back and tried again.

**Canonical JSON** (`CanonicalJson`). The printer, with sorted keys and serde_json's escapes, over the
buffer it appends to.

**Key custody and the cache of unwrapped keys** (`Custody`, `UnwrapCache`). The keyring in memory and
the rows of the table as two implementations of one machine; the bounded, timed cache in front of a
service.

## Where the code does less than it says

- `Subscription::detach` says it detaches "once, under the lock, so a second canceller finds it done"
  (`crates/bus/src/adapter.rs:121`), but the lock is dropped before the detach taken from under it is
  run. Two cancels of one subscription at once: the second finds the detach gone, sees no call in
  flight and comes back while the handler is attached still, and a call starts after.
  `Cancelling.BackIsFinal` is the exact condition, `Cancelling.RaceLetsACallStart` the run.
- A predicate that compares two options is translated to a tree that is null where Rust says true or
  false, unless both hold something, or it is an equality and one side is a null constant: `None`, or a
  parameter or a constant that is none. `SpecificationMeaning.OptionalComparison` is the exact condition;
  `OptionalEqualityIsLost` and `OptionalOrderIsLost` are predicates and candidates. The macro has no
  types, and says so; it refuses the orderings it sees to be of options, not those of optional members,
  and no equality.
- The keyring in memory and the table part where a version does not fit the column, past 2^31 - 1:
  `Custody.OneMachine` is the exact condition, `Custody.PastTheColumn` a keyring.
- The cache says it keeps a key for `ttl` "after it was unwrapped" (`crates/kms/src/cache.rs:61-62`),
  but counts from when the key was kept, after the service had answered. An answer can be given at an
  age of `ttl` or more exactly if time passed in between: `UnwrapCache.OldAnswers`. It is younger than
  `ttl` and that time: `UnwrapCache.AnswerAge`.

## Model

| member | source | states |
|---|---|---|
| Snapshots.BelowKeepsExactly | crates/outbox/src/message.rs:70-82 | What a snapshot keeps below an id shows exactly the ids below it that the snapshot showed. |
| Snapshots.BelowIsValid | crates/outbox/src/message.rs:76-82 | What is kept of a well-formed snapshot is one. |
| Snapshots.BelowTwice | crates/outbox/src/message.rs:76-82 | Two rewinds show what the lower of them shows. |
| SnapshotText.RoundTrip | crates/outbox/src/message.rs:85-118 | What is printed reads back as the snapshot printed, exactly when its ids are of 64 bits; otherwise it is refused. |
| SnapshotText.PrintIsInjective | crates/outbox/src/message.rs:85-97 | Two snapshots of 64-bit ids print alike only if they are one. |
| SnapshotText.PrintedParse | crates/outbox/src/message.rs:98-118 | Whatever text a snapshot was read from (plus signs, leading zeros), it has 64-bit ids, and printing it gives a text that reads the same. |
| SnapshotText.ThirdColon | crates/outbox/src/message.rs:101-118 | A text that is read as a snapshot has exactly two colons, though it is cut at the first two only. |
| Decimals.ParsePrinted | crates/outbox/src/message.rs:101-118 | The decimal text of a number parses to it below 2^64 and is refused from there on. |
| Decimals.SplitJoined | crates/outbox/src/message.rs:85-118 | Splitting what was joined with a separator gives the parts back, when none holds it. |
| Rings.New | crates/outbox/src/pg/ring.rs:41-46 | A ring has two generations and one id a window at least; numbers within the bounds are kept. |
| Rings.BetweenIsExact | crates/outbox/src/pg/ring.rs:72-83 | A range of ids names a generation exactly when some id of the range lands in it, whole laps and wrap-around included. |
| Rings.NamesAreSound | crates/outbox/src/pg/ring.rs:52-70 | Every id that `epoch` sees and `delivered` does not lies in a named generation, for every window and number of generations. |
| Rings.NamesAreTight | crates/outbox/src/pg/ring.rs:52-70 | Each named generation has an id below the epoch's `xmax` that `delivered` does not see, and that is new by range or seen by the epoch. |
| Ascending.LimitOfABranch | crates/outbox/src/pg/store.rs:1081-1130 | A limit on one branch before the branches are merged by position loses nothing of the first rows of the merge. |
| OutboxDatabase.CurrentSnapshotShows | crates/outbox/src/pg/mod.rs:13-24 | A snapshot taken now shows a transaction exactly when it has ended, or is the statement's own with a later one ended. |
| OutboxDatabase.CurrentContains | crates/outbox/src/pg/store.rs:1081-1092 | A snapshot taken later contains every earlier one: a batch's contains its epoch. |
| OutboxDatabase.NewRowsAreNotShown | crates/outbox/src/pg/mod.rs:5-13 | A row inserted after a snapshot was taken is not shown by it, and what it shows is of transactions that have ended. |
| OutboxRelay.StartFindsTheOwed | crates/outbox/src/pg/store.rs:1018-1040 | Both halves of the start's query, over the named generations alone, find exactly the rows new in the epoch. |
| OutboxRelay.BatchIsTheNextOwed | crates/outbox/src/pg/store.rs:1089-1160 | The limited, named branches merged by position are the first rows of the epoch past its offset. |
| OutboxSteps.ConvertedIsExact | crates/outbox/src/pg/store.rs:95-117 | The position made of an older relay's pair owes the rest of its transaction, exactly. |
| OutboxSteps.EndIsGiven | crates/outbox/src/pg/dispatch.rs:115-131 | A converted epoch given its end by the next look is exact, and every row of it is in a recorded generation. |
| OutboxSteps.EpochIsBegun | crates/outbox/src/pg/dispatch.rs:133-188 | A new epoch begins just before its first row, ends at its last, and has handed nothing on. |
| OutboxSteps.BatchContinues | crates/outbox/src/pg/dispatch.rs:193-236 | What was handed on and the batch together are the epoch's rows up to the batch's last, and all of them when the batch is short. |
| OutboxSteps.EpochGoesOn | crates/outbox/src/pg/dispatch.rs:228-236 | After a full batch the epoch, moved to the batch's last position, is exact still. |
| OutboxSteps.DeliveredMoves | crates/outbox/src/pg/dispatch.rs:221-227 | When every row of an epoch is accounted for, `delivered` moved to it shows accounted rows only, and every row emptied. |
| OutboxSteps.NextIsInOrder | crates/outbox/src/pg/dispatch.rs:207-216 | The next message of a batch is behind every row of its position whose transaction committed before its position was drawn. |
| OutboxSteps.RewindKeeps | crates/outbox/src/pg/store.rs:1225-1264 | A rewind under the reclamation's key, not below `intact_from`, keeps every invariant. |
| OutboxSteps.FinishNowKeeps | crates/outbox/src/pg/store.rs:1225-1264 | So does a move ahead to a snapshot taken before the rows' locks were waited for. |
| OutboxSteps.CreateKeeps | crates/outbox/src/pg/store.rs:735-760 | A new position starts where its group's selection of everything stands, or at what the ring still holds, and shows every row emptied. |
| OutboxSteps.UnpinnedIsPassed | crates/outbox/src/pg/reclaim.rs:292-331 | A generation no position pins, by `xmax` or an in-progress id with a row in it, is shown whole by every position. |
| OutboxSteps.EmptyKeeps | crates/outbox/src/pg/reclaim.rs:334-404 | Emptying the generation rechecked under its partition's lock keeps every invariant. |
| OutboxTheorems.StepKeeps | crates/outbox/src/pg/dispatch.rs:110-253 | The invariant behind the results below is kept by every step of transactions, dispatchers, operators and the reclamation, in any order. |
| OutboxTheorems.RunGoesOn | crates/outbox/src/pg/dispatch.rs:54-253 | Any step enabled where a run has got to continues it: the results hold at every prefix, a crash at any point included. |
| OutboxTheorems.OwedIsKept | crates/outbox/src/pg/reclaim.rs:292-404 | In every run, each committed row that some position's `delivered` does not see is still in the table. |
| OutboxTheorems.IntactFromIsIntact | crates/outbox/src/pg/dispatch.rs:404-437 | In every run, no committed row of a transaction at or above `intact_from` was ever emptied. |
| OutboxTheorems.FirstStartsShowNone | crates/outbox/src/pg/store.rs:735-760 | A position made before anything was emptied starts where it shows no row at all, and so skips none. |
| OutboxTheorems.NothingIsPassedOver | crates/outbox/src/message.rs:150-158 | For a position never moved past rows, `delivered` sees a transaction only if every committed row of it in the slot and selection counts as accepted. |
| OutboxTheorems.AcceptedWasAccepted | crates/outbox/src/pg/dispatch.rs:207-236 | What counts as accepted was in a batch accepted whole by the subscriber, and committed. |
| OutboxTheorems.CommitOrder | crates/outbox/src/pg/mod.rs:13-24 | If a transaction committed before a row drew its position, its rows are first handed to the subscriber before that row: over epochs, rolled-back batches, crashes and rewinds, absent a move past either. |
| OutboxTheorems.CommitOrderFromTheStart | crates/outbox/src/pg/mod.rs:13-24 | The same with nothing excepted, for a position that was never moved past rows. |
| OutboxTheorems.BatchesAreTheEpoch | crates/outbox/src/pg/dispatch.rs:193-236 | The committed batches of an epoch, concatenated, are exactly its rows in position order; the one that drains it completes them. |
| OutboxTheorems.EpochProgress | crates/outbox/src/pg/dispatch.rs:217-236 | An epoch of n rows at batch size L is drained by exactly its dispatch floor((n - before) / L) + 1, and by none before; `before` is what an older relay had handed on. |
| OutboxTheorems.NeverShort | crates/outbox/src/pg/dispatch.rs:237-247 | `short` is never reported while no row is deleted by hand, converted epochs included. |
| OutboxTheorems.PositionsAreOfThisServer | crates/outbox/src/pg/store.rs:860-866 | Absent a restore, no position is past the server's ids: a counter reset is never reported in error. |
| OutboxDispatch.LookMissesNothing | crates/outbox/src/pg/store.rs:772-885 | A look, though it names generations from an earlier statement, takes a slot that had a row its position did not deliver. |
| OutboxDispatch.LookFindsWork | crates/outbox/src/pg/store.rs:772-885 | A slot the look takes without an epoch in flight has a row its position did not deliver. |
| OutboxDispatch.OthersLeaveIt | crates/outbox/src/pg/mod.rs:38-47 | While a dispatcher holds a position row, no other step changes the position or tells its subscriber anything. |
| OutboxDispatch.Relay.EnsurePositions | crates/outbox/src/pg/store.rs:735-760 | There is a position for every slot of the selection, old ones untouched, new ones where their group stands or at what the ring holds. |
| OutboxDispatch.Relay.Take | crates/outbox/src/pg/store.rs:803-885 | A slot is taken only with work, and none is taken only if none has work; whether the selection has positions at all. |
| OutboxDispatch.Relay.HandOn | crates/outbox/src/pg/dispatch.rs:110-253 | A slot taken ends delivered, the batch owed, in order, accepted whole and the position moved by it, or rolled back with nothing of it kept. |
| OutboxDispatch.Relay.Dispatch | crates/outbox/src/pg/dispatch.rs:54-253 | The whole dispatch between whatever others do; undisturbed, it is idle only if no slot of the selection has work. |
| OutboxDispatch.Relay.SetPosition | crates/outbox/src/pg/dispatch.rs:404-441 | A rewind below `intact_from` is refused, and only that; otherwise every row from there on is owed again and in the table, or every position shows exactly what had committed. |
| OutboxReclaim.Candidate | crates/outbox/src/pg/reclaim.rs:190-210 | The loop over the generations finds the generation and id of the oldest row left, if any. |
| OutboxReclaim.NewestIsFound | crates/outbox/src/pg/reclaim.rs:206-248 | The newest id of the candidate, or what was known of one without a row. |
| OutboxReclaim.TryEmpty | crates/outbox/src/pg/reclaim.rs:334-404 | Under the partition's lock the newest row and "passed" are read again; undisturbed, what was ready is emptied exactly if no writer and no reader has the partition. |
| OutboxReclaim.RunPass | crates/outbox/src/pg/reclaim.rs:65-184 | A pass empties one generation that every position has passed, its writers ended, and raises `intact_from` past it, or nothing; undisturbed, it empties one exactly when the oldest left is past the margin, closed and passed, and no writer and no reader has its partition. |
| InboxSteps.WaitExcludesMark | crates/inbox/src/pg/store.rs:301-353 | A wait set on a row and a mark, or a resolve, of that row are never held by two sessions at once, with one slot or many. |
| InboxSteps.HeadsDiffer | crates/inbox/src/pg/store.rs:203-247 | Two dispatchers never have one head. |
| InboxSteps.ResolveExcludesMark | crates/inbox/src/pg/dispatch.rs:343-352 | A resolve and a mark of one row exclude each other. |
| InboxSteps.ReadyIsBefore | crates/inbox/src/pg/dispatch.rs:96-107 | A head whose dependencies were found processed one by one has all of them processed, below the next position. |
| InboxSteps.CommitMarkKeeps | crates/inbox/src/pg/store.rs:411-449 | A mark committed with the rows its statement woke leaves no row waiting for it, with one slot and with many. |
| InboxSteps.ExpireKeeps | crates/inbox/src/pg/store.rs:357-381 | Waits that lasted too long are parked, each row under its own lock, and every invariant is kept. |
| InboxSteps.StepKeeps | crates/inbox/src/pg/dispatch.rs:56-222 | The invariant is kept by each statement of dispatchers, operators and the expiry, in any order and at any rollback. |
| InboxTheorems.NoLostWakeUp | crates/inbox/src/pg/store.rs:301-353 | In every reachable state a committed wait is for a row without a committed mark, and for one of the row's own dependencies. |
| InboxTheorems.MarkWakes | crates/inbox/src/pg/store.rs:411-449 | When a mark commits, by a dispatcher or an operator, each row waiting for it is back in the queue in the same step. |
| InboxTheorems.NewMarkIsCommitted | crates/inbox/src/pg/dispatch.rs:160-205 | A row becomes processed by the commit of its mark only. |
| InboxTheorems.EffectsOnce | crates/inbox/src/pg/dispatch.rs:109-222 | The subscriber's effects on a message are durable at most once, and exactly when a dispatcher's mark of it is. |
| InboxTheorems.EffectsWithTheMark | crates/inbox/src/pg/dispatch.rs:140-205 | Effects and mark become durable in one commit. |
| InboxTheorems.NoMarkIsUndone | crates/inbox/src/pg/store.rs:411-449 | A mark once committed stays, with its position and whether it was by hand. |
| InboxTheorems.CausalOrder | crates/inbox/src/pg/dispatch.rs:96-107 | Every dependency of a row a dispatcher marked is marked, with a smaller `processed_position`. |
| InboxTheorems.CausalTime | crates/inbox/src/pg/store.rs:283-294 | And its mark had committed before the row's own did. |
| InboxWork.WaitsOnceForEach | crates/inbox/src/pg/store.rs:320-353 | A row waits for one dependency at most once: of any two waits of it that a run without unparking commits, the dependencies differ. |
| InboxWork.RowWorkIsBounded | crates/inbox/src/pg/store.rs:455-489 | Without unparking, a row's outcomes number at most the limit on attempts and its distinct dependencies, and its attempts never exceed the limit. |
| InboxWork.OutcomesAreTheTotal | crates/inbox/src/pg/dispatch.rs:109-222 | The committed outcomes of a run are the rows' own, added up. |
| InboxWork.WorkIsBounded | crates/inbox/src/pg/dispatch.rs:109-222 | Over any run without unparking the committed outcomes other than nothing are at most the sum over the rows of the limit and their distinct dependencies. |
| InboxDispatch.ReceivedApart | crates/inbox/src/pg/store.rs:575-640 | No two rows have one received position, whatever order they were committed in, so a slot has one head. |
| InboxDispatch.Inbox.TakeHead | crates/inbox/src/pg/store.rs:218-275 | A free slot with a due head is taken and its head read afresh; undisturbed, none is taken only if no free slot's head is due. |
| InboxDispatch.Inbox.FirstUnprocessed | crates/inbox/src/pg/store.rs:283-294 | The first dependency without a mark, in their order, or none and the head is ready. |
| InboxDispatch.Inbox.PutHeadAside | crates/inbox/src/pg/store.rs:320-353 | Under the lock on the dependency the head is set to wait for it; it is not only if the dependency was marked meanwhile. |
| InboxDispatch.Inbox.MarkHead | crates/inbox/src/pg/dispatch.rs:160-205 | The head is marked, its effects durable once; with more than one slot under the lock on its identity. |
| InboxDispatch.Inbox.RecordFailure | crates/inbox/src/pg/store.rs:455-489 | The failure is one attempt more, and parks the row exactly when it is permanent or the limit is reached; no effect stays. |
| InboxDispatch.Inbox.Dispatch | crates/inbox/src/pg/dispatch.rs:56-222 | A dispatch processes, sets aside or records exactly as its subscriber and the dependencies say; undisturbed, it finds nothing only if no free slot's head is due. |
| InboxDispatch.Inbox.Resolve | crates/inbox/src/pg/dispatch.rs:343-363 | A message is resolved exactly if it was parked: marked without effects, and whatever waited for it is due. |
| InboxDispatch.Inbox.Unpark | crates/inbox/src/pg/store.rs:503-518 | A message is unparked exactly if it was parked: its attempts reset, and it is in the queue. |
| SpecificationScoping.InsideDenotes | crates/specification-macros/src/translate.rs:107-124 | Inside a collection's closure the item is the nearest of its name and everything else is one step further out, whatever is shadowed. |
| SpecificationScoping.InsideUnnamedDenotes | crates/specification-macros/src/translate.rs:107-124 | The same where the closure binds no name of its own. |
| SpecificationScoping.HoldingDenotes | crates/specification-macros/src/translate.rs:128-137 | Inside a predicate of what an `Option` holds, the name stands for the option's own place, whatever it shadows. |
| SpecificationScoping.PathReads | crates/specification-macros/src/translate.rs:59-92 | A path, global, of an item or of an outer item, reads what its place denotes. |
| SpecificationScoping.PlaceDenotes | crates/specification-macros/src/translate.rs:152-170 | The place found for a name and its members, at any nesting of closures and held names, is the object Rust's lexical scope denotes. |
| SpecificationScoping.OutsideStands | crates/specification-macros/src/translate.rs:324-337 | A value from outside the predicate is written as itself, or as the parameter that holds it. |
| SpecificationMeaning.Typed | crates/specification-macros/src/translate.rs:188-267 | What has a type evaluates, if at all, to data of that type. |
| SpecificationMeaning.NullTestPreserved | crates/specification/src/domain/null_test.rs:25-67 | A comparison with the constant `None`, on either side, is the null test it becomes. |
| SpecificationMeaning.OperandIsTested | crates/specification-macros/src/translate.rs:485-532 | An option to be tested has a tree that is null exactly when it is none. |
| SpecificationMeaning.ItemsPreserved | crates/specification-macros/src/translate.rs:533-573 | Item by item, `any` and `all` stop where Rust's do. |
| SpecificationMeaning.HeldMeans | crates/specification-macros/src/translate.rs:485-532 | What `is_some_and` and `is_none_or` are asked of is tested for none, and read as what it holds. |
| SpecificationMeaning.Preserves | crates/specification-macros/src/translate.rs:188-267 | For every expression in scope the tree's value is the expression's, never null where the expression is a truth. |
| SpecificationMeaning.TranslationPreservesMeaning | crates/specification-macros/src/translate.rs:188-267 | For every predicate, candidate and call the tree in three-valued logic is true or false, as Rust's predicate is, and satisfied exactly when it is; equalities of options among them where one side is the constant `None`, or a parameter that is none at the call, or both hold something. |
| SpecificationMeaning.NullConstant | crates/specification/src/domain/null_test.rs:49-67 | The tree of an option is the null constant exactly if the option is a parameter or a constant, or what is held of one, and is none. |
| SpecificationMeaning.OptionalEquality | crates/specification/src/domain/null_test.rs:25-67 | Of two options compared for equality by the null test, the tree agrees with Rust exactly when one operand is the null constant or both hold something; otherwise it is null. |
| SpecificationMeaning.OptionalComparison | crates/specification-macros/src/translate.rs:276-299 | A comparison of two options anywhere in a predicate: the tree is what Rust has exactly when both hold something, or, of an equality, when one side is a parameter or a constant that is none; otherwise it is null. |
| SpecificationMeaning.AbsentParameterFindsNone | crates/specification-macros/src/translate.rs:176-181 | Called with a parameter that is none, `u.a == p` finds exactly the candidates whose `a` is none. |
| SpecificationMeaning.OptionalEqualityIsLost | crates/specification-macros/src/translate.rs:176-181 | A predicate that compares two options, and a candidate with none: Rust says true, the tree says null, and the candidate is refused. |
| SpecificationMeaning.OptionalOrderIsLost | crates/specification-macros/src/translate.rs:276-299 | A predicate that orders two optional members, which the macro does not see, and a candidate one of whose is none: Rust says true, the tree says null, and the candidate is refused. |
| SagaSlips.ShuffleEffect | crates/saga/src/parallel_activity.rs:105-112 | However branches run at once interleave, what they leave outstanding is what each leaves, added up. |
| SagaSlips.ItemTaken | crates/saga/src/routing_slip.rs:81-85 | An item off the queue: its slips stand apart and have done nothing, and what the slip has outstanding is as it was. |
| SagaSlips.LogTaken | crates/saga/src/routing_slip.rs:125-129 | A log off the stack: its slips stand apart, and what the slip had outstanding is what it still has and what the log leaves. |
| SagaSlips.LogPut | crates/saga/src/routing_slip.rs:88-92 | A log put on the stack: what is outstanding grows by what it leaves. |
| SagaMachine.StepAccounts | crates/saga/src/parallel_activity.rs:59-131 | One step, of whichever slip in flight: what completed logs reach changes by exactly the leaf done or undone, a leaf undone being one of those reached, and a slip that failed has nothing left. |
| SagaMachine.RunAccounts | crates/saga/src/parallel_activity.rs:59-131 | Over every run of nested slips, their branches moving in any order, what is outstanding is exactly what completed logs reach, those of slips in flight included. |
| SagaMachine.AtEveryMoment | crates/saga/src/parallel_activity.rs:59-131 | A run stopped after any of its events is at a moment of which the same holds. |
| SagaMoves.BranchesComeTogether | crates/saga/src/parallel_activity.rs:105-112 | Branches that come each to its end on their own come there together, in any interleaving of what they do. |
| SagaView.LeftIsLeaves | crates/saga/src/routing_slip.rs:33-37 | What is outstanding of a slip shared by handle is what is left of the tree of slips it is. |
| SagaRun.LastInFirstOut | crates/saga/src/routing_slip.rs:120-132 | Whatever undoes a slip undoes its later logs, all of them, before any of the earlier. |
| SagaRun.SucceedsStays | crates/saga/src/fallback_activity.rs:89-99 | Whether a slip succeeds depends on the slips it holds alone. |
| SagaRun.Saga.ProcessNext | crates/saga/src/routing_slip.rs:74-94 | The next item is done and logged exactly if it succeeds; one that fails leaves nothing, and what is left to do is untouched. Without an item it is refused. |
| SagaRun.Saga.UndoLast | crates/saga/src/routing_slip.rs:120-132 | The last log is popped and undone, whatever slips it holds; without a log it is refused. |
| SagaRun.Saga.UndoAll | crates/saga/src/parallel_activity.rs:81-91 | A slip undone to the bottom of its stack leaves nothing outstanding, its logs undone last in, first out; and all the while what is outstanding is what completed logs reach. |
| SagaRun.Saga.UndoBranches | crates/saga/src/parallel_activity.rs:76-79 | Branches compensated at once, in any interleaving, leave nothing outstanding. |
| SagaRun.Saga.DoFallback | crates/saga/src/fallback_activity.rs:85-101 | The first alternative that succeeds is logged, each before it leaving nothing; none is exactly when none succeeds. |
| SagaRun.Saga.DoParallel | crates/saga/src/parallel_activity.rs:101-119 | The branches are logged exactly when all succeed; otherwise all are compensated and nothing is left. |
| SagaRun.Saga.Execute | crates/saga/src/parallel_activity.rs:59-73 | A slip runs to its end exactly when all its work succeeds, with a log for each item in order; otherwise it stops at the first that fails, and everything done is undone, last in, first out. What it did is a run of the machine of slips in flight, and after each of its events what is outstanding is exactly what completed logs reach, those of slips in flight included. |
| SagaTheorems.EffectBalances | crates/saga/src/parallel_activity.rs:59-131 | Nothing is undone before it was done, and what is outstanding is what was done and not undone, as often. |
| SagaTheorems.FailureIsUndone | crates/saga/src/parallel_activity.rs:59-73 | A slip that failed, at whatever depth, leaves nothing: each leaf done was undone exactly once, and never before it was done. |
| SagaTheorems.SuccessIsUndone | crates/saga/src/fallback_activity.rs:104-117 | A slip that succeeded and was later compensated: the same. |
| SagaTheorems.ShuffleStopped | crates/saga/src/parallel_activity.rs:105-112 | Branches stopped at any moment have each taken some of their own steps, in their own order. |
| SagaTheorems.AtAnyMoment | crates/saga/src/parallel_activity.rs:105-112 | What is outstanding at any moment of branches run at once is what each has outstanding at its own point. |
| SagaTheorems.LeavesUndoneInReverse | crates/saga/src/routing_slip.rs:120-132 | A slip of leaves alone is undone in the very reverse of their order. |
| Cancelling.StepKeeps | crates/bus/src/adapters/in_memory.rs:102-189 | The invariant is kept by every step of subscribers, deliveries and cancellers, in any order. |
| Cancelling.BackIsFinal | crates/bus/src/adapter.rs:110-130 | A canceller outside a handler comes back to a handler that is not running and will not run, exactly unless another canceller has taken the detach and not run it, the handler being attached still. |
| Cancelling.FinalStays | crates/bus/src/adapters/in_memory.rs:102-125 | Whatever comes after, no call of a handler that is final starts. |
| Cancelling.LaterStaysAttached | crates/bus/src/adapters/in_memory.rs:172-186 | Detaching a subscription leaves a later one of its group attached. |
| Cancelling.CancelIsFinal | crates/bus/src/adapter.rs:110-119 | In every run, once a cancel comes back with no other cancel between taking the detach and running it, no call of the handler is running or starts. |
| Cancelling.CancelInTurnIsFinal | crates/bus/src/adapter.rs:110-119 | So for every cancel of a subscription that is cancelled by one canceller at a time. |
| Cancelling.RaceLetsACallStart | crates/bus/src/adapter.rs:121-130 | A run in which two cancels race, one comes back, and a call of the handler starts after. |
| Cancelling.Broker.Attached | crates/bus/src/adapters/in_memory.rs:105-113 | One call for each group that has a handler, and of no other. |
| Cancelling.Broker.Deliver | crates/bus/src/adapters/in_memory.rs:102-125 | A message: one admission of every attached handler, then each called once, in turn, counted out however it ends, and nothing else. |
| Cancelling.Broker.Detach | crates/bus/src/adapter.rs:121-130 | The detach is taken and run, unless another took it. |
| Cancelling.Broker.Cancel | crates/bus/src/adapter.rs:110-119 | It comes back final unless another cancel is between taking the detach and running it; it waits only for calls in flight, outside a handler. |
| Migrations.NewComponent | crates/migration/src/lib.rs:124-150 | A component is made exactly of a name and at least one migration, each under an id of its own; the refusal says which is at fault. |
| Migrations.FirstChanged | crates/migration/src/lib.rs:314-328 | A row of a known step under another text is found exactly if there is one. |
| Migrations.StepKeeps | crates/migration/src/lib.rs:452-560 | The invariant is kept by every statement of any number of runners, blocked and rolled back at any point. |
| Migrations.AppliedOnce | crates/migration/src/lib.rs:452-560 | In every run each step run and committed has its one row since, and had none before: none is run twice, nor one recorded under whatever text. |
| Migrations.SuccessIsRecorded | crates/migration/src/lib.rs:306-350 | A runner that returns with success leaves every step recorded under its own checksum. |
| Migrations.ChangedIsRefused | crates/migration/src/lib.rs:314-328 | A runner one of whose steps is recorded under other text never returns with success. |
| Migrations.AppliedInOrder | crates/migration/src/lib.rs:338-348 | Over an empty ledger, or one with a component's first steps, concurrent runners run its steps in order, from the first not recorded. |
| MigrationRunner.Runners.LockAndCheck | crates/migration/src/lib.rs:452-495 | Under the component's key the ledger is read again: not recorded, recorded by another, or recorded under other text. |
| MigrationRunner.Runners.TryStep | crates/migration/src/lib.rs:452-560 | One try at a step: done by this runner or another; blocked, at the key, at its target or text or at its row, and rolled back; or over with an error; alone and unhindered it is committed with its row. |
| MigrationRunner.Runners.Retried | crates/migration/src/lib.rs:573-629 | A step is tried until it is not blocked or the budget is spent. |
| MigrationRunner.Runners.Migrate | crates/migration/src/lib.rs:306-350 | Success leaves every step recorded, and what is reported applied was run; alone and unhindered it succeeds exactly if no recorded step changed, and applies exactly the pending steps, in order. |
| CanonicalJson.SameText | crates/dek/src/domain/canonical.rs:8-43 | The same value has the same text, whatever order its keys were built in. |
| CanonicalJson.ValuesApart | crates/dek/src/domain/canonical.rs:14-43 | Texts with delimiters after them are one only if the values are the same: no value's text is another's and more. |
| CanonicalJson.CanonicalIsInjective | crates/dek/src/domain/canonical.rs:8-43 | Two values without floats have one canonical text exactly when they are the same. |
| CanonicalJson.ResourceIsBound | crates/dek/src/domain/resource.rs:48-59 | Two resources have one canonical text exactly when their tenant, kind and id are the same. |
| CanonicalJson.Buffer.WriteValue | crates/dek/src/domain/canonical.rs:14-43 | The loops append exactly the canonical text to the buffer, and leave what it held. |
| CanonicalJson.CanonicalText | crates/dek/src/domain/canonical.rs:8-12 | What is written is the canonical text. |
| Custody.RingStaysValid | crates/kms/src/testing.rs:53-87 | Whatever is asked of it, a keyring's versions stay a contiguous interval that ends at the last made. |
| Custody.OneMachine | crates/kms/src/pg.rs:954-1072 | One request of either keyring, over the same versions: the answers are the same exactly if the column holds what is asked, and what is left is then the same. |
| Custody.OneCustody | crates/kms/src/pg.rs:954-1072 | Over any sequence of requests the keyring in memory and the table's rows give the same versions, signatures and refusals, exactly if the column holds what each asks: versions below 2^31. |
| Custody.RetiredStays | crates/kms/src/testing.rs:80-87 | A version that was retired does not come back through any sequence of requests without a deletion, and is answered for as missing. |
| Custody.RetirementIsExact | crates/kms/src/testing.rs:80-87 | Retirement keeps exactly the versions from the one given on. |
| Custody.PastTheColumn | crates/kms/src/pg.rs:757-762 | A rotation past 2^31 - 1: a version more in memory, a refusal that changes nothing in the table. |
| Custody.InMemoryKeys.Push | crates/kms/src/testing.rs:70-78 | The next version, saturating at 32 bits, of the key generated for it. |
| Custody.InMemoryKeys.RetireBefore | crates/kms/src/testing.rs:303-311 | Retirement in memory, of one keyring alone, or its refusal. |
| Custody.InMemoryKeys.Rotate | crates/kms/src/testing.rs:292-301 | Rotation in memory, of one keyring alone, or its refusal. |
| Custody.KeyTable.KeyOfVersion | crates/kms/src/pg.rs:337-378 | The key of a version, or which of the three refusals it gets. |
| Custody.KeyTable.Rotate | crates/kms/src/pg.rs:992-1017 | Rotation over the rows, rolled back where the column does not hold the version. |
| Custody.KeyTable.RetireBefore | crates/kms/src/pg.rs:1019-1054 | Retirement over the rows, of one keyring alone, or its refusal. |
| UnwrapCache.HitsAreAnswers | crates/kms/src/cache.rs:134-149 | Over any sequence of calls a hit is the service's latest answer for that tenant and those bytes, kept less than the time to live ago, with no retirement or deletion of the tenant since. |
| UnwrapCache.SizeIsBounded | crates/kms/src/cache.rs:94-117 | Over any sequence of calls there are never more entries than the capacity. |
| UnwrapCache.ForgottenIsAsked | crates/kms/src/cache.rs:272-292 | Once a tenant's keys are retired or deleted, none comes from the cache before the service was asked for it again. |
| UnwrapCache.AnswerAge | crates/kms/src/cache.rs:61-65 | The answer a hit gives is younger than the time to live and the time between the answer and its keeping. |
| UnwrapCache.OldAnswers | crates/kms/src/cache.rs:61-65 | An answer can be given at an age of the time to live or more exactly if time passed between the answer and its keeping. |
| UnwrapCache.Cached.Get | crates/kms/src/cache.rs:86-92 | A key is given exactly if it is kept and was kept less than the time to live ago. |
| UnwrapCache.Cached.Expire | crates/kms/src/cache.rs:102-104 | What goes had expired, and what stays had not when the pass began. |
| UnwrapCache.Cached.Evict | crates/kms/src/cache.rs:105-113 | Nothing goes while there is room; otherwise as many as make room for one, none of those kept older than one that went. |
| UnwrapCache.Cached.Put | crates/kms/src/cache.rs:94-117 | The answer is kept, the expired going first and then, for want of room alone, the oldest; a cache without room or time keeps nothing. |
| UnwrapCache.Cached.Forget | crates/kms/src/cache.rs:119-121 | Exactly the tenant's keys go. |
| UnwrapCache.Cached.DecryptDek | crates/kms/src/cache.rs:134-149 | The key kept, if it was kept less than the time to live ago; otherwise the service is asked, and its answer kept as of after the answer, or not kept, or its refusal returned and not kept; the log of the calls says which. |
| UnwrapCache.Cached.RetireOrDelete | crates/kms/src/cache.rs:272-292 | What the service retires or deletes is forgotten, the log says so, and nothing else goes; a refusal changes nothing. |

## Left out

- Outbox: `rebase`, counter resets and their refusal, `gone_below`, the schema's migrations, and the check of the sequence's cache.
- Outbox: which slot among those with work is taken first, the margin of age of a passed generation, the replay horizon, `run`'s loops and pauses: times. A slot with work is taken in any order; a generation passed may be emptied at once.
- Outbox: a `uri` that holds the wildcards of `LIKE` selects more rows than the model's prefix rule does.
- Outbox: `forget_group`'s refusal of a group active lately is a time; that it drops positions under the key is a step.
- Outbox: which readers hold a partition's lock back from the reclamation, such as a dispatch in the middle of a batch: whether there is one is given to a pass, and the protocol's lock waits for writers alone, which only lets more happen.
- Outbox: a row inserted draws its position in the same step, since no other reads it before its commit.
- OutboxDispatch.Relay.SetPosition: a wait for a position row or the reclamation's key is an outcome of its own, not a wait.
- OutboxTheorems.OwedIsKept: rows deleted by hand are not modelled.
- Inbox: `run`'s loops and its count of passing errors, the sweep of rows past their window, the backoff's length, which due slot is served first.
- Inbox: collisions of the advisory lock's hash, which would only make more sessions wait for each other; a wait for a lock is an outcome of its own.
- Specification: floats, timestamps, uuids, shifts, the compiler to PostgreSQL, the parsing of Rust and of JSONPath, and the errors' texts; the methods `eq`, `ne`, `lt` and their like are the operators they are.
- SpecificationMeaning.TranslationPreservesMeaning: of predicates that evaluate in Rust, so `i64::MIN % -1`, which panics there and is 0 in the tree, is not one; an option of an option or of a collection is no member; a body that uses the macro's own name `__specification_element` is none.
- Saga: compensations that fail or add work, serialization, addresses of queues, and activities of other kinds; a leaf's error is its failure, and whether it works is its own.
- Saga: a slip is held by one item, once, and built before it.
- Cancelling: other transports, `serve`, the queue's capacity; the delivery of one topic's messages is in turn, as its task is.
- Migrations: `forget`, the time budget, here a number of tries, the ledger's table itself being blocked in its making, checksums that collide; whether a step locks another table is given.
- Canonical JSON: floats.
- Custody: the cipher, the signature and the generation of keys; the rings of MAC and KEK versions, which have the same shape; algorithms and tenants are one name.
- UnwrapCache: calls at once from several tasks, which its mutex orders call by call; the service itself.
- The railway crate, the example activities, the clients of Kafka and Vault, cryptographic primitives, observers.
