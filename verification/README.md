# Verified model of sherry

sherry is a cooperative actor runtime for C (`sherry.c`) together with the SDS dynamic string
library (`sds.c`, `sds.h`) that carries its message payloads. This project models both and proves
what they promise, as whole-run properties where the promise is about runs.

## How the project is organised

The scheduler:

- `Lists.dfy`: the intrusive doubly linked list over heap nodes. `nodes` is what a list means; the
  ghost field `home` of a node names the one list that holds it.
- `Queues.dfy`: a family of such lists with one node per element, as sequences of elements.
- `ActorModel.dfy`: the scheduler as a state machine over values. One step is one call up to its
  context switch, one dispatch, or one callback of the event loop. Actor bodies are arbitrary: every
  enabled sequence of actions is a run. An actor object keeps its name (its place in creation
  order) when it has finished and its id is given away again.
- `ActorInvariant.dfy`: what every step keeps.
- `ActorRuns.dfy`: theorems about all runs: delivery, wake-ups, dispatch order, finished actors,
  placement, quiescence. What was sent, received or dispatched is computed from the actions of the
  run, so the state itself has no history in it.
- `ActorWaits.dfy`: what ends a wait, over all runs: the event of the queue the actor named, its own
  write, a message sent to it, and nothing else.
- `ActorExit.dfy`: the loop of `sherry_exit`, what it can never wait for, and the rounds it should make.
- `ExitReturns.dfy`: for arbitrary actors, the exact condition under which `sherry_exit` can return,
  and when its loop spins.
- `ExitScripts.dfy`: for actors that only yield, what every run does, from `sherry_init` on.
- `Scheduler.dfy`: the scheduler on the heap, its queues and mailboxes held in intrusive lists, method
  by method, each proved to make exactly one step of the state machine from any reachable state.
- `SherryExit.dfy`, `Programs.dfy`: the loops of `sherry_exit` and `schdule` run on the heap scheduler,
  and whole programs on it: the two of `examples/test.c`, and a wait for one of two descriptors.

The strings:

- `Sds.dfy`: the buffer behind its five headers, updated in place and reallocated.
- `SdsGrowth.dfy`: the cost of repeated appending.
- `Decimal.dfy`: integers to decimal text.
- `Format.dfy`: `sdscatfmt`.
- `Split.dfy`: splitting and joining.
- `Quoting.dfy`: the grammar of `sdssplitargs`, its reading, and the quoting printer that it inverts.
- `Readings.dfy`: what `sdssplitargs` reads and `sdscatrepr` shows for each single byte, with the bytes
  written as numbers.
- `ArgParser.dfy`: the loops of `sdscatrepr` and `sdssplitargs`.

`Bytes.dfy`, `Options.dfy` and `Sequences.dfy` hold common definitions. `dafny verify dfyconfig.toml` checks everything.

## What the proofs show about the code

- `sherry_msg_recv` checks its mailbox once, with an `if`. That is enough: in every reachable state a
  waiting actor has an empty mailbox and a resumed one has a message (`ActorRuns.NoLostWakeup`).
- While the main actor is in `sherry_exit` it is always running or ready, so the loop in `schdule`
  never finds the ready queue empty and never polls libuv. An actor that waits for a descriptor or
  a write at that time waits for ever, and `sherry_exit` does not return. Nor does it return when
  the others all wait for messages, since nobody is left to send one. The exact condition, at any
  moment of the loop: nobody waits for an event, and if somebody waits for a message, some actor
  other than main is ready or running (`ExitReturns.ExitReturnsIffAlways`, with reachable examples of
  both failures in `ActorExit.EventWaiterExample` and `ExitReturns.MessageWaiterExample`).
  While others are ready or running the loop never spins; it spins exactly when they all wait
  (`ExitReturns.ExitNeverSpins`, `ExitReturns.SpinsIff`).
- A wait ends with the event of its own queue and with nothing else (`ActorWaits.BlockedUntilItsEvent`).
  `read_cb` returns before its wake-up when the stream ends or fails (`sherry.c:591-595`), so there is no
  such event then, and a reader that is already blocked sleeps on. Nothing at all wakes the queue for
  writing (`ActorWaits.WriteQueueNeverWakes`); the source never blocks on it.
- The comment at `sherry.c:409-410` says that spawning hands control to the new actor. The code only
  queues it, and so does the model.
- A type 5 header holds no allocation size. Shortening such a string in place makes `sdsAllocSize`
  smaller than the allocation (`SdsStrings.ShortenedType5` is a concrete case). So the invariant is
  "allocation at least header + alloc + 1 bytes", with equality for the other four types, and every
  operation states without assumptions exactly when equality holds after it.
- The assertion of `sdsIncrLen` lets a type 5 string grow to 31 bytes without knowing its allocation.
  The NUL is then written inside the buffer only if the string had been shortened before; an exact
  type 5 string cannot grow this way at all (`SdsStrings.Sds.IncrInBounds`,
  with `SdsStrings.FullType5` as a concrete case).
- Splitting undoes joining for a one-byte separator on tokens without that byte, but for longer
  separators token contents can complete a separator too early (`Split.LongSeparatorExample`);
  `Split.TokensOfJoin` has the exact condition.
- In `sdssplitargs` vertical tab and form feed are blanks between tokens but do not end an unquoted
  token, because the two places use different character sets. The grammar in `Quoting` says so.

## Model

| member | source | states |
|---|---|---|
| `Lists.List.Insert` | sherry.c:79-90 | inserting before a node (or at the end) inserts it at that place of the sequence and keeps all links consistent in both directions |
| `Lists.List.Erase` | sherry.c:94-112 | erasing a node removes exactly it, clears its links and returns its successor |
| `Lists.List.Enqueue` | sherry.c:116-118 | the node becomes the last element |
| `Lists.List.Dequeue` | sherry.c:122-128 | the first element is removed and returned; NULL exactly on an empty list |
| `Lists.WalksVisitNodes` | sherry.c:53-71 | following next from the head or prev from the tail visits exactly the sequence and ends by itself |
| `Lists.DifferentListsAreDisjoint` | sherry.c:53-61 | two different lists share no node |
| `Lists.EnqueueAmong` | sherry.c:116-118 | enqueueing leaves every other list unchanged |
| `Lists.EraseAmong` | sherry.c:94-112 | erasing leaves every other list unchanged |
| `Queues.QueueSet.AddList` | sherry.c:73-76 | a new list is empty and changes no other queue |
| `Queues.QueueSet.Enqueue` | sherry.c:116-118 | with one node per element, enqueueing appends the element to one queue and to no other |
| `Queues.QueueSet.Erase` | sherry.c:94-112 | erasing an element removes it from its queue and leaves it on none |
| `Queues.QueueSet.Dequeue` | sherry.c:122-128 | dequeueing takes the first element off its queue and leaves it on none |
| `Queues.QueueSet.OnOneQueue` | sherry.c:242-243 | an element with one intrusive node is on at most one queue, and once |
| `Queues.QueueSet.MoveAll` | sherry.c:368-376 | unblocking a list moves all its elements, in order, to the end of the ready queue and touches no other queue |
| `ActorModel.FirstFree` | sherry.c:308-314 | the search loop finds the least free slot |
| `ActorInvariant.RegisterOk` | sherry.c:306-332 | a new actor gets the least free id; doubling the table keeps all entries; curractors stays the number of occupied slots |
| `ActorInvariant.InitState` | sherry.c:660-684 | after initialisation main runs with id 0 and an empty mailbox, the other slots are free, all queues are empty |
| `ActorInvariant.InitInv` | sherry.c:660-684 | the state after initialisation satisfies the invariant, with main registered as id 0 |
| `ActorInvariant.SpawnKeepsInv` | sherry.c:411-418 | spawning keeps the invariant |
| `ActorInvariant.YieldKeepsInv` | sherry.c:421-424 | yielding keeps the invariant |
| `ActorInvariant.SendKeepsInv` | sherry.c:429-450 | sending, with the wake-up of a waiting receiver, keeps the invariant |
| `ActorInvariant.RecvKeepsInv` | sherry.c:457-467 | receiving or starting to wait keeps the invariant |
| `ActorInvariant.TakeKeepsInv` | sherry.c:464-466 | taking a message off the mailbox, before or after a wait, keeps the invariant |
| `ActorInvariant.NewFdKeepsInv` | sherry.c:489-508 | a new descriptor with empty queues keeps the invariant |
| `ActorInvariant.BlockKeepsInv` | sherry.c:526-531 | waiting on a descriptor keeps the invariant |
| `ActorInvariant.WriteKeepsInv` | sherry.c:644-654 | waiting for a write keeps the invariant |
| `ActorInvariant.WriteDoneKeepsInv` | sherry.c:637-642 | completing a write keeps the invariant |
| `ActorInvariant.FinishKeepsInv` | sherry.c:402-407 | an actor whose function returns is unregistered, and the invariant holds |
| `ActorInvariant.DispatchKeepsInv` | sherry.c:379-390 | dispatching the head of the ready queue keeps the invariant |
| `ActorInvariant.UnblockWakesAll` | sherry.c:368-376 | a callback makes ready exactly the actors of its queue, once each, in order, and changes nothing else |
| `ActorInvariant.StepKeepsInv` | sherry.c:354-467 | every step of actors, scheduler and event loop keeps: each actor is where its status says, table and ids agree, a waiting actor has no message |
| `ActorRuns.FifoDelivery` | sherry.c:429-467 | over every run and for each actor object, messages received followed by its mailbox are what it had at first followed by what was sent to it, in order |
| `ActorRuns.SentIsAddressed` | sherry.c:435-436 | every message sent to an object carries its id as receiver, also when ids are reused |
| `ActorRuns.RunKeepsAids` | sherry.c:327-341 | an object keeps its id over every run |
| `ActorRuns.StepConserves` | sherry.c:429-467 | one step: for every object, what it takes followed by its new mailbox is its old mailbox followed by what it is sent |
| `ActorRuns.NoLostWakeup` | sherry.c:457-467 | in every reachable state a waiting actor has an empty mailbox, and an actor resumed while receiving gets a message, never NULL |
| `ActorRuns.RegistryAgrees` | sherry.c:306-345 | in every reachable state slot i holds the actor with id i, curractors counts the occupied slots, main has id 0, ids of live actors differ |
| `ActorRuns.StepIsFifo` | sherry.c:354-360 | each step appends to the ready queue exactly the actors it addresses, each once and not already ready |
| `ActorRuns.ReadyQueueIsFifo` | sherry.c:354-388 | over every run, dispatches followed by the ready queue are the first ready queue followed by all wake-ups |
| `ActorRuns.BoundedWaiting` | sherry.c:379-424 | the actor at position k of the ready queue is the (k+1)-th dispatched, whatever the others do |
| `ActorRuns.FinishedForever` | sherry.c:402-407 | a finished actor stays unregistered, is in no queue, is never dispatched and gets and takes no message |
| `ActorRuns.PlacedByStatus` | sherry.c:214-219 | in every reachable state a live actor is counted exactly once over all queues and pending writes, in the place its status names; a running or finished one nowhere |
| `ActorRuns.Quiescence` | sherry.c:379-390 | when the scheduler polls, every live actor waits for an event or for a message with an empty mailbox |
| `ActorRuns.NeverStuck` | sherry.c:379-390 | in every reachable state the scheduler has exactly one thing to do, and a poll can report every read event and pending write, and return |
| `ActorRuns.EveryCallIsPossible` | sherry.c:402-467 | in every reachable state the running actor can make every call, also a send to itself, unless it is inside a receive, which it can only finish |
| `ActorWaits.BlockedUntilItsEvent` | sherry.c:526-562 | an actor that blocks on a queue is neither made ready nor dispatched on any run without the event of that queue, and that event makes it ready |
| `ActorWaits.WriteQueueNeverWakes` | sherry.c:475-484 | no callback wakes the queue for writing: who blocks on it sleeps through every run |
| `ActorWaits.WriterUntilItsWrite` | sherry.c:637-654 | an actor that writes sleeps on every run until its own write is done, which makes it ready |
| `ActorWaits.ReceiverUntilItsMessage` | sherry.c:429-467 | an actor that receives with an empty mailbox sleeps on every run until a message is sent to it, which makes it ready |
| `ActorExit.ExitNeverPolls` | sherry.c:686-690 | once main is in the exit loop no callback of the event loop ever runs, whatever the actors do |
| `ActorExit.EventWaiterStopsExit` | sherry.c:686-690 | an actor that waits for an event during exit waits for ever and keeps the loop condition true |
| `ActorExit.EventWaiterExample` | sherry.c:526-531 | such a state is reachable from initialisation |
| `ExitReturns.ExitReturnsIff` | sherry.c:686-690 | in the exit loop, some behaviour of the other actors makes it return exactly when nobody waits for an event and nobody waits for a message or another actor is ready or running |
| `ExitReturns.ExitReturnsIffAlways` | sherry.c:686-690 | this condition is exact at every moment from the call of sherry_exit on |
| `ExitReturns.ReturningRun` | sherry.c:686-690 | a run on which exit returns: an active actor wakes every message waiter, finishes its receive and returns |
| `ExitReturns.MessageWaiterStopsExit` | sherry.c:457-467 | if only main is active, a message waiter waits for ever and the loop condition stays true |
| `ExitReturns.MessageWaiterExample` | sherry.c:457-467 | such a state without any event waiter is reachable from initialisation |
| `ExitReturns.SuspendedMainCannotYield` | sherry.c:421-424 | a main actor suspended in a receive is not in the exit loop: it cannot yield |
| `ExitReturns.ExitNeverSpins` | sherry.c:686-690 | along a run in which nobody waits, its length is at most five times one plus the number of steps the other actors take |
| `ExitReturns.StepsAreBounded` | sherry.c:686-690 | the same whenever some other actor is ready or running as long as main is not alone |
| `ExitReturns.SpinsIff` | sherry.c:686-690 | the loop can make more than four steps without a step of the others exactly when the others all wait |
| `ExitReturns.SpinningRun` | sherry.c:686-690 | in that case main yields to itself for any number of steps |
| `ActorExit.RoundsCount` | examples/test.c:13-35 | in the predicted dispatch order each actor occurs once more than it yields and main once more than the longest-living one |
| `SherryExit.YieldRound` | sherry.c:379-390 | on the heap, one yield of main dispatches the live actors in spawn order, once each, then main |
| `ExitScripts.EveryScriptedRun` | sherry.c:686-690 | in every run in which main only yields and actor o yields b[o] times and returns, the dispatches are a first part of the predicted rounds, the loop ends exactly when all have happened, only main is left then, and before that the run can go on |
| `ExitScripts.ScriptedRunsEnd` | examples/test.c:13-35 | no such run is longer than two steps per predicted dispatch and one more, so exit returns |
| `ExitScripts.TurnsAtTheEnd` | examples/test.c:13-35 | when the loop ends actor o has been dispatched b[o] + 1 times and main 1 + max(b) times |
| `ExitScripts.OneEnd` | sherry.c:686-690 | there is one run to the end of the loop, and one state it ends in |
| `ExitScripts.SpawnsLead` | examples/test.c:21-34 | after initialisation and k spawns the ready queue is 1, 2, .., k and main runs |
| `ExitScripts.TestProgram` | examples/test.c:13-35 | initialise, spawn any number of yielding actors, exit: every run follows the plan, is bounded, and can go on until the loop ends with only main left |
| `SherryExit.Exit` | sherry.c:686-690 | on the heap, the two loops end: main yields 1 + max times, dispatches are the predicted rounds, only main is left, all in a legal run that follows the script |
| `Runtime.Scheduler.SherryInit` | sherry.c:660-684 | initialisation builds the initial state of the state machine |
| `Runtime.Scheduler.FreeSlot` | sherry.c:308-314 | the search loop over the table finds the least free slot or reports that there is none |
| `Runtime.Scheduler.RegActor` | sherry.c:306-332 | registration in place refines the table update, reallocation included |
| `Runtime.Scheduler.UnregActor` | sherry.c:335-345 | unregistration in place; ids out of range or free are ignored |
| `Runtime.Scheduler.SetReady` | sherry.c:354-360 | an actor that is not ready becomes the last of the ready list |
| `Runtime.Scheduler.SetRunning` | sherry.c:362-365 | status and running are set together |
| `Runtime.Scheduler.UnblockAll` | sherry.c:368-376 | the loop over an intrusive wait list refines the step of the state machine |
| `Runtime.Scheduler.DispatchNext` | sherry.c:379-390 | one turn of the scheduler loop dispatches the head, or polls exactly when nobody is ready |
| `Runtime.Scheduler.Spawn` | sherry.c:411-418 | spawning makes the spawn step and returns the least free id; existing objects and lists stay, added ones are fresh |
| `Runtime.Scheduler.Yield` | sherry.c:421-424 | yielding makes the yield step |
| `Runtime.Scheduler.MsgSend` | sherry.c:429-450 | sending makes the send step; the mailboxes stay the same lists, the message node is fresh |
| `Runtime.Scheduler.MsgRecv` | sherry.c:457-467 | receiving makes the receive step and returns the first message, or waits |
| `Runtime.Scheduler.MsgRecvResume` | sherry.c:462-466 | the second half of a receive that waited returns a message, never NULL |
| `Runtime.Scheduler.FdNew` | sherry.c:489-508 | a descriptor comes with an empty, fresh queue per kind of event, behind the existing ones |
| `Runtime.Scheduler.BlockFd` | sherry.c:526-531 | blocking makes the block step: the actor object becomes the last of the list of the queue it names, and all other lists stay |
| `Runtime.Scheduler.WriteBegin` | sherry.c:644-654 | the blocking part of a write makes the write step and records its actor |
| `Runtime.Scheduler.WriteCb` | sherry.c:637-642 | the write callback makes its actor ready and forgets the request of no other |
| `Runtime.Scheduler.ReadableCb` | sherry.c:556-562 | the listen callback, and the read callback with data, wake the read queue: its actors go, in order, to the end of the ready list, and the other lists stay |
| `Runtime.Scheduler.LoopReturns` | sherry.c:379-390 | when the poll returns the scheduler loop goes on, with all queues as the callbacks left them |
| `Runtime.Scheduler.Finish` | sherry.c:402-407 | the end of an actor's function makes the finish step |
| `Programs.TestSimple` | examples/test.c:21-35 | on the heap, for any number of actors and rounds: the dispatches are the plan, main yields one time more than the longest-living actor, and is alone then |
| `Programs.TestMessage` | examples/test.c:37-63 | on the heap: pong waits, gets the first of two messages, the second stays unread in its mailbox, and exit ends |
| `Programs.WaitForEvent` | sherry.c:526-562 | on the heap: main waits on the second of two new descriptors; the event of the first leaves it asleep, that of the second makes it ready, and it runs again |
| `SdsStrings.ReqTypeIsLeast` | sds.c:60-74 | the chosen header type is the smallest that can hold the size |
| `SdsStrings.CutWraps` | sds.h:130-152 | a length too large for its field loses whole multiples of the range of the field |
| `SdsStrings.GrownTypeIsLeast` | sds.c:222-227 | a string made to grow gets the smallest header for the new allocation among types 8 to 64 |
| `SdsStrings.NewTypeIsLeast` | sds.c:92-95 | a new string gets the smallest header for its length, an empty one type 8 |
| `SdsStrings.SizesByLength` | sds.c:44-74 | the allocation sizes of new and of grown strings by length, as numbers |
| `SdsStrings.Encodings` | sds.h:47-82 | for each type code in the flags: the bytes the header and the NUL add, and how much the header can count |
| `SdsStrings.FitsUpTo` | sds.c:216-231 | the lengths the model allows are exactly those for which header, new allocation and NUL do not overflow a 64-bit size |
| `SdsStrings.RoomInEmpty` | sds.c:204-248 | room for one byte in an empty string: type 8, allocation 2, 6 bytes in all |
| `SdsStrings.Sds.SetLen` | sds.h:130-152 | the length is stored, cut to the width of the field; type and allocation stay |
| `SdsStrings.Sds.IncLen` | sds.h:154-177 | the length grows by the increment, cut to the width of the field |
| `SdsStrings.Sds.SetAlloc` | sds.h:197-216 | the allocation size is stored, cut to the width of the field, except for type 5 |
| `SdsStrings.Sds.constructor` | sds.c:89-145 | a new string has the content, exact allocation and least type (type 8 when empty) |
| `SdsStrings.Sds.Zeroed` | sds.c:101-104 | without initial content all bytes are zero |
| `SdsStrings.Sds.NoInit` | sds.c:101-104 | with SDS_NOINIT only length, allocation, type and NUL are known |
| `SdsStrings.Sds.MakeRoomFor` | sds.c:204-248 | room for the addition; content and following byte unchanged across header changes; beyond the addition as much again as the length needed, at most 1 MB, is free; untouched if there was room |
| `SdsStrings.Sds.RemoveFreeSpace` | sds.c:256-291 | no free space left, content unchanged; the header shrinks only to type 5 or 8; exactly when the allocation is exact |
| `SdsStrings.Sds.IncrLen` | sds.c:334-373 | bytes written behind the end become content, or the end is trimmed; exactly when the allocation is exact afterwards |
| `SdsStrings.Sds.IncrAssertion` | sds.c:334-371 | the assertion holds exactly when the new length is within the allocation, or for type 5 another one that its header can count |
| `SdsStrings.Sds.IncrInBounds` | sds.c:340-341 | the assertion keeps the NUL inside the buffer except for a growing type 5 string, and never for an exact one |
| `SdsStrings.Sds.GrowZero` | sds.c:380-391 | the content is padded with zero bytes, never shortened; the new allocation, and exactly when it is exact |
| `SdsStrings.Sds.CatLen` | sds.c:398-407 | the content is the old content followed by the bytes; cost of the call, and exactly when the allocation is exact |
| `SdsStrings.Sds.CpyLen` | sds.c:427-436 | the content is the bytes; exactly when the allocation is exact afterwards |
| `SdsStrings.ShortenedType5` | sds.c:184-187 | a concrete string whose header forgets its allocation size |
| `SdsStrings.FullType5` | sds.c:340-341 | a concrete string of one byte for which the assertion holds and the NUL would leave the buffer |
| `SdsGrowth.SlackIsBounded` | sds.c:216-220 | after any appends the allocation is at most twice the length and at most 1 MB above it |
| `SdsGrowth.CopyingIsAmortised` | sds.c:204-248 | below 1 MB all reallocations together copy at most the final allocation |
| `SdsGrowth.LongCopyingIsBounded` | sds.c:216-220 | for every length: appending to an empty string copies in all about half its length per megabyte of it |
| `SdsGrowth.Build` | sds.c:398-407 | a string built by appends has the concatenated content within these three bounds |
| `Decimal.PutDigits` | sds.c:470-474 | the digit loop writes the notation backwards |
| `Decimal.ReverseInPlace` | sds.c:482-489 | the swap loop reverses the bytes |
| `Decimal.Sdsll2str` | sds.c:451-491 | the buffer holds the notation and a NUL at the returned length, within 21 bytes, for every signed 64-bit value |
| `Decimal.Sdsull2str` | sds.c:494-520 | the same for every unsigned 64-bit value |
| `Decimal.NotationRoundTrip` | sds.c:444-449 | the notation is canonical and reading it gives the number back |
| `Decimal.NotationByBytes` | sds.c:466-480 | the notation by byte values: one digit, a digit more, a minus sign in front |
| `Decimal.CanonicalIsUnique` | sds.c:444-449 | it is the only canonical decimal text with that value |
| `Decimal.NotationIsInjective` | sds.c:444-449 | different numbers have different notations |
| `Decimal.NotationFits` | sds.c:450 | no 64-bit value needs more than 20 characters |
| `Format.CatFmt` | sds.c:616-709 | the content is the old content followed by the rendering, terminated by NUL; room for twice the old content and format is there; exactly when the allocation is exact |
| `Format.Directives` | sds.c:628-704 | the loop appends the rendering and returns the write index, which is the length |
| `Format.Directive` | sds.c:640-702 | given room for one byte, one turn of the loop takes one directive or byte, keeps what is still to come, and leaves the index at the length |
| `Format.PutText` | sds.c:650-655 | text is written at the end of the content after room has been made |
| `Format.ShowArg` | sds.c:645-688 | the text of an argument is the string itself or the decimal notation of the number |
| `Format.RenderConcat` | sds.c:605-615 | rendering distributes over formats that do not end inside a directive |
| `Format.StringDirectives` | sds.c:646-656 | %s and %S, by byte values: the arguments they take, and that they print them as they are |
| `Format.NumberDirectives` | sds.c:657-690 | %i, %I, %u and %U, by byte values: exactly the integers they take |
| `Format.NumberText` | sds.c:657-690 | each of them prints the canonical decimal text whose value is the argument |
| `Format.SpecifiersTakeOne` | sds.c:645-690 | each of the six specifiers takes one argument and needs it |
| `Format.OtherDirectives` | sds.c:691-694 | any other byte behind % takes no argument and prints itself |
| `Format.PlainBytes` | sds.c:641-700 | a byte other than % prints itself, a last % nothing |
| `Format.VerbatimRenders` | sds.c:614 | doubling every % renders any text as itself |
| `Split.SplitLen` | sds.c:835-882 | the array holds the tokens between leftmost non-overlapping separators, always has room, and is null exactly for empty input or separator |
| `Split.ScanIsTokens` | sds.c:849-872 | the search loop, from its first state on, yields exactly the tokens |
| `Split.MatchSpec` | sds.c:858 | the position found is the first occurrence of the separator, or there is none |
| `Split.JoinTokens` | sds.c:819-834 | joining the tokens gives the input back |
| `Split.TokensAreClean` | sds.c:819-834 | no token contains the separator |
| `Split.TokensOfJoin` | sds.c:835-872 | splitting a join gives the list back exactly when no separator appears too early |
| `Split.OneByteRoundTrip` | sds.c:858-865 | for one byte: exactly when no token contains it |
| `Split.LongSeparatorExample` | sds.c:858-865 | clean tokens are not enough for longer separators |
| `Split.JoinIsEmpty` | sds.c:840-843 | the join that is not split is that of no token or one empty token |
| `Split.JoinSds` | sds.c:1120-1129 | the loop builds the join |
| `Quoting.UnitsAreRead` | sds.c:990-1024 | a well-formed quotation, double or single, is read as the value of its units |
| `Quoting.QuotationHasUnits` | sds.c:990-1039 | every text behind an opening quote consists of such units up to the closing quote or the end |
| `Quoting.LineIsRead` | sds.c:979-1071 | a well-formed line is read as its argument values |
| `Quoting.BrokenIsRefused` | sds.c:1014-1035 | a line with an unterminated or badly closed quotation is refused |
| `Quoting.Diagnose` | sds.c:973-1081 | every line is one or the other |
| `Quoting.AcceptedLines` | sds.c:954-972 | the parser succeeds with given arguments exactly on the lines that denote them |
| `Quoting.RefusedLines` | sds.c:968-972 | it returns NULL exactly on unbalanced quotes or a closing quote followed by a non-space |
| `Quoting.ReprRoundTrip` | sds.c:965-966 | quoting any byte strings, joining them with spaces and parsing gives exactly the list back |
| `Readings.HexEscape` | sds.c:991-1000 | in double quotes \x and two digits of either case is the byte of that value, for all 256 values |
| `Readings.NoHexEscape` | sds.c:991-993 | without two such digits \x is an x followed by what stands there |
| `Readings.Escapes` | sds.c:1001-1013 | \n, \r, \t, \b, \a are 10, 13, 9, 8, 7; any other escaped byte is itself |
| `Readings.DoubleQuoted` | sds.c:1022-1024 | any other byte in double quotes is itself |
| `Readings.SingleQuoted` | sds.c:1025-1039 | in single quotes only an escaped single quote is special |
| `Readings.BehindQuote` | sds.c:1014-1021 | behind a closing quote exactly the six blanks or the end are accepted |
| `Readings.OpenQuote` | sds.c:1047-1054 | a quote behind a plain part opens a quotation of the same token, and must be closed |
| `Readings.BareTokens` | sds.c:1041-1058 | an unquoted token ends at 32, 9, 10, 13 or the end and at no other byte but a quote |
| `Readings.BlanksInFront` | sds.c:980-981 | the six blanks are skipped before a token |
| `Readings.ReprByte` | sds.c:898-921 | the quoted form of each of the 256 bytes, by byte values |
| `Readings.ReprConcat` | sds.c:898-921 | the quoted form of a concatenation is made of those of the parts, so the bytes fix it for all strings |
| `ArgParser.CatRepr` | sds.c:898-921 | the loop appends the quoted form, and the allocation is exact afterwards |
| `ArgParser.InDoubleQuotes` | sds.c:990-1024 | one turn in double quotes, with all lookahead inside the line and its NUL |
| `ArgParser.InSingleQuotes` | sds.c:1025-1039 | one turn in single quotes |
| `ArgParser.OutsideQuotes` | sds.c:1040-1059 | one turn outside quotes |
| `ArgParser.Turn` | sds.c:989-1060 | one turn in the current mode fails, ends the token, appends one byte or opens a quotation, as the grammar says for that mode |
| `ArgParser.GetToken` | sds.c:983-1061 | the token loop ends and reads one token, or refuses |
| `ArgParser.SkipSpaces` | sds.c:980-981 | the blanks skipped are exactly those the grammar ignores, and the NUL is not passed |
| `ArgParser.SplitArgs` | sds.c:973-1081 | the parser computes the reading of the line, never reading behind its NUL |
| `ArgParser.QuoteAndSplit` | sds.c:965-966 | quoting every argument, joining with spaces and splitting, done in sequence, gives the arguments back |

## Left out

- `Runtime.Scheduler.WriteBegin` keeps pending writes as a set of actors; the requests themselves are held by libuv.
- `Runtime.Scheduler.MsgSend` finds mailboxes as numbered lists of one family, one per actor, rather than as list heads inside the actors.
- Context switching, stacks, the assembly and ucontext code: a switch is the change of `control` in the state.
- libuv, sockets and timers: the event loop is any sequence of read events and completed writes, each pending write completing at most once.
- What `sherry_exit` does after its loop: unregistering main and freeing the scheduler.
- Buffers of `sherry_read` and `read_cb`: their bytes are not modelled, only the blocking and waking.
- Closing descriptors, and actors still waiting on a closed descriptor.
- Sending to an unregistered id, which the source leaves unchecked (`sherry.c:431`): a registered receiver is required.
- Freeing actors and messages; finished actors stay as objects.
- `SdsStrings.Sds.IncrLen` requires the assertion of the source and that the NUL falls inside the buffer (`SdsStrings.Sds.IncrInBounds` says when it does); the assertion's casts to 32 bits are not modelled.
- Allocation failure and size_t overflow: sizes are required to fit, with 64-bit long.
- `sdscatvprintf` beyond its three uses in `sdscatrepr`.
- `Format.CatFmt` takes arguments of the kind and range its format promises.
- `ArgParser.SplitArgs` builds tokens and the vector as values rather than as strings in reallocated memory.
- `sdstrim`, `sdsrange`, `sdscmp`, `sdsmapchars`, `sdstolower`, `sdstoupper`, `sdsclear`, `sdsdup`, `sdsjoin`: simple members that would add nothing harder.
- The C locale is assumed for isspace and isprint.
