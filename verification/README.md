# Verified models of xx-core

xx-core is an asynchronous runtime built on fibers. This project models its synchronisation
protocols, its select combinator, its thread pool and its buffered input in Dafny, and proves
what holds of them. `dafny verify dfyconfig.toml` verifies everything.

## How to read it

Code that several threads run at once is a labelled transition system on values (`Machine`
defines runs): one label is one atomic operation of one thread, so a sequence of labels is an
interleaving, and a lemma about `Run(..)` is about every interleaving of any number of
threads. `Step` is the code; fields called history (`h`, `sent`, `got`, `who`) record what
happened and are never read by it. `Inv` is an inductive invariant.

Code that one thread runs at a time is a class whose methods are the code, with ghost fields
for what its pointers or buffers mean. Re-entrant callbacks, children of a future and the
stream under a reader are given as arbitrary scripts or as methods that choose freely among
all outcomes their contracts allow.

| file | subject |
|---|---|
| `Ring`, `Tickets`, `WordRing`, `RingDrop` | the bounded multi-producer multi-consumer ring, its machine-word arithmetic, the same ring on machine words, its destructor |
| `WaitList`, `WaitOrder`, `Mutex`, `Channel` | the thread-safe wait list, the order in which it wakes, and the mutex and the channel wake-ups built on it |
| `AtomicWaiter`, `Oneshot`, `OneshotWait` | the one-word waiter cell; the oneshot channel; a receiver that waits in the cell for the value |
| `LinkedList`, `WaiterLists`, `RawWaitList` | the intrusive list as pointers; the main list and the local lists of running wake calls over it; the single-thread wait list with re-entrant callbacks |
| `Branch`, `Select`, `SelectRun` | two futures with one result; the trees of branches that `select!` generates; such trees run |
| `ThreadPool` | workers, queue, condition variable, cancellation |
| `Broadcast`, `BroadcastSteps` | the broadcast channel, call by call; its atomic operations, interleaved, with the wait list |
| `Stream`, `BufReader`, `Reading`, `VInt`, `Uint` | buffered reading and seeking, reading loops, variable-length integers, mixed signed arithmetic |
| `Machine`, `Lists`, `Bits`, `Wrappers` | runs, lists of numbers, machine words, results |

## Where the code does not keep a promise

For each the exact condition is proved, for all inputs or runs. The first seven items have a
concrete run as well; the last two are contracts that hold of every call.

* A ring of one slot is accepted by `create_slots` but overwrites values
  (`Ring.SafeFromTwoSlots`: safe in all runs if and only if it has two slots or more).
* The oneshot documentation (oneshot.rs:25-37) promises that a receiver that closes, tries to
  receive and is then dropped has the value or makes `send` return it. If the drop falls
  between the sender's store and its look at the closed mark, the drop discards the value and
  `send` returns `Ok` (`Oneshot.DropDecides`, `Oneshot.PromiseFails`).
* A `close` of the thread-safe wait list can overlook a waiter that has read `closed` but not
  yet stored `empty` (`WaitList.CloseCanMiss`, `WaitList.CloseDoesMiss`).
* A receiver that was woken and is interrupted gives up as soon as it finds the channel
  empty. A sender wakes before it writes, so the value may come after that, while another
  receiver sleeps on beside it. Every step of the channel keeps the wake-ups sufficient, except
  when a woken receiver gives up while some receiver sleeps and every helper is needed
  (`Channel.GiveUpDecides`, `Channel.WakeIsLost`).
* A `cancel_direct` that gets the lock after `cancel_all` has completed its item looks for the
  worker of an item that never had one (`ThreadPool.CancelGoesAstray`,
  `ThreadPool.CancelDoesGoAstray`).
* A broadcast `send` that is overtaken by a whole lap between its ticket and its write puts its
  value over the later one, and a receiver that waits for that finds nothing. In runs without
  such a send every receiver less than a lap behind finds its value
  (`BroadcastSteps.OrderlyRunsDeliver`, `BroadcastSteps.OvertakenSendHides`,
  `BroadcastSteps.SendsDoOvertake`).
* A seek backwards inside the buffer, over bytes read past the buffer since, returns the right
  position but shows stale bytes (`BufReader.BufReader.Seek`, `BufReader.StaleSeek`;
  `BufReader.BufReader.Unconsume` has the same condition).
* `Branch` reports the first child as first on the path where the second finished inside
  `run` and the first then finished inside its cancel, and on no other
  (`Branch.Branch.Drive`).
* `read_until` on a reader without a buffer always reports the end of the stream
  (`Reading.ReadUntil`).

## Model

| member | source | states |
|---|---|---|
| Ring.RunsAreSafe | src/async_std/sync/channel/mp.rs:32-113 | for two slots or more and every interleaving of any senders and receivers: head <= tail <= head + N, each received ticket carries the value sent under it, each ticket below head was received once or its one owner is about to, and no two threads own a ticket |
| Ring.StepInv | src/async_std/sync/channel/mp.rs:45-83 | every operation of `next_slot` keeps the slot and thread invariant; in it, a sequence read before an exchange that succeeds is still current |
| Ring.RefinesQueue | src/async_std/sync/channel/mp.rs:57-76 | the ring refines a bounded queue: only a successful exchange appends a value or removes the front, history never changes, and at most N values are queued |
| Ring.DataAccess | src/async_std/sync/channel/mp.rs:86-113 | after every run, a sender that comes to its slot does not write over a value, a receiver finds its ticket's value there, is the first to read it, and returns it |
| Ring.FullMeansFull | src/async_std/sync/channel/mp.rs:78-80 | "full" is reported only at the current tail, and only while the ticket a lap back is unread or still held by a thread |
| Ring.EmptyMeansEmpty | src/async_std/sync/channel/mp.rs:78-80 | "empty" is reported only at the current head, when nothing is queued or the front is not yet published |
| Ring.LoadsApart | src/async_std/sync/channel/mp.rs:115-127 | although other threads step between their two loads, `len` and `spare_capacity` never wrap, and zero means that the ring was empty, or full, at the first load |
| Ring.QuietContents | src/async_std/sync/channel/mp.rs:32-113 | between calls the slots hold exactly the queued values under their sequence numbers and nothing else |
| Ring.QuietCalls | src/async_std/sync/channel/mp.rs:86-113 | a call that runs undisturbed is enqueue or dequeue and fails exactly when full or empty |
| Ring.SafeFromTwoSlots | src/async_std/sync/channel/mp.rs:11-26 | all runs are safe if and only if the ring has at least two slots; the code refuses only zero |
| Ring.TwoSendsIntoOneSlot | src/async_std/sync/channel/mp.rs:45-76 | with one slot two sends in a row both succeed and break safety |
| Tickets.CreateSlots | src/async_std/sync/channel/mp.rs:11-26 | refuses exactly zero and sizes without a representable power of two; otherwise the least power of two not below the size, each slot numbered by its index |
| Tickets.SlotIsMask | src/async_std/sync/channel/mp.rs:40-48 | masking the wrapped counter gives the slot of the unbounded ticket |
| Tickets.DiffIsExact | src/async_std/sync/channel/mp.rs:53-55 | the wrapped signed comparison equals the exact difference if and only if that fits the signed word |
| WordRing.LoadedTicketsCompareExactly | src/async_std/sync/channel/mp.rs:45-57 | in every reachable state the comparison of any loaded ticket, stale ones included, comes out on words as on integers, if its lag plus the capacity is below half the range of the counter |
| WordRing.StepAgrees | src/async_std/sync/channel/mp.rs:32-83 | with nobody that far behind, each operation of the ring is the operation on wrapped counters, masked indices and wrapped sequence numbers |
| WordRing.RunsAgree | src/async_std/sync/channel/mp.rs:32-113 | so whole runs agree, and what is proved of the ring holds of the machine |
| RingDrop.Channel.constructor | src/async_std/sync/channel/mp.rs:171-176 | what the destructor finds after any run that has come to rest: pending is exactly the sent-but-unreceived values |
| RingDrop.Channel.TakeFront | src/async_std/sync/channel/mp.rs:178-188 | each turn moves out the oldest pending value after advancing head |
| RingDrop.Channel.DropAll | src/async_std/sync/channel/mp.rs:171-189 | drops the pending values in order, each once, until none is left or a destructor unwinds |
| RingDrop.Channel.Drop | src/async_std/sync/channel/mp.rs:192-212 | with the guard, exactly the sent-but-unreceived values are dropped, unless two destructors unwind |
| WaitList.RunsAreSafe | src/async_std/sync/wait_list.rs:425-561 | in every interleaving of suspends, wakes, closes and cancels: a non-empty list or a committed waiter implies `empty` is false; a waiter that got Pending is completed at most once, exactly once as soon as it is unlinked and its owner is through; one that got Done never |
| WaitOrder.RunsInOrder | src/async_std/sync/wait_list.rs:425-561 | in every run: those who joined the list, in order of joining and without those that a cancel took out, are those whom wakes took out, in order of waking, followed by the list; whoever was completed as woken was taken out by a wake, and as cancelled by a cancel |
| WaitList.CancelTakesOne | src/async_std/sync/wait_list.rs:432-457 | a cancel removes its own waiter, if still linked, and no other |
| WaitList.DrainShuts | src/async_std/sync/wait_list.rs:535-570 | a close that takes the lock leaves a closed, empty list that nobody can still join |
| WaitList.ShutStays | src/async_std/sync/wait_list.rs:461-478 | a list closed and emptied so stays empty under every step |
| WaitList.CloseCanMiss | src/async_std/sync/wait_list.rs:463-467 | after a close that saw `empty`, some run strands a waiter if and only if a suspend then stood between reading `closed` and storing `empty` |
| WaitList.CloseDoesMiss | src/async_std/sync/wait_list.rs:463-467 | a concrete run that ends with a waiter asleep on a closed list and all threads at rest |
| Mutex.RunsAreSafe | src/async_std/sync/mutex.rs:101-156 | at most one task holds the lock, and the word is unlocked exactly when none does; while a waiter sleeps the word is Contended, or an unlocker that saw Contended has yet to pop or complete, or a woken waiter has yet to load or swap; with interrupts and cancels by anybody |
| Mutex.SleeperHasHolder | src/async_std/sync/mutex.rs:101-107 | with nobody inside unlock or just woken, a sleeper means that some task holds the lock and will find it Contended |
| Mutex.LockOutcome | src/async_std/sync/mutex.rs:109-138 | after every run, whoever asks for the lock gets it if and only if nobody holds it, and whoever is turned away leaves the word Contended for the one who does |
| Channel.RunsAreCovered | src/async_std/sync/channel/mp.rs:86-98 | in every run, with cancels by anybody, in which no woken receiver gives up: while a receiver sleeps or is committed to, unclaimed tickets are at most the senders yet to wake plus the woken receivers that have neither taken an item nor slept again |
| Channel.GiveUpDecides | src/async_std/sync/channel/mp.rs:318-337 | a receiver that gives up leaves that intact if and only if it was not woken, or nobody sleeps, or the unclaimed tickets are fewer than the helpers |
| Channel.WakeIsLost | src/async_std/sync/channel/mp.rs:318-337 | a concrete run, with an interrupted receiver, that ends with everybody at rest, a value in the ring and a receiver asleep |
| Channel.NoItemLeftBehind | src/async_std/sync/channel/mp.rs:277-337 | so no receiver sleeps beside an item with nobody coming |
| AtomicWaiter.RunsAreSafe | src/async_std/sync/wait_list.rs:49-105 | each request is completed at most once and only if its suspend returned Pending; a Pending request no longer stored is completed, or exactly one thread is about to |
| AtomicWaiter.ClosedForGood | src/async_std/sync/wait_list.rs:49-56 | once closed, in every continuation the word stays closed |
| AtomicWaiter.CloseTakesTheWaiter | src/async_std/sync/wait_list.rs:147-166 | a close leaves the closed marker and alone owns whoever was stored |
| Oneshot.MovedOutOnce | src/async_std/sync/channel/oneshot.rs:60-70 | the sent value is moved out at most once, exactly once when both ends are dropped, and `send` returns it exactly when the sender took it back |
| Oneshot.CellIsFull | src/async_std/sync/channel/oneshot.rs:60-65 | whoever reads the cell finds the value there, and nobody else is about to |
| Oneshot.FlagAfterGuard | src/async_std/sync/channel/oneshot.rs:175-193 | after a close and an empty receive, the flag is set only while `send` has yet to look at the closed mark or to swap |
| Oneshot.DropDecides | src/async_std/sync/channel/oneshot.rs:157-164 | the value reaches the receiver or comes back from `send` if and only if the flag is not set when the receiver's drop looks at it; otherwise `send` returns Ok |
| Oneshot.GuaranteeHolds | src/async_std/sync/channel/oneshot.rs:25-37 | the promise is kept for every receiver that closed and tried to receive first and whose drop does not look while `send` is between its store and its own look |
| Oneshot.PromiseFails | src/async_std/sync/channel/oneshot.rs:25-37 | a concrete run, with a close and an empty receive first, in which the value is discarded and `send` returns Ok |
| Oneshot.SendAfterDropFails | src/async_std/sync/channel/oneshot.rs:21-23 | if the receiver is dropped before a value is sent, `send` gives the value back, in every run |
| OneshotWait.SendWakesReceiver | src/async_std/sync/channel/oneshot.rs:107-111 | in every run of sender, receiver and cancels over the waiter cell: once `send`, or the sender's drop, is past its close, a receiver that waits has been completed, or only a cancel that took its request is about to, and nobody can begin to wait |
| OneshotWait.WokenFindsValue | src/async_std/sync/channel/oneshot.rs:87-98 | once `send` is past its close, a `try_recv` that runs undisturbed moves the value out, unless it is gone or `send` is taking it back |
| LinkedList.Inverse | src/container/intrusive/linked_list.rs:10-38 | in any set of disjoint lists, next and prev are inverse and a listed node has both pointers |
| LinkedList.InNoList | src/container/intrusive/linked_list.rs:50-58 | a node with a null pointer is in no list |
| LinkedList.InOneList | src/container/intrusive/linked_list.rs:197-206 | a node is in at most one list |
| LinkedList.Node.SetPtrs | src/container/intrusive/linked_list.rs:18-31 | links the node between the given neighbours, whatever coincides, itself included, and touches no other pointer |
| LinkedList.Node.SetCircular | src/container/intrusive/linked_list.rs:35-38 | the node points to itself both ways |
| LinkedList.Node.UnlinkUnchecked | src/container/intrusive/linked_list.rs:64-78 | by two pointer writes the ring closes around the node, whose pointers become null |
| LinkedList.Node.Unlink | src/container/intrusive/linked_list.rs:87-92 | a node leaves whichever list holds it, without being told which; every other list of the world is unchanged; an unlinked node is refused |
| LinkedList.List.Pin | src/container/intrusive/linked_list.rs:235-240 | a pinned new list joins the world as an empty one |
| LinkedList.List.IsEmpty | src/container/intrusive/linked_list.rs:120-122 | true exactly for a list without nodes |
| LinkedList.List.Append | src/container/intrusive/linked_list.rs:200-206 | the node becomes the last; the circular shape of all lists is kept |
| LinkedList.List.PopFront | src/container/intrusive/linked_list.rs:166-185 | removes and returns the first node, unlinked, or None exactly for an empty list |
| LinkedList.List.MoveElements | src/container/intrusive/linked_list.rs:217-232 | all nodes change list in order, by four pointer writes for any number of nodes |
| WaiterLists.WaiterLists.Add | src/async_std/sync/wait_list.rs:225-256 | on pointers: a new node is appended to the main list; the local lists keep their waiters |
| WaiterLists.WaiterLists.Remove | src/async_std/sync/wait_list.rs:230-243 | on pointers: a linked waiter leaves whichever of the lists holds it, and all others stay |
| WaiterLists.WaiterLists.Split | src/async_std/sync/wait_list.rs:320-329 | on pointers: a new local list takes over all waiters, in order |
| WaiterLists.WaiterLists.PopMain | src/async_std/sync/wait_list.rs:308-313 | on pointers: the first waiter of the main list, unlinked, or None |
| WaiterLists.WaiterLists.PopLocal | src/async_std/sync/wait_list.rs:331-338 | on pointers: the first waiter of the innermost local list, unlinked, or None |
| RawWaitList.RawWaitList.Wait | src/async_std/sync/wait_list.rs:258-276 | refused exactly when closed or, if not, interrupted; otherwise the waiter joins at the back and is counted |
| RawWaitList.RawWaitList.Return | src/async_std/sync/wait_list.rs:272-277 | a completed waiter returns once and is counted no more |
| RawWaitList.RawWaitList.Unlink | src/async_std/sync/wait_list.rs:230-255 | a cancel takes a sleeping waiter out of the main list or of any running call's list, and completes it as cancelled |
| RawWaitList.RawWaitList.WakeOne | src/async_std/sync/wait_list.rs:308-318 | completes the waiter that has waited longest, or returns false exactly when there is none |
| RawWaitList.RawWaitList.WakeAll | src/async_std/sync/wait_list.rs:320-349 | on pointers and whatever its callbacks do: completes, in arrival order, the waiters present at the call except those cancelled first, and nobody else; when it returns each of them has been completed, once; it answers the number of waits at the call; a closed list stays closed |
| RawWaitList.RawWaitList.Run | src/async_std/sync/wait_list.rs:320-349 | any callback program, nested wakes included, keeps every waiter in one list or completed once, takes nothing but cancelled waiters from the lists of calls around it, and terminates |
| RawWaitList.RawWaitList.Close | src/async_std/sync/wait_list.rs:351-354 | the same as wake_all, on a list that is then closed, whatever the callbacks do |
| RawWaitList.ProgressKept | src/async_std/sync/wait_list.rs:332-347 | a callback leaves the drain's account right: woken so far plus still listed is the snapshot without the cancelled |
| RawWaitList.AllCompleted | src/async_std/sync/wait_list.rs:332-347 | with the local list empty, everybody of the snapshot is completed, after the call began |
| Branch.Branch.Drive | src/coroutines/branch.rs:211-408 | for all scripts of both children and all later events: the result is delivered exactly once, returned or called back, when and only when no child is in progress, with what the children returned; each cancel token is run at most once; the order flag is right except on one path |
| Branch.Branch.Run | src/coroutines/branch.rs:352-408 | when it returns Done and with what; the second child is left out exactly if the first finished at once and asked for it |
| Branch.Branch.FinishSecond | src/coroutines/branch.rs:374-405 | a cancel of the first child in there neither delivers twice nor loses the result |
| Branch.Branch.CompleteSingle | src/coroutines/branch.rs:214-254 | an interrupted completion does nothing more; the last one delivers; a first one that asks for it runs the other token once |
| Branch.Branch.CompleteFirst | src/coroutines/branch.rs:258-268 | the first child's completion: stores, delivers or cancels the other |
| Branch.Branch.CompleteSecond | src/coroutines/branch.rs:272-282 | the same for the second child |
| Branch.Branch.CancelAll | src/coroutines/branch.rs:304-345 | every child in progress has been asked to stop exactly once, and no token is looked for that is gone |
| Branch.Branch.RunFirstCancel | src/coroutines/branch.rs:11-24 | a token is run only while its child is in progress |
| Select.Expand | macros/src/asynchronous/branch.rs:113-203 | the pairing loop ends with n - 1 branches, each used exactly once, the tasks as leaves in source order, depth the rounded-up logarithm of n; fewer than two tasks are refused |
| Select.Round | macros/src/asynchronous/branch.rs:116-201 | one round halves the deque, rounding up, and keeps its order |
| Select.CeilLog2Bounds | macros/src/asynchronous/branch.rs:116-201 | the number of rounds is the least d with n <= 2^d |
| Select.DecodesOnce | macros/src/asynchronous/branch.rs:139-165 | for every tree and every possible result the generated code assigns exactly once, to the future the is-first flags lead to, its value, and never reaches the unreachable arm |
| Select.SecondAssignsNothing | macros/src/asynchronous/branch.rs:152-164 | the code for the losing side runs through without assigning |
| SelectRun.Drive | src/coroutines/branch.rs:352-408 | for every tree of branches, every behaviour of its tasks and every sequence of completions and cancels: it delivers exactly when no task is in progress; what it delivers fits the tree; and the generated code assigns exactly once, the value of a task that has finished with it |
| SelectRun.Start | src/coroutines/branch.rs:352-408 | a branch is a lawful child of a branch: what its `run` answers is where it then is |
| SelectRun.Stop | src/coroutines/branch.rs:304-345 | the same for its cancel, which the parent runs only while it is in progress |
| SelectRun.Finish | src/coroutines/branch.rs:256-282 | the same for the callback of a task, which goes up the tree as far as branches have their result by it |
| SelectRun.DeliveredFits | macros/src/asynchronous/branch.rs:139-165 | the result that a tree delivers fits it, and the flags lead to a task that finished with the value found |
| SelectRun.InProgressWhileTasksRun | src/coroutines/branch.rs:211-254 | a tree is in progress exactly while one of its tasks is |
| ThreadPool.NobodyOversleeps | src/threadpool/mod.rs:145-160 | with the lock free, a sleeping worker means that queued items are at most the notified workers on their way; after every close has run through, no worker sleeps |
| ThreadPool.CompletedOnce | src/threadpool/mod.rs:145-190 | every item is queued, or with exactly the worker that popped it, or completed, once in all, late cancels included; a running item's cancelled flag is up only if that item was cancelled |
| ThreadPool.AnswerMeansRun | src/threadpool/mod.rs:304-369 | the answer is true exactly from the worker that ran the item; false only from cancel, cancel_all or the queue's drop |
| ThreadPool.CancelReaches | src/threadpool/mod.rs:335-369 | a cancel completes a queued item at once and no other item ever; otherwise it raises the flag of exactly the worker that has the item as its current work, running it or through with it but not yet back at the lock, and else does nothing |
| ThreadPool.CancelGoesAstray | src/threadpool/mod.rs:349-352 | the worker that a cancel looks at exists, if and only if the item was not completed by `cancel_all` or the queue's drop |
| ThreadPool.CancelDoesGoAstray | src/threadpool/mod.rs:61-73 | a concrete run in which it was |
| ThreadPool.DropCompletesAll | src/threadpool/mod.rs:93-101 | after the queue's drop every item ever submitted was completed exactly once |
| ThreadPool.CompleteAllEffect | src/threadpool/mod.rs:61-73 | cancel_all completes exactly the listed items, each once, with false |
| Broadcast.Channel.Send | src/async_std/sync/broadcast.rs:337-368 | a value is given back exactly when there is no receiver; it destroys the value a lap before it if that is still there, and no other |
| Broadcast.Channel.TryRecv | src/async_std/sync/broadcast.rs:188-240 | values come in send order; a receiver a lap behind is told exactly how many it missed and next gets the oldest retained; received plus missed is the distance moved; the last receiver due moves the value out, before that it is copied |
| Broadcast.Channel.GotInOrder | src/async_std/sync/broadcast.rs:188-240 | a receiver's tickets ascend from where it began; with the missed and the skipped ones they are the distance it went |
| Broadcast.Channel.Compare | src/async_std/sync/broadcast.rs:197-205 | how the slot's sequence stands to the receiver's position, in all three cases; a value in reach is initialised |
| Broadcast.Channel.Decrement | src/async_std/sync/broadcast.rs:209-217 | the count is above zero exactly while the slot is initialised |
| Broadcast.Channel.Subscribe | src/async_std/sync/broadcast.rs:167-173 | a receiver starts at the tail |
| Broadcast.Channel.CloneSender | src/async_std/sync/broadcast.rs:380-384 | one more sender is counted |
| Broadcast.Channel.DropSender | src/async_std/sync/broadcast.rs:386-392 | the channel is closed exactly when the last sender is gone |
| Broadcast.Channel.Synchronize | src/async_std/sync/broadcast.rs:182-184 | to the tail, receiving and reporting nothing |
| Broadcast.Channel.DropReceiver | src/async_std/sync/broadcast.rs:315-319 | the others are not affected |
| Broadcast.Channel.DropAll | src/async_std/sync/broadcast.rs:94-104 | drops distinct tickets' values still in their slots, all of them unless a destructor unwinds |
| Broadcast.Channel.Drop | src/async_std/sync/broadcast.rs:107-125 | so each stored value is moved out or dropped exactly once, unless two destructors unwind |
| BroadcastSteps.EveryReceiverIsCounted | src/async_std/sync/broadcast.rs:167-173 | in every interleaving of subscriptions, sends and receives: the receivers still to get a ticket are at most what its send counted, and at most the `remaining` of its slot; the value is there while that is above zero |
| BroadcastSteps.ReceiverFindsValue | src/async_std/sync/broadcast.rs:197-217 | so a receiver whose slot has its ticket finds the value sent under it, and the one that moves it out is the last |
| BroadcastSteps.NobodySleepsBehindTheTail | src/async_std/sync/broadcast.rs:243-262 | in every run, cancels included: a receiver sleeps, or is committed to, behind the tail only while a send of a ticket it waits for has not finished its `wake_all` |
| BroadcastSteps.OrderlyRunsDeliver | src/async_std/sync/broadcast.rs:337-368 | in runs in which no send is overtaken by a lap, a receiver less than a lap behind finds its next value once that was written |
| BroadcastSteps.OvertakenSendHides | src/async_std/sync/broadcast.rs:345-352 | a send that was overtaken hides the later value from everyone who waits for it |
| BroadcastSteps.SendsDoOvertake | src/async_std/sync/broadcast.rs:337-368 | a concrete run of two sends in a channel of one slot |
| Uint.SignedDiffExact | src/impls/uint.rs:38-44 | at every width the overflow flag is exact, the result right modulo the word, and exact when the flag is clear |
| Uint.SaturatingSignedDiffClamps | src/impls/uint.rs:46-56 | saturation is clamping the exact difference |
| Uint.CheckedSignedDiffExact | src/impls/uint.rs:58-62 | the exact difference if it fits, else None |
| Uint.SubSignedExact | src/impls/uint.rs:64-68 | the same for subtracting a signed number |
| Uint.SaturatingSubSignedClamps | src/impls/uint.rs:70-80 | clamps the exact result to the unsigned range |
| Uint.CheckedSubSignedExact | src/impls/uint.rs:82-86 | the exact result if it is a word, else None |
| Uint.WrappingSubSignedExact | src/impls/uint.rs:88-90 | subtracting the cast is subtracting the number, modulo the word |
| BufReader.BufReader.BufferIsStream | src/async_std/io/buf_reader.rs:178-182 | the window is the stream's bytes just before the stream's own position |
| BufReader.BufReader.FaithfulIffValid | src/async_std/io/buf_reader.rs:71-78 | a non-empty window shows the bytes of its own places if and only if it starts no earlier than the valid-from index |
| BufReader.BufReader.Read | src/async_std/io/buf_reader.rs:115-121 | hands out the next bytes of the stream, each once, and none only at its end; past the buffer exactly for a read not smaller than an empty buffer |
| BufReader.BufReader.ReadCold | src/async_std/io/buf_reader.rs:70-85 | the same with an empty window, through the buffer or past it |
| BufReader.BufReader.FillBufRange | src/async_std/io/buf_reader.rs:44-57 | each cell still knows its byte after a fill at the end or over an empty window, an end of stream, or a failure that left junk |
| BufReader.BufReader.FillAmount | src/async_std/io/buf_reader.rs:127-167 | the position stays, the window grows by what was read, to at most the amount; nothing is added exactly if there is enough or the stream has no more; the check for spare capacity never fires; what it leaves of the valid-from index |
| BufReader.BufReader.MoveDataToBeginning | src/async_std/io/buf_reader.rs:91-104 | the window moves to the front with the same bytes, all of them valid |
| BufReader.BufReader.Consume | src/async_std/io/buf_reader.rs:185-189 | the position moves over exactly the consumed bytes |
| BufReader.BufReader.Unconsume | src/async_std/io/buf_reader.rs:191-197 | the position moves back; the window is right if and only if it starts no earlier than the valid-from index |
| BufReader.BufReader.StreamPosition | src/async_std/io/buf_reader.rs:282-289 | the position, and the checked subtraction cannot overflow |
| BufReader.BufReader.SeekRelative | src/async_std/io/buf_reader.rs:207-227 | in the buffer without input or output, or through the stream, the new position is the old plus the offset |
| BufReader.BufReader.SeekInner | src/async_std/io/buf_reader.rs:229-251 | the position the unbuffered stream would reach, also by the two-step case; what a failure leaves |
| BufReader.BufReader.SeekAbs | src/async_std/io/buf_reader.rs:253-262 | an absolute position reached relatively if the difference fits, else by the stream |
| BufReader.BufReader.Seek | src/async_std/io/buf_reader.rs:293-309 | it fails only if the stream does or on the overflow that panics; every successful seek returns the unbuffered position; the bytes read next are the stream's if and only if it did not go back, in the buffer, to before the valid-from index |
| BufReader.StaleSeek | src/async_std/io/buf_reader.rs:207-224 | a concrete run, which only a failing stream can stop: the seek returns position 1, where the stream has 11, and the buffer shows 10 |
| Reading.TryReadFully | src/async_std/io/read.rs:107-125 | the bytes consumed are in the slice in order, and the answer is fixed by how many they are, the interrupt and the error that ended the call: that error, an interrupt with nothing read, or the number; short only at the end of the stream, on an error or an interrupt; bytes that are buffered are always got |
| Reading.ReadUntil | src/async_std/io/read.rs:390-422 | appends the stream's bytes up to the first delimiter, included, or up to the end; loses none on failure; None only with nothing read at the end, or always without a buffer |
| Reading.TakeUntil | src/async_std/io/read.rs:394-409 | one round takes the buffered bytes up to the delimiter |
| Reading.Find | src/async_std/io/read.rs:398-401 | the first index of a byte |
| VInt.DecodeIsValue | src/async_std/io/typed.rs:118-137 | for every width and size, in both byte orders, the decode is the base-256 value of the first `size` bytes, whatever bytes follow |
| VInt.ReadVInt | src/async_std/io/typed.rs:160-175 | a value consumes its `size` bytes and is theirs; the outcome is fixed by the bytes consumed, the interrupt and the error met; a value that is wholly buffered is always got; the size is checked |
| VInt.ReadVIntFast | src/async_std/io/typed.rs:141-157 | the same contract as the plain path, for any state of the buffer, so the two agree in values and in failures |
| VInt.BufGetBytes | src/async_std/io/typed.rs:52-75 | the first `consume` bytes are the stream's next, and just these are consumed; from the buffer it never fails |
| VInt.ReadBytes | src/async_std/io/typed.rs:14-27 | all of the slice, or nothing at the end, or the error of the stream, an interrupt, or the end in the middle, by what was read; buffered bytes are always got |

## Left out

- Memory orderings weaker than sequential consistency, back-off, spin counts and cache padding: atomics are sequentially consistent and retries are free.
- Concurrent protocols are transition systems on values, not classes: what the model does not capture there is aliasing and update in place.
- WordRing.RunsAgree: only for runs in which no thread sleeps through half the range of the counter between its load and its comparison, or through the whole of it before its exchange.
- Machine-word positions in `Broadcast`: they are unbounded, as tickets are in `Ring`.
- `Sender::closed` and the waiters of senders: they share one list, so a wake can be absorbed by a task that waits for the close.
- Channel.RunsAreCovered: the closing of the channel is not part of it, and after a wake that was lost nothing is claimed.
- Close-time wake-ups of the thread-safe wait list are not claimed; the window is stated exactly instead.
- The delegating modules `mpmc.rs` and `mpsc.rs`, and sender-side waiting.
- Panics, unwinding and poisoning: a value of a child future, an error, or left out; destructors that unwind are modelled in the two `Drop` members.
- RawWaitList.RawWaitList.WakeAll: a completed waiter's own return, which takes it off the count, comes when a callback or a caller says so, since fibers decide that.
- Broadcast.Channel.Send: one step, and it does not wake the receivers; `BroadcastSteps` has its operations and its wake.
- Broadcast.Channel.Subscribe: one step; `BroadcastSteps` has its two operations.
- BroadcastSteps.NobodySleepsBehindTheTail: each `try_recv` is one step under the lock of its slot, and senders do not close the channel.
- OneshotWait.SendWakesReceiver: the waiter of the sender, in which `closed` waits, is not part of it.
- Reading.TryReadFully: for the buffered reader, which without capacity passes every read on to its stream; other kinds of reader are not modelled.
- Branch.Branch.Drive: the children are independent, running or cancelling one does not complete the other.
- The future, handler and guard code that `select!` passes through, and the `join!` macro, which the source disables.
- ThreadPool.CancelReaches: an item is cancelled at most once, since a cancel uses up its token.
- Signals, fibers, system calls, io_uring and logging.
- `pop_back` and `tail`: `tail` reads the pointer to the first node.
- `Seek::skip_amount` and seeking in `BufWriter`: their arithmetic does not support the intended statement.
- Stream.Source.Read: a source is taken to leave the buffer alone when it returns zero, as the comment at buf_reader.rs:144-146 assumes; junk after a short read or a failure is allowed.
- `from_parts`, `into_parts` and `SplitMut`: they only carry the fields from one place to another.
- Error values, pointer wrappers, trait boilerplate and the other procedural macros.
