# Kernel services in user space, verified

chroot-ng runs a guest program without the kernel's help where the platform
withholds it. It has its own System V semaphores, message queues and shared
memory (one daemon per namespace), its own hardlinks (symlinks, a data file and
a count in a file name), its own credentials and netlink sockets (published
without locks between threads), and its own program loader. This project models
the logic of those parts in Dafny and proves what they promise.

What is modelled, and how:

- **The IPC daemon** (`SemCore`, `SemAttempt`, `MsgCore`, `IpcTables`,
  `IpcReplies`, `IpcRules`, `IpcRegistry`): one class holding every table,
  changed in place request by request. `Round` is one turn of the poll loop and
  `Run` any sequence of turns. `scarce` says whether the host may refuse memory;
  /proc is a function from a pid to its incarnation.
- **Its history** (`SemLog`, `Mail`, `IpcRounds`, `IpcRuns`, `UndoOrder`): two
  ghost logs, of everything that moved a semaphore and of everything that
  happened to a message, which only ever grow. The tables are what replaying
  them gives: values, sempids, what each process owes, and a ledger per
  semaphore (what its value would be with every process gone); each queue's
  capacity and contents, all that came to it and all that went. `Fair` says that
  each new entry has its cause in what the round saw, and that each answer to a
  waiter is true or an error with a cause: a deadline, a cancel, a removal that
  is in the logs, a vector the replayed values refuse, a message too long. `Just`
  adds that a success told to the request itself is in the logs, and `Apt` that
  every answer to a request is the one its tables call for. The results about
  whole runs follow from `Just` alone.
- **The list a queue is kept in** (`MsgList`) and **the daemon's allocator**
  (`Arena`): a linked list and a boundary-tagged first fit, each proved to be
  the simple thing it stands for.
- **The shared-memory registry** (`ShmRows`, `ShmRegistry`): beside the daemon's
  rows stands what the processes really hold.
- **link2symlink** (`L2sNames`, `L2sLinks`, `ProotGroup`): the name grammar over
  characters and a byte buffer; the guest's tree as a map, changed call by call;
  a proot group changed by processes that may be killed between any two calls.
- **Publication without locks** (`CredPublish`, `NetlinkSlots`): state machines
  of atomic steps by any number of threads, in any interleaving. Memory is
  sequentially consistent and counters do not wrap.
- **Credentials** (`CredRules`): the id rules as methods on an id set.
- **The loader** (`Pages`, `ElfLoad`, `StackBytes`, `StackLayout`): 64-bit
  arithmetic with its wrap-around written out, for any page size; the stack as
  an array of bytes.
- **The status reader** (`StatusScan`): a kilobyte buffer against a fold over
  the whole text.
- `Slots`, `Procs`, `Errno`: slot tables, sums over them, id allocation; processes
  and callers; error numbers.

Results that are not what one would first write down:

- *Credential reads.* They do not linearize in every run. A writer that dies
  between switching buffers and moving the sequence lets the next writer fill
  the old buffer, and a read can then pass that returns a set that never was,
  exactly if somebody was reading that buffer under the current sequence when it
  died (`DeathTearsExactly`, `WindowRunTears`). Every run without a death at such
  a moment is safe (`ReadsLinearize`).
- *SEM_UNDO.* Over every run in which a semaphore is only moved with SEM_UNDO and
  no death is cut short by the clamp, its ledger stands still, and with nobody
  owing any more it is back at it (`RunKeepsLedger`, `RunRestores`). Every order
  of deaths ends at the ledger exactly if the value has room for all that the
  rows give and all that they take (`EveryOrderExactly`); without that room the
  order can show (`OrderShows`).
- *Shared-memory counts.* `nattch` is the sum of the rows, and the rows are what
  processes hold, as long as every detach is by a holder, no row is refused for
  want of memory, and no pid is reused before its dead owner's row was
  reclaimed; each of these is necessary (`OneMore`, `OneLess`).
- *Proot groups.* Over every run of processes killed anywhere, the count is
  never less than the number of names, so the data stands as long as any name
  does (`Group.Run`).
- *Link counts.* A lost marker reads as a count of at most one, and then a
  removal takes the data from under the other names (`LostMarkerLosesData`);
  the data goes exactly when the marker counts at most one (`Fs.Remove`). A host
  that refuses the making of markers or the undoing of a failed link can lose a
  marker that way; but links alone lose no file, whatever it refuses (`Fs.Run`).
- *Status fields.* Prefixes among the keys and long lines do not matter; where a
  read stops may. The places are known beforehand (`StopsThere`, `SomeStops`):
  every way of splitting the text finds what the whole text gives exactly if
  each of them does (`SplitsAgreeExactly`), as where no key begins two lines
  (`OnceAgrees`), and not of every text (`SecondValueShows`).
- *Names.* No data name of link2symlink is a proot data name, but a marker is
  one whenever its inode has five digits and its count no more than four
  (`MarkerNameIsProots`).

## Model

| member | source | states |
|---|---|---|
| `SemCore.ShiftIsSum` | src/monitor/ipcreg.c:482-507 | a vector's effect on one semaphore is the sum of its operations on it, however often it is named |
| `SemCore.PlainIsSum` | src/monitor/ipcreg.c:482-507 | the ledger moves by exactly the operations without SEM_UNDO |
| `SemCore.PrefixInRange` | src/monitor/ipcreg.c:482-507 | where every operation up to one went through, every intermediate value is in [0, SEMVMX] and every adjustment in range |
| `SemCore.CumulativeUndoIsRefused` | src/monitor/ipcreg.c:482-507 | a vector whose operations fit one by one, refused with ERANGE at the third because their adjustments together leave the range |
| `SemAttempt.Apply` | src/monitor/ipcreg.c:456-517 | operations are applied in order up to the first that, on the values the ones before it leave, would go below 0 or waits for a value that is not 0, or leaves the range of a value or of an adjustment, or has no row to keep it in; it is named, with its errno |
| `SemAttempt.TakeBack` | src/monitor/ipcreg.c:500-509 | taking operations back last to first, in 16-bit arithmetic, restores every value and adjustment exactly |
| `SemAttempt.Attempt` | src/monitor/ipcreg.c:456-517 | done, with the whole vector applied, exactly if each operation in turn finds its semaphore where it may: the sum so far stays in [0, SEMVMX], a wait for zero finds 0, an adjustment stays in its range and there is a row for it; else values and adjustments are as they were, and it sleeps on the first operation that does not, which must wait and may, or is refused: EAGAIN exactly if that one must wait and may not, else ERANGE or ENOMEM |
| `SemAttempt.OneOutcome` | src/monitor/ipcreg.c:456-517 | those conditions on sums determine the outcome: no two outcomes meet them for one vector and state |
| `SemAttempt.WaitForZero` | src/monitor/ipcreg.c:468-476 | a wait for zero on a value of 5 sleeps, or is EAGAIN with IPC_NOWAIT, and on 0 goes through |
| `SemLog.CommitLedger` | src/monitor/ipcreg.c:482-507 | a committed vector keeps value plus all adjustments equal to the ledger, which moves only by the operations without SEM_UNDO, on every semaphore of the set |
| `SemLog.CommitSlot` | src/monitor/ipcreg.c:482-507 | a commit is one log entry: values, sempids and every process's debt on the set are what replaying the log with it gives |
| `SemLog.DeathLedger` | src/monitor/ipcreg.c:369-390 | applying a dead process's row keeps that balance, the ledger moving only by what the clamp swallowed |
| `SemLog.DeathSlot` | src/monitor/ipcreg.c:369-390 | a death is one log entry, and the set with its remaining rows is what replaying it gives |
| `SemLog.StoreSlot` | src/monitor/ipcreg.c:352-367 | semctl's stores: the stored values are the new ledger, and the debts on them are gone |
| `SemLog.LogMove` | src/monitor/ipcreg.c:320-517 | a log entry about one set leaves every other set, its rows and its history what they were; a vector logged is one that could go through, every operation in turn, where it was applied |
| `SemLog.LedgerStands` | src/monitor/ipcreg.c:369-517 | a stretch of the log whose entries on a semaphore are operations with SEM_UNDO and deaths without a clamp leaves its ledger |
| `UndoOrder.RoomyDeath` | src/monitor/ipcreg.c:369-390 | where a semaphore has room for all its rows, one death clamps nothing and leaves room for the others |
| `UndoOrder.OrderIff` | src/monitor/ipcreg.c:369-390 | clamping sums of the same numbers in every order agree with the plain sum exactly if there is room for the positive ones together and the negative ones together |
| `UndoOrder.EveryOrderExactly` | src/monitor/ipcreg.c:369-390 | every order of applying the rows of a set settles a semaphore at its balance exactly if its value plus what the rows give is at most SEMVMX and its value plus what they take is at least 0 |
| `UndoOrder.OrderShows` | src/monitor/ipcreg.c:369-390 | two rows on a set at 0, one taking and one giving, end at 1 or at 0 with the order |
| `IpcTables.RemoveSet` | src/monitor/ipcreg.c:420-427 | removing a set with no waiter and no row left keeps every table's invariant |
| `Mail.ConserveMoved` | src/monitor/ipcreg.c:840-845 | a parked sender's message moved to its queue stays accounted for once |
| `Mail.ConserveQueue` | src/monitor/ipcreg.c:429-436 | what leaves a queue was given out or lost with the queue, and what is put in was taken in, each once |
| `Mail.ConserveLeft` | src/monitor/ipcreg.c:690-698 | a sender let go loses the message it held, once |
| `Mail.MailIn` | src/monitor/ipcreg.c:674-686 | a message put at the tail keeps every queue the log's, in order within each type |
| `Mail.MailOut` | src/monitor/ipcreg.c:637-668 | taking the message POSIX names keeps that order, whichever waiter or caller takes it |
| `Mail.MailOpen` | src/monitor/ipcreg.c:579-619 | a new queue's history begins empty, whatever queue had its id before |
| `Mail.MailSized` | src/monitor/ipcreg.c:1079-1094 | a new capacity is the queue's from then on, its contents and order unmoved |
| `IpcRegistry.Registry.UndoFind` | src/monitor/ipcreg.c:320-344 | the row of a process and set, the lowest free slot, and neither only where the table is full |
| `IpcRegistry.Registry.AttemptOn` | src/monitor/ipcreg.c:456-517 | the attempt on the daemon's tables: committed whole, exactly if every operation finds the sums it needs, or no value, ledger or adjustment moved and the first that does not has the reason |
| `IpcRegistry.Registry.TryOp` | src/monitor/ipcreg.c:456-517 | the same, every invariant of the daemon kept; ENOMEM only for a full row table or refused memory |
| `IpcRegistry.Registry.UndoApply` | src/monitor/ipcreg.c:369-390 | a dead process's row is added to its set, clamped, its sempids stamped, and the row is gone |
| `IpcRules.ClampRow` | src/monitor/ipcreg.c:369-390 | each value is the clamped sum, each sempid changes exactly where the adjustment is not zero |
| `IpcRegistry.Registry.ReclaimSet` | src/monitor/ipcreg.c:406-418 | exactly the rows of the dead on that set are applied, in table order, and freed, and the values are that; every semaphore with room for its rows keeps its ledger, and with all holders dead the values are the ledger |
| `IpcRules.NoRowsNoDebt` | src/monitor/ipcreg.c:371-418 | a set without rows has its ledger for values |
| `IpcRules.RoomyMore` | src/monitor/ipcreg.c:371-418 | one death after another keeps the ledger of every semaphore that had room at the start |
| `IpcRules.DebtIsRow` | src/monitor/ipcreg.c:320-344 | what the log says a process owes on a set is its row, or nothing where it has none |
| `IpcRegistry.Registry.Vacate` | src/monitor/ipcreg.c:690-698 | a freed waiter's slot is empty, the count is one less, and a message it held is logged as lost, with the reason |
| `IpcRegistry.Registry.Release` | src/monitor/ipcreg.c:700-709 | the waiter leaves with one answer or none; nobody is answered twice |
| `IpcRegistry.Registry.Park` | src/monitor/ipcreg.c:713-751 | a waiter takes a free slot under the next sequence number, or the table is full and nothing moved; a parked message is accepted |
| `IpcRegistry.Registry.CountWaiters` | src/monitor/ipcreg.c:753-767 | GETNCNT and GETZCNT count the sleepers whose blocking operation is on the semaphore |
| `IpcRules.SleeperSamples` | src/monitor/ipcreg.c:753-767 | asleep on a decrement counts for GETNCNT and on a wait for zero for GETZCNT, of that semaphore and that set alone |
| `IpcRegistry.Registry.Eidrm` | src/monitor/ipcreg.c:769-784 | exactly the waiters of the removed object leave, each answered once |
| `IpcRegistry.Registry.GrantRecv` | src/monitor/ipcreg.c:786-796 | the answer carries the type and the data, cut to the receiver's buffer |
| `IpcRegistry.Registry.Earliest` | src/monitor/ipcreg.c:806-813 | the waiter of the least sequence number not yet visited, or none is left |
| `IpcRegistry.Registry.SetOf` | src/monitor/ipcreg.c:816-823 | a parked semop's set is there and its numbers are in range: the arm for a set that is gone is never taken |
| `IpcRegistry.Registry.RetrySem` | src/monitor/ipcreg.c:816-831 | a retried semop stays exactly when it still sleeps: an operation reached must wait on the sums there are, and may; else it is answered 0 with the vector applied, every operation of which could go, or an error with nothing moved, which an operation of the vector gives on the values and the debt there are, ENOMEM only for a full row table or refused memory |
| `IpcRegistry.Registry.RetrySend` | src/monitor/ipcreg.c:832-845 | a retried send goes exactly when it fits: its message at the tail, the sender answered 0 |
| `IpcRegistry.Registry.RetryRecv` | src/monitor/ipcreg.c:846-871 | a retried receive stays exactly when no message of a type it wants is there; else it takes the one POSIX names, or is told E2BIG with it left, exactly when it is longer than the buffer and may not be cut |
| `IpcRegistry.Registry.RetryMsg` | src/monitor/ipcreg.c:832-871 | a send or receive that stays parked cannot proceed |
| `IpcRegistry.Registry.Pass` | src/monitor/ipcreg.c:803-872 | everyone there has one turn, in order of arrival, and goes on or was found unable to at that turn; a pass that wakes nobody leaves everybody stuck; one that wakes has fewer waiters |
| `IpcRegistry.Registry.Rescan` | src/monitor/ipcreg.c:798-874 | it is a sequence of such passes and terminates; on return no parked operation can proceed; who left was answered exactly once, and truly or with a cause |
| `IpcRules.ServedByArrival` | src/monitor/ipcreg.c:803-872 | in a pass answers, vectors applied and messages moved or taken are logged in order of arrival |
| `IpcRegistry.Registry.Expire` | src/monitor/ipcreg.c:876-888 | exactly the waiters with a deadline that is not after now leave, each answered EAGAIN once, nobody left has such a deadline, and the rest stay stuck |
| `IpcRegistry.Registry.PollReady` | src/monitor/ipcreg.c:1430-1459 | a connection that reported leaves if it is a waiter's, and nobody else does: a cancel is answered EINTR, anything else not at all |
| `IpcRegistry.Registry.SemGet` | src/monitor/ipcreg.c:521-577 | the answer for every key, size and flag: the set there is, an error, or a set of zeros under a new id and the key |
| `IpcRules.AccessIs` | src/monitor/ipcreg.c:273-287 | read and alter are the bits of weight 4 and 2 of one octal digit of the mode: the first for owner or creator, the second for their groups, the third for others; root may do both |
| `IpcRegistry.Registry.SemCreate` | src/monitor/ipcreg.c:543-577 | it fails only for want of a slot or memory |
| `IpcRegistry.Registry.SemOpAllowed` | src/monitor/ipcreg.c:1130-1148 | EFBIG exactly for a number out of the set, EACCES exactly without the right the vector needs |
| `IpcRegistry.Registry.SemOpTry` | src/monitor/ipcreg.c:1149-1161 | 0 with the vector committed, parked on the operation it sleeps at, or refused with nothing moved |
| `IpcRegistry.Registry.SemOp` | src/monitor/ipcreg.c:1108-1161 | the dead are settled on the set first, and against that state every answer has its condition, on values and sums alone: EFBIG, EACCES, the refusal's errno with the operation refused, parked with the operation that must wait, EAGAIN if it may not or with every place taken, 0 exactly if every operation could go, with the vector committed |
| `IpcRegistry.Registry.SetVal` | src/monitor/ipcreg.c:907-1013 | the range is judged first; the dead are settled, one value and its sempid are stored, every row's adjustment for it is zero, and no other value, row or set moves |
| `IpcRegistry.Registry.SetAll` | src/monitor/ipcreg.c:1165-1202 | all values land or none, under the answer for every length, right and range; every row's adjustments on the set are zero and nothing else moves |
| `IpcRegistry.Registry.SemQuery` | src/monitor/ipcreg.c:948-1006 | GETVAL, GETPID, GETNCNT and GETZCNT answer from the set after the dead were settled on it, which is all that moved |
| `IpcRegistry.Registry.SemChange` | src/monitor/ipcreg.c:961-968 | owner only; after the dead were settled nothing but that set's permission bits and owner changes |
| `IpcRegistry.Registry.SemRemove` | src/monitor/ipcreg.c:969-974 | owner only; after the dead were settled the set is gone and every other stands, exactly its rows are gone, and exactly its waiters, each answered once |
| `IpcRegistry.Registry.MsgGet` | src/monitor/ipcreg.c:579-619 | the answer for every key and flag: the queue there is, an error, or an empty queue under a new id |
| `IpcRegistry.Registry.MsgSnd` | src/monitor/ipcreg.c:1225-1266 | the answer for every queue, right, size and room, EINVAL for no such queue; a message that fits is at the tail and answered 0; it is logged once or not at all |
| `IpcRegistry.Registry.RcvPicked` | src/monitor/ipcreg.c:1280-1296 | the picked message is taken and granted unless it is too long and may not be cut |
| `IpcRegistry.Registry.MsgRcv` | src/monitor/ipcreg.c:1268-1305 | the message granted is, for a positive msgtyp, the oldest of that type (with MSG_EXCEPT of any other), for 0 the oldest, for a negative one the oldest of the lowest type not above its absolute value; E2BIG exactly when it is too long and may not be cut; parked or ENOMSG only when no message has such a type; EINVAL for no such queue |
| `IpcRegistry.Registry.MsgSet` | src/monitor/ipcreg.c:1079-1094 | the queue's permissions and capacity, by its owner, raised past the limit only by root, EINVAL for no such queue; the capacity is logged, and may go below what is queued |
| `IpcRegistry.Registry.MsgRemove` | src/monitor/ipcreg.c:1095-1100 | owner only; the queue is gone and every other stands, exactly its waiters are gone, each answered once, and its messages and those its senders held are logged as lost |
| `IpcRegistry.Registry.DropDeadWaiters` | src/monitor/ipcreg.c:1358-1366 | exactly the waiters of dead processes leave, unanswered |
| `IpcRegistry.Registry.ApplyDeadRows` | src/monitor/ipcreg.c:1367-1378 | exactly the rows of dead processes are applied, in table order: every set's values are its rows of the dead added with the clamp, every other row stands; a semaphore with room for its rows keeps its ledger, and with all its holders dead it has the ledger for value |
| `IpcRegistry.Registry.Reclaim` | src/monitor/ipcreg.c:1355-1388 | the same of the daemon's tick, before the rescan that follows; where nobody parked could proceed before, nobody can after, and no row or waiter is a dead process's, the rescan included |
| `IpcRegistry.Registry.Serve` | src/monitor/ipcreg.c:1307-1350 | every request's effect on the logs has the request for its cause, a success says truly that it is there, and the answer, error or not, is the one the tables call for |
| `IpcRegistry.Registry.Round` | src/monitor/broker.c:1183-1232 | one turn of the poll loop keeps every invariant, no parked operation can proceed after it (every semop sleeps on one that must wait, every receive finds none of its types, every send a full queue), nobody was answered twice, and no log entry or answer is taken back; every new log entry has its cause in what the turn saw, every answer to a waiter is true or an error with its cause, every success told is in the logs (`Just`); the request's answer is the one the tables call for (`Apt`); nobody is left whose deadline is not after now, and after a tick no row or waiter of the dead is left |
| `IpcRegistry.Registry.Run` | src/monitor/broker.c:1132-1232 | any run of the daemon keeps all that, and is a chain of turns each of which is `Just` |
| `IpcRules.VisitedStuck` | src/monitor/ipcreg.c:803-872 | a waiter that stays parked leaves everyone visited before it stuck |
| `IpcRounds.FairJoin` | src/monitor/broker.c:1183-1232 | two fair stretches of a turn are a fair one: causes, true answers, nothing done twice, nobody gone without a reason |
| `IpcRounds.JustBefore` | src/monitor/broker.c:1183-1232 | what a turn does after serving its request does not make the answer untrue: what was done stays logged, and who was parked waits or has parted |
| `IpcRounds.EidrmIsLogged` | src/monitor/ipcreg.c:769-784 | whoever is told EIDRM waited for an object whose removal is logged in that turn |
| `IpcRuns.RunKeepsLedger` | src/monitor/broker.c:1132-1232 | over every run in which what is asked of a semaphore is asked with SEM_UNDO and no death is clamped, its ledger does not move |
| `IpcRuns.RunRestores` | src/monitor/broker.c:1132-1232 | then value plus debts is at the end what it was, and with no debt left the value is what it would have settled at in the beginning |
| `IpcRuns.AppliedOnce` | src/monitor/broker.c:1132-1232 | over a run in which nobody is answered twice no parked vector is applied twice |
| `IpcRuns.RunKeepsOrder` | src/monitor/broker.c:1132-1232 | over every run that does not remove a queue, what came and what went only grow, and within each type what came is what went followed by what is there, parked senders and receivers included |
| `IpcRuns.NobodyForgotten` | src/monitor/broker.c:1132-1232 | whoever waited still waits, or was answered, or its process was found ended in a turn that looks for the dead, or its connection went bad |
| `IpcRuns.AnsweredForCause` | src/monitor/broker.c:1132-1232 | every answer of a run is to somebody who waited in the turn it was sent, and says truly that it was done, or is an error that turn had a cause for |
| `IpcRuns.OnceIsNoTwice` | src/monitor/ipcreg.c:700-709 | the daemon's count of answers, at most one each, is no two answers to one waiter |
| `IpcReplies.OnceTell` | src/monitor/ipcreg.c:700-709 | answering a waiter that has left and was not answered keeps every waiter answered at most once |
| `IpcReplies.WokenOne` | src/monitor/ipcreg.c:700-709 | one waiter answered and gone: each waiter of the start is gone exactly if answered since |
| `MsgCore.PickUnique` | src/monitor/ipcreg.c:637-655 | the message a receive takes is determined: oldest match, or oldest of the lowest type |
| `MsgCore.PickMeans` | src/monitor/ipcreg.c:623-655 | the message a receive takes, in types alone: the oldest of type msgtyp, of any other with MSG_EXCEPT, of all for 0, and for a negative msgtyp the oldest of the lowest type, which is at most its absolute value |
| `MsgCore.NoneMeans` | src/monitor/ipcreg.c:623-655 | it takes none only if no message has such a type |
| `MsgCore.PickSamples` | src/monitor/ipcreg.c:623-655 | of a message of type 1 and one of type 2, which one msgtyp 2, 2 with MSG_EXCEPT, 0, 3 and -2 take |
| `MsgCore.BestIsPick` | src/monitor/ipcreg.c:637-655 | what a scan of the whole list holds for best is that message |
| `MsgCore.PickIsOldestOfItsType` | src/monitor/ipcreg.c:637-655 | under every msgtyp mode the picked message is the oldest of its type |
| `MsgCore.TypeFifoTake` | src/monitor/ipcreg.c:637-668 | messages of one type leave in the order they came |
| `MsgList.MsgQ.Enqueue` | src/monitor/ipcreg.c:674-686 | the list with the node linked last stands for the sequence with the message appended; counts follow |
| `MsgList.MsgQ.PickNode` | src/monitor/ipcreg.c:637-655 | the scan returns, with its predecessor, the node of the oldest message of the type, of another type, of any, or of the lowest type within the bound, as msgtyp and MSG_EXCEPT say, and none only if no message has such a type |
| `MsgList.MsgQ.Unlink` | src/monitor/ipcreg.c:657-668 | the list without the node stands for the sequence without the message; head and tail, cbytes and qnum follow, and every type stays in order |
| `Slots.AllocId` | src/monitor/ipcreg.c:293-313 | with more tries than slots a free id is always found: distinct candidates cannot all be taken |
| `Arena.Arena.Split` | src/monitor/ipcreg.c:76-88 | the block keeps at least what was wanted, a remainder worth having is free, blocks still tile the chunk |
| `Arena.Arena.FirstFit` | src/monitor/ipcreg.c:94-97 | the first block on the list that is large enough, or there is none |
| `Arena.Arena.Alloc` | src/monitor/ipcreg.c:90-121 | a live block that was not live, large enough and aligned; every other live block untouched; failure and a new chunk only when no free block would do |
| `Arena.Arena.Release` | src/monitor/ipcreg.c:123-149 | that block and no other is free, grown by a free successor, at the head of the list |
| `Arena.Arena.Absorb` | src/monitor/ipcreg.c:131-144 | a free block right after it in the chunk is taken off the list and joined, and nothing else |
| `Arena.Arena.PayloadsDisjoint` | src/monitor/ipcreg.c:47-149 | any two payloads handed out are disjoint, aligned and inside one mapped chunk |
| `Arena.SplitChunks` | src/monitor/ipcreg.c:76-88 | cutting a block in two keeps every chunk tiled, only the last block marked last |
| `Arena.MergeChunks` | src/monitor/ipcreg.c:131-144 | joining a block with its successor keeps every chunk tiled |
| `Arena.UnlinkList` | src/monitor/ipcreg.c:98-103 | unlinking one entry leaves the list with exactly the other free blocks, once each |
| `ShmRows.Add` | src/monitor/broker.c:514-528 | the rows weigh one more exactly if there was or could be a row, and stay what processes hold exactly if that row is this incarnation's |
| `ShmRows.Drop` | src/monitor/broker.c:530-537 | a holder's detach keeps the rows exact, last row moved into the gap or not; a stranger's does not |
| `ShmRows.Reclaim` | src/monitor/broker.c:548-559 | exactly the rows of the dead go and their weight is taken off the count, which stops at zero; exact rows become those of the living |
| `ShmRows.ExactTotal` | src/monitor/broker.c:492-567 | exact rows weigh what the processes hold |
| `ShmRegistry.OneMore` | src/monitor/broker.c:844-861 | an attach: the count stays the sum of the rows, and the rows what is held, exactly under the stated conditions |
| `ShmRegistry.OneLess` | src/monitor/broker.c:863-875 | a detach, with its own exact conditions |
| `ShmRegistry.Survivors` | src/monitor/broker.c:548-561 | a summed count stays summed through reclaim and is zero exactly when every row's process is dead |
| `ShmRegistry.Chmod` | src/monitor/broker.c:952-959 | IPC_SET changes the nine permission bits and cannot clear the destroy bit |
| `ShmRegistry.PermittedIs` | src/monitor/broker.c:463-490 | root may; else read, write and execute are asked of the three bits of owner or creator, of their groups, or of others, exactly |
| `ShmRegistry.Registry.Settle` | src/monitor/broker.c:548-561 | a segment is freed exactly when removed and unattached; ids and keys stay unique, removed segments attached |
| `ShmRegistry.Registry.Get` | src/monitor/broker.c:786-842 | the answer for every key, size and flag; a new segment has an id and a key of its own |
| `ShmRegistry.Registry.Create` | src/monitor/broker.c:812-842 | it fails exactly for a full table or no backing: an id there always is |
| `ShmRegistry.Registry.Attach` | src/monitor/broker.c:844-861 | allowed exactly by the mode; one attach more on that segment alone |
| `ShmRegistry.Registry.Detach` | src/monitor/broker.c:863-875 | one attach less on that segment alone, and a removed one gone with the last; a gone one is nothing |
| `ShmRegistry.Registry.Fork` | src/monitor/broker.c:877-884 | the child's attach is counted like any other |
| `ShmRegistry.Registry.ReclaimAll` | src/monitor/broker.c:563-567 | every segment is left with the rows of the living |
| `ShmRegistry.Registry.Stat` | src/monitor/broker.c:944-951 | the count shown is, when all was in order, the number of attachments living processes hold |
| `ShmRegistry.Registry.SetPerm` | src/monitor/broker.c:952-959 | owner, creator or root only; nothing but the nine bits and the owner moves |
| `ShmRegistry.Registry.Remove` | src/monitor/broker.c:960-976 | keyless and marked, and gone at once when no living process is attached |
| `L2sNames.ParseU64` | src/monitor/l2s.c:98-119 | none, the number, or too wide for 64 bits, for every string and with no wrap-around |
| `L2sNames.ParseData` | src/monitor/l2s.c:124-138 | the grammar of data names, exactly |
| `L2sNames.ParseMarker` | src/monitor/l2s.c:141-158 | the grammar of markers, exactly |
| `L2sNames.Hidden` | src/monitor/l2s.c:160-162 | hidden is exactly either grammar, however long the digits |
| `L2sNames.PrintedIsHidden` | src/monitor/l2s.c:131-162 | every printed name is hidden, and no data name is a marker |
| `L2sNames.ValPadded` | src/monitor/l2s.c:189-206 | what is printed reads back as the number |
| `L2sNames.PaddedVal` | src/monitor/l2s.c:189-206 | a digit string is the printing of its number at its width |
| `L2sNames.Digits` | src/monitor/l2s.c:189-206 | the digits printed, never more than the buffer kept for them |
| `L2sNames.PutU64` | src/monitor/l2s.c:189-206 | the cursor moves by the whole width, stored or not |
| `L2sNames.ParseDataExact` | src/monitor/l2s.c:213-225 | accepts precisely the printed data names, and recovers the inode |
| `L2sNames.ParseMarkerExact` | src/monitor/l2s.c:237-258 | accepts precisely the printed markers, and recovers inode and count |
| `L2sNames.NamesInjective` | src/monitor/l2s.c:262-284 | two groups never share a name |
| `L2sNames.NameSamples` | src/monitor/l2s.c:262-284 | the names of inode 12 and of its count 3, written out |
| `L2sNames.BuildName` | src/monitor/l2s.c:262-284 | the full path when it fits the buffer, ENAMETOOLONG exactly when not, and never a shorter name |
| `L2sNames.FullEndsInName` | src/monitor/l2s.c:262-284 | a built path ends in the data name or marker |
| `L2sNames.DataNumberExact` | src/monitor/l2s.c:672-684 | a group's data names are its name, a dot and one of the four-digit numbers; the temporary is none of them |
| `L2sNames.IndirectionExact` | src/monitor/l2s.c:648-668 | an indirection is, exactly, either prefix, a name that is not empty and four digits, at most 240 long |
| `L2sNames.DataNameIsNotProots` | src/monitor/l2s.c:648-694 | no data name is a proot data name |
| `L2sNames.MarkerNameIsProots` | src/monitor/l2s.c:648-694 | a marker is one exactly for an inode of five digits or more and a count of at most four |
| `L2sLinks.Fs.SwapIn` | src/monitor/l2s.c:1205-1233 | the file under the data name and a symlink in its place, or the tree as it was, stale symlinks aside; where the host refuses the way back, the file is still somewhere |
| `L2sLinks.Fs.SwapOut` | src/monitor/l2s.c:1237-1244 | the file is back under its name and the data name is free, exchange or not; where the host refuses that, no file is lost |
| `L2sLinks.Fs.MakeGroup` | src/monitor/l2s.c:1276-1326 | a group of two names, count two, or everything undone; a stubborn host may leave out the marker or the undoing, and still no file is lost |
| `L2sLinks.Fs.FirstLink` | src/monitor/l2s.c:1250-1327 | store first, then beside, then a copy; the data is the very file linked |
| `L2sLinks.Fs.CopySymlink` | src/monitor/l2s.c:1143-1165 | a symlink is linked as itself unless its text is the emulation's |
| `L2sLinks.Fs.Join` | src/monitor/l2s.c:1377-1412 | one name more and the marker one up, or the tree as it was |
| `L2sLinks.Fs.MakeLink` | src/monitor/l2s.c:1329-1412 | every group's marker stays its number of names; a failed link leaves the tree, stale symlinks aside; no file is lost whatever is refused |
| `L2sLinks.Fs.Decref` | src/monitor/l2s.c:1439-1467 | the marker one down, or with a count of at most one the data and the marker gone |
| `L2sLinks.Fs.Remove` | src/monitor/l2s.c:1439-1467 | the data goes exactly with the last name when the marker is right, and exactly when it counts at most one in any case |
| `L2sLinks.Fs.Run` | src/monitor/l2s.c:1250-1467 | so over every run of links, removals and new files whatever the host refuses, markers and undoing aside; where it refuses those too, links and new files still lose no file |
| `L2sLinks.LostMarkerLosesData` | src/monitor/l2s.c:1450-1462 | with the marker lost, removing one of two names removes the data |
| `ProotGroup.Group.Repoint` | src/monitor/l2s.c:795-807 | wherever it stops there is one data file and an indirection that names it or nothing |
| `ProotGroup.Group.Chain` | src/monitor/l2s.c:717-741 | whole, cut, or no group, exactly |
| `ProotGroup.Group.FindData` | src/monitor/l2s.c:747-789 | the one data file of the directory, found in any listing order; none and several told apart |
| `ProotGroup.Group.Settle` | src/monitor/l2s.c:811-819 | a cut chain made whole onto the same data file; a gone group left gone |
| `ProotGroup.Group.Adjust` | src/monitor/l2s.c:825-856 | wherever it stops the same single data file stands under the old or the new count; a failure whose undoing succeeds has moved nothing |
| `ProotGroup.Group.KilledThenSettled` | src/monitor/l2s.c:696-856 | killed after any number of calls and then settled: a whole chain, the same data file, the old or the new count |
| `ProotGroup.Group.LinkName` | src/monitor/l2s.c:931-943 | a new name is counted before it is made, so the count is never too low |
| `ProotGroup.Group.DropName` | src/monitor/l2s.c:947-955 | the count goes down after the name, and the group with the last |
| `ProotGroup.Group.Run` | src/monitor/l2s.c:825-955 | over every run of processes killed anywhere the data is there as long as a name is; with none killed or refused the count is the number of names |
| `CredPublish.ReadsLinearize` | src/monitor/cred.c:54-151 | without a death at a bad moment every read that passes its re-check is one whole set that was current during it, no update is lost, and one thread at most writes |
| `CredPublish.WindowRunTears` | src/monitor/cred.c:116-151 | a run to such a moment, after which a read can pass and return a set that never was |
| `CredPublish.DeathTears` | src/monitor/cred.c:54-151 | a death between the two stores while a read is on the old buffer under the current sequence can be followed by a torn read, with no further death |
| `CredPublish.OtherDeathsDoNot` | src/monitor/cred.c:54-151 | every continuation of any other death is safe, until one at a bad moment |
| `CredPublish.DeathTearsExactly` | src/monitor/cred.c:54-151 | in every reachable state with a writer between its stores: some continuation of its death, without another such death, has a torn read exactly if there are cells and a thread is reading the old buffer under the current sequence |
| `CredPublish.StepInv` | src/monitor/cred.c:54-151 | every atomic step of every thread keeps the protocol's invariant |
| `NetlinkSlots.StepInv` | src/monitor/netlink.c:198-315 | every atomic step on a slot keeps the protocol's invariant |
| `NetlinkSlots.StepPut` | src/monitor/netlink.c:198-315 | every publication, by a filler or by calling off a retirement, is of what its occupant's filler put |
| `NetlinkSlots.SlotsAreSafe` | src/monitor/netlink.c:198-315 | in every interleaving a snapshot is what one filler put there, whole, also after a retirement called off; a filler puts one set of fields; one thread at most holds a slot; and a retire empties only the occupant it judged |
| `CredRules.IdSet.SetOne` | src/monitor/cred.c:240-264 | setuid and setgid: allowed exactly when, and to what effect |
| `CredRules.IdSet.SetRealEff` | src/monitor/cred.c:269-306 | setreuid and setregid, the saved id's rule included |
| `CredRules.IdSet.SetAll` | src/monitor/cred.c:309-346 | setresuid and setresgid |
| `CredRules.IdSet.SetFs` | src/monitor/cred.c:350-363 | setfsuid and setfsgid |
| `CredRules.IdSet.Exec` | src/monitor/cred.c:180-216 | every exec makes the saved and file-system ids the effective one |
| `CredRules.Creds.SetGroups` | src/monitor/cred.c:367-389 | the whole list lands or none of it, and every refusal's reason |
| `CredRules.Creds.Call` | src/monitor/cred.c:709-798 | without privilege no id enters a set and the groups do not move; an unprivileged file-system id is always one of the set |
| `CredRules.Creds.Run` | src/monitor/cred.c:202-389 | once 0 is in none of the three uids no run of setters and plain execs brings it back; ids only go, groups stay |
| `CredRules.Creds.Regain` | src/monitor/cred.c:240-251 | and only then: 0 anywhere in the set can be taken back |
| `CredRules.Creds.ExecDrops` | src/monitor/cred.c:200-215 | an exec drops for good a 0 kept only as the saved id |
| `Pages.MaskRounds` | include/cng/loader.h:18-20 | clearing the low bits, one after another, is rounding to the page, for every power of two |
| `Pages.PageDown` | include/cng/loader.h:18-20 | taking off the remainder is rounding to the page, for any page size |
| `Pages.PageEnd` | include/cng/loader.h:29-36 | the rounded end exactly when sum and rounding stay below 2^64 |
| `Pages.DownMoves` | include/cng/loader.h:18-23 | rounding commutes with moving by whole pages |
| `ElfLoad.ReadHeaders` | src/loader/elf.c:313-420 | the answer for every header table, in its fields alone: ETOOBIG for none or more than 64; the first unsound header's errno: an interpreter path too long (ETOOBIG), cut short (EINTERP) or unended (EFORMAT), a file part longer than the memory or an offset not at its place in a page (EINVAL), an end past the address space (EFORMAT); then EFORMAT for no or too wide a span, ECLOBBER for a fixed image over the loader itself, or accepted; lo and hi are the least span |
| `ElfLoad.RefusalIs` | src/loader/elf.c:313-420 | the headers pass exactly if each is sound, and the errno is the first unsound one's, by its own fault |
| `ElfLoad.LoadsInside` | src/loader/elf.c:65-89 | every segment of an accepted image, file part included, lies inside the reservation, its pages moved as one, whatever the bias wraps |
| `ElfLoad.Insert` | src/loader/elf.c:145-155 | an edge is put in its place unless it is there |
| `ElfLoad.Edges` | src/loader/elf.c:137-156 | all boundaries, sorted and distinct, never past the array |
| `ElfLoad.AllOrNothing` | src/loader/elf.c:157-168 | between two neighbouring edges a segment covers all pages or none |
| `ElfLoad.UnionIs` | src/loader/elf.c:38-47 | a right is in the union exactly if a covering segment has it |
| `ElfLoad.RunProt` | src/loader/elf.c:157-170 | a run's protection is the union for each of its pages |
| `ElfLoad.Protect` | src/loader/elf.c:137-183 | each page ends with exactly the union of the segments covering it, gaps as they were |
| `ElfLoad.ProtectImage` | src/loader/elf.c:137-183 | the same in the program headers' own terms |
| `StackBytes.WordReads` | src/loader/stack.c:253-265 | a stored 64-bit word reads back |
| `StackBytes.LowByteFirst` | src/loader/stack.c:253-265 | a stored word has its low byte first |
| `StackBytes.StrReads` | src/loader/stack.c:131-141 | a stored string reads back |
| `StackLayout.Room` | src/loader/stack.c:99-110 | the size check leaves room for everything above the scratch vectors, and sp is aligned |
| `StackLayout.PushAll` | src/loader/stack.c:131-149 | the strings are one ascending run and their addresses wait in the scratch vectors |
| `StackLayout.CopyScratch` | src/loader/stack.c:255-261 | the vectors receive the addresses still waiting: nothing written so far reached them |
| `StackLayout.AuxvEnded` | src/loader/stack.c:175-244 | the entries fit their array and end in AT_NULL and nothing before |
| `StackLayout.AuxvTells` | src/loader/stack.c:175-244 | every tag stands once at most, and each with the value it is for: headers, base, entry, page size, ids, AT_SECURE 1 exactly where an effective id is not the real one, the strings' and random bytes' addresses; the host's own exactly if it has them |
| `StackLayout.Decodes` | src/loader/stack.c:246-265 | written vectors over standing strings read back as what was given |
| `StackLayout.Build` | src/loader/stack.c:49-273 | refused exactly by the size check; else decoding argc, argv, envp and auxv from sp yields the inputs, the strings are one run with the path last under a zero word, and in the auxv decoded each tag stands once at most: the program's fields under theirs, AT_SECURE 1 exactly where an effective id is not the real one, AT_EXECFN leading to the path, AT_PLATFORM to aarch64, AT_RANDOM to the 16 bytes, and each of the host's optional values exactly if it is not 0 |
| `StatusScan.ScanByLines` | src/monitor/execve.c:550-596 | the whole-text scan is line by line |
| `StatusScan.ScanFinds` | src/monitor/execve.c:549-606 | the scan of any part of a text finds for each key the value on its last line there, and none exactly if it has no line |
| `StatusScan.OneLine` | src/monitor/execve.c:551-595 | a line is taken, dropped for good, or kept to be read on |
| `StatusScan.Lines` | src/monitor/execve.c:549-596 | a buffer's lines leave the state a scan of those bytes would |
| `StatusScan.Piece` | src/monitor/execve.c:545-602 | refill, take, shift: the buffer holds the line being read, or that line is one to drop |
| `StatusScan.Read` | src/monitor/execve.c:536-606 | whatever the sizes of the reads, they stop at the text's end or with every key found, and what is found up to there is said of the text alone: a key's value is what follows it, cut to 79 bytes, on the last whole line that begins with it (and with no key before it) and is shorter than the buffer; and none exactly if there is no such line |
| `StatusScan.StopsThere` | src/monitor/execve.c:536-606 | however the reads go, they stop at the text's end if a key is missing, else from where the last key was found up to a buffer's length after the beginning of its line |
| `StatusScan.SomeStops` | src/monitor/execve.c:536-606 | at each of those places some split stops |
| `StatusScan.SplitsAgreeExactly` | src/monitor/execve.c:536-606 | all splits find what the whole text gives exactly if the scan agrees with it at each of those places |
| `StatusScan.OnceAgrees` | src/monitor/execve.c:536-606 | in a text in which no key begins two lines it does, for every split |
| `StatusScan.SecondValueShows` | src/monitor/execve.c:544-548 | for the key A: and the text A:1, A:2 it does not: a read that stops after the first line finds another value |

## Left out

- Sockets, SCM_RIGHTS, poll, fork and setsid in broker.c: a request is a method call, an answer a value.
- cng_ipc_any_live, shm_any_live and the idle shutdown: which anchors keep the daemon, no state of the registries.
- Times (otime, ctime, stime, atime, dtime) and the pids of last operations on queues' and segments' stat: they would add only stored values.
- GETALL, IPC_STAT, SEM_STAT, MSG_STAT and the INFO commands of semaphores and queues, SHM_STAT and SHM_INFO: copies of fields.
- The conversion of a timeout to a deadline: the deadline is given.
- IpcRegistry.Registry.Round: keys, owners and modes are not in the logs; what requests do to them is said by SemGet, SemChange, MsgGet and MsgSet.
- IpcRegistry.Registry.Run: that each answer is the one its tables call for is stated of a turn, not carried along a run.
- IpcRegistry.Registry.MsgSnd: the queue is a sequence here; that the linked list is one is stated by MsgList.MsgQ.Enqueue and MsgList.MsgQ.Unlink.
- Arena.Arena.Alloc: 64-bit wrap-around of a request's size, which no caller's bounds reach.
- Slots of a group list past its length, which nothing reads.
- Weak memory ordering and counter wrap-around in both publication protocols.
- The netlink relay, its message builders and the interface ioctls: host answers, or easy encodings.
- Path resolution, pinning, locks and store healing in l2s.c: a name is where it is said to be, and runs are sequential.
- L2sLinks.Fs.MakeLink: a path too long for its data file or marker (the first is refused with nothing done, the second loses the count, as LostMarkerLosesData shows), a source given by its data name, and the copy made for a source outside the guest's places are not modelled.
- L2sLinks.Fs.Run: on a host that refuses markers or undo steps it does not promise that a removal keeps a file which still has names; LostMarkerLosesData shows that it cannot.
- l2s_canonical and the guest-visible stat of a group: small string and field work.
- ProotGroup.Group.Adjust: a rename that is refused while undoing leaves the new count; the chain is then cut and settled later.
- The file-backed strategy, instruction rewriting and the interpreter's own path in elf.c: reading and kernel mapping.
- ElfLoad.ProtectImage: says nothing of a load in which the kernel refused a protection, which is unmapped.
- ShmRegistry.Registry.Get: the size limit is that of 4096-byte pages.
- StackLayout.Build: the lookups in the host's own auxv are parameters, and the order of the entries is not stated.
- StatusScan.Read: a read that fails midway ends the scan there and is not modelled.
- Exec's thread handoff, sweep and #! handling: timing, signals and /proc.
