# Verified model of Linux-GPIB

Linux-GPIB drives IEEE 488 buses from Linux: a kernel core with one driver per board, and a
user library on top. This project models its most intricate parts in Dafny and proves what
they promise, for all inputs, all driver behaviours and all interleavings.

- **The board core.** `BoardLocks` is the protocol of the two board mutexes, the locking-pid
  gate and the autospoll thread, as steps of any number of threads. `Ioctl` is the routing of
  ioctls and where the outer mutex is given up. `DeviceTable` is the reference-counted list
  of open device addresses, `BoardUse` the module and autospoller counts, `StatusQueues` the
  bounded queues, `SerialPoll` the serial poll sequences, and `Transfers` the loops that
  carry reads, writes and commands through one buffer.
- **Addressing.** `GpibUser` has the address bytes and packed addresses, `Ieee488` the
  talker, listener and serial poll functions of sections 2.5, 2.6 and 2.13 of IEEE Std
  488.1-1987, extended addressing included, and `Addressing` the compiler from address lists to command
  strings, proved against what the strings do to the instruments on the bus.
- **Accelerated transfers.** `Cb7210`, `Agilent82350b` and `Fluke` are FIFO, counter and DMA
  transfers of three drivers, each with its hardware as an environment that moves bytes when
  it likes, proved to agree with the byte-by-byte transfers of `PlainBus`.
- **Asynchronous I/O.** `AsyncIo` is the handshake between launching thread, worker, and
  threads that stop or wait, together with the CMPL flag in the kernel.

State that the source changes in place is a class whose methods are proved against functions
on values; whole runs are stated about those functions. Protocols between threads are step
functions with an inductive invariant. Where a property fails for some inputs, the lemma says
exactly for which ("if and only if"), or a lemma leads to the failure step by step.

What drivers, clocks, signals, allocations and user copies do is left open: it is a parameter,
an arbitrary choice of a method, or a function that says how the k-th such thing turns out. So
an operation can only report a failure that something outside has caused. A driver call is taken to move at most the length it was
given, to move something when it returns 0, and to put EOI only on the last byte of its
chunk.

## Model

| member | source | states |
|---|---|---|
| BoardLocks.StepExact | linux-gpib-kernel/drivers/gpib/common/gpib_os.c:570-613 | every step of any thread keeps the invariant that ties the owner of each mutex, locking_pid and the threads at bus I/O together, if and only if it does not close a file that holds the mutex |
| BoardLocks.Exclusion | linux-gpib-kernel/drivers/gpib/common/gpib_os.c:283-313 | in every interleaving without such a close: whoever does gated bus I/O or autopolls owns user_mutex, so no two ever do at once; nobody holding big_gpib_mutex waits for user_mutex; a thread back from ibioctl holds no big_gpib_mutex |
| BoardLocks.CyclesExactly | linux-gpib-kernel/drivers/gpib/common/gpib_os.c:678-684 | a circular wait for the two mutexes exists exactly when some thread asks for user_mutex a second time while owning it |
| BoardLocks.NoCycles | linux-gpib-kernel/drivers/gpib/common/gpib_os.c:1655-1693 | in runs whose threads do not lock twice, nobody ever waits in a circle |
| BoardLocks.LockTakes | linux-gpib-kernel/drivers/gpib/common/gpib_os.c:1655-1673 | with nobody in the way, locking records the process and the file as holding the mutex |
| BoardLocks.UnlockReleases | linux-gpib-kernel/drivers/gpib/common/gpib_os.c:1674-1689 | unlocking by the process on record releases user_mutex and clears the record and the file's flag |
| BoardLocks.ForeignUnlockIdle | linux-gpib-kernel/drivers/gpib/common/gpib_os.c:1674-1692 | anybody else's unlock changes nothing |
| BoardLocks.GateOpens | linux-gpib-kernel/drivers/gpib/common/gpib_os.c:735-745 | the process on record passes the gate: a short call does its I/O with big_gpib_mutex, a long one without, and both come back with everything as before |
| BoardLocks.GateShut | linux-gpib-kernel/drivers/gpib/common/gpib_os.c:678-684 | any other process is turned away there without I/O |
| BoardLocks.ShortCall | linux-gpib-kernel/drivers/gpib/common/gpib_os.c:818-821 | every other call is served under big_gpib_mutex and gives it back |
| BoardLocks.WaitSleeps | linux-gpib-kernel/drivers/gpib/common/iblib.c:655-668 | a wait sleeps without a mutex, tests its condition with one, and sleeps again while it is false |
| BoardLocks.WaitReturns | linux-gpib-kernel/drivers/gpib/common/iblib.c:671-680 | when it is true the caller has the mutex again before it goes on, and then gives it back |
| BoardLocks.PollCycle | linux-gpib-kernel/drivers/gpib/common/gpib_os.c:283-313 | the autospoll thread tests twice, polls with both mutexes and gives both back |
| BoardLocks.NothingToPoll | linux-gpib-kernel/drivers/gpib/common/iblib.c:165-186 | a test that fails, the first or the second, ends the autospoll thread's round without a mutex |
| BoardLocks.CloseEffect | linux-gpib-kernel/drivers/gpib/common/gpib_os.c:570-613 | a file closes exactly when no call on it is under way; closing gives up user_mutex if its flag is set, whoever is on record, and leaves everything else |
| BoardLocks.SignalEndsWait | linux-gpib-kernel/drivers/gpib/common/gpib_os.c:629-630 | a signal ends every interruptible wait and gives up exactly what the thread had, but a waiter about to test its condition goes on to take the mutex back |
| BoardLocks.ClosingHolderBreaksExclusion | linux-gpib-kernel/drivers/gpib/common/gpib_os.c:601-602 | from every invariant state in which an idle process has the mutex and a file that counts as holding it is closed: that process can still pass the gate and write to the bus while any other idle thread, user or autospoll, gets the mutex and drives the bus too |
| BoardLocks.HolderReached | linux-gpib-kernel/drivers/gpib/common/gpib_os.c:1655-1693 | such states are reached: by any idle thread, through any file |
| Ioctl.Caller.Ibwait | linux-gpib-kernel/drivers/gpib/common/iblib.c:639-680 | waits until the first moment at which the condition holds or a signal comes, not shorter and not longer, and returns -ERESTARTSYS exactly when it no longer holds big_gpib_mutex: if a signal ended the sleep or the relock; with an empty mask it never gives the mutex up |
| Ioctl.Caller.WaitIoctl | linux-gpib-kernel/drivers/gpib/common/gpib_os.c:1328-1353 | the exact result of the wait ioctl for every argument fault, bad handle and end of the wait; a bad argument or handle or an empty mask never gives the mutex up |
| Ioctl.ServedExactly | linux-gpib-kernel/drivers/gpib/common/gpib_os.c:646-816 | gated commands are served exactly with the lock, a driver, its module and an online board; the other groups with what they need; refusals have the error of the first need unmet |
| Ioctl.Caller.Dispatch | linux-gpib-kernel/drivers/gpib/common/gpib_os.c:634-816 | which commands are refused with which error and which are served, with or without the mutex, and that the handler's result is returned |
| Ioctl.Caller.Ibioctl | linux-gpib-kernel/drivers/gpib/common/gpib_os.c:616-822 | on every path the mutex is released as often as it was taken, never by a non-holder and never taken twice, and is not held on return; unless a signal interrupts the first lock, the command is routed as its needs say |
| DeviceTable.IncrementAdds | linux-gpib-kernel/drivers/gpib/common/gpib_os.c:1133-1167 | adding a reference changes the count of that address alone, by one, and keeps entries unique and positive |
| DeviceTable.SubtractRemoves | linux-gpib-kernel/drivers/gpib/common/gpib_os.c:1169-1196 | taking references off fails exactly when there are too few, changes nothing then, and no other address ever |
| DeviceTable.OpenDevEffect | linux-gpib-kernel/drivers/gpib/common/gpib_os.c:1229-1262 | opening takes the first free slot for exactly the descriptor asked for and changes no other; -ERANGE exactly when there is none |
| DeviceTable.CloseDevEffect | linux-gpib-kernel/drivers/gpib/common/gpib_os.c:1280-1305 | closing a live handle above 0 frees that slot alone and takes one reference off that address alone; any other handle is refused and nothing changes |
| DeviceTable.SetPadEffect | linux-gpib-kernel/drivers/gpib/common/gpib_os.c:1455-1489 | a board handle never changes the table and needs an address in range; a device handle gets the new address in its slot alone; other handles are refused |
| DeviceTable.SetSadEffect | linux-gpib-kernel/drivers/gpib/common/gpib_os.c:1491-1524 | the same for secondary addresses |
| DeviceTable.FileEffect | linux-gpib-kernel/drivers/gpib/common/gpib_os.c:517-530 | a new file has its board descriptor alone; a closed one is gone, every address has lost the file's device descriptors for it, and no other file changes |
| DeviceTable.OpenDevExact | linux-gpib-kernel/drivers/gpib/common/gpib_os.c:1229-1278 | opening a device keeps every reference count equal to the number of descriptors with that address, exactly when no descriptor is free, or there is memory for an entry, or an entry already; on success the address gains one reference and no other changes |
| DeviceTable.CloseDevExact | linux-gpib-kernel/drivers/gpib/common/gpib_os.c:1280-1305 | closing a handle keeps that, and stays out of the bug branches, exactly when it is not handle 0 |
| DeviceTable.ReaddressExact | linux-gpib-kernel/drivers/gpib/common/gpib_os.c:1455-1524 | changing pad or sad keeps that exactly when there is memory, or the new address stays listed after the old one lost its reference; it then moves exactly one reference |
| DeviceTable.CleanupRemoves | linux-gpib-kernel/drivers/gpib/common/gpib_os.c:1204-1227 | the close loop takes off one reference per device descriptor of the file and meets no bug branch |
| DeviceTable.CountsDiffer | linux-gpib-kernel/drivers/gpib/common/gpib_os.c:1216 | skipping board descriptors makes some address come out wrong exactly when the file has one beyond its own handle 0 |
| DeviceTable.CloseFileExact | linux-gpib-kernel/drivers/gpib/common/gpib_os.c:590-600 | closing a file keeps the table consistent exactly when it has no such board descriptor |
| DeviceTable.StepExact | linux-gpib-kernel/drivers/gpib/common/gpib_os.c:1133-1305 | any step of any file keeps the table consistent and avoids both bug branches if and only if it is none of these: a needed entry without memory, a close of handle 0, a close of a file with further board descriptors |
| DeviceTable.RunsConsistent | linux-gpib-kernel/drivers/gpib/common/gpib_os.c:1133-1227 | over whole runs by any number of files: at most one entry per address, its count the number of live descriptors, an entry exactly when that is positive, bug branches unreachable |
| DeviceTable.OpenDevices.IncrementOpenDeviceCount | linux-gpib-kernel/drivers/gpib/common/gpib_os.c:1133-1167 | the list of objects, updated in place, follows the specification the lemmas are about |
| DeviceTable.OpenDevices.SubtractOpenDeviceCount | linux-gpib-kernel/drivers/gpib/common/gpib_os.c:1169-1196 | the same for taking references off, telling the bug branches apart |
| DeviceTable.OpenDevices.OpenDevIoctl | linux-gpib-kernel/drivers/gpib/common/gpib_os.c:1229-1278 | takes the first free descriptor slot and updates list and slots as specified |
| DeviceTable.OpenDevices.CloseDevIoctl | linux-gpib-kernel/drivers/gpib/common/gpib_os.c:1280-1305 | frees the slot only after the reference could be taken off |
| DeviceTable.OpenDevices.PadIoctl | linux-gpib-kernel/drivers/gpib/common/gpib_os.c:1455-1489 | board and device branches with their errors, as specified |
| DeviceTable.OpenDevices.SadIoctl | linux-gpib-kernel/drivers/gpib/common/gpib_os.c:1491-1524 | the same for secondary addresses |
| DeviceTable.OpenDevices.OpenFile | linux-gpib-kernel/drivers/gpib/common/gpib_os.c:517-530 | a new file starts with its own board descriptor as handle 0 and nothing else |
| DeviceTable.OpenDevices.CloseFile | linux-gpib-kernel/drivers/gpib/common/gpib_os.c:1204-1227 | the loop over all descriptors computes the specified cleanup |
| BoardUse.OpenKeeps | linux-gpib-kernel/drivers/gpib/common/gpib_os.c:552-568 | a new file uses the module exactly if the board has a driver, and opening fails without a file exactly when that is refused |
| BoardUse.FirstIoctlKeeps | linux-gpib-kernel/drivers/gpib/common/gpib_os.c:648-661 | an ioctl is refused with -ENODEV without a driver; with one, its file uses the module afterwards, or it is refused with -EIO and nothing changes |
| BoardUse.BoardTypeEffect | linux-gpib-kernel/drivers/gpib/common/gpib_os.c:841-872 | a registered driver becomes the board's in every case; the calling file uses it exactly on success, and no other file changes |
| BoardUse.CloseKeeps | linux-gpib-kernel/drivers/gpib/common/gpib_os.c:584-607 | closing removes the file and exactly its part in each count, keeps all counts right, and never has to lower a count that is zero |
| BoardUse.AutospollKeeps | linux-gpib-kernel/drivers/gpib/common/gpib_os.c:1617-1653 | the file's flag becomes what was asked, autospollers stays the number of files with it, and disabling fails exactly when it was off |
| BoardUse.BoardTypeExact | linux-gpib-kernel/drivers/gpib/common/gpib_os.c:841-872 | changing the driver under open files keeps use_count, the files' got_module and the references on the new module in agreement exactly when all references are got back, or all but the calling file's own |
| BoardUse.StepExact | linux-gpib-kernel/drivers/gpib/common/gpib_os.c:653-661 | the same for every step there is: no error branch for a zero count is ever taken, and the counts agree afterwards if and only if no such partial loss happens |
| BoardUse.RunsConsistent | linux-gpib-kernel/drivers/gpib/common/gpib_os.c:552-566 | over whole runs use_count is the number of files with got_module and of references on the current provider, none are left on earlier ones, and autospollers is the number of files with autopolling on |
| BoardUse.NothingLeft | linux-gpib-kernel/drivers/gpib/common/gpib_os.c:603-606 | when all files are closed, no module of any driver the board ever had is still referenced |
| BoardUse.BoardCounts.Ibopen | linux-gpib-kernel/drivers/gpib/common/gpib_os.c:552-566 | in place, as specified; on failure nothing changes |
| BoardUse.BoardCounts.Ibclose | linux-gpib-kernel/drivers/gpib/common/gpib_os.c:584-607 | in place, as specified, from and to agreeing counts |
| BoardUse.BoardCounts.IoctlPrologue | linux-gpib-kernel/drivers/gpib/common/gpib_os.c:648-661 | in place, as specified, with -ENODEV and -EIO |
| BoardUse.BoardCounts.AutospollIoctl | linux-gpib-kernel/drivers/gpib/common/gpib_os.c:1617-1653 | in place, as specified |
| BoardUse.BoardCounts.BoardTypeIoctl | linux-gpib-kernel/drivers/gpib/common/gpib_os.c:841-872 | the loops of puts and gets leave every module with the specified number of references |
| StatusQueues.StatusRunInOrder | linux-gpib-kernel/drivers/gpib/common/gpib_os.c:191-253 | over any run: bytes accepted are those delivered followed by those queued, the counter is the length and at most 1024, the loss flag is down between calls and so no reader ever sees a loss |
| StatusQueues.FullPushIsRefused | linux-gpib-kernel/drivers/gpib/common/gpib_os.c:198-205 | a push is refused with -EPIPE exactly at 1024, and a refused push leaves the queue as it was |
| StatusQueues.StatusStepEffect | linux-gpib-kernel/drivers/gpib/common/gpib_os.c:191-253 | from any point of a run a byte is accepted exactly with room and memory, and a read hands out the next accepted byte, failing exactly when there is none |
| StatusQueues.EventStepEffect | linux-gpib-kernel/drivers/gpib/common/gpib_os.c:1867-1955 | the same for events; a loss becomes due when memory is missing and is reported by the next read that finds an event |
| StatusQueues.EventRunInOrder | linux-gpib-kernel/drivers/gpib/common/gpib_os.c:1867-1955 | the same order and bound for events under pushes, pops and failed allocations, and at most one loss reported for each failed allocation |
| StatusQueues.StatusQueue.PopStatusByte | linux-gpib-kernel/drivers/gpib/common/gpib_os.c:225-253 | in place, as specified |
| StatusQueues.StatusQueue.PushStatusByte | linux-gpib-kernel/drivers/gpib/common/gpib_os.c:191-222 | in place, as specified, through pop when full |
| StatusQueues.FindStatusQueue | linux-gpib-kernel/drivers/gpib/common/gpib_os.c:256-269 | the first entry with an equal address, or none |
| StatusQueues.EventQueue.PopEventNoLock | linux-gpib-kernel/drivers/gpib/common/gpib_os.c:1923-1955 | in place, as specified |
| StatusQueues.EventQueue.PushEventNoLock | linux-gpib-kernel/drivers/gpib/common/gpib_os.c:1867-1902 | in place, as specified |
| StatusQueues.EventQueue.Drain | linux-gpib-kernel/drivers/gpib/common/gpib_os.c:2154-2155 | the deallocation loop ends although a pop may remove nothing, and takes out every event in order |
| SerialPoll.SetupPolls | linux-gpib-kernel/drivers/gpib/common/gpib_os.c:315-345 | from every bus state the setup string puts every instrument into serial poll mode |
| SerialPoll.TalkPollsOnly | linux-gpib-kernel/drivers/gpib/common/gpib_os.c:347-372 | whatever failed polls left behind, the talk address makes the polled instrument the only addressed talker, still in serial poll mode |
| SerialPoll.CleanupQuiets | linux-gpib-kernel/drivers/gpib/common/gpib_os.c:392-416 | the cleanup string ends serial poll mode and leaves no talker, from every bus state |
| SerialPoll.PollBoard.SetupSerialPoll | linux-gpib-kernel/drivers/gpib/common/gpib_os.c:315-345 | sends the setup string, or the part the driver takes, and succeeds exactly if all of it goes out |
| SerialPoll.PollBoard.CleanupSerialPoll | linux-gpib-kernel/drivers/gpib/common/gpib_os.c:392-416 | the same for the cleanup string, after which the bus is quiet |
| SerialPoll.PollBoard.ReadSerialPollByte | linux-gpib-kernel/drivers/gpib/common/gpib_os.c:347-390 | the talk address goes out as far as the driver takes it; the byte is read if and only if the driver calls succeed, with the polled instrument the only addressed talker |
| SerialPoll.PollBoard.SerialPollSingle | linux-gpib-kernel/drivers/gpib/common/gpib_os.c:418-434 | success exactly if setup, talk address and read succeed, with a byte of the polled instrument; it is reported even if the cleanup failed |
| SerialPoll.PollBoard.PollDevices | linux-gpib-kernel/drivers/gpib/common/gpib_os.c:453-465 | every device is polled, and read from if and only if its driver calls succeed, as the only talker; every queue gets its own device's byte if that requests service, and no other change |
| SerialPoll.PollBoard.SerialPollAll | linux-gpib-kernel/drivers/gpib/common/gpib_os.c:436-472 | once the setup is out, exactly that; the result is not negative if and only if setup and cleanup went out, and is then the number of bytes pushed, with the bus out of serial poll mode without a talker |
| SerialPoll.PollBoard.GetSerialPollByte | linux-gpib-kernel/drivers/gpib/common/gpib_os.c:271-281 | polls if and only if the address has no entry or its first entry has nothing queued; else pops that entry and leaves the bus and all other queues alone; a polled byte is the addressed instrument's and no queue changes |
| SerialPoll.PollBoard.Dvrsp | linux-gpib-kernel/drivers/gpib/common/gpib_os.c:483-504 | sends nothing for a request it rejects, and succeeds exactly if it accepts it and the driver calls do, with a byte of the polled instrument |
| GpibUser.AddressBytesDecode | linux-gpib-user/include/gpib/gpib_user.h:88-109 | address bytes fall into their own command group only and decode to the address they were made from |
| GpibUser.ValidExactly | linux-gpib-user/lib/ibutil.c:490-548 | a 16-bit address is valid exactly when its primary byte is legal and its secondary byte is zero or has one of the two address bits, a clear top bit and legal low bits; those parts are what is extracted |
| GpibUser.UnpackPacked | linux-gpib-user/lib/ibutil.c:490-534 | extracting gives back what was packed exactly for legal addresses |
| GpibUser.RepackExtracted | linux-gpib-user/lib/ibutil.c:503-547 | repacking a valid address gives it back exactly when its secondary byte is absent or has both address bits |
| GpibUser.AddressListIsValid | linux-gpib-user/lib/ibutil.c:550-564 | true exactly when every address before the terminator is valid |
| GpibUser.NumAddresses | linux-gpib-user/lib/ibutil.c:566-578 | the number of addresses before the terminator |
| Ieee488.ListenEffect | linux-gpib-user/include/gpib/gpib_user.h:96-109 | a listen address, plain or extended, makes listeners of exactly the instruments it reaches, from any state |
| Ieee488.TalkEffect | linux-gpib-user/include/gpib/gpib_user.h:101-109 | a talk address leaves the instrument it reaches as the talker, from any state |
| Ieee488.ReceiveOthers | linux-gpib-user/include/gpib/gpib_user.h:138-147 | addressed and universal commands leave talkers and listeners alone and only SPE and SPD change the polling mode; unlisten and untalk reach every instrument |
| Addressing.ListenAllEffect | linux-gpib-user/lib/ibCmd.c:154-166 | a whole list of listen addresses makes listeners of exactly those reached by one of them |
| Addressing.SendSetupMeaning | linux-gpib-user/lib/ibCmd.c:132-170 | from every bus state the compiled string leaves the board sole talker and exactly the named instruments listening |
| Addressing.ReceiveSetupMeaning | linux-gpib-user/lib/ibRd.c:26-63 | from every bus state the compiled string leaves exactly the board listening and the named instrument sole talker |
| Addressing.CreateSendSetup | linux-gpib-user/lib/ibCmd.c:132-170 | the loop writes exactly the compiled string, nothing past 3 + 2 bytes per address, and nothing for a null or malformed list |
| Addressing.Controller.InternalSendSetup | linux-gpib-user/lib/ibCmd.c:199-246 | the allocated buffer always suffices; success exactly for a valid, non-empty list on a board in charge with memory and a command that goes out; the bus is then addressed as asked, except that nothing at all is sent when the board's own address cannot be read |
| Addressing.Controller.SendSetup | linux-gpib-user/lib/ibCmd.c:172-197 | the eight-byte buffer always suffices for one instrument; success exactly if the command goes out, and it addresses the instrument |
| Addressing.Controller.InternalReceiveSetup | linux-gpib-user/lib/ibRd.c:26-63 | the eight-byte buffer always suffices; success exactly for a valid address, a readable own address and a command that goes out; the named instrument then talks alone to the board alone |
| PlainBus.CompleteReadIsPlain | linux-gpib-kernel/drivers/gpib/tms9914/tms9914.c:511-548 | any read that stops only at its length or at EOI, and nowhere past EOI, takes exactly what reading byte by byte takes |
| PlainBus.JoinReads | linux-gpib-kernel/drivers/gpib/tms9914/tms9914.c:524-547 | two such reads, the first without EOI, join to one |
| Transfers.PiecesArePlain | linux-gpib-kernel/drivers/gpib/common/iblib.c:320-336 | however a request is cut into buffer loads and driver reads, without failures it takes the bytes, count and END of a byte-by-byte read |
| Transfers.Board.Ibrd | linux-gpib-kernel/drivers/gpib/common/iblib.c:303-340 | for any driver: the buffer holds the joined bytes of the reads that did not fail, none follows END or a failure, the loop ends, and an error means that a driver call failed |
| Transfers.Board.ReadLoads | linux-gpib-kernel/drivers/gpib/common/gpib_os.c:912-930 | the loop of buffer loads: the user's bytes are that join, in order, never more than requested |
| Transfers.Board.ReadIoctl | linux-gpib-kernel/drivers/gpib/common/gpib_os.c:877-951 | the same with all errors of the ioctl; without a copy fault the result is 0 exactly when the request is filled or END was seen, and the count is exact; less than that needs a failed driver call, and a fault a faulting copy; a success in which no driver call failed, which every success without END is, is a byte-by-byte read of the talker: same bytes, count and END |
| Transfers.Board.Ibwrt | linux-gpib-kernel/drivers/gpib/common/iblib.c:694-716 | what reaches the bus is what is counted, also on a timeout |
| Transfers.Board.WriteIoctl | linux-gpib-kernel/drivers/gpib/common/gpib_os.c:1038-1108 | the bus gains exactly the counted part of the user's buffer, also on errors and faults; EOI only on the last byte of the request; without a fault the result is 0 exactly when all was sent, and anything else needs a driver call, timer or copy that went wrong |
| Transfers.Board.Ibcmd | linux-gpib-kernel/drivers/gpib/common/iblib.c:101-128 | what reaches the bus is what is counted; success means the driver was called |
| Transfers.Board.CommandIoctl | linux-gpib-kernel/drivers/gpib/common/gpib_os.c:953-1036 | the bus gains exactly the counted commands; the driver is called even for nothing; an error needs something that went wrong; io_in_progress stays set exactly when the caller asked for it and all went well |
| Cb7210.Receiver.Turn | linux-gpib-kernel/drivers/gpib/cb7210/cb7210.c:104-125 | a turn of the read loop stores whole words in arrival order, fits the FIFO's 2048 bytes, and moves something unless a flag ends the loop |
| Cb7210.Receiver.FifoPart | linux-gpib-kernel/drivers/gpib/cb7210/cb7210.c:99-156 | what the loop took, and the first byte of what it left, are stored in arrival order; more than one byte is left only by an interrupted wait |
| Cb7210.Receiver.FifoRead | linux-gpib-kernel/drivers/gpib/cb7210/cb7210.c:79-171 | never more than `length` bytes, the odd byte and the data-in byte included; always what the loop took, then the first byte left in the FIFO, then the data-in byte, in arrival order; the length guard does not fire above 2048; the loop ends |
| Cb7210.Receiver.AccelRead | linux-gpib-kernel/drivers/gpib/cb7210/cb7210.c:173-221 | the same for the whole read at any length, first byte and extra byte included; the bytes stored are without a gap if and only if the FIFO loop left at most one byte, and more only in a call that fails; if nothing out of the ordinary happens it succeeds, short of the length by less than a FIFO; a short request is filled or ends with END |
| Cb7210.InterruptedReadSkips | linux-gpib-kernel/drivers/gpib/cb7210/cb7210.c:104-112 | a concrete run: a signal ends the wait with a word in the FIFO, and of three bytes that arrive the second is lost |
| Cb7210.FastChunk | linux-gpib-kernel/drivers/gpib/cb7210/cb7210.c:361-366 | the part sent through the FIFO is even and leaves one or two bytes |
| Cb7210.Sender.Fill | linux-gpib-kernel/drivers/gpib/cb7210/cb7210.c:326-336 | words written while the bus drains the FIFO neither overfill it nor change the order |
| Cb7210.Sender.FifoWrite | linux-gpib-kernel/drivers/gpib/cb7210/cb7210.c:267-351 | for even lengths the odd-number branch is unreachable; success means exactly the data went out; failure, a beginning of it |
| Cb7210.Sender.AccelWrite | linux-gpib-kernel/drivers/gpib/cb7210/cb7210.c:353-379 | success sends exactly what a byte-by-byte write sends, EOI on the true last byte; failure needs a signal, timer, device clear or bus error, and has sent a beginning of it, counted from above |
| Agilent82350b.CounterReads | linux-gpib-kernel/drivers/gpib/agilent_82350b/agilent_82350b.c:282-301 | the counter reads the bytes that remain if and only if it is not a full 0x8000 block none of which has moved, which reads as 0 |
| Agilent82350b.Board.FifoRead | linux-gpib-kernel/drivers/gpib/agilent_82350b/agilent_82350b.c:67-113 | the block loop stores, in order, exactly what was taken from the talker, up to EOI |
| Agilent82350b.Board.AccelRead | linux-gpib-kernel/drivers/gpib/agilent_82350b/agilent_82350b.c:33-133 | for every length, a successful accelerated read has the bytes, the count and the END of a byte-by-byte read, and leaves the rest to the next; it fails only on a signal, timer, device clear or a talker with nothing left |
| Agilent82350b.Board.WriteBlock | linux-gpib-kernel/drivers/gpib/agilent_82350b/agilent_82350b.c:193-222 | a block puts a beginning of itself on the bus and counts it exactly, but for the aliased case |
| Agilent82350b.Board.AccelWrite | linux-gpib-kernel/drivers/gpib/agilent_82350b/agilent_82350b.c:150-233 | a successful accelerated write sends what a byte-by-byte write sends, EOI on the last byte; it fails only on a signal, timer or device clear; what is sent is always a beginning of that, and counted exactly up to 0x8000 bytes |
| Fluke.MaskExact | linux-gpib-kernel/drivers/gpib/eastwood/fluke_gpib.h:145 | the masked completion test is exact for all progress if and only if the block is at most 0x7ff bytes |
| Fluke.Board.SendBlock | linux-gpib-kernel/drivers/gpib/eastwood/fluke_gpib.c:412-453 | success of the wait means the whole block was taken |
| Fluke.Board.DmaWrite | linux-gpib-kernel/drivers/gpib/eastwood/fluke_gpib.c:379-463 | counts exactly what it put on the bus on every path, EOI on the first byte exactly if it was armed; its two checks cannot fail for blocks that fit |
| Fluke.Board.WriteBlocks | linux-gpib-kernel/drivers/gpib/eastwood/fluke_gpib.c:488-508 | the loop keeps remainder and dma_remainder one apart exactly if EOI is asked for, and ends only with all blocks sent or an error |
| Fluke.SpuriousEoiExactly | linux-gpib-kernel/drivers/gpib/eastwood/fluke_gpib.c:517-523 | a write puts EOI nowhere but on the last byte of all if and only if none was armed on entry, or nothing was taken, or the only byte was to carry it anyway |
| Fluke.UnarmedGainIsTag | linux-gpib-kernel/drivers/gpib/eastwood/fluke_gpib.c:465-536 | a write that starts with nothing armed puts on the bus what a byte-by-byte write does |
| Fluke.Board.AccelWrite | linux-gpib-kernel/drivers/gpib/eastwood/fluke_gpib.c:465-536 | from any state, EOI armed or not: the bytes on the bus are the counted beginning of the data on every path, with EOI as just said; success means all, failure that something outside went wrong; the remainder check cannot fail; EOI is left armed exactly when the byte it was armed for was not taken |
| AsyncIo.StepExact | linux-gpib-user/lib/async.c:57-177 | every step of launchers, workers and those who stop or wait keeps the invariant, if and only if it does not clear in_progress when that already stands for a later operation whose worker is alive |
| AsyncIo.Safety | linux-gpib-user/lib/async.c:57-203 | in every interleaving without such a step: no use of the freed argument, in_progress and aio_type set before the worker reads them, one live worker, board mutex taken at most once and given back; whoever has joined a worker finds its three results all there or all untouched if no later operation was launched, and none of the three otherwise |
| AsyncIo.StepCurrent | linux-gpib-user/lib/ibstop.c:20-46 | calls past their test deal with the operation in progress as long as none clears in_progress while another is past its test, and exactly so long; no such bad step can then happen |
| AsyncIo.SafeInTurn | linux-gpib-user/lib/ibstop.c:36-44 | so runs with that discipline have all of the above, and whoever has joined a worker finds its own results |
| AsyncIo.LaunchGetsUnderway | linux-gpib-user/lib/async.c:57-109 | a launch on an idle descriptor succeeds, and then its worker has the board, in_progress, thread and aio_type are its own, and CMPL is gone |
| AsyncIo.AddressesThenTransfers | linux-gpib-user/lib/ibRd.c:108-125 | a read or write whose ioctls succeed goes through its addressing, with CMPL still away at its end, then through its data ioctl, and CMPL is back only at the end of that |
| AsyncIo.Commands | linux-gpib-user/lib/ibCmd.c:83-112 | a command is over, and CMPL back, with its one ioctl |
| AsyncIo.AddressingFailureEnds | linux-gpib-user/lib/ibRd.c:114-119 | after an addressing that failed there is no data ioctl |
| AsyncIo.BoardAddressesNobody | linux-gpib-user/lib/ibRd.c:117-126 | a read or write on an interface board goes straight to its data ioctl with CMPL as it was; a command always has its ioctl |
| AsyncIo.WorkerEnds | linux-gpib-user/lib/async.c:157-177 | after its transfer the worker leaves all three results, sets CMPL, gives the board back and is gone |
| AsyncIo.LaunchRefused | linux-gpib-user/lib/async.c:77-81 | a launch beside an operation in progress is refused and changes nothing else |
| AsyncIo.CancelledEnds | linux-gpib-user/lib/async.c:48-55 | a worker cancelled between its ioctls sets CMPL and gives the board back without touching the results |
| AsyncIo.StopCancels | linux-gpib-user/lib/ibstop.c:24-35 | stopping sends a cancellation to the worker of the operation in progress, and does nothing without one |
| AsyncIo.JoinClears | linux-gpib-user/lib/ibstop.c:36-40 | a stop or wait cannot go on before the worker is gone, and then clears in_progress |
| AsyncIo.CmplExact | linux-gpib-user/lib/async.c:124-132 | after a successful launch, as long as the worker is on its way to its data ioctl or in it, or its operation is not over otherwise: if the worker locked the board, CMPL is visible exactly if it was visible then and no ioctl of the operation has made it disappear since; no continuation shows CMPL before the data ioctl is over, the addressing failed or the cleanup set it, if the worker locked the board and CMPL is not visible now, as when both its first ioctls succeeded; otherwise some continuation does |
| AsyncIo.CmplAtOnce | linux-gpib-user/lib/async.c:124-136 | both other cases occur: a launch succeeds and CMPL is seen at once, the worker having failed to lock the board, or having locked it and failed to clear CMPL |
| AsyncIo.TwoWaitersDisown | linux-gpib-user/lib/ibWait.c:137-146 | two threads that wait for one operation can lead, all in order so far, to the bad step |
| AsyncIo.DisowningTwoWorkers | linux-gpib-user/lib/ibstop.c:38-40 | from every invariant state before the bad step, with a launch still to come, two workers can be alive on one descriptor |

## Left out

Where the model follows the code against the obvious ideal:

- A push onto a full status queue refuses the new byte, and the flag that would tell a reader so is cleared by the same call (gpib_os.c:198-205, 237-240).
- ibrd drops the byte count of a driver call that fails (iblib.c:327-332); the bytes of a failed driver read are therefore not in the user's count.
- serial_poll_single reports success when only the cleanup failed (gpib_os.c:418-434).
- create_send_setup returns 0 when the board's own address cannot be read, and InternalSendSetup then reports success having sent nothing (ibCmd.c:149-153).
- packAddress cuts a primary address to eight bits, so an illegal one can come out legal (ibutil.c:524-534).

Contracts that say less than one might expect:

- BoardLocks.Exclusion: not for runs that close a file holding the mutex, because it is then false, as ClosingHolderBreaksExclusion shows; a close and each ioctl's bookkeeping is one step.
- DeviceTable.RunsConsistent: not for runs with a failed allocation of a list entry that is needed, a close of handle 0, or a file closed with further board descriptors, because StepExact shows that each of these breaks it; allocation of a descriptor is taken to succeed.
- BoardUse.RunsConsistent: not for a driver change that loses references, because BoardTypeExact shows that it breaks the counts; bookkeeping operations are single steps although ibclose takes no lock.
- Addressing.SendSetupMeaning: each primary address on the bus is plain or extended but not both, and the list does not name the board itself, because the standard's machines give other lists no single meaning.
- Transfers.Board.ReadIoctl: needs a buffer of at least one byte, because an online board has one of 0x4000; a failed user copy is only an outcome, and what part of it arrived is not stated.
- Cb7210.Receiver.AccelRead: does not say which byte END belongs to, because the source does not determine whether the chip's DMA takes the byte with EOI before or after END is signalled; byte order and bounds do not depend on it. The FIFO's 2048 bytes are taken to include the half-filled word, and words left in it when it is switched off are lost.
- Cb7210.Sender.AccelWrite: after a failure the count can exceed what was sent, because the driver counts what it put into the FIFO; the contract bounds it.
- Cb7210.Receiver.FifoRead: after an interrupted wait the bytes but the first that are left in the FIFO are dropped, because the code then reads one byte and switches the FIFO off; the contract says which.
- Ioctl.Caller.Ibwait: for waits that come to an end, because a wait that no condition, timer or signal ever ends does not return.
- Agilent82350b.Board.AccelRead: after a failure only the count is bounded, because the aliased counter can then make it include stale bytes; the board is taken to report END of a block's last byte together with the terminal count, and end-of-string checking goes to the byte-by-byte path, which stands for itself here.
- Fluke.Board.AccelWrite: the counter is taken to count bytes the chip has accepted; whether the last of them has been handshaken is left to the wait that follows.
- AsyncIo.Safety: not for runs in which a call clears the in_progress of a later operation, because DisowningTwoWorkers shows that two workers can then be alive; thread creation succeeds, the unaddress option and XEOS are off, and asynchronous cancellation acts between two ioctls, an interrupted ioctl counting as a failed one.
- AsyncIo.CmplExact: CMPL does not stay away after every successful launch, only if the worker locked the board and CMPL is not visible when the launch returns, because gpib_aio_launch does not learn that the lock or the clearing of CMPL failed; the continuations in which it stays away are those without the step just named.

Not modelled:

- fluke_accel_read and fluke_dma_read: nothing in the source bounds the turns that move no byte, and END depends on chip status the source does not determine.
- Attach, detach and probing, register maps, timers and firmware; the forwarding drivers cec_gpib.c and hp82335.c; the 82357A's USB messages.
- iboffline, which stops the autospoll thread while big_gpib_mutex is held.
- The XEOS split of writes (ibWrt.c:110), which does not come to an end on a buffer with the EOS byte.
- pass_control.c and the secondary-address branch of FindLstn (ibFindLstn.c:208), whose test cannot hold.
- ibtmo, ibask and ibconfig option switches and the timeout tables, which are plain table lookups.
- The configuration grammar, language bindings and examples.
- Memory reclamation of queued bytes and debug output.
