/** The serial poll sequences of gpib_os.c, run against the talkers and listeners on the bus.
    The driver calls may fail, and a command may stop after any number of its bytes. */
module SerialPoll {
  import opened PlainBus
  import opened GpibUser
  import opened Ieee488
  import opened Addressing
  import opened StatusQueues
  import opened Errno

  ghost predicate AllPolling(bus: Bus) {
    forall i :: 0 <= i < |bus| ==> bus[i].spms
  }

  // Out of serial poll mode with nobody addressed to talk.
  ghost predicate Quiet(bus: Bus) {
    forall i :: 0 <= i < |bus| ==> !bus[i].spms && !bus[i].talker
  }

  // A status byte can only come from `t`: the only addressed talker, in serial poll mode.
  ghost predicate PollsOnly(bus: Bus, t: Target) {
    && AllPolling(bus)
    && (Fits(t, bus) ==> forall i :: 0 <= i < |bus| ==> (bus[i].talker <==> Names(t, bus[i].address)))
  }

  function SetupBytes(board: Target): seq<Byte> { [UNL] + ListenBytes(board) + [SPE] }

  const CleanupBytes: seq<Byte> := [SPD, UNT]

  lemma SetupPolls(bus: Bus, board: Target)
    ensures AllPolling(Run(bus, SetupBytes(board)))
  {
    forall i | 0 <= i < |bus| ensures ReceiveAll(bus[i], SetupBytes(board)).spms {
      ReceiveAllAppend(bus[i], [UNL] + ListenBytes(board), [SPE]);
      ReceiveOne(ReceiveAll(bus[i], [UNL] + ListenBytes(board)), SPE);
    }
  }

  lemma CleanupQuiets(bus: Bus)
    requires WellFormed(bus)
    ensures Quiet(Run(bus, CleanupBytes))
  {
    forall i | 0 <= i < |bus|
      ensures var r := ReceiveAll(bus[i], CleanupBytes); !r.spms && !r.talker
    {
      assert CleanupBytes == [SPD] + [UNT];
      ReceiveAllAppend(bus[i], [SPD], [UNT]);
      ReceiveOne(bus[i], SPD);
      var d := Receive(bus[i], SPD);
      ReceiveOne(d, UNT);
      AddressBytesDecode(d.address.pad, d.address.pad);
      if d.address.Extended? {
        AddressBytesDecode(d.address.sad, d.address.sad);
      }
    }
  }

  /** A complete talk address, in serial poll mode and from whatever earlier failed polls
      left behind, makes the polled instrument the only one that can answer. */
  lemma TalkPollsOnly(bus: Bus, t: Target)
    requires WellFormed(bus) && AllPolling(bus)
    ensures PollsOnly(Run(bus, TalkBytes(t)), t)
  {
    hide Receive;
    var r := Run(bus, TalkBytes(t));
    forall i | 0 <= i < |bus| ensures r[i].spms {
      TalkKeepsPolling(bus[i], t, |TalkBytes(t)|);
      assert TalkBytes(t)[..|TalkBytes(t)|] == TalkBytes(t);
    }
    if Fits(t, r) {
      forall i | 0 <= i < |bus| ensures r[i].talker <==> Names(t, bus[i].address) {
        assert r[i].address == bus[i].address;
        TalkEffect(bus[i], t);
      }
    }
  }

  // A talk address never leaves serial poll mode, even cut short and with any secondary.
  lemma TalkKeepsPolling(d: Device, t: Target, n: nat)
    requires n <= |TalkBytes(t)| && d.spms
    ensures ReceiveAll(d, TalkBytes(t)[..n]).spms
  {
    var b := TalkBytes(t);
    if n == 0 {
      assert b[..n] == [];
    } else if n == |b| {
      assert b[..n] == b;
      ReceiveAddress(d, MTA(t.pad), t.sad);
      NotSpd(d, t.pad);
      if t.sad >= 0 {
        NotSpd(Receive(d, MTA(t.pad)), t.sad);
      }
    } else {
      assert b[..n] == [MTA(t.pad)];
      ReceiveOne(d, MTA(t.pad));
      NotSpd(d, t.pad);
    }
  }

  lemma NotSpd(d: Device, a: nat)
    ensures d.spms ==> Receive(d, MTA(a)).spms && Receive(d, MSA(a)).spms
  {
    assert MTA(a) / 32 == 2 && MSA(a) / 32 == 3 && SPD / 32 == 0;
  }

  // ---- the poll of every open device ----

  const REQUEST_SERVICE: Byte := 0x40

  predicate RequestsService(status: Byte) { status / REQUEST_SERVICE % 2 == 1 }

  /** What the driver does for one command: the result of taking control, the result of the
      command, and how many of its bytes go out. */
  datatype CommandCall = CommandCall(cac: int, ret: int, count: nat)

  // All the bytes go out, and the driver says so.
  predicate Succeeds(call: CommandCall, bytes: seq<Byte>) {
    call.cac >= 0 && call.ret >= 0 && call.count >= |bytes|
  }

  // The part of them that does go out.
  function SentPart(call: CommandCall, bytes: seq<Byte>): (r: seq<Byte>)
    ensures r <= bytes
    ensures Succeeds(call, bytes) ==> r == bytes
  {
    if call.cac < 0 then [] else bytes[..if call.count < |bytes| then call.count else |bytes|]
  }

  /** What it does for the poll of one device: the command, the read, whether memory can then be
      had for a status byte. */
  datatype PollCall = PollCall(talk: CommandCall, readRet: int, readCount: nat, status: Byte, gotMemory: bool)

  predicate ReadSucceeds(call: PollCall) { call.readRet >= 0 && call.readCount >= 1 }

  /** What happened to one device: its address could not be sent, its byte could not be read,
      or its byte came in; `bus` is the bus at the moment of the read. */
  datatype Poll = NotAddressed | ReadFailed(bus: Bus) | ReadOk(bus: Bus, status: Byte, gotMemory: bool)

  /** `poll` is what the driver calls of `call` make of a poll of `t`: it fails only where one
      of them does, and there. */
  ghost predicate Reports(poll: Poll, call: PollCall, t: Target) {
    && (poll.NotAddressed? <==> !Succeeds(call.talk, TalkBytes(t)))
    && (poll.ReadOk? <==> Succeeds(call.talk, TalkBytes(t)) && ReadSucceeds(call))
    && (poll.ReadOk? ==> poll.status == call.status && poll.gotMemory == call.gotMemory)
    && (!poll.NotAddressed? ==> PollsOnly(poll.bus, t))
  }

  function AfterPoll(q: Fifo<Byte>, p: Poll): Pushed<Byte> {
    if p.ReadOk? && RequestsService(p.status) then PushStatus(q, p.status, p.gotMemory)
    else Pushed(q, -1)
  }

  ghost function CountPushed(queues: seq<Fifo<Byte>>, polls: seq<Poll>): nat
    requires |polls| <= |queues|
    decreases |polls|
  {
    if polls == [] then 0
    else
      var k := |polls| - 1;
      CountPushed(queues, polls[..k]) + if AfterPoll(queues[k], polls[k]).retval == 0 then 1 else 0
  }

  ghost function Queues(devices: seq<StatusQueue>): seq<Fifo<Byte>>
    reads devices
  {
    seq(|devices|, k requires 0 <= k < |devices| reads devices => devices[k].Queue())
  }

  class PollBoard {
    var bus: Bus
    const self: nat
    var deviceList: seq<StatusQueue>

    ghost predicate Valid() reads this {
      && WellFormed(bus) && self < |bus|
      && forall i, j :: 0 <= i < j < |deviceList| ==> deviceList[i] != deviceList[j]
    }

    function Self(): Target
      requires self < |bus|
      reads this
    {
      TargetOf(bus[self].address)
    }

    constructor (bus: Bus, self: nat)
      requires WellFormed(bus) && self < |bus|
      ensures Valid() && this.bus == bus && deviceList == []
    {
      this.bus, this.self, deviceList := bus, self, [];
    }

    // The driver's command function, after taking control; EIO for a short command is the core's.
    method Command(bytes: seq<Byte>, call: CommandCall) returns (retval: int)
      requires Valid()
      modifies this`bus
      ensures Valid() && bus == Run(old(bus), SentPart(call, bytes))
      ensures retval == (if call.cac < 0 then call.cac else if Succeeds(call, bytes) then 0 else -EIO)
    {
      if call.cac < 0 {
        RunNothing(bus);
        return call.cac;
      }
      var n := if call.count < |bytes| then call.count else |bytes|;
      bus := Run(bus, bytes[..n]);
      if call.ret < 0 || n < |bytes| {
        return -EIO;
      }
      retval := 0;
    }

    // ---- the sequences ----

    method SetupSerialPoll(call: CommandCall) returns (retval: int)
      requires Valid()
      modifies this`bus
      ensures Valid() && |bus| == old(|bus|) && Self() == old(Self())
      ensures bus == Run(old(bus), SentPart(call, SetupBytes(Self())))
      ensures retval <= 0 && (retval == 0 <==> Succeeds(call, SetupBytes(Self())))
      ensures retval == 0 ==> AllPolling(bus)
    {
      hide Receive, MLA, MSA;
      SetupPolls(bus, Self());
      retval := Command(SetupBytes(Self()), call);
    }

    /** A byte is read only when the polled instrument is the only one that can answer, and it is
        read whenever the driver calls succeed. */
    method ReadSerialPollByte(pad: nat, sad: int, call: PollCall)
      returns (retval: int, result: Byte, ghost poll: Poll)
      requires Valid() && AllPolling(bus)
      modifies this`bus
      ensures Valid() && AllPolling(bus) && |bus| == old(|bus|) && Self() == old(Self())
      ensures bus == Run(old(bus), SentPart(call.talk, TalkBytes(Target(pad, sad))))
      ensures Reports(poll, call, Target(pad, sad)) && (!poll.NotAddressed? ==> bus == poll.bus)
      ensures retval <= 0 && (retval == 0 <==> poll.ReadOk?)
      ensures poll.ReadOk? ==> poll.status == result
    {
      hide Receive, MTA, MSA, PollsOnly;
      result := 0;
      poll := NotAddressed;
      var t := Target(pad, sad);
      ghost var before := bus;
      forall i | 0 <= i < |bus| ensures ReceiveAll(bus[i], SentPart(call.talk, TalkBytes(t))).spms {
        TalkKeepsPolling(before[i], t, |SentPart(call.talk, TalkBytes(t))|);
      }
      TalkPollsOnly(before, t);
      retval := Command(TalkBytes(t), call.talk);
      if retval < 0 {
        return;
      }
      result := call.status;
      if call.readRet < 0 || call.readCount < 1 {
        return -EIO, result, ReadFailed(bus);
      }
      return 0, result, ReadOk(bus, result, call.gotMemory);
    }

    method CleanupSerialPoll(call: CommandCall) returns (retval: int)
      requires Valid()
      modifies this`bus
      ensures Valid() && |bus| == old(|bus|) && Self() == old(Self())
      ensures bus == Run(old(bus), SentPart(call, CleanupBytes))
      ensures retval <= 0 && (retval == 0 <==> Succeeds(call, CleanupBytes))
      ensures retval == 0 ==> Quiet(bus)
    {
      hide Receive;
      CleanupQuiets(bus);
      retval := Command(CleanupBytes, call);
    }

    /** serial_poll_single: success means the byte was read from the polled instrument. It is
        reported even when the cleanup failed, so it does not mean the bus is quiet. */
    method SerialPollSingle(pad: nat, sad: int, setup: CommandCall, call: PollCall, cleanup: CommandCall)
      returns (retval: int, result: Byte, ghost poll: Poll)
      requires Valid()
      modifies this`bus
      ensures Valid() && Self() == old(Self())
      ensures if Succeeds(setup, SetupBytes(Self())) then Reports(poll, call, Target(pad, sad))
              else poll.NotAddressed?
      ensures retval <= 0 && (retval == 0 <==> poll.ReadOk?)
      ensures poll.ReadOk? ==> poll.status == result
      ensures Succeeds(setup, SetupBytes(Self())) && Succeeds(cleanup, CleanupBytes) ==> Quiet(bus)
    {
      hide Run, PollsOnly, AllPolling, Quiet, WellFormed, Reports, SentPart, SetupBytes;
      result, poll := 0, NotAddressed;
      retval := SetupSerialPoll(setup);
      if retval < 0 {
        return;
      }
      retval, result, poll := ReadSerialPollByte(pad, sad, call);
      var cleanupRetval := CleanupSerialPoll(cleanup);
      if retval < 0 {
        return;
      }
      if cleanupRetval < 0 {
        return;  // with the result of the read, which is 0
      }
      retval := 0;
    }

    // One turn of the loop of SerialPollAll.
    method PollDevice(device: StatusQueue, call: PollCall) returns (pushed: bool, ghost poll: Poll)
      requires Valid() && AllPolling(bus)
      modifies this`bus, device`statusBytes, device`numStatusBytes, device`droppedByte
      ensures Valid() && AllPolling(bus) && Self() == old(Self())
      ensures Reports(poll, call, Target(device.pad, device.sad))
      ensures device.Queue() == AfterPoll(old(device.Queue()), poll).queue
      ensures pushed <==> AfterPoll(old(device.Queue()), poll).retval == 0
    {
      hide Run, PollsOnly, AllPolling, WellFormed;
      pushed := false;
      var retval, result;
      retval, result, poll := ReadSerialPollByte(device.pad, device.sad, call);
      if retval >= 0 && RequestsService(result) {
        retval := device.PushStatusByte(result, call.gotMemory);
        pushed := retval >= 0;
      }
    }

    // The loop of serial_poll_all.
    method PollDevices(calls: seq<PollCall>) returns (numBytes: nat, ghost polls: seq<Poll>)
      requires Valid() && AllPolling(bus) && |calls| == |deviceList|
      modifies this`bus, deviceList`statusBytes, deviceList`numStatusBytes, deviceList`droppedByte
      ensures Valid() && AllPolling(bus) && |polls| == |deviceList| && Self() == old(Self())
      ensures forall k :: 0 <= k < |polls| ==>
        Reports(polls[k], calls[k], Target(deviceList[k].pad, deviceList[k].sad))
      ensures forall k :: 0 <= k < |deviceList| ==>
        deviceList[k].Queue() == AfterPoll(old(Queues(deviceList))[k], polls[k]).queue
      ensures numBytes == CountPushed(old(Queues(deviceList)), polls)
    {
      hide Run, Reports, AllPolling, AfterPoll, WellFormed;
      polls, numBytes := [], 0;
      ghost var queues := Queues(deviceList);
      var cur := 0;
      while cur < |deviceList|
        invariant cur <= |deviceList| && |polls| == cur
        invariant Valid() && AllPolling(bus) && Self() == old(Self())
        invariant forall k :: 0 <= k < cur ==>
          Reports(polls[k], calls[k], Target(deviceList[k].pad, deviceList[k].sad))
        invariant forall k :: 0 <= k < cur ==>
          deviceList[k].Queue() == AfterPoll(queues[k], polls[k]).queue
        invariant forall k :: cur <= k < |deviceList| ==> deviceList[k].Queue() == queues[k]
        invariant numBytes == CountPushed(queues, polls)
      {
        var device := deviceList[cur];
        var pushed;
        ghost var poll;
        pushed, poll := PollDevice(device, calls[cur]);
        if pushed {
          numBytes := numBytes + 1;
        }
        assert (polls + [poll])[..cur] == polls;
        polls := polls + [poll];
        cur := cur + 1;
      }
    }

    /** Once the setup has gone out every device is polled, and a byte is read from each whose
        driver calls succeed, whatever failed before it, with serial poll mode on and the
        device the only addressed talker. Each device's queue receives its byte if that
        requests service and is otherwise untouched. The result is not negative if and only if
        the setup and the cleanup went out; it is then the number of bytes queued, and the bus
        is quiet. */
    method SerialPollAll(setup: CommandCall, calls: seq<PollCall>, cleanup: CommandCall)
      returns (retval: int, ghost polls: seq<Poll>)
      requires Valid() && |calls| == |deviceList|
      modifies this`bus, deviceList`statusBytes, deviceList`numStatusBytes, deviceList`droppedByte
      ensures Valid() && Self() == old(Self())
      ensures |polls| == if Succeeds(setup, SetupBytes(Self())) then |deviceList| else 0
      ensures forall k :: 0 <= k < |polls| ==>
        Reports(polls[k], calls[k], Target(deviceList[k].pad, deviceList[k].sad))
      ensures forall k :: 0 <= k < |deviceList| ==>
        deviceList[k].Queue() == if polls == [] then old(Queues(deviceList))[k]
                                 else AfterPoll(old(Queues(deviceList))[k], polls[k]).queue
      ensures deviceList == [] ==> retval == 0 && bus == old(bus)
      ensures deviceList != [] ==>
        (retval >= 0 <==> Succeeds(setup, SetupBytes(Self())) && Succeeds(cleanup, CleanupBytes))
      ensures retval >= 0 ==> retval == CountPushed(old(Queues(deviceList)), polls)
      ensures retval >= 0 && deviceList != [] ==> Quiet(bus)
    {
      hide Run, Reports, AllPolling, Quiet, AfterPoll, SetupBytes, WellFormed, SentPart, Succeeds;
      polls := [];
      if deviceList == [] {
        return 0, polls;
      }
      retval := SetupSerialPoll(setup);
      if retval < 0 {
        return;
      }
      var numBytes;
      numBytes, polls := PollDevices(calls);
      retval := CleanupSerialPoll(cleanup);
      if retval < 0 {
        return;
      }
      retval := numBytes;
    }

    // The first entry for an address, or the length of the list.
    ghost predicate FirstEntry(i: nat, pad: nat, sad: int) reads this, deviceList {
      && i <= |deviceList|
      && (i < |deviceList| ==> AddressEqual(deviceList[i].pad, deviceList[i].sad, pad, sad))
      && forall k :: 0 <= k < i ==> !AddressEqual(deviceList[k].pad, deviceList[k].sad, pad, sad)
    }

    /** get_serial_poll_byte: the bus is polled if and only if the address has no entry, or its
        first entry has nothing queued. Otherwise that entry is popped, and the bus and all
        other queues stay as they are. A byte that comes from a poll is the polled
        instrument's own, and no queue changes. */
    method GetSerialPollByte(pad: nat, sad: int, inCharge: bool, setup: CommandCall, call: PollCall,
                             cleanup: CommandCall, timedOut: bool)
      returns (retval: int, pollByte: Byte, ghost i: nat, ghost polled: bool, ghost poll: Poll)
      requires Valid()
      modifies this`bus, deviceList`statusBytes, deviceList`numStatusBytes, deviceList`droppedByte
      ensures Valid() && FirstEntry(i, pad, sad)
      ensures polled <==> i == |deviceList| || old(Queues(deviceList))[i].count == 0
      ensures forall k :: 0 <= k < |deviceList| && (polled || k != i) ==>
                deviceList[k].Queue() == old(Queues(deviceList))[k]
      ensures !polled ==>
        && bus == old(bus)
        && deviceList[i].Queue() == PopStatus(old(Queues(deviceList))[i]).queue
        && retval == PopStatus(old(Queues(deviceList))[i]).retval
        && PopStatus(old(Queues(deviceList))[i]).element == (if retval == 0 then [pollByte] else [])
      ensures polled ==> (retval == 0 <==> PollSucceeds(pad, sad, inCharge, setup, call, timedOut))
      ensures polled && retval == 0 ==>
        poll.ReadOk? && poll.status == pollByte && Reports(poll, call, Target(pad, sad))
    {
      hide Reports, Run, WellFormed;
      poll := NotAddressed;
      var at := FindStatusQueue(deviceList, pad, sad);
      i := at;
      if at < |deviceList| && deviceList[at].numStatusBytes > 0 {
        polled := false;
        retval, pollByte := deviceList[at].PopStatusByte();
      } else {
        polled := true;
        retval, pollByte, poll := Dvrsp(pad, sad, inCharge, setup, call, cleanup, timedOut);
      }
    }

    // dvrsp accepts the request, and every driver call for it succeeds, but for the cleanup's.
    ghost predicate PollSucceeds(pad: nat, sad: int, inCharge: bool, setup: CommandCall, call: PollCall,
                                 timedOut: bool)
      requires self < |bus|
      reads this
    {
      && inCharge && pad <= GPIB_ADDR_MAX && -1 <= sad <= GPIB_SAD_MAX && !timedOut
      && Succeeds(setup, SetupBytes(Self()))
      && Succeeds(call.talk, TalkBytes(Target(pad, sad))) && ReadSucceeds(call)
    }

    /** dvrsp: nothing is sent for a request it rejects; it succeeds exactly when it accepts the
        request and the driver calls succeed, with a byte of the polled instrument, the only one
        that could answer. */
    method Dvrsp(pad: nat, sad: int, inCharge: bool, setup: CommandCall, call: PollCall,
                 cleanup: CommandCall, timedOut: bool)
      returns (retval: int, result: Byte, ghost poll: Poll)
      requires Valid()
      modifies this`bus
      ensures Valid() && Self() == old(Self())
      ensures !inCharge || pad > GPIB_ADDR_MAX || sad > GPIB_SAD_MAX || sad < -1 ==>
                bus == old(bus) && retval < 0
      ensures retval == 0 <==> PollSucceeds(pad, sad, inCharge, setup, call, timedOut)
      ensures retval == 0 ==> poll.ReadOk? && poll.status == result && Reports(poll, call, Target(pad, sad))
    {
      hide Run, WellFormed, PollsOnly, SetupBytes;
      result, poll := 0, NotAddressed;
      if !inCharge {
        return -1, result, poll;
      }
      if pad > GPIB_ADDR_MAX || sad > GPIB_SAD_MAX || sad < -1 {
        return -1, result, poll;
      }
      retval, result, poll := SerialPollSingle(pad, sad, setup, call, cleanup);
      if timedOut {
        retval := -ETIMEDOUT;
      }
    }
  }
}
