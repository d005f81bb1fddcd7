/** The read, write and command ioctls: loops that carry a request of any size through the
    board's one buffer and the driver's partial transfers (gpib_os.c, iblib.c). */
module Transfers {
  import opened PlainBus
  import opened Errno

  // One call of the driver's read function: what it put in the buffer, and what it returned.
  datatype DriverRead = DriverRead(bytes: seq<Byte>, end: bool, ret: int)

  // The bytes of the reads that did not fail.
  ghost function Joined(log: seq<DriverRead>): seq<Byte> {
    if log == [] then []
    else
      var last := log[|log| - 1];
      Joined(log[..|log| - 1]) + if last.ret == 0 then last.bytes else []
  }

  // No read comes after one that failed or reported END.
  ghost predicate StopsInTime(log: seq<DriverRead>) {
    forall k :: 0 <= k < |log| - 1 ==> log[k].ret == 0 && !log[k].end
  }

  ghost predicate SawEnd(log: seq<DriverRead>) { log != [] && log[|log| - 1].end }

  ghost predicate NoneFailed(log: seq<DriverRead>) {
    forall k :: 0 <= k < |log| ==> log[k].ret == 0
  }

  // Reading goes on after reads that neither failed nor reported END.
  lemma LogGoesOn(log: seq<DriverRead>, more: seq<DriverRead>)
    requires NoneFailed(log) && StopsInTime(log) && !SawEnd(log) && StopsInTime(more)
    ensures StopsInTime(log + more) && SawEnd(log + more) == SawEnd(more)
    ensures Joined(log + more) == Joined(log) + Joined(more)
    ensures NoneFailed(more) ==> NoneFailed(log + more)
  {
    JoinedAppend(log, more);
    if more == [] {
      assert log + more == log;
    }
  }

  lemma {:induction false} JoinedAppend(a: seq<DriverRead>, b: seq<DriverRead>)
    ensures Joined(a + b) == Joined(a) + Joined(b)
  {
    if b == [] {
      assert a + b == a;
    } else {
      assert (a + b)[..|a + b| - 1] == a + b[..|b| - 1];
      JoinedAppend(a, b[..|b| - 1]);
    }
  }

  lemma OneCall(call: DriverRead)
    ensures Joined([call]) == (if call.ret == 0 then call.bytes else [])
    ensures StopsInTime([call]) && SawEnd([call]) == call.end
    ensures NoneFailed([call]) <==> call.ret == 0
  {
    assert [call][..0] == [];
    assert Joined([]) == [];
  }

  /** The reads are consecutive pieces of what a talker sends, each stopping at EOI and
      reporting it as END. */
  ghost predicate Pieces(log: seq<DriverRead>, talker: seq<Tagged>)
    decreases |log|
  {
    log != [] ==>
      var n := |log[0].bytes|;
      && 0 < n <= |talker|
      && log[0].bytes == Values(talker[..n])
      && (forall k :: 0 <= k < n - 1 ==> !talker[k].eoi)
      && (log[0].end <==> talker[n - 1].eoi)
      && Pieces(log[1..], talker[n..])
  }

  /** However a read was cut into buffer loads and driver calls, if none of them failed
      it took what reading byte by byte takes, and reported the same END. */
  lemma {:induction false} PiecesArePlain(log: seq<DriverRead>, talker: seq<Tagged>, length: nat)
    requires Pieces(log, talker) && StopsInTime(log)
    requires NoneFailed(log)
    requires |Joined(log)| <= length && (|Joined(log)| == length || SawEnd(log))
    ensures CompleteRead(talker, length, |Joined(log)|, SawEnd(log))
    ensures |Joined(log)| == PlainReadCount(talker, length)
    ensures Joined(log) == Values(talker[..PlainReadCount(talker, length)])
    decreases |log|
  {
    PiecesComplete(log, talker, length);
    CompleteReadIsPlain(talker, length, |Joined(log)|, SawEnd(log));
  }

  lemma {:induction false} PiecesComplete(log: seq<DriverRead>, talker: seq<Tagged>, length: nat)
    requires Pieces(log, talker) && StopsInTime(log)
    requires NoneFailed(log)
    requires |Joined(log)| <= length && (|Joined(log)| == length || SawEnd(log))
    ensures CompleteRead(talker, length, |Joined(log)|, SawEnd(log))
    ensures Joined(log) == Values(talker[..|Joined(log)|])
    decreases |log|
  {
    if log != [] {
      var n, rest := |log[0].bytes|, log[1..];
      JoinedFirst(log);
      if rest != [] {
        assert rest[|rest| - 1] == log[|log| - 1];
        assert forall k :: 0 <= k < |rest| ==> rest[k] == log[k + 1];
        PiecesComplete(rest, talker[n..], length - n);
        JoinReads(talker, length, n, |Joined(rest)|, SawEnd(rest));
        ValuesJoin(talker, n, |Joined(rest)|);
      } else {
        assert Joined(rest) == [];
      }
    }
  }

  lemma JoinedFirst(log: seq<DriverRead>)
    requires log != [] && log[0].ret == 0
    ensures Joined(log) == log[0].bytes + Joined(log[1..])
  {
    assert log == [log[0]] + log[1..];
    JoinedAppend([log[0]], log[1..]);
    assert [log[0]][..0] == [];
    assert Joined([log[0]]) == log[0].bytes;
  }

  lemma ValuesJoin(talker: seq<Tagged>, n: nat, m: nat)
    requires n + m <= |talker|
    ensures Values(talker[..n]) + Values(talker[n..][..m]) == Values(talker[..n + m])
  {
  }

  // Only the part at..at + n of a user buffer has changed.
  lemma LoadLands(before: seq<Byte>, after: seq<Byte>, from: nat, at: nat, n: nat, to: nat)
    requires from <= at && at + n <= to <= |before| == |after|
    requires after[..at] == before[..at] && after[at + n..] == before[at + n..]
    ensures after[..from] == before[..from] && after[to..] == before[to..]
    ensures after[from..at] == before[from..at]
    ensures after[from..at + n] == before[from..at] + after[at..at + n]
  {
    assert after[..from] == after[..at][..from];
    assert after[from..at] == after[..at][from..];
    assert after[to..] == after[at + n..][to - at - n..];
  }

  // What was sent of a load continues what was sent before it.
  lemma LoadSent(user: seq<Byte>, buffer: seq<Byte>, from: nat, at: nat, n: nat, moved: nat)
    requires from <= at && at + n <= |user| && n <= |buffer| && moved <= n
    requires buffer[..n] == user[at..at + n]
    ensures user[from..at] + buffer[..moved] == user[from..at + moved]
  {
    assert buffer[..moved] == buffer[..n][..moved];
  }

  lemma Beyond(before: seq<Byte>, after: seq<Byte>, at: nat, to: nat)
    requires at <= to <= |before| == |after| && after[at..] == before[at..]
    ensures after[to..] == before[to..]
  {
    assert after[to..] == after[at..][to - at..];
  }

  lemma Chained(start: seq<Byte>, done: seq<Byte>, more: seq<Byte>, sofar: seq<Byte>, now: seq<Byte>)
    requires sofar == start + done && now == sofar + more
    ensures now == start + (done + more)
  {
  }

  lemma Prefixed(before: seq<Byte>, after: seq<Byte>, from: nat, at: nat, got: seq<Byte>)
    requires from <= at <= |after| && from <= |before| && after[..at] == before[..from] + got
    ensures after[..from] == before[..from] && after[from..at] == got
  {
    assert after[..from] == after[..at][..from];
    assert after[from..at] == after[..at][from..];
  }

  class Descriptor {
    var ioInProgress: bool

    constructor () { ioInProgress := false; }
  }

  function Min(a: nat, b: nat): (m: nat)
    ensures m <= a && m <= b && (m == a || m == b)
  {
    if a < b then a else b
  }

  // What can go wrong outside: a driver call, a timer, the board's role, a copy from or to the user.
  datatype Luck = Fine | DriverError | Late | NotInCharge | CopyFault

  class Board {
    const buffer: array<Byte>
    const world: nat -> Luck           // how the k-th thing done outside turns out
    var tick: nat                      // how many have been done
    var master: bool
    var atn: bool                      // the board is the active controller and holds ATN
    ghost var readLog: seq<DriverRead>   // every call of the driver's read function
    ghost var wire: seq<Tagged>        // data bytes the driver has put on the bus
    ghost var commands: seq<Byte>      // command bytes the driver has put on the bus
    ghost var commandCalls: nat

    // A driver call, a timer or the role went wrong, of the things from..upto done outside.
    ghost predicate Failed(from: nat, upto: nat) {
      exists k :: from <= k < upto && world(k) in {DriverError, Late, NotInCharge}
    }

    // What went wrong in a part of a call went wrong in the call.
    lemma Widened(from: nat, start: nat, end: nat, upto: nat)
      requires from <= start && end <= upto
      ensures Failed(start, end) ==> Failed(from, upto)
    {
    }

    constructor (length: nat, world: nat -> Luck)
      requires length > 0
      ensures fresh(buffer) && buffer.Length == length && this.world == world
      ensures readLog == [] && wire == [] && commands == [] && commandCalls == 0
    {
      buffer := new Byte[length](_ => 0);
      this.world, tick := world, 0;
      master, atn := false, false;
      readLog, wire, commands, commandCalls := [], [], [], 0;
    }

    // ---- the driver: anything its contract allows ----

    // An error of the driver's choice if it fails this time.
    method OwnError(any: int) returns (ret: int)
      modifies this`tick
      ensures tick == old(tick) + 1 && ret <= 0 && (ret < 0 <==> world(old(tick)) == DriverError)
    {
      ret := if world(tick) != DriverError then 0 else if any < 0 then any else -EIO;
      tick := tick + 1;
    }

    method InterfaceRead(start: nat, length: nat)
      returns (ret: int, end: bool, moved: nat, ghost call: DriverRead)
      requires 0 < length && start + length <= buffer.Length && (master ==> !atn)
      modifies buffer, this`readLog, this`tick
      ensures tick == old(tick) + 1 && (ret < 0 <==> world(old(tick)) == DriverError)
      ensures ret <= 0 && moved <= length && (ret == 0 ==> moved > 0)
      ensures buffer[..start] == old(buffer[..start])
      ensures buffer[..start + moved] == old(buffer[..start]) + call.bytes
      ensures readLog == old(readLog) + [call] && call.end == end && call.ret == ret
    {
      var arriving: seq<Byte> := *;
      moved, end, ret := *, *, *;
      if moved > length || moved == 0 {
        moved := 1;
      }
      if |arriving| < moved {
        arriving := seq(moved, _ => 0);
      }
      ret := OwnError(ret);
      var i := 0;
      while i < moved
        invariant i <= moved && readLog == old(readLog) && tick == old(tick) + 1
        invariant buffer[..start] == old(buffer[..start])
      {
        buffer[start + i] := arriving[i];
        i := i + 1;
      }
      call := DriverRead(buffer[start..start + moved], end, ret);
      readLog := readLog + [call];
    }

    method InterfaceWrite(length: nat, sendEoi: bool) returns (ret: int, moved: nat)
      requires 0 < length <= buffer.Length && (master ==> !atn)
      modifies this`wire, this`tick
      ensures tick == old(tick) + 1 && (ret < 0 <==> world(old(tick)) == DriverError)
      ensures ret <= 0 && moved <= length && (ret == 0 ==> moved > 0)
      ensures wire == old(wire) + Tag(buffer[..moved], sendEoi && moved == length)
    {
      moved, ret := *, *;
      if moved > length || moved == 0 {
        moved := length;
      }
      ret := OwnError(ret);
      wire := wire + Tag(buffer[..moved], sendEoi && moved == length);
    }

    method InterfaceCommand(length: nat) returns (ret: int, moved: nat)
      requires length <= buffer.Length && atn
      modifies this`commands, this`commandCalls, this`tick
      ensures tick == old(tick) + 1 && (ret < 0 <==> world(old(tick)) == DriverError)
      ensures ret <= 0 && moved <= length && (ret == 0 && length > 0 ==> moved > 0)
      ensures commands == old(commands) + buffer[..moved]
      ensures commandCalls == old(commandCalls) + 1
    {
      moved, ret := *, *;
      if moved > length || moved == 0 {
        moved := length;
      }
      ret := OwnError(ret);
      commands := commands + buffer[..moved];
      commandCalls := commandCalls + 1;
    }

    // ibgts: a board that is in charge lets go of ATN, or reports an error.
    method Ibgts() returns (ret: int)
      modifies this`tick, this`atn
      ensures tick == old(tick) + 1 && ret <= 0 && (ret < 0 <==> world(old(tick)) == DriverError)
      ensures ret == 0 ==> !atn
    {
      ret := *;
      ret := OwnError(ret);
      if ret == 0 {
        atn := false;
      }
    }

    // ibcac: it takes ATN, or reports an error.
    method Ibcac() returns (ret: int)
      modifies this`tick, this`atn
      ensures tick == old(tick) + 1 && ret <= 0 && (ret < 0 <==> world(old(tick)) == DriverError)
      ensures ret == 0 ==> atn
    {
      ret := *;
      ret := OwnError(ret);
      if ret == 0 {
        atn := true;
      }
    }

    method CheckForCommandAcceptors() returns (ret: int)
      modifies this`tick
      ensures tick == old(tick) + 1 && ret <= 0 && (ret < 0 <==> world(old(tick)) == DriverError)
    {
      ret := *;
      ret := OwnError(ret);
    }

    // A timer that has run out, a role that is not the board's, a copy that faults.
    method Unlucky(luck: Luck) returns (b: bool)
      modifies this`tick
      ensures tick == old(tick) + 1 && b == (world(old(tick)) == luck)
    {
      b := world(tick) == luck;
      tick := tick + 1;
    }

    method CopyToUser(user: array<Byte>, at: nat, n: nat) returns (fault: bool)
      requires n <= buffer.Length && at + n <= user.Length && user != buffer
      modifies user, this`tick
      ensures tick == old(tick) + 1 && fault == (world(old(tick)) == CopyFault)
      ensures user[..][..at] == old(user[..])[..at] && user[..][at + n..] == old(user[..])[at + n..]
      ensures !fault ==> user[at..at + n] == buffer[..n]
    {
      fault := Unlucky(CopyFault);
      var copied: nat := *;
      copied := if fault then Min(copied, n) else n;
      var i := 0;
      while i < copied
        invariant i <= copied <= n && tick == old(tick) + 1
        invariant user[..at] == old(user[..at]) && user[at + n..] == old(user[at + n..])
        invariant user[at..at + i] == buffer[..i]
      {
        user[at + i] := buffer[i];
        i := i + 1;
      }
    }

    method CopyFromUser(user: array<Byte>, at: nat, n: nat) returns (fault: bool)
      requires n <= buffer.Length && at + n <= user.Length && user != buffer
      modifies buffer, this`tick
      ensures tick == old(tick) + 1 && fault == (world(old(tick)) == CopyFault)
      ensures !fault ==> buffer[..][..n] == user[..][at..at + n]
    {
      fault := Unlucky(CopyFault);
      var copied: nat := *;
      copied := if fault then Min(copied, n) else n;
      var i := 0;
      while i < copied
        invariant i <= copied <= n && tick == old(tick) + 1
        invariant buffer[..i] == user[at..at + i]
      {
        buffer[i] := user[at + i];
        i := i + 1;
      }
    }

    // ---- one buffer load ----

    method Ibrd(length: nat) returns (ret: int, end: bool, nbytes: nat, ghost log: seq<DriverRead>)
      requires length <= buffer.Length
      modifies buffer, this`readLog, this`tick, this`atn
      ensures master && length > 0 && world(old(tick)) == DriverError ==> ret < 0 && log == []
      ensures tick >= old(tick) && (ret < 0 ==> Failed(old(tick), tick))
      ensures readLog == old(readLog) + log && StopsInTime(log)
      ensures nbytes <= length && buffer[..nbytes] == Joined(log)
      ensures end == SawEnd(log)
      ensures ret == 0 ==> (nbytes == length || end) && (log == [] <==> length == 0)
      ensures ret <= 0 && (ret < 0 && log != [] ==> log[|log| - 1].ret < 0)
      ensures ret == 0 ==> NoneFailed(log)
      ensures ret < 0 ==> nbytes < length || length == 0
      ensures ret == 0 && length > 0 ==> nbytes > 0
      ensures if master then log != [] ==> !atn else atn == old(atn)
    {
      nbytes, end, ret, log := 0, false, 0, [];
      assert Joined([]) == [] && StopsInTime([]) && !SawEnd([]) && NoneFailed([]);
      if length == 0 {
        return;
      }
      if master {
        ret := Ibgts();
        if ret < 0 {
          return;
        }
      }
      var moved;
      hide Joined, StopsInTime, SawEnd, NoneFailed;
      while true
        invariant nbytes < length && !end && ret == 0 && tick >= old(tick)
        invariant if master then !atn && world(old(tick)) != DriverError else atn == old(atn)
        invariant readLog == old(readLog) + log && buffer[..nbytes] == Joined(log)
        invariant NoneFailed(log) && StopsInTime(log) && !SawEnd(log)
        decreases length - nbytes
      {
        ghost var call;
        ret, end, moved, call := InterfaceRead(nbytes, length - nbytes);
        OneCall(call);
        LogGoesOn(log, [call]);
        log := log + [call];
        if ret < 0 {
          break;
        }
        nbytes := nbytes + moved;
        if !(nbytes < length && !end) {
          break;
        }
      }
    }

    method Ibwrt(length: nat, sendEoi: bool) returns (ret: int, moved: nat)
      requires length <= buffer.Length
      modifies this`wire, this`tick, this`atn
      ensures tick >= old(tick) && (ret < 0 ==> Failed(old(tick), tick))
      // ibgts if the board is in charge, the driver's call, and the timer, have to go well
      ensures var t := old(tick) + if master then 1 else 0;
        length > 0 ==>
          (ret == 0 <==> (master ==> world(old(tick)) != DriverError)
                         && world(t) != DriverError && world(t + 1) != Late)
      ensures ret <= 0 && moved <= length && (ret == 0 && length > 0 ==> moved > 0)
      ensures wire == old(wire) + Tag(buffer[..moved], sendEoi && moved == length)
      ensures if master then ret == 0 && length > 0 ==> !atn else atn == old(atn)
    {
      moved := 0;
      if length == 0 {
        return 0, 0;
      }
      if master {
        ret := Ibgts();
        if ret < 0 {
          return;
        }
      }
      ret, moved := InterfaceWrite(length, sendEoi);
      var timedOut := Unlucky(Late);
      if timedOut {
        ret := -ETIMEDOUT;
      }
    }

    method Ibcmd(length: nat) returns (ret: int, moved: nat)
      requires length <= buffer.Length
      modifies this`commands, this`commandCalls, this`tick, this`atn
      ensures tick >= old(tick) && (ret < 0 ==> Failed(old(tick), tick))
      // the role, ibcac, the acceptor check, the driver's call and the timer have to go well
      ensures var t := old(tick);
        ret == 0 <==> world(t) != NotInCharge && world(t + 1) != DriverError && world(t + 2) != DriverError
                      && world(t + 3) != DriverError && world(t + 4) != Late
      ensures ret <= 0 && moved <= length && (ret == 0 && length > 0 ==> moved > 0)
      ensures commands == old(commands) + buffer[..moved]
      ensures commandCalls >= old(commandCalls) && (ret == 0 ==> commandCalls > old(commandCalls))
    {
      moved := 0;
      var notInCharge := Unlucky(NotInCharge);
      if notInCharge {
        return -EINVAL, 0;
      }
      ret := Ibcac();
      if ret == 0 {
        ret := CheckForCommandAcceptors();
        if ret == 0 {
          ret, moved := InterfaceCommand(length);
        }
      }
      var timedOut := Unlucky(Late);
      if timedOut {
        ret := -ETIMEDOUT;
      }
    }

    // ---- the ioctls ----

    // What the checks of a transfer's arguments come to: 0, or the error.
    function ArgumentError(desc: Descriptor?, user: array<Byte>, requested: nat, completed: nat): int {
      if completed > requested || desc == null then -EINVAL
      else if requested > user.Length then -EFAULT
      else 0
    }

    // The arguments are copied from the user, which can fault, and checked.
    method CheckArguments(desc: Descriptor?, user: array<Byte>, requested: nat, completed: nat)
      returns (ret: int, fault: bool)
      modifies this`tick
      ensures tick == old(tick) + 1 && fault == (world(old(tick)) == CopyFault)
      ensures ret == if fault then -EFAULT else ArgumentError(desc, user, requested, completed)
    {
      fault := Unlucky(CopyFault);
      if fault {
        ret := -EFAULT;
      } else if completed > requested || desc == null {
        ret := -EINVAL;
      } else {
        ret := if requested > user.Length then -EFAULT else 0;
      }
    }

    // One buffer load of at most n bytes, put into the user's buffer.
    method ReadLoad(user: array<Byte>, at: nat, n: nat)
      returns (ret: int, end: bool, nbytes: nat, fault: bool, ghost log: seq<DriverRead>)
      requires 0 < n <= buffer.Length && at + n <= user.Length && user != buffer
      modifies buffer, this`readLog, this`tick, this`atn, user
      ensures tick >= old(tick) && (fault ==> tick > old(tick) && world(tick - 1) == CopyFault)
      ensures ret < 0 ==> Failed(old(tick), tick)
      ensures readLog == old(readLog) + log && StopsInTime(log) && end == SawEnd(log)
      ensures nbytes == |Joined(log)| <= n && (nbytes == n ==> NoneFailed(log))
      ensures ret <= 0 && (ret == 0 ==> NoneFailed(log) && nbytes > 0 && (nbytes == n || end))
      ensures user[..][..at] == old(user[..])[..at] && user[..][at + n..] == old(user[..])[at + n..]
      ensures if fault then nbytes > 0 else user[..][..at + nbytes] == old(user[..])[..at] + Joined(log)
    {
      hide StopsInTime, SawEnd, NoneFailed, Failed;
      fault := false;
      ghost var before := user[..];
      ret, end, nbytes, log := Ibrd(n);
      if nbytes > 0 {
        ghost var start := tick;
        fault := CopyToUser(user, at, nbytes);
        Widened(old(tick), old(tick), start, tick);
        LoadLands(before, user[..], at, at, nbytes, at + n);
        assert !fault ==> user[..][..at + nbytes] == user[..][..at] + user[..][at..at + nbytes];
      } else {
        assert user[..][..at + 0] == before[..at] + [];
      }
    }

    // The loop of read_ioctl; `done` is what has arrived in the user's buffer.
    method ReadLoop(user: array<Byte>, requested: nat, completed: nat)
      returns (ret: int, count: nat, end: bool, fault: bool, ghost log: seq<DriverRead>, ghost done: seq<Byte>)
      requires buffer.Length > 0 && user != buffer && completed <= requested <= user.Length
      modifies buffer, this`readLog, this`tick, this`atn, user
      ensures tick >= old(tick) && (fault ==> tick > old(tick) && world(tick - 1) == CopyFault)
      ensures ret < 0 ==> Failed(old(tick), tick)
      ensures readLog == old(readLog) + log && StopsInTime(log) && end == SawEnd(log)
      ensures completed <= count <= requested
      ensures user[..][..count] == old(user[..])[..completed] + done
      ensures user[..][requested..] == old(user[..])[requested..]
      ensures if fault then done <= Joined(log) else done == Joined(log)
      ensures !fault && ret == 0 ==> count == requested || end
      ensures ret <= 0 && (count == requested ==> NoneFailed(log))
    {
      ret, end, fault, log, done := 0, false, false, [], [];
      assert Joined([]) == [] && StopsInTime([]) && !SawEnd([]) && NoneFailed([]);
      hide Joined, StopsInTime, SawEnd, NoneFailed, Failed, Min;
      var remain: nat := requested - completed;
      count := completed;
      var nbytes;
      ghost var before := user[..];
      while remain > 0 && !end
        invariant completed <= count == requested - remain
        invariant !fault && ret == 0 && tick >= old(tick)
        invariant readLog == old(readLog) + log
        invariant end == SawEnd(log) && StopsInTime(log) && NoneFailed(log)
        invariant done == Joined(log) && user[..][..count] == before[..completed] + done
        invariant user[..][requested..] == before[requested..]
        decreases remain
      {
        ghost var sofar, more, start := user[..], [], tick;
        var n := Min(buffer.Length, remain);
        ret, end, nbytes, fault, more := ReadLoad(user, count, n);
        LogGoesOn(log, more);
        Beyond(sofar, user[..], count + n, requested);
        Widened(old(tick), start, tick, tick);
        log := log + more;
        if fault {
          return;
        }
        Chained(before[..completed], done, Joined(more), sofar[..count], user[..][..count + nbytes]);
        done := done + Joined(more);
        remain := remain - nbytes;
        count := count + nbytes;
        if ret < 0 {
          break;
        }
      }
    }

    method ReadLoads(desc: Descriptor, user: array<Byte>, requested: nat, completed: nat)
      returns (ret: int, count: nat, end: bool, fault: bool, ghost log: seq<DriverRead>)
      requires desc.ioInProgress  // and so it stays
      requires buffer.Length > 0 && user != buffer && completed <= requested <= user.Length
      modifies buffer, this`readLog, this`tick, this`atn, user
      ensures tick >= old(tick) && (fault ==> tick > old(tick) && world(tick - 1) == CopyFault)
      ensures ret < 0 ==> Failed(old(tick), tick)
      ensures readLog == old(readLog) + log && StopsInTime(log) && end == SawEnd(log)
      ensures completed <= count <= requested
      ensures user[..completed] == old(user[..completed]) && user[requested..] == old(user[requested..])
      ensures user[completed..count] <= Joined(log)
      ensures !fault ==> user[completed..count] == Joined(log)
      ensures !fault && ret == 0 ==> count == requested || end
      ensures ret <= 0 && (count == requested ==> NoneFailed(log))
    {
      hide *;
      ghost var done;
      ret, count, end, fault, log, done := ReadLoop(user, requested, completed);
      Prefixed(old(user[..]), user[..], completed, count, done);
      assert user[completed..count] == user[..][completed..count];
      assert user[..completed] == user[..][..completed] && user[requested..] == user[..][requested..];
    }

    /** The user's buffer gains, in order, exactly the bytes of the driver reads that did not
        fail; `fault` says that copying to the user failed somewhere. */
    method ReadIoctl(desc: Descriptor?, user: array<Byte>, requested: nat, completed: nat)
      returns (ret: int, count: nat, end: bool,
               ghost log: seq<DriverRead>, ghost began: bool, ghost fault: bool)
      requires buffer.Length > 0 && user != buffer
      modifies buffer, this`readLog, this`tick, this`atn, user, desc
      ensures tick > old(tick) && (fault <==> world(tick - 1) == CopyFault)
      ensures began && !fault && ret < 0 ==> Failed(old(tick), tick)
      ensures readLog == old(readLog) + log && StopsInTime(log)
      ensures fault ==> ret == -EFAULT
      ensures !began ==>
        && ret < 0 && (!fault ==> ret == ArgumentError(desc, user, requested, completed))
        && log == [] && user[..] == old(user[..])
        && (desc != null ==> desc.ioInProgress == old(desc.ioInProgress))
      ensures began ==>
        && ArgumentError(desc, user, requested, completed) == 0
        && completed <= count <= requested
        && user[..completed] == old(user[..completed])
        && user[completed..count] <= Joined(log)
        && user[requested..] == old(user[requested..])
        && !desc.ioInProgress
      ensures began && !fault ==>
        && user[completed..count] == Joined(log)
        && end == SawEnd(log)
        && (ret == 0 <==> count == requested || end)
      // a success is a byte-by-byte read, unless END came with a driver error
      ensures began && !fault && ret == 0 && !end ==> NoneFailed(log)
      ensures began && !fault && ret == 0 && NoneFailed(log) ==>
        forall talker :: Pieces(log, talker) ==>
          && CompleteRead(talker, requested - completed, count - completed, end)
          && count - completed == PlainReadCount(talker, requested - completed)
          && user[completed..count] == Values(talker[..count - completed])
    {
      count, end, log, began := completed, false, [], false;
      var faulted;
      ret, faulted := CheckArguments(desc, user, requested, completed);
      fault := faulted;
      if ret < 0 {
        return;
      }
      began := true;
      desc.ioInProgress := true;
      ret, count, end, faulted, log := ReadLoads(desc, user, requested, completed);
      if count == requested || end {
        ret := 0;
      }
      if !faulted {
        faulted := Unlucky(CopyFault);
      }
      desc.ioInProgress := false;
      if faulted {
        ret := -EFAULT;
      }
      fault := faulted;
      if ret == 0 && NoneFailed(log) {
        forall talker | Pieces(log, talker)
          ensures CompleteRead(talker, requested - completed, count - completed, end)
          ensures count - completed == PlainReadCount(talker, requested - completed)
          ensures user[completed..count] == Values(talker[..count - completed])
        {
          PiecesArePlain(log, talker, requested - completed);
        }
      }
    }

    // The loop of write_ioctl.
    method WriteLoads(desc: Descriptor, user: array<Byte>, requested: nat, completed: nat, endIt: bool)
      returns (ret: int, count: nat, fault: bool)
      requires desc.ioInProgress
      requires buffer.Length > 0 && user != buffer && completed <= requested <= user.Length
      modifies buffer, this`wire, this`tick, this`atn
      ensures tick >= old(tick) && (fault ==> tick > old(tick) && world(tick - 1) == CopyFault)
      ensures ret <= 0 && (!fault && ret < 0 ==> Failed(old(tick), tick))
      ensures completed <= count <= requested
      ensures wire == old(wire) + Tag(user[completed..count], endIt && count == requested)
      ensures !fault && ret == 0 ==> count == requested
    {
      hide Tag;
      ret, count, fault := 0, completed, false;
      var remain: nat := requested - completed;
      var moved;
      TagNone(endIt);
      while remain > 0
        invariant completed <= count == requested - remain
        invariant !fault && ret == 0 && tick >= old(tick)
        invariant wire == old(wire) + Tag(user[completed..count], endIt && count == requested)
        decreases remain
      {
        var sendEoi := remain <= buffer.Length && endIt;
        var n := Min(buffer.Length, remain);
        fault := CopyFromUser(user, count, n);
        if fault {
          ret := -EFAULT;
          break;
        }
        ret, moved := Ibwrt(n, sendEoi);
        LoadSent(user[..], buffer[..], completed, count, n, moved);
        TagAppend(user[completed..count], buffer[..moved], endIt && moved == remain);
        remain := remain - moved;
        count := requested - remain;
        if ret < 0 {
          break;
        }
      }
    }

    /** The bus gains exactly the counted bytes of the user's buffer, whatever failed, and
        EOI only with the last byte of the whole request. */
    method WriteIoctl(desc: Descriptor?, user: array<Byte>, requested: nat, completed: nat, endIt: bool)
      returns (ret: int, count: nat, ghost began: bool, ghost fault: bool)
      requires buffer.Length > 0 && user != buffer
      modifies buffer, this`wire, this`tick, this`atn, desc
      ensures tick > old(tick) && (fault <==> world(tick - 1) == CopyFault)
      ensures began && !fault && ret != 0 ==> Failed(old(tick), tick)
      ensures fault ==> ret == -EFAULT
      ensures !began ==>
        && ret < 0 && (!fault ==> ret == ArgumentError(desc, user, requested, completed))
        && wire == old(wire)
        && (desc != null ==> desc.ioInProgress == old(desc.ioInProgress))
      ensures began ==>
        && ArgumentError(desc, user, requested, completed) == 0
        && completed <= count <= requested
        && wire == old(wire) + Tag(user[completed..count], endIt && count == requested)
        && (!fault ==> (ret == 0 <==> count == requested))
        && !desc.ioInProgress
    {
      hide Tag;
      count, began := completed, false;
      var faulted;
      ret, faulted := CheckArguments(desc, user, requested, completed);
      fault := faulted;
      if ret < 0 {
        return;
      }
      began := true;
      desc.ioInProgress := true;
      ret, count, faulted := WriteLoads(desc, user, requested, completed, endIt);
      if count == requested {
        ret := 0;
      }
      if !faulted {
        faulted := Unlucky(CopyFault);
      }
      desc.ioInProgress := false;
      if faulted {
        ret := -EFAULT;
      }
      fault := faulted;
    }

    /** The bus gains exactly the counted command bytes. Afterwards the descriptor still
        shows an operation in progress if and only if the caller asked for that and
        everything succeeded. */
    method CommandIoctl(desc: Descriptor?, user: array<Byte>, requested: nat, completed: nat, noClear: bool)
      returns (ret: int, count: nat, ghost began: bool, ghost fault: bool)
      requires buffer.Length > 0 && user != buffer
      modifies buffer, this`commands, this`commandCalls, this`tick, this`atn, desc
      ensures tick > old(tick) && (fault <==> world(tick - 1) == CopyFault)
      ensures began && !fault && ret != 0 ==> Failed(old(tick), tick)
      ensures fault ==> ret == -EFAULT
      ensures !began ==>
        && ret < 0 && (!fault ==> ret == ArgumentError(desc, user, requested, completed))
        && commands == old(commands)
        && (desc != null ==> desc.ioInProgress == old(desc.ioInProgress))
      ensures began ==>
        && ArgumentError(desc, user, requested, completed) == 0
        && completed <= count <= requested
        && commands == old(commands) + user[completed..count]
        && (!fault && ret == 0 ==> count == requested && commandCalls > old(commandCalls))
        && (desc.ioInProgress <==> noClear && !fault && ret == 0)
    {
      hide Failed;
      count, began := completed, false;
      var faulted;
      ret, faulted := CheckArguments(desc, user, requested, completed);
      fault := faulted;
      if ret < 0 {
        return;
      }
      began := true;
      var remain: nat := requested - completed;
      desc.ioInProgress := true;
      var moved;
      var again := true;
      while again
        invariant completed <= count == requested - remain
        invariant commands == old(commands) + user[completed..count]
        invariant again ==> !faulted && ret == 0
        invariant desc.ioInProgress <==> ret == 0
        invariant faulted ==> ret < 0 && tick > old(tick) && world(tick - 1) == CopyFault
        invariant !faulted && ret < 0 ==> Failed(old(tick), tick)
        invariant tick >= old(tick)
        invariant !again && ret == 0 ==> remain == 0 && commandCalls > old(commandCalls)
        invariant commandCalls >= old(commandCalls) && ret <= 0
        decreases again, remain
      {
        var n := Min(buffer.Length, remain);
        faulted := CopyFromUser(user, count, n);
        if faulted {
          ret, moved := -EFAULT, 0;
        } else {
          ghost var start := tick;
          ret, moved := Ibcmd(n);
          Widened(old(tick), start, tick, tick);
          LoadSent(user[..], buffer[..], completed, count, n, moved);
        }
        remain := remain - moved;
        count := requested - remain;
        if ret < 0 {
          desc.ioInProgress := false;
        }
        again := ret >= 0 && remain > 0;
      }
      if !faulted {
        faulted := Unlucky(CopyFault);
        Widened(old(tick), old(tick), tick - 1, tick);
      }
      if !noClear || faulted {
        desc.ioInProgress := false;
      }
      if faulted {
        ret := -EFAULT;
      }
      fault := faulted;
    }
  }
}
