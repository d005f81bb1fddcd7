/** Accelerated transfers of the cb7210 driver (cb7210.c): a FIFO of 2048 bytes, read and
    written in 16-bit words, between the computer and the bus. The hardware moves bytes
    whenever it likes; the driver's loops have to agree with moving them one by one. */
module Cb7210 {
  import opened PlainBus
  import opened Errno

  const FIFO_SIZE := 2048  // bytes, the half of an incomplete word included
  const FIFO_WIDTH := 2

  function WordOf(lsb: nat, msb: nat): (word: nat)
    requires lsb < 256 && msb < 256
    ensures word < 0x1_0000 && word % 256 == lsb && word / 256 == msb
  {
    lsb % 256 + msb * 256 % 0x1_0000
  }

  function Min(a: nat, b: nat): nat { if a < b then a else b }

  // What a transfer returns that was not refused.
  predicate TransferResult(ret: int) {
    ret == 0 || ret == -ERESTARTSYS || ret == -ETIMEDOUT || ret == -EINTR
  }

  /** What happens, out of the ordinary, while the driver lets the hardware run or waits for it: a
      signal, a device clear, the timer, a bus error, END, a FIFO reported full. */
  datatype Luck = Luck(signal: bool, clear: bool, late: bool, error: bool, end: bool, full: bool)

  predicate Special(luck: Luck) {
    luck.signal || luck.clear || luck.late || luck.error || luck.end || luck.full
  }

  // Something of the kind happened at one of the places from..upto.
  ghost predicate Trouble(world: nat -> Luck, from: nat, upto: nat) {
    exists k :: from <= k < upto && Special(world(k))
  }

  lemma Widened(world: nat -> Luck, from: nat, start: nat, end: nat, upto: nat)
    requires from <= start && end <= upto
    ensures Trouble(world, start, end) ==> Trouble(world, from, upto)
  {
  }

  lemma TroubleAt(world: nat -> Luck, k: nat)
    ensures Special(world(k)) ==> Trouble(world, k, k + 1)
  {
  }

  // ---- reading ----

  /** The receiving half of the chip. A byte from the bus arrives in the data-in register,
      and stays there until the driver reads it or, while `dmai` is on, the FIFO takes it. */
  class Receiver {
    const hasPort: bool
    const world: nat -> Luck     // at the k-th place of the kind
    var tick: nat
    var fifo: seq<Byte>
    var held: seq<Byte>          // the data-in register
    var fifoOn: bool
    var dmai: bool
    var halfFull: bool           // in_fifo_half_full
    var readReady: bool          // READ_READY_BN
    var receivedEnd: bool
    var devClear: bool
    var timedOut: bool
    ghost var arrived: seq<Byte> // every byte ever accepted from the bus
    ghost var out: seq<Byte>     // those that have left the chip

    // Bytes leave the chip in the order in which they arrived.
    ghost predicate InOrder() reads this`fifo, this`held, this`arrived, this`out {
      arrived == out + fifo + held
    }

    ghost predicate Valid() reads this {
      && InOrder()
      && |fifo| <= FIFO_SIZE && |held| <= 1
      && (readReady ==> held != [] || fifoOn)
      && (!fifoOn ==> fifo == [])
      && (dmai ==> fifoOn)
    }

    // A flag that ends a wait early is up.
    predicate Flagged() reads this`receivedEnd, this`devClear, this`timedOut {
      receivedEnd || devClear || timedOut
    }

    constructor (hasPort: bool, world: nat -> Luck)
      ensures Valid() && !fifoOn && this.hasPort == hasPort && this.world == world
      ensures fifo == [] && held == [] && arrived == [] && out == []
      ensures !halfFull && !readReady && !receivedEnd && !devClear && !timedOut
    {
      this.hasPort, this.world, tick := hasPort, world, 0;
      fifo, held, arrived, out := [], [], [], [];
      fifoOn, dmai, halfFull, readReady, receivedEnd, devClear, timedOut :=
        false, false, false, false, false, false, false;
    }

    method ByteArrives(b: Byte)
      requires Valid() && held == []
      modifies this`held, this`arrived
      ensures Valid() && held == [b] && arrived == old(arrived) + [b]
    {
      held, arrived := [b], arrived + [b];
    }

    method FifoTakes()
      requires Valid() && dmai && |fifo| < FIFO_SIZE
      modifies this`fifo, this`held
      ensures Valid() && held == [] && fifo == old(fifo + held)
    {
      fifo, held := fifo + held, [];
    }

    // The interrupt handler.
    method FlagRises(flag: nat, luck: Luck)
      requires Valid()
      modifies this`halfFull, this`readReady, this`receivedEnd, this`devClear, this`timedOut
      ensures Valid()
      ensures (old(readReady) ==> readReady) && (old(receivedEnd) ==> receivedEnd)
      ensures (old(devClear) ==> devClear) && (old(timedOut) ==> timedOut)
      ensures Flagged() ==> old(Flagged()) || Special(luck)
      ensures devClear ==> old(devClear) || luck.clear
      ensures if fifoOn then readReady == old(readReady) else flag > 3 && held != [] ==> readReady
      ensures (old(halfFull) ==> halfFull) && (flag == 3 && |fifo| >= FIFO_SIZE / 2 ==> halfFull)
    {
      match flag
      case 0 => receivedEnd := receivedEnd || luck.end;
      case 1 => devClear := devClear || luck.clear;
      case 2 => timedOut := timedOut || luck.late;
      case 3 => halfFull := halfFull || |fifo| >= FIFO_SIZE / 2;
      case _ => readReady := readReady || (!fifoOn && held != []);
    }

    // The bus, the chip and the interrupt handler, for as long as they please.
    method HardwareRuns()
      requires Valid()
      modifies this`fifo, this`held, this`halfFull, this`readReady, this`receivedEnd,
               this`devClear, this`timedOut, this`arrived, this`tick
      ensures Valid() && tick == old(tick) + 1
      ensures if dmai then |fifo| >= old(|fifo|) else fifo == old(fifo)
      ensures fifoOn ==> readReady == old(readReady)
      ensures (old(readReady) ==> readReady) && (old(receivedEnd) ==> receivedEnd)
      ensures (old(devClear) ==> devClear) && (old(timedOut) ==> timedOut)
      ensures old(halfFull) ==> halfFull
      ensures Flagged() ==> old(Flagged()) || Trouble(world, old(tick), tick)
      ensures devClear ==> old(devClear) || Trouble(world, old(tick), tick)
    {
      hide InOrder;
      var luck := world(tick);
      TroubleAt(world, tick);
      hide Trouble;
      tick := tick + 1;
      var steps: nat := *;
      while steps > 0
        invariant Valid() && tick == old(tick) + 1
        invariant if dmai then |fifo| >= old(|fifo|) else fifo == old(fifo)
        invariant fifoOn ==> readReady == old(readReady)
        invariant (old(readReady) ==> readReady) && (old(receivedEnd) ==> receivedEnd)
        invariant (old(devClear) ==> devClear) && (old(timedOut) ==> timedOut)
        invariant old(halfFull) ==> halfFull
        invariant Flagged() ==> old(Flagged()) || Special(luck)
        invariant devClear ==> old(devClear) || Special(luck)
      {
        var what: nat := *;
        if what == 0 {
          if held == [] {
            var b: Byte := *;
            ByteArrives(b);
          }
        } else if what == 1 {
          if dmai && |fifo| < FIFO_SIZE {
            FifoTakes();
          }
        } else {
          FlagRises(what, luck);
        }
        steps := steps - 1;
      }
    }

    // A wait for words in the FIFO: they come unless something else ends the wait.
    method AwaitWords() returns (interrupted: bool)
      requires Valid() && dmai
      modifies this`fifo, this`held, this`halfFull, this`readReady, this`receivedEnd,
               this`devClear, this`timedOut, this`arrived, this`tick
      ensures Valid() && tick == old(tick) + 1 && |fifo| >= old(|fifo|)
      ensures interrupted == !Ready() && (old(receivedEnd) ==> receivedEnd)
      ensures interrupted || Flagged() ==> old(Flagged()) || Trouble(world, old(tick), tick)
    {
      hide InOrder;
      HardwareRuns();
      TroubleAt(world, old(tick));
      hide Trouble;
      if !Ready() && !world(tick - 1).signal {
        while |fifo| < FIFO_SIZE / 2
          invariant Valid() && |fifo| >= old(|fifo|) && (old(receivedEnd) ==> receivedEnd)
          invariant tick == old(tick) + 1 && (Flagged() ==> old(Flagged()) || Trouble(world, old(tick), tick))
          decreases FIFO_SIZE - |fifo|
        {
          if held == [] {
            var b: Byte := *;
            ByteArrives(b);
          }
          TakesOne();
        }
        FlagRises(3, Luck(false, false, false, false, false, false));
      }
      interrupted := !Ready();
    }

    method TakesOne()
      requires Valid() && dmai && |fifo| < FIFO_SIZE && held != []
      modifies this`fifo, this`held
      ensures Valid() && |fifo| == old(|fifo|) + 1
    {
      FifoTakes();
    }

    // A wait for a byte in the data-in register, in the same way.
    method AwaitByte()
      requires Valid() && !fifoOn
      modifies this`fifo, this`held, this`halfFull, this`readReady, this`receivedEnd,
               this`devClear, this`timedOut, this`arrived, this`tick
      ensures Valid() && tick == old(tick) + 1 && fifo == []
      ensures !readReady || Flagged() ==> old(Flagged()) || Trouble(world, old(tick), tick)
      ensures devClear ==> old(devClear) || Trouble(world, old(tick), tick)
      ensures (old(readReady) ==> readReady) && (old(receivedEnd) ==> receivedEnd)
      ensures (old(devClear) ==> devClear) && (old(timedOut) ==> timedOut)
    {
      hide InOrder;
      HardwareRuns();
      TroubleAt(world, old(tick));
      hide Trouble;
      if !readReady && !Special(world(tick - 1)) {
        if held == [] {
          var b: Byte := *;
          ByteArrives(b);
        }
        FlagRises(4, world(tick - 1));
      }
    }

    // input_fifo_enable: what the FIFO still holds when it is switched off is gone.
    method InputFifoEnable(on: bool)
      requires Valid()
      modifies this`fifo, this`fifoOn, this`dmai, this`halfFull, this`readReady, this`out
      ensures Valid() && fifoOn == on && !dmai && fifo == [] && out == old(out + fifo)
      ensures if on then !halfFull && readReady == old(readReady)
              else !readReady && halfFull == old(halfFull)
    {
      out, fifo, fifoOn, dmai := out + fifo, [], on, false;
      if on {
        halfFull := false;
      } else {
        readReady := false;
      }
    }

    // What ends the wait of the loop without a signal.
    predicate Ready() reads this {
      (halfFull && HaveFifoWord()) || receivedEnd || devClear || timedOut
    }

    predicate HaveFifoWord() reads this { |fifo| >= FIFO_WIDTH }

    // A word read from the FIFO port; a single byte comes in its low half.
    method Inw() returns (word: nat)
      requires Valid() && fifo != []
      modifies this`fifo, this`out
      ensures Valid()
      ensures word < 0x1_0000 && word % 256 == old(fifo[0])
      ensures old(|fifo|) >= 2 ==>
        word / 256 == old(fifo[1]) && out == old(out) + old(fifo[..2]) && fifo == old(fifo[2..])
      ensures old(|fifo|) == 1 ==> out == old(out) + old(fifo) && fifo == []
    {
      if |fifo| >= 2 {
        word := WordOf(fifo[0], fifo[1]);
        out, fifo := out + fifo[..2], fifo[2..];
      } else {
        word := fifo[0];
        out, fifo := out + fifo, [];
      }
    }

    method ReadDataIn() returns (data: Byte, end: bool)
      requires Valid() && readReady && !fifoOn
      modifies this`held, this`readReady, this`receivedEnd, this`out
      ensures Valid() && !readReady && out == old(out) + [data]
      ensures end == old(receivedEnd) && !receivedEnd && (Flagged() || end ==> old(Flagged()))
    {
      data := held[0];
      out, held := out + held, [];
      end, readReady, receivedEnd := receivedEnd, false, false;
    }

    // The inner loop: all whole words of the FIFO go to the buffer.
    method Drain(buffer: array<Byte>, at: nat) returns (n: nat, ghost got: seq<Byte>)
      requires Valid() && !dmai && at + |fifo| <= buffer.Length
      modifies this`fifo, this`out, buffer
      ensures Valid() && n == old(|fifo|) - old(|fifo|) % 2 && |fifo| == old(|fifo|) % 2
      ensures n == |got| && out == old(out) + got
      ensures buffer[..at + n] == old(buffer[..at]) + got
    {
      hide InOrder;
      n, got := 0, [];
      while HaveFifoWord()
        invariant Valid() && n + |fifo| == old(|fifo|) && n % 2 == 0
        invariant n == |got| && out == old(out) + got
        invariant buffer[..at + n] == old(buffer[..at]) + got
        decreases |fifo|
      {
        ghost var before := buffer[..at + n];
        ghost var two := fifo[..2];
        var word := Inw();
        buffer[at + n] := word % 256;
        buffer[at + n + 1] := word / 256 % 256;
        assert buffer[..at + n + 2] == before + two;
        n, got := n + 2, got + two;
      }
    }

    // One turn of the loop up to the point where the FIFO has been emptied of words.
    method Turn(buffer: array<Byte>, at: nat) returns (m: nat, interrupted: bool, ghost got: seq<Byte>)
      requires Valid() && fifoOn && !dmai && |fifo| <= 1 && at + FIFO_SIZE <= buffer.Length
      modifies this`fifo, this`held, this`dmai, this`halfFull, this`readReady, this`receivedEnd,
               this`devClear, this`timedOut, this`arrived, this`out, this`tick, buffer
      ensures Valid() && !dmai
      ensures m % 2 == 0 && m + |fifo| <= FIFO_SIZE
      ensures m == |got| && out == old(out) + got
      ensures buffer[..at + m] == old(buffer[..at]) + got
      ensures if interrupted then m == 0
              else |fifo| <= 1 && !halfFull && (m > 0 || receivedEnd || devClear || timedOut)
      ensures tick >= old(tick) && (old(receivedEnd) ==> receivedEnd) && (interrupted ==> !receivedEnd)
      ensures interrupted || Flagged() ==> old(Flagged()) || Trouble(world, old(tick), tick)
    {
      hide InOrder, Trouble;
      m, got := 0, [];
      dmai := true;
      interrupted := AwaitWords();
      if !interrupted {
        HardwareRuns();
        Widened(world, old(tick), old(tick), old(tick) + 1, tick);
        Widened(world, old(tick), old(tick) + 1, tick, tick);
      }
      dmai := false;
      if !interrupted {
        m, got := Drain(buffer, at);
        halfFull := false;
      }
    }

    method FifoLoop(buffer: array<Byte>, at: nat, length: nat)
      returns (ret: int, end: bool, n: nat, ghost interrupted: bool, ghost got: seq<Byte>)
      requires Valid() && fifoOn && !dmai && fifo == []
      requires at + length <= buffer.Length && length > FIFO_SIZE
      modifies this`fifo, this`held, this`dmai, this`halfFull, this`readReady, this`receivedEnd,
               this`devClear, this`timedOut, this`arrived, this`out, this`tick, buffer
      ensures Valid() && !dmai && n + |fifo| < length
      ensures n == |got| && out == old(out) + got
      ensures buffer[..at + n] == old(buffer[..at]) + got
      ensures |fifo| <= 1 || interrupted
      ensures fifoOn && TransferResult(ret) && (interrupted ==> ret < 0)
      ensures tick >= old(tick) && !receivedEnd && (old(receivedEnd) ==> end)
      ensures ret < 0 || end || Flagged() || n + FIFO_SIZE < length ==>
        old(Flagged()) || Trouble(world, old(tick), tick)
    {
      hide InOrder, Trouble;
      n, end, ret, interrupted, got := 0, false, 0, false, [];
      ghost var turned := false;
      while n + FIFO_SIZE < length
        invariant Valid() && fifoOn && !dmai
        invariant n + |fifo| < length && |fifo| <= 1
        invariant ret == 0 && !end && !interrupted && tick >= old(tick)
        invariant if turned then !receivedEnd && !old(receivedEnd)
                  else n == 0 && receivedEnd == old(receivedEnd)
        invariant Flagged() ==> old(Flagged()) || Trouble(world, old(tick), tick)
        invariant n == |got| && out == old(out) + got
        invariant buffer[..at + n] == old(buffer[..at]) + got
        decreases length - n
      {
        ghost var more;
        var m, signal;
        turned := true;
        ghost var start := tick;
        m, signal, more := Turn(buffer, at + n);
        Widened(world, old(tick), old(tick), start, tick);
        Widened(world, old(tick), start, tick, tick);
        n, got := n + m, got + more;
        if signal {
          interrupted := true;
          ret := -ERESTARTSYS;
          break;
        }
        var hsFull := world(tick).full;
        TroubleAt(world, tick);
        tick := tick + 1;
        Widened(world, old(tick), old(tick), tick - 1, tick);
        Widened(world, old(tick), tick - 1, tick, tick);
        if receivedEnd {
          receivedEnd, end := false, true;
          break;
        }
        if hsFull {
          break;
        }
        if timedOut {
          ret := -ETIMEDOUT;
          break;
        }
        if devClear {
          ret := -EINTR;
          break;
        }
      }
    }

    // A byte that never became a word; after an interrupted wait there may be words left.
    method OddByte(buffer: array<Byte>, at: nat) returns (n: nat)
      requires Valid() && at < buffer.Length
      modifies this`fifo, this`out, buffer
      ensures Valid() && n == Min(1, old(|fifo|)) && out + fifo == old(out + fifo)
      ensures buffer[..at + n] == old(buffer[..at]) + old(fifo)[..n]
    {
      n := 0;
      if fifo != [] {
        var word := Inw();
        buffer[at] := word % 256;
        n := 1;
      }
    }

    // fifo_read up to the point where the FIFO is switched off.
    method FifoPart(buffer: array<Byte>, at: nat, length: nat)
      returns (ret: int, end: bool, n: nat,
               ghost interrupted: bool, ghost taken: seq<Byte>, ghost left: seq<Byte>)
      requires Valid() && !fifoOn && at + length <= buffer.Length && length > FIFO_SIZE
      modifies this`fifo, this`held, this`fifoOn, this`dmai, this`halfFull, this`readReady,
               this`receivedEnd, this`devClear, this`timedOut, this`arrived, this`out, this`tick, buffer
      ensures Valid() && n < length && n == |taken| + Min(1, |left|)
      ensures buffer[..at + n] == old(buffer[..at]) + taken + left[..Min(1, |left|)]
      ensures out + fifo == old(out) + taken + left
      ensures TransferResult(ret) && (interrupted ==> ret < 0) && (|left| > 1 ==> interrupted)
      ensures tick >= old(tick) && !receivedEnd && (old(receivedEnd) ==> end)
      ensures ret < 0 || end || Flagged() || n + FIFO_SIZE < length ==>
        old(Flagged()) || Trouble(world, old(tick), tick)
    {
      hide InOrder, Trouble;
      InputFifoEnable(true);
      ret, end, n, interrupted, taken := FifoLoop(buffer, at, length);
      left := fifo;
      var odd := OddByte(buffer, at + n);
      n := n + odd;
    }

    /** Never stores more than `length` bytes. What it stores is what its loop took out of the
        FIFO, the first byte of what was left there when the loop ended, and a last byte, in
        the order of their arrival. Two or more bytes can only be left after an interrupted
        wait, and then all of them but the first are dropped. The guard on the length does
        not fire when the length exceeds the FIFO. */
    method FifoRead(buffer: array<Byte>, at: nat, length: nat)
      returns (ret: int, end: bool, n: nat, ghost interrupted: bool,
               ghost taken: seq<Byte>, ghost left: seq<Byte>, ghost last: seq<Byte>)
      requires Valid() && !fifoOn && at + length <= buffer.Length
      modifies this`fifo, this`held, this`fifoOn, this`dmai, this`halfFull, this`readReady,
               this`receivedEnd, this`devClear, this`timedOut, this`arrived, this`out, this`tick, buffer
      ensures Valid() && !fifoOn && n <= length && n == |taken| + Min(1, |left|) + |last|
      ensures buffer[..at + n] == old(buffer[..at]) + taken + left[..Min(1, |left|)] + last
      ensures out == old(out) + taken + left + last
      ensures (|left| > 1 ==> interrupted) && (interrupted ==> ret < 0)
      ensures hasPort && length > FIFO_SIZE ==>
        TransferResult(ret) && (devClear ==> ret == -EINTR) && (timedOut && !devClear ==> ret == -ETIMEDOUT)
      ensures tick >= old(tick)
      ensures hasPort && length > FIFO_SIZE && (ret < 0 || end || Flagged() || n + FIFO_SIZE < length) ==>
        old(Flagged()) || Trouble(world, old(tick), tick)
      ensures !(hasPort && length > FIFO_SIZE) ==> n == 0 && ret == if hasPort then -EINVAL else -EIO
    {
      hide InOrder, Trouble;
      n, end, taken, left, last, interrupted := 0, false, [], [], [], false;
      if !hasPort {
        ret := -EIO;
        return;
      }
      if length <= FIFO_SIZE {
        ret := -EINVAL;
        return;
      }
      ret, end, n, interrupted, taken, left := FifoPart(buffer, at, length);
      var moved;
      ghost var start := tick;
      ret, end, moved, last := LastPart(buffer, at + n, ret, end);
      n := n + moved;
      Widened(world, old(tick), old(tick), start, tick);
      Widened(world, old(tick), start, tick, tick);
    }

    // The FIFO is switched off, and the data-in register read.
    method LastPart(buffer: array<Byte>, at: nat, ret0: int, end0: bool)
      returns (ret: int, end: bool, n: nat, ghost got: seq<Byte>)
      requires Valid() && at < buffer.Length
      modifies this`fifo, this`held, this`fifoOn, this`dmai, this`halfFull, this`readReady,
               this`receivedEnd, this`devClear, this`timedOut, this`arrived, this`out, this`tick, buffer
      ensures Valid() && !fifoOn && n == |got| <= 1
      ensures out == old(out + fifo) + got && buffer[..at + n] == old(buffer[..at]) + got
      ensures ret == ret0 || (TransferResult(ret) && ret < 0)
      ensures ret == if devClear then -EINTR else if timedOut then -ETIMEDOUT
                     else if n == 0 && !receivedEnd then -ERESTARTSYS else ret0
      ensures tick >= old(tick)
      ensures ret != ret0 || (end && !end0) || Flagged() ==> old(Flagged()) || Trouble(world, old(tick), tick)
    {
      hide InOrder, Trouble;
      InputFifoEnable(false);
      ret, end, n, got := LastByte(buffer, at, ret0, end0);
    }

    // The FIFO is off: a byte may wait in the data-in register.
    method LastByte(buffer: array<Byte>, at: nat, ret0: int, end0: bool)
      returns (ret: int, end: bool, n: nat, ghost got: seq<Byte>)
      requires Valid() && !fifoOn && !dmai && at < buffer.Length
      modifies this`fifo, this`held, this`halfFull, this`readReady, this`receivedEnd,
               this`devClear, this`timedOut, this`arrived, this`out, this`tick, buffer
      ensures Valid() && n == |got| <= 1
      ensures out == old(out) + got && buffer[..at + n] == old(buffer[..at]) + got
      ensures ret == ret0 || (TransferResult(ret) && ret < 0)
      ensures ret == if devClear then -EINTR else if timedOut then -ETIMEDOUT
                     else if n == 0 && !receivedEnd then -ERESTARTSYS else ret0
      ensures tick >= old(tick)
      ensures ret != ret0 || (end && !end0) || Flagged() ==> old(Flagged()) || Trouble(world, old(tick), tick)
    {
      hide InOrder, Trouble;
      ret, end, n, got := ret0, end0, 0, [];
      AwaitByte();
      if !(readReady || receivedEnd || devClear || timedOut) {
        ret := -ERESTARTSYS;
      }
      if timedOut {
        ret := -ETIMEDOUT;
      }
      if devClear {
        ret := -EINTR;
      }
      if readReady {
        var data;
        data, end := ReadDataIn();
        buffer[at] := data;
        n, got := 1, [data];
      }
    }

    // pio_read behind cb7210_read: byte by byte through the data-in register.
    method PlainRead(buffer: array<Byte>, at: nat, length: nat)
      returns (ret: int, end: bool, n: nat, ghost got: seq<Byte>)
      requires Valid() && !fifoOn && at + length <= buffer.Length
      modifies this`fifo, this`held, this`halfFull, this`readReady, this`receivedEnd,
               this`devClear, this`timedOut, this`arrived, this`out, this`tick, buffer
      ensures Valid() && n == |got| <= length
      ensures out == old(out) + got && buffer[..at + n] == old(buffer[..at]) + got
      ensures TransferResult(ret) && (ret == 0 ==> n == length || end)
      ensures ret == 0 && length > 0 ==> n > 0
      ensures tick >= old(tick) && (ret == -EINTR ==> Trouble(world, old(tick), tick))
      ensures ret < 0 || end || Flagged() ==> old(Flagged()) || Trouble(world, old(tick), tick)
    {
      hide InOrder, Trouble;
      ret, end, n, got := 0, false, 0, [];
      if length == 0 {
        return;
      }
      devClear := false;
      while n < length
        invariant Valid() && !fifoOn && !dmai && n == |got| <= length
        invariant out == old(out) + got && buffer[..at + n] == old(buffer[..at]) + got
        invariant ret == 0 && !end && tick >= old(tick)
        invariant Flagged() ==> old(Flagged()) || Trouble(world, old(tick), tick)
        invariant devClear ==> Trouble(world, old(tick), tick)
        decreases length - n
      {
        ghost var start := tick;
        AwaitByte();
        Widened(world, old(tick), old(tick), start, tick);
        Widened(world, old(tick), start, tick, tick);
        if !(readReady || devClear || timedOut) {
          ret := -ERESTARTSYS;
          break;
        }
        if readReady {
          var data;
          data, end := ReadDataIn();
          buffer[at + n] := data;
          n, got := n + 1, got + [data];
          if end {
            break;
          }
        }
        if timedOut {
          ret := -ETIMEDOUT;
          break;
        }
        if devClear {
          ret := -EINTR;
          break;
        }
      }
    }

    // The first byte, read before the FIFO is switched on.
    method FirstByte(buffer: array<Byte>, at: nat)
      returns (ret: int, end: bool, n: nat, ghost got: seq<Byte>)
      requires Valid() && !fifoOn && at < buffer.Length
      modifies this`fifo, this`held, this`halfFull, this`readReady, this`receivedEnd,
               this`devClear, this`timedOut, this`arrived, this`out, this`tick, buffer
      ensures Valid() && n == |got| && (ret == 0 <==> n == 1) && n <= 1
      ensures out == old(out) + got && buffer[..at + n] == old(buffer[..at]) + got
      ensures TransferResult(ret) && tick >= old(tick)
      ensures ret < 0 || end || Flagged() ==> old(Flagged()) || Trouble(world, old(tick), tick)
    {
      hide InOrder, Trouble;
      ret, end, n, got := 0, false, 0, [];
      AwaitByte();
      if !(readReady || devClear || timedOut) {
        ret := -ERESTARTSYS;
      } else if timedOut {
        ret := -ETIMEDOUT;
      } else if devClear {
        ret := -EINTR;
      } else {
        var data;
        data, end := ReadDataIn();
        buffer[at] := data;
        n, got := 1, [data];
      }
    }

    /** cb7210_accel_read, for any length: at most `length` bytes are stored, a call that does
        not fail stores at least one, and the length the FIFO loop is given never trips its
        guard. What is stored is, in order of arrival, `head`, the first byte of `left` and
        `last`; so it is all that left the chip, without a gap, if and only if `left` has no
        second byte, which it can only have in a call that fails. */
    method AccelRead(buffer: array<Byte>, at: nat, length: nat, endOnEos: bool)
      returns (ret: int, end: bool, n: nat,
               ghost head: seq<Byte>, ghost left: seq<Byte>, ghost last: seq<Byte>)
      requires Valid() && !fifoOn && 0 < length && at + length <= buffer.Length
      modifies this`fifo, this`held, this`fifoOn, this`dmai, this`halfFull, this`readReady,
               this`receivedEnd, this`devClear, this`timedOut, this`arrived, this`out, this`tick, buffer
      ensures Valid() && !fifoOn && n <= length && n == |head| + Min(1, |left|) + |last|
      ensures buffer[..at + n] == old(buffer[..at]) + head + left[..Min(1, |left|)] + last
      ensures out == old(out) + head + left + last
      ensures |left| > 1 ==> ret < 0
      ensures out == old(out) + buffer[..][at..at + n] <==> |left| <= 1
      ensures (ret == 0 ==> n > 0) && (TransferResult(ret) || (!hasPort && ret == -EIO))
      ensures length < FIFO_SIZE + 3 && ret == 0 ==> n == length || end
      ensures !old(Flagged()) && !Trouble(world, old(tick), tick) && (hasPort || length < FIFO_SIZE + 3) ==>
        ret == 0 && !end && n + FIFO_SIZE >= length
    {
      ret, end, n, head, left, last := AccelParts(buffer, at, length, endOnEos);
      GapFree(old(out), old(buffer[..at]), buffer[..at + n], head, left, last);
      assert buffer[..][at..at + n] == buffer[..at + n][at..];
    }

    method AccelParts(buffer: array<Byte>, at: nat, length: nat, endOnEos: bool)
      returns (ret: int, end: bool, n: nat,
               ghost head: seq<Byte>, ghost left: seq<Byte>, ghost last: seq<Byte>)
      requires Valid() && !fifoOn && 0 < length && at + length <= buffer.Length
      modifies this`fifo, this`held, this`fifoOn, this`dmai, this`halfFull, this`readReady,
               this`receivedEnd, this`devClear, this`timedOut, this`arrived, this`out, this`tick, buffer
      ensures Valid() && !fifoOn && n <= length && n == |head| + Min(1, |left|) + |last|
      ensures buffer[..at + n] == old(buffer[..at]) + head + left[..Min(1, |left|)] + last
      ensures out == old(out) + head + left + last
      ensures |left| > 1 ==> ret < 0
      ensures (ret == 0 ==> n > 0) && (TransferResult(ret) || (!hasPort && ret == -EIO))
      ensures length < FIFO_SIZE + 3 && ret == 0 ==> n == length || end
      ensures tick >= old(tick)
      ensures ret < 0 || end || n + FIFO_SIZE < length ==>
        old(Flagged()) || Trouble(world, old(tick), tick) || (!hasPort && length >= FIFO_SIZE + 3)
    {
      hide InOrder, Trouble;
      head, left, last := [], [], [];
      if length < FIFO_SIZE + 3 || endOnEos {
        ret, end, n, head := PlainRead(buffer, at, length);
        return;
      }
      ret, end, n, head := FirstByte(buffer, at);
      if ret < 0 || end {
        return;
      }
      ghost var more;
      var m;
      ghost var start := tick;
      ret, end, m, more, left, last := FifoAndOne(buffer, at + n, length - n);
      Widened(world, old(tick), old(tick), start, tick);
      Widened(world, old(tick), start, tick, tick);
      n, head := n + m, head + more;
    }

    // The FIFO, then one byte more if END has not come.
    method FifoAndOne(buffer: array<Byte>, at: nat, length: nat)
      returns (ret: int, end: bool, n: nat,
               ghost taken: seq<Byte>, ghost left: seq<Byte>, ghost last: seq<Byte>)
      requires Valid() && !fifoOn && FIFO_SIZE + 1 < length && at + length <= buffer.Length
      modifies this`fifo, this`held, this`fifoOn, this`dmai, this`halfFull, this`readReady,
               this`receivedEnd, this`devClear, this`timedOut, this`arrived, this`out, this`tick, buffer
      ensures Valid() && !fifoOn && n <= length && n == |taken| + Min(1, |left|) + |last|
      ensures buffer[..at + n] == old(buffer[..at]) + taken + left[..Min(1, |left|)] + last
      ensures out == old(out) + taken + left + last
      ensures |left| > 1 ==> ret < 0
      ensures TransferResult(ret) || (!hasPort && ret == -EIO)
      ensures tick >= old(tick)
      ensures ret < 0 || end || n + FIFO_SIZE < length ==>
        old(Flagged()) || Trouble(world, old(tick), tick) || !hasPort
    {
      hide InOrder, Trouble;
      ghost var interrupted;
      ret, end, n, interrupted, taken, left, last := FifoRead(buffer, at, length - 1);
      if ret < 0 || end {
        return;
      }
      ghost var more;
      var m;
      ghost var start := tick;
      ret, end, m, more := PlainRead(buffer, at + n, 1);
      Widened(world, old(tick), old(tick), start, tick);
      Widened(world, old(tick), start, tick, tick);
      n, last := n + m, last + more;
    }
  }

  lemma GapFree(out: seq<Byte>, before: seq<Byte>, after: seq<Byte>,
                head: seq<Byte>, left: seq<Byte>, last: seq<Byte>)
    requires after == before + head + left[..Min(1, |left|)] + last
    ensures out + head + left + last == out + after[|before|..] <==> |left| <= 1
  {
    assert after[|before|..] == head + left[..Min(1, |left|)] + last;
    if |left| <= 1 {
      assert left[..Min(1, |left|)] == left;
      assert out + head + left + last == out + (head + left + last);
    } else {
      assert |out + head + left + last| > |out + after[|before|..]|;
    }
  }

  // A word is in the FIFO, and the wait of the loop still goes on, so that a signal can end it.
  method WordWaits(a: Byte, b: Byte) returns (r: Receiver)
    ensures fresh(r) && r.Valid() && r.fifoOn && r.dmai && !r.Ready()
    ensures r.fifo == [a, b] && r.held == [] && r.arrived == [a, b] && r.out == []
    ensures !r.readReady && !r.receivedEnd
  {
    r := new Receiver(true, _ => Luck(true, false, false, false, false, false));
    r.InputFifoEnable(true);
    r.dmai := true;
    r.ByteArrives(a);
    r.FifoTakes();
    r.ByteArrives(b);
    r.FifoTakes();
  }

  /** A signal in the wait of the loop can leave a word in the FIFO, and then the read loses a
      byte: three bytes arrive, the first and the third are stored. */
  method InterruptedReadSkips(a: Byte, b: Byte, c: Byte) returns (r: Receiver, buffer: array<Byte>)
    ensures r.Valid() && r.arrived == [a, b, c] && r.out == [a, b, c]
    ensures buffer[..] == [a, c]
  {
    r := WordWaits(a, b);
    buffer := new Byte[2](_ => 0);
    r.dmai := false;
    var n := r.OddByte(buffer, 0);
    assert buffer[..1] == [a];
    assert buffer[0] == a;
    r.InputFifoEnable(false);
    r.ByteArrives(c);
    r.FlagRises(4, r.world(0));
    var data, end := r.ReadDataIn();
    assert r.arrived == [a, b] + [c];
    assert r.arrived == [a, b] + [data];
    assert data == r.arrived[2] == c;
    buffer[1] := data;
  }

  // ---- writing ----

  predicate WriteResult(ret: int) { TransferResult(ret) || ret == -EIO }

  /** The part of a write that goes through the FIFO: whole words, with one or two bytes
      left over, so that EOI never has to go through the FIFO. */
  function FastChunk(length: nat): (fast: nat)
    ensures fast % FIFO_WIDTH == 0 && fast <= length
    ensures length > 0 ==> length - fast == 1 || length - fast == 2
  {
    var whole := if length > FIFO_WIDTH then length - 1 else 0;
    whole - whole % FIFO_WIDTH
  }

  lemma NextWord(data: seq<Byte>, from: nat, at: nat)
    requires from <= at && at + 2 <= |data|
    ensures Tag(data[from..at + 2], false)
            == Tag(data[from..at], false) + Tag([data[at], data[at + 1]], false)
  {
    assert data[from..at + 2] == data[from..at] + [data[at], data[at + 1]];
    TagAppend(data[from..at], [data[at], data[at + 1]], false);
  }

  /** The sending half. While the FIFO is on, the chip sends what is in it at its own pace;
      `fifo` includes the byte being sent. */
  class Sender {
    const hasPort: bool
    const world: nat -> Luck
    var tick: nat
    var fifo: seq<Byte>
    var halfEmpty: bool        // out_fifo_half_empty
    var latch: bool            // HS_HALF_FULL, as the interrupt handler will see it
    var devClear: bool
    var busError: bool
    var timedOut: bool
    ghost var wire: seq<Tagged>

    // What is on the bus, followed by what the FIFO will put there.
    ghost function Committed(): seq<Tagged> reads this`fifo, this`wire { wire + Tag(fifo, false) }

    ghost predicate Valid() reads this {
      && |fifo| <= FIFO_SIZE
      && (halfEmpty || latch ==> |fifo| <= FIFO_SIZE / 2)
    }

    constructor (hasPort: bool, world: nat -> Luck)
      ensures Valid() && fifo == [] && wire == [] && this.hasPort == hasPort && this.world == world
    {
      this.hasPort, this.world, tick := hasPort, world, 0;
      fifo, wire := [], [];
      halfEmpty, latch, devClear, busError, timedOut := false, false, false, false, false;
    }

    method SendsOne()
      requires fifo != []
      modifies this`fifo, this`wire
      ensures Committed() == old(Committed()) && old(wire) <= wire && fifo == old(fifo[1..])
    {
      assert Tag(fifo, false) == [Tagged(fifo[0], false)] + Tag(fifo[1..], false);
      wire := wire + [Tagged(fifo[0], false)];
      fifo := fifo[1..];
    }

    // The bus takes any number of bytes.
    method BusTakes()
      modifies this`fifo, this`wire, this`latch
      ensures Committed() == old(Committed()) && old(wire) <= wire && |fifo| <= old(|fifo|)
      ensures latch && !old(latch) ==> |fifo| <= FIFO_SIZE / 2
    {
      var steps: nat := *;
      while steps > 0 && fifo != []
        invariant Committed() == old(Committed()) && old(wire) <= wire && |fifo| <= old(|fifo|)
        invariant latch && !old(latch) ==> |fifo| <= FIFO_SIZE / 2
      {
        SendsOne();
        latch := latch || |fifo| == FIFO_SIZE / 2;
        steps := steps - 1;
      }
    }

    // The bus takes bytes, and the interrupt handler runs.
    method HardwareRuns()
      requires Valid()
      modifies this`fifo, this`wire, this`halfEmpty, this`latch, this`devClear, this`busError,
               this`timedOut, this`tick
      ensures Valid() && Committed() == old(Committed()) && old(wire) <= wire
      ensures |fifo| <= old(|fifo|) && tick == old(tick) + 1
      ensures old(halfEmpty) ==> halfEmpty
      ensures old(Flagged()) ==> Flagged()
      ensures Flagged() ==> old(Flagged()) || Trouble(world, old(tick), tick)
    {
      var luck := world(tick);
      TroubleAt(world, tick);
      hide Trouble;
      tick := tick + 1;
      var steps: nat := *;
      while steps > 0
        invariant Valid() && Committed() == old(Committed()) && old(wire) <= wire
        invariant |fifo| <= old(|fifo|) && tick == old(tick) + 1
        invariant old(halfEmpty) ==> halfEmpty
        invariant old(Flagged()) ==> Flagged()
        invariant Flagged() ==> old(Flagged()) || Special(luck)
      {
        var what: nat := *;
        if what == 0 {
          BusTakes();
        } else {
          match what
          case 1 => halfEmpty, latch := halfEmpty || latch, false;
          case 2 => devClear := devClear || luck.clear;
          case 3 => busError := busError || luck.error;
          case _ => timedOut := timedOut || luck.late;
        }
        steps := steps - 1;
      }
    }

    // A wait for room in the FIFO, or for all of it to be gone: the bus takes the bytes unless
    // something else ends the wait.
    method Await(forRoom: bool) returns (interrupted: bool)
      requires Valid()
      modifies this`fifo, this`wire, this`halfEmpty, this`latch, this`devClear, this`busError,
               this`timedOut, this`tick
      ensures Valid() && Committed() == old(Committed()) && old(wire) <= wire
      ensures |fifo| <= old(|fifo|) && tick == old(tick) + 1
      ensures interrupted == !((forRoom && halfEmpty) || fifo == [] || Flagged())
      ensures old(Flagged()) ==> Flagged()
      ensures interrupted || Flagged() ==> old(Flagged()) || Trouble(world, old(tick), tick)
    {
      HardwareRuns();
      TroubleAt(world, old(tick));
      hide Trouble;
      if !((forRoom && halfEmpty) || fifo == [] || Flagged()) && !world(tick - 1).signal {
        while fifo != []
          invariant Valid() && Committed() == old(Committed()) && old(wire) <= wire
          invariant |fifo| <= old(|fifo|) && tick == old(tick) + 1 && !Flagged()
          decreases |fifo|
        {
          SendsOne();
        }
      }
      interrupted := !((forRoom && halfEmpty) || fifo == [] || Flagged());
    }

    // A word written to the FIFO port.
    method Outw(word: nat)
      requires word < 0x1_0000 && |fifo| + 2 <= FIFO_SIZE
      modifies this`fifo
      ensures |fifo| == old(|fifo|) + 2
      ensures Committed() == old(Committed()) + Tag([word % 256, word / 256], false)
    {
      TagAppend(fifo, [word % 256, word / 256], false);
      fifo := fifo + [word % 256, word / 256];
    }

    predicate Flagged() reads this`devClear, this`busError, this`timedOut {
      devClear || busError || timedOut
    }

    // The inner loop; interrupts are off, the bus goes on taking bytes.
    method Fill(data: seq<Byte>, count: nat, bytes: nat)
      requires Valid() && bytes % 2 == 0 && count + bytes <= |data| && |fifo| + bytes <= FIFO_SIZE
      modifies this`fifo, this`wire, this`halfEmpty, this`latch
      ensures Valid() && !halfEmpty && !latch
      ensures Committed() == old(Committed()) + Tag(data[count..count + bytes], false)
      ensures old(wire) <= wire
    {
      hide Tag, Committed;
      TagNone(false);
      assert data[count..count] == [];
      var at := count;  // two for each turn
      while at < count + bytes
        invariant count <= at <= count + bytes && (at - count) % 2 == 0
        invariant |fifo| + count + bytes - at <= FIFO_SIZE
        invariant Committed() == old(Committed()) + Tag(data[count..at], false)
        invariant old(wire) <= wire
      {
        WritesWord(data, at);
        NextWord(data, count, at);
        at := at + FIFO_WIDTH;
      }
      halfEmpty, latch := false, false;
    }

    method WritesWord(data: seq<Byte>, at: nat)
      requires at + 2 <= |data| && |fifo| + 2 <= FIFO_SIZE
      modifies this`fifo, this`wire, this`latch
      ensures Committed() == old(Committed()) + Tag([data[at], data[at + 1]], false)
      ensures old(wire) <= wire && |fifo| <= old(|fifo|) + 2
    {
      hide Tag, Committed;
      Outw(WordOf(data[at], data[at + 1]));
      BusTakes();
    }

    // The wait of the loop: room for half a FIFO, or an empty one, unless it was cut short.
    method WaitForRoom() returns (interrupted: bool)
      requires Valid()
      modifies this`fifo, this`wire, this`halfEmpty, this`latch, this`devClear, this`busError,
               this`timedOut, this`tick
      ensures Valid() && Committed() == old(Committed()) && old(wire) <= wire && tick >= old(tick)
      ensures !interrupted && !Flagged() ==> fifo == [] || |fifo| <= FIFO_SIZE / 2
      ensures interrupted || Flagged() ==> old(Flagged()) || Trouble(world, old(tick), tick)
    {
      hide Committed, Trouble;
      interrupted := Await(true);
      ghost var mid := tick;
      if !interrupted {
        HardwareRuns();
      }
      Widened(world, old(tick), old(tick), mid, tick);
      Widened(world, old(tick), mid, tick, tick);
    }

    // Sends data[..n] as far as it gets; the FIFO is empty again when it is switched off.
    method FifoWrite(data: seq<Byte>) returns (ret: int, n: nat)
      requires Valid() && fifo == []
      modifies this`fifo, this`wire, this`halfEmpty, this`latch, this`devClear, this`busError,
               this`timedOut, this`tick
      ensures Valid() && fifo == [] && n <= |data|
      ensures old(wire) <= wire <= old(wire) + Tag(data[..n], false)
      ensures ret == 0 ==> n == |data| && |data| % 2 == 0 && wire == old(wire) + Tag(data, false)
      ensures if !hasPort then ret == -EINVAL && n == 0 else |data| % 2 == 0 ==> WriteResult(ret)
      ensures tick >= old(tick)
      ensures hasPort && data != [] ==>
        (devClear ==> ret == -EINTR) && (busError && !devClear ==> ret == -EIO)
        && (timedOut && !devClear && !busError ==> ret == -ETIMEDOUT)
      ensures hasPort && |data| % 2 == 0 && ret != 0 ==> old(timedOut) || Trouble(world, old(tick), tick)
    {
      hide Tag, Committed, Trouble;
      Nothing();
      ret, n := 0, 0;
      if !hasPort {
        return -EINVAL, 0;
      }
      if data == [] {
        return 0, 0;
      }
      devClear, busError := false, false;
      while n < |data|
        invariant Valid() && n <= |data| && n % 2 == 0 && ret == 0 && tick >= old(tick)
        invariant Flagged() ==> old(timedOut) || Trouble(world, old(tick), tick)
        invariant Committed() == old(wire) + Tag(data[..n], false)
        invariant old(wire) <= wire
        invariant n < |data| || Flagged() || |data| % 2 == 0
        decreases |data| - n
      {
        ghost var start := tick;
        var interrupted := WaitForRoom();
        Widened(world, old(tick), old(tick), start, tick);
        Widened(world, old(tick), start, tick, tick);
        if interrupted {
          ret := -ERESTARTSYS;
          break;
        }
        if Flagged() {
          break;
        }
        var numBytes: nat := if fifo == [] then FIFO_SIZE - FIFO_WIDTH else FIFO_SIZE / 2;
        if numBytes + n > |data| {
          numBytes := |data| - n;
        }
        if numBytes % FIFO_WIDTH != 0 {
          ret := -EINVAL;
          break;
        }
        Fill(data, n, numBytes);
        TagAppend(data[..n], data[n..n + numBytes], false);
        assert data[..n] + data[n..n + numBytes] == data[..n + numBytes];
        n := n + numBytes;
      }
      ghost var start := tick;
      var interrupted := Await(false);
      Widened(world, old(tick), old(tick), start, tick);
      Widened(world, old(tick), start, tick, tick);
      if interrupted {
        ret := -ERESTARTSYS;
      }
      if timedOut {
        ret := -ETIMEDOUT;
      }
      if busError {
        ret := -EIO;
      }
      if devClear {
        ret := -EINTR;
      }
      SwitchOff();
      assert data[..|data|] == data;
    }

    // output_fifo_enable(0): what has not been sent is gone
    method SwitchOff()
      requires Valid()
      modifies this`fifo
      ensures Valid() && fifo == [] && wire <= old(Committed())
      ensures old(fifo) == [] ==> wire == old(Committed())
    {
      fifo := [];
    }

    lemma Nothing()
      ensures fifo == [] ==> Committed() == wire
      ensures forall data: seq<Byte> :: wire + Tag(data[..0], false) == wire
    {
    }

    // nec7210_write: byte by byte, with EOI on the last one if that is asked for
    method PlainWrite(data: seq<Byte>, sendEoi: bool) returns (ret: int, n: nat)
      requires data != []
      modifies this`wire, this`tick
      ensures tick == old(tick) + 1 && (ret != 0 ==> Trouble(world, old(tick), tick))
      ensures n <= |data| && WriteResult(ret) && (ret == 0 ==> n == |data|)
      ensures wire == old(wire) + Tag(data[..n], sendEoi && n == |data|)
    {
      n := 0;
      ret := *;
      TroubleAt(world, tick);
      if !WriteResult(ret) || !Special(world(tick)) {
        ret := 0;
      }
      tick := tick + 1;
      var limit: int := *;
      if ret == 0 || !(0 <= limit <= |data|) {
        limit := |data|;
      }
      while n < limit
        invariant n <= limit <= |data| && tick == old(tick) + 1
        invariant wire == old(wire) + Tag(data[..n], sendEoi && n == |data|)
      {
        assert data[..n + 1][..n] == data[..n];
        wire := wire + [Tagged(data[n], sendEoi && n == |data| - 1)];
        n := n + 1;
      }
    }

    /** cb7210_accel_write, for any length the core asks for: a call that succeeds has sent
        what writing byte by byte sends, EOI with the true last byte; a call that fails
        has sent a beginning of it, and its count is no less than what was sent. */
    method AccelWrite(data: seq<Byte>, sendEoi: bool) returns (ret: int, n: nat)
      requires Valid() && fifo == [] && data != []
      modifies this`fifo, this`wire, this`halfEmpty, this`latch, this`devClear, this`busError,
               this`timedOut, this`tick
      ensures Valid() && fifo == [] && n <= |data|
      ensures if hasPort then WriteResult(ret) else ret == -EINVAL && n == 0
      ensures old(wire) <= wire <= old(wire) + Tag(data, sendEoi)
      ensures |wire| <= old(|wire|) + n
      ensures ret == 0 ==> n == |data| && wire == old(wire) + Tag(data, sendEoi)
      ensures hasPort && ret != 0 ==> old(timedOut) || Trouble(world, old(tick), tick)
    {
      hide Tag, Committed, Trouble;
      var fast: nat := FastChunk(|data|);
      TagSplit(data, fast, sendEoi);
      ret, n := FifoWrite(data[..fast]);
      if ret < 0 {
        assert data[..fast][..n] == data[..n];
        TagSplit(data, n, sendEoi);
        return;
      }
      var m;
      ghost var start := tick;
      ret, m := PlainWrite(data[fast..], sendEoi);
      Widened(world, old(tick), start, tick, tick);
      if m < |data| - fast {
        TagSplit(data[fast..], m, sendEoi);
      } else {
        assert data[fast..][..m] == data[fast..];
      }
      n := n + m;
    }
  }
}
