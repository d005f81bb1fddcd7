/** Accelerated transfers of the Agilent 82350B driver (agilent_82350b.c): blocks of up to
    0x8000 bytes go through the board's memory, and a 15-bit counter that runs up to zero
    tells how many of a block are left. */
module Agilent82350b {
  import opened PlainBus
  import opened Errno

  const FIFO_SIZE := 0x8000

  // ---- the transfer counter ----

  /** Its three registers, as written by the driver and counted up by the board. For a
      negative number, taking the low bits is taking the remainder. */
  datatype Counter = Counter(lo: int, mid: int, hi: int)

  function SetTransferCounter(count: int): Counter {
    var complement := -count;
    Counter(complement % 0x100, complement / 0x100 % 0x100, complement / 0x1_0000 % 0x10)
  }

  function Value(c: Counter): int { c.lo + 0x100 * c.mid + 0x1_0000 * c.hi }

  function Advance(c: Counter, moved: nat): Counter {
    var v := (Value(c) + moved) % 0x10_0000;
    Counter(v % 0x100, v / 0x100 % 0x100, v / 0x1_0000)
  }

  function ReadTransferCounter(c: Counter): (left: int)
    ensures 0 <= left < 0x8000
  {
    var value := c.lo % 0x100 + c.mid * 0x100 % 0x8000;
    // the complement of value - 1, cut to 15 bits
    (-(value - 1) - 1) % 0x8000
  }

  // Registers that together stand for minus `left`.
  lemma ReadsBack(c: Counter, left: nat)
    requires 0 <= c.lo < 0x100 && 0 <= c.mid < 0x100 && left <= 0x8000
    requires (c.lo + 0x100 * c.mid + left) % 0x8000 == 0
    ensures ReadTransferCounter(c) == if left == 0x8000 then 0 else left
  {
    var mid := if c.mid < 0x80 then c.mid else c.mid - 0x80;
    assert c.mid * 0x100 % 0x8000 == mid * 0x100;
    var value := c.lo + mid * 0x100;
    assert c.lo + 0x100 * c.mid == value || c.lo + 0x100 * c.mid == value + 0x8000;
    assert value + left == 0 || value + left == 0x8000;
  }

  /** What the counter reads after `moved` of `count` bytes is what is left of them, except
      that a full block none of which has moved reads as finished. */
  lemma CounterReads(count: nat, moved: nat)
    requires 1 <= count <= FIFO_SIZE && moved <= count
    ensures var left := ReadTransferCounter(Advance(SetTransferCounter(count), moved));
      && (left == count - moved <==> !(count == FIFO_SIZE && moved == 0))
      && (count == FIFO_SIZE && moved == 0 ==> left == 0)
  {
    hide SetTransferCounter, Advance, ReadTransferCounter;
    SetIsMinus(count);
    var c := SetTransferCounter(count);
    AdvanceAdds(c, moved);
    ReadsBack(Advance(c, moved), count - moved);
  }

  lemma SetIsMinus(count: nat)
    requires 1 <= count <= FIFO_SIZE
    ensures Value(SetTransferCounter(count)) == 0x10_0000 - count
  {
    var complement: int := -1 * count;
    assert complement / 0x1_0000 == -1;
    assert complement / 0x1_0000 % 0x10 == 0xf;
  }

  lemma AdvanceAdds(c: Counter, moved: nat)
    requires 0 < Value(c) && Value(c) + moved <= 0x10_0000
    ensures var a := Advance(c, moved);
      && 0 <= a.lo < 0x100 && 0 <= a.mid < 0x100
      && (a.lo + 0x100 * a.mid + (0x10_0000 - Value(c) - moved)) % 0x8000 == 0
  {
    var v := (Value(c) + moved) % 0x10_0000;
    var low := v % 0x100 + 0x100 * (v / 0x100 % 0x100);
    LowBytes(v);
    assert v == 0 || v == Value(c) + moved;
    var k := v / 0x1_0000;
    assert low == v - 0x1_0000 * k;
    var rest := 0x10_0000 - Value(c) - moved;
    assert low + rest == 0x8000 * (if v == 0 then 0 else 32 - 2 * k);
  }

  lemma LowBytes(v: nat)
    ensures v % 0x100 + 0x100 * (v / 0x100 % 0x100) == v - 0x1_0000 * (v / 0x1_0000)
  {
    var q := v / 0x100;
    assert v == 0x100 * q + v % 0x100;
    assert q == 0x100 * (q / 0x100) + q % 0x100;
    assert q / 0x100 == v / 0x1_0000;
  }

  function Min(a: nat, b: nat): nat { if a < b then a else b }

  // ---- what the talker sends, taken in parts ----

  /** From `start` the bytes `got` were taken, `now` is still to come, and the last byte
      taken carried EOI exactly if `end` says so; no earlier one did. */
  ghost predicate Moved(start: seq<Tagged>, now: seq<Tagged>, end: bool, got: seq<Byte>) {
    var n := |got|;
    && n <= |start|
    && got == Values(start[..n]) && now == start[n..]
    && (forall k :: 0 <= k < n - 1 ==> !start[k].eoi)
    && (end <==> n > 0 && start[n - 1].eoi)
  }

  lemma MovedNone(start: seq<Tagged>)
    ensures Moved(start, start, false, [])
  {
  }

  lemma MovedMore(start: seq<Tagged>, middle: seq<Tagged>, now: seq<Tagged>, end: bool,
                  got: seq<Byte>, more: seq<Byte>)
    requires Moved(start, middle, false, got) && Moved(middle, now, end, more)
    ensures Moved(start, now, end, got + more)
  {
    hide Values;
    var n, m := |got|, |more|;
    TakenTwice(start, n, m);
    forall k | 0 <= k < n + m - 1 ensures !start[k].eoi {
      if n <= k {
        assert start[k] == middle[k - n];
      }
    }
    if m > 0 {
      assert start[n + m - 1] == middle[m - 1];
    }
  }

  lemma TakenTwice(start: seq<Tagged>, n: nat, m: nat)
    requires n + m <= |start|
    ensures Values(start[..n + m]) == Values(start[..n]) + Values(start[n..][..m])
    ensures start[n..][m..] == start[n + m..]
  {
  }

  lemma MovedPlain(start: seq<Tagged>, now: seq<Tagged>, end: bool, got: seq<Byte>, length: nat)
    requires Moved(start, now, end, got) && |got| <= length && (|got| == length || end)
    ensures CompleteRead(start, length, |got|, end)
    ensures |got| == PlainReadCount(start, length)
    ensures got == Values(start[..PlainReadCount(start, length)])
    ensures now == start[PlainReadCount(start, length)..]
  {
    CompleteReadIsPlain(start, length, |got|, end);
  }

  // What goes wrong at one of the driver's waits, if anything.
  datatype Luck = Luck(signal: bool, clear: bool, late: bool)

  predicate Bad(luck: Luck) { luck.signal || luck.clear || luck.late }

  /** Memory, counter and flags of the board, and the two ends of the bus it moves bytes
      between. */
  class Board {
    const sram: array<Byte>
    const world: nat -> Luck     // at the k-th wait
    var tick: nat
    var counter: Counter
    var holdoffActive: bool
    var devClear: bool
    var timedOut: bool
    var talker: seq<Tagged>  // what is still to come from the bus
    ghost var wire: seq<Tagged>  // what was put on it

    ghost predicate Valid() reads this { sram.Length == FIFO_SIZE }

    // Something went wrong at one of the waits from..upto.
    ghost predicate Trouble(from: nat, upto: nat) { exists k :: from <= k < upto && Bad(world(k)) }

    lemma Widened(from: nat, start: nat, end: nat, upto: nat)
      requires from <= start && end <= upto
      ensures Trouble(start, end) ==> Trouble(from, upto)
    {
    }

    constructor (talker: seq<Tagged>, world: nat -> Luck)
      ensures Valid() && fresh(sram) && this.talker == talker && wire == [] && this.world == world
    {
      this.world, tick := world, 0;
      sram := new Byte[FIFO_SIZE](_ => 0);
      counter, holdoffActive, devClear, timedOut := Counter(0, 0, 0), false, false, false;
      this.talker, wire := talker, [];
    }

    // The next byte of the talker goes to to[at].
    method TakeOne(to: array<Byte>, at: nat) returns (end: bool, ghost got: seq<Byte>)
      requires at < to.Length && talker != []
      modifies this`talker, to
      ensures |got| == 1 && Moved(old(talker), talker, end, got)
      ensures to[..at + 1] == old(to[..at]) + got
    {
      got := Values(talker[..1]);
      to[at] := talker[0].byte;
      end := talker[0].eoi;
      talker := talker[1..];
    }

    // tms9914_read: byte by byte; a failed call may have taken some.
    method PlainRead(buffer: array<Byte>, at: nat, length: nat)
      returns (ret: int, end: bool, n: nat, ghost got: seq<Byte>)
      requires at + length <= buffer.Length && buffer != sram
      modifies this`talker, this`holdoffActive, this`devClear, this`tick, buffer
      ensures tick == old(tick) + 1 && (length > 0 ==> !devClear)
      ensures ret == 0 && length > 0 ==> holdoffActive
      ensures ret < 0 ==> Trouble(old(tick), tick) || talker == []
      ensures n == |got| <= length && Moved(old(talker), talker, end, got)
      ensures buffer[..at + n] == old(buffer[..at]) + got
      ensures ret <= 0 && (ret == 0 ==> n == length || end)
    {
      hide Moved;
      n, end, got, ret := 0, false, [], 0;
      if length > 0 {
        devClear := false;
      }
      MovedNone(talker);
      var luck := world(tick);
      tick := tick + 1;
      while n < length && !end
        invariant tick == old(tick) + 1 && luck == world(old(tick)) && (length > 0 ==> !devClear)
        invariant n == |got| <= length && Moved(old(talker), talker, end, got)
        invariant buffer[..at + n] == old(buffer[..at]) + got
        invariant ret == 0 && (end ==> n > 0)
        decreases length - n
      {
        var arrives: bool := *;
        if (Bad(luck) && !arrives) || talker == [] {
          ret := *;
          ret := if ret < 0 then ret else -ETIMEDOUT;
          break;
        }
        ghost var middle, more := talker, [];
        end, more := TakeOne(buffer, at + n);
        MovedMore(old(talker), middle, talker, end, got, more);
        n, got := n + 1, got + more;
      }
      if n > 0 {
        holdoffActive := ret == 0;  // it holds off after the last byte
      }
    }

    /** The board moves bytes of the talker into its memory, until the block is full, EOI
        has come, or the wait ends otherwise. */
    method StreamIn(block: nat)
      returns (full: bool, last: bool, interrupted: bool, ghost eoi: bool, ghost got: seq<Byte>)
      requires Valid() && 1 <= block <= FIFO_SIZE && counter == SetTransferCounter(block)
      modifies this`talker, this`counter, this`devClear, this`timedOut, this`tick, sram
      ensures tick == old(tick) + 1
      ensures interrupted || devClear || timedOut ==>
        Trouble(old(tick), tick) || talker == [] || old(devClear)
      ensures Valid() && |got| <= block && Moved(old(talker), talker, eoi, got)
      ensures counter == Advance(SetTransferCounter(block), |got|)
      ensures sram[..|got|] == got
      ensures (full ==> |got| == block) && (full || last ==> last == eoi)
      ensures last ==> got != []
      ensures !interrupted ==> full || last || devClear || timedOut
    {
      hide Moved, Advance, SetTransferCounter;
      got := [];
      MovedNone(talker);
      var luck := world(tick);
      tick := tick + 1;
      var m, end, arrives := 0, false, true;
      while m < block && !end && arrives
        invariant tick == old(tick) + 1 && devClear == old(devClear)
        invariant !arrives ==> Bad(luck) || talker == []
        invariant m == |got| <= block && Moved(old(talker), talker, end, got)
        invariant sram[..m] == got && counter == old(counter) && (end ==> m > 0)
        decreases block - m, arrives
      {
        arrives := *;
        arrives := (arrives || !Bad(luck)) && talker != [];
        if arrives {
          ghost var middle, more := talker, [];
          end, more := TakeOne(sram, m);
          MovedMore(old(talker), middle, talker, end, got, more);
          m, got := m + 1, got + more;
        }
      }
      counter := Advance(counter, m);
      devClear, timedOut, interrupted := devClear || luck.clear, luck.late, false;
      full, last, eoi := m == block, end, end;
      if !full && !last && !devClear && !timedOut {
        // nothing more comes: a signal ends the wait, or else the timer
        interrupted, timedOut := luck.signal, !luck.signal;
      }
      assert Bad(world(old(tick))) ==> Trouble(old(tick), tick);
    }

    method CopyBlock(buffer: array<Byte>, at: nat, count: nat)
      requires Valid() && count <= FIFO_SIZE && at + count <= buffer.Length && buffer != sram
      modifies buffer
      ensures buffer[..at + count] == old(buffer[..at]) + sram[..count]
    {
      var j := 0;
      while j < count
        invariant j <= count
        invariant buffer[..at + j] == old(buffer[..at]) + sram[..j]
      {
        buffer[at + j] := sram[j];
        j := j + 1;
      }
    }

    // The blocks. Until now the board held off, so that no byte slips in early.
    method FifoRead(buffer: array<Byte>, at: nat, length: nat)
      returns (ret: int, end: bool, i: nat, ghost got: seq<Byte>)
      requires Valid() && at + length <= buffer.Length && buffer != sram
      requires length > 0 ==> holdoffActive
      modifies this`talker, this`counter, this`holdoffActive, this`devClear, this`timedOut,
               this`tick, buffer, sram
      ensures Valid() && i <= length && ret <= 0 && tick >= old(tick)
      ensures ret < 0 ==> Trouble(old(tick), tick) || talker == [] || old(devClear)
      ensures ret == 0 ==>
        && i == |got| && (i == length || end) && (end ==> holdoffActive) && Moved(old(talker), talker, end, got)
        && buffer[..at + i] == old(buffer[..at]) + got
    {
      hide Moved, Advance, SetTransferCounter, ReadTransferCounter, Trouble;
      i, end, got, ret := 0, false, [], 0;
      holdoffActive := false;  // tms9914_release_holdoff
      MovedNone(talker);
      while i < length && !end
        invariant Valid() && i == |got| <= length && ret == 0 && tick >= old(tick)
        invariant (devClear ==> old(devClear)) && (end ==> holdoffActive)
        invariant Moved(old(talker), talker, end, got)
        invariant buffer[..at + i] == old(buffer[..at]) + got
        decreases length - i
      {
        var block := Min(length - i, FIFO_SIZE);
        counter := SetTransferCounter(block);
        ghost var middle, eoi, more := talker, false, [];
        var full, last, interrupted;
        ghost var start := tick;
        full, last, interrupted, eoi, more := StreamIn(block);
        Widened(old(tick), start, tick, tick);
        if interrupted {
          ret := -ERESTARTSYS;
          break;
        }
        CounterReads(block, |more|);
        var count := block - ReadTransferCounter(counter);
        CopyBlock(buffer, at + i, count);
        i := i + count;
        if timedOut {
          ret := -ETIMEDOUT;
          break;
        }
        if devClear {
          ret := -EINTR;
          break;
        }
        if last {
          holdoffActive, end := true, true;
        }
        MovedMore(old(talker), middle, talker, end, got, more);
        got := got + more;
      }
    }

    // All but a first byte: the blocks, then one byte more unless END has come.
    method ReadBody(buffer: array<Byte>, at: nat, length: nat)
      returns (ret: int, end: bool, n: nat, ghost got: seq<Byte>)
      requires Valid() && 0 < length && at + length <= buffer.Length && buffer != sram
      requires length > 1 ==> holdoffActive
      modifies this`talker, this`counter, this`holdoffActive, this`devClear, this`timedOut,
               this`tick, buffer, sram
      ensures Valid() && n <= length && ret <= 0 && tick >= old(tick)
      ensures ret < 0 ==> Trouble(old(tick), tick) || talker == [] || old(devClear)
      ensures ret == 0 ==>
        && n == |got| && (n == length || end) && holdoffActive && Moved(old(talker), talker, end, got)
        && buffer[..at + n] == old(buffer[..at]) + got
    {
      hide Moved, Trouble;
      ret, end, n, got := FifoRead(buffer, at, length - 1);
      if ret < 0 || end {
        return;
      }
      var i;
      ghost var middle, more, start := talker, [], tick;
      ret, end, i, more := PlainRead(buffer, at + n, length - n);
      Widened(old(tick), start, tick, tick);
      MovedMore(old(talker), middle, talker, end, got, more);
      n, got := n + i, got + more;
    }

    /** agilent_82350b_accel_read without end-of-string checking. A call that succeeds has
        taken from the bus exactly what reading byte by byte takes: the same bytes, as
        many of them, and the same END. */
    method AccelRead(buffer: array<Byte>, at: nat, length: nat) returns (ret: int, end: bool, n: nat)
      requires Valid() && at + length <= buffer.Length && buffer != sram
      modifies this`talker, this`counter, this`holdoffActive, this`devClear, this`timedOut,
               this`tick, buffer, sram
      ensures Valid() && n <= length && ret <= 0
      ensures ret < 0 ==> Trouble(old(tick), tick) || talker == []
      ensures ret == 0 ==>
        && n == PlainReadCount(old(talker), length) && CompleteRead(old(talker), length, n, end)
        && buffer[..at + n] == old(buffer[..at]) + Values(old(talker)[..n])
        && talker == old(talker)[n..] && (length > 0 ==> holdoffActive)
    {
      hide Moved, CompleteRead, Values, PlainReadCount, Trouble;
      n, end, ret := 0, false, 0;
      ghost var got, middle, more := [], talker, [];
      devClear := false;
      MovedNone(talker);
      if !holdoffActive && length > 1 {
        ret, end, n, got := PlainRead(buffer, at, 1);
      }
      ghost var start := tick;
      if ret == 0 && !end && length > 0 {
        middle := talker;
        var i;
        ret, end, i, more := ReadBody(buffer, at + n, length - n);
        n := n + i;
        Widened(old(tick), start, tick, tick);
        if ret == 0 {
          MovedMore(old(talker), middle, talker, end, got, more);
        }
        got := got + more;
      }
      if ret == 0 {
        MovedPlain(old(talker), talker, end, got, length);
      }
    }

    // ---- writing ----

    // tms9914_write of one byte
    method PlainWriteByte(b: Byte, sendEoi: bool) returns (ret: int, n: nat)
      modifies this`wire, this`devClear, this`tick
      ensures tick == old(tick) + 1 && !devClear && (ret < 0 ==> Trouble(old(tick), tick))
      ensures ret <= 0 && n <= 1 && (ret == 0 ==> n == 1)
      ensures wire == old(wire) + Tag([b][..n], sendEoi)
    {
      devClear := false;
      ret := *;
      var sent := *;
      ret := if ret < 0 && Bad(world(tick)) then ret else 0;
      tick := tick + 1;
      n := if ret == 0 || sent then 1 else 0;
      wire := wire + Tag([b][..n], sendEoi);
    }

    // The board puts what is in its memory on the bus.
    method StreamOut(block: nat) returns (m: nat, full: bool, interrupted: bool)
      requires Valid() && 1 <= block <= FIFO_SIZE && counter == SetTransferCounter(block)
      modifies this`wire, this`counter, this`devClear, this`timedOut, this`tick
      ensures tick == old(tick) + 1
      ensures interrupted || devClear || timedOut ==> Trouble(old(tick), tick) || old(devClear)
      ensures m <= block && (full ==> m == block)
      ensures wire == old(wire) + Tag(sram[..m], false)
      ensures counter == Advance(SetTransferCounter(block), m)
      ensures !interrupted ==> full || devClear || timedOut
    {
      var sent: int := *;
      var luck := world(tick);
      tick := tick + 1;
      m := if Bad(luck) && 0 <= sent <= block then sent else block;
      wire := wire + Tag(sram[..m], false);
      counter := Advance(counter, m);
      full := m == block;
      devClear, timedOut, interrupted := devClear || luck.clear, luck.late, !full && luck.signal;
      if !full && !devClear && !timedOut {
        interrupted := true;
      }
    }

    /** Loads data[i..i + block] and sends it; `count` is how many bytes the counter says
        were sent, `m` how many were. */
    method WriteBlock(data: seq<Byte>, i: nat, block: nat) returns (ret: int, count: nat, ghost m: nat)
      requires Valid() && 1 <= block <= FIFO_SIZE && i + block <= |data|
      modifies this`wire, this`counter, this`devClear, this`timedOut, this`tick, sram
      ensures ret <= 0 && m <= block && (ret == 0 ==> m == block && !devClear)
      ensures tick == old(tick) + 1 && (ret < 0 ==> Trouble(old(tick), tick) || old(devClear))
      ensures wire == old(wire) + Tag(data[i..i + m], false)
      ensures count == if m == 0 && block == FIFO_SIZE then FIFO_SIZE else m
    {
      hide Tag, Advance, SetTransferCounter, ReadTransferCounter;
      counter := SetTransferCounter(block);
      var j := 0;
      while j < block
        invariant j <= block && sram[..j] == data[i..i + j]
        invariant wire == old(wire) && counter == SetTransferCounter(block)
        invariant tick == old(tick) && devClear == old(devClear)
      {
        sram[j] := data[i + j];
        j := j + 1;
      }
      var full, interrupted;
      var moved;
      moved, full, interrupted := StreamOut(block);
      m := moved;
      assert sram[..m] == data[i..i + block][..m];
      assert data[i..i + block][..m] == data[i..i + m];
      CounterReads(block, m);
      count := block - ReadTransferCounter(counter);
      ret := if interrupted then -ERESTARTSYS else if timedOut then -ETIMEDOUT
             else if devClear then -EINTR else 0;
    }

    // Everything but a last byte with EOI.
    method WriteBody(data: seq<Byte>, length: nat) returns (ret: int, n: nat, ghost sent: nat)
      requires Valid() && 0 < length <= |data|
      modifies this`wire, this`counter, this`devClear, this`timedOut, this`tick, sram
      ensures ret <= 0 && sent <= length && wire == old(wire) + Tag(data[..sent], false)
      ensures tick >= old(tick) && (ret < 0 ==> Trouble(old(tick), tick))
      ensures ret == 0 ==> n == sent == length
      ensures if length <= FIFO_SIZE then n == sent else sent <= n <= sent + FIFO_SIZE
    {
      hide Tag, Trouble;
      ret, n := PlainWriteByte(data[0], false);
      sent := n;
      assert [data[0]][..n] == data[..n];
      var i := 1;
      while i < length && ret == 0
        invariant 1 <= i <= length && sent <= length
        invariant ret <= 0 && (ret == 0 ==> n == sent == i && !devClear)
        invariant tick >= old(tick) && (ret < 0 ==> Trouble(old(tick), tick))
        invariant if length <= FIFO_SIZE then n == sent else sent <= n <= sent + FIFO_SIZE
        invariant wire == old(wire) + Tag(data[..sent], false)
        decreases length - i
      {
        var block := Min(length - i, FIFO_SIZE);
        var count;
        ghost var m;
        ghost var start := tick;
        ret, count, m := WriteBlock(data, i, block);
        Widened(old(tick), start, tick, tick);
        TagAppend(data[..i], data[i..i + m], false);
        assert data[..i] + data[i..i + m] == data[..i + m];
        i, n, sent := i + block, n + count, sent + m;
      }
    }

    /** agilent_82350b_accel_write: a call that succeeds has sent what writing byte by byte
        sends. At all times what was sent is a beginning of that, and it is counted
        exactly, unless nothing of a block of 0x8000 bytes was sent. */
    method AccelWrite(data: seq<Byte>, sendEoi: bool) returns (ret: int, n: nat)
      requires Valid() && data != []
      modifies this`wire, this`counter, this`devClear, this`timedOut, this`tick, sram
      ensures ret <= 0 && (ret < 0 ==> Trouble(old(tick), tick))
      ensures old(wire) <= wire <= old(wire) + Tag(data, sendEoi)
      ensures ret == 0 ==> n == |data| && wire == old(wire) + Tag(data, sendEoi)
      ensures |data| <= FIFO_SIZE ==> |wire| == old(|wire|) + n
      ensures |wire| <= old(|wire|) + n <= |wire| + FIFO_SIZE
    {
      hide Tag;
      ret, n := 0, 0;
      var length: nat := if sendEoi then |data| - 1 else |data|;
      devClear := false;
      TagNone(false);
      assert data[..0] == [];
      ghost var sent := 0;
      if length > 0 {
        ret, n, sent := WriteBody(data, length);
        SentSoFar(data, sent, sendEoi);
      }
      if ret == 0 && sendEoi {
        var last;
        ghost var start := tick;
        ret, last := PlainWriteByte(data[length], true);
        Widened(old(tick), start, tick, tick);
        n := n + last;
        LastWithEoi(data, last);
      }
    }
  }

  // Part of the data, sent without EOI, is a beginning of all of it sent with EOI at the end.
  lemma SentSoFar(data: seq<Byte>, sent: nat, sendEoi: bool)
    requires sent <= |data| && (sendEoi ==> sent < |data|)
    ensures Tag(data[..sent], false) <= Tag(data, sendEoi)
    ensures sent == |data| ==> data[..sent] == data
  {
    if sent < |data| {
      TagSplit(data, sent, sendEoi);
    }
  }

  lemma LastWithEoi(data: seq<Byte>, last: nat)
    requires data != [] && last <= 1
    ensures var length := |data| - 1;
      && Tag(data[..length], false) + Tag([data[length]][..last], true) <= Tag(data, true)
      && (last == 1 ==> Tag(data[..length], false) + Tag([data[length]][..last], true) == Tag(data, true))
  {
    TagSplit(data, |data| - 1, true);
  }
}
