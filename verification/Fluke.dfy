/** Accelerated writes of the Fluke driver (fluke_gpib.c): DMA blocks out of a small buffer,
    counted by the board, and EOI armed separately for the last byte. */
module Fluke {
  import opened PlainBus
  import opened Errno

  const DMA_BUFFER_SIZE := 0x7ff
  const COUNTER_MODULUS := 0x800  // write_transfer_counter_mask keeps 11 bits

  /** A wait for the masked counter to show the block's length ends exactly when the whole
      block has gone out, for blocks that fit the mask and for no others. */
  lemma MaskExact(length: nat)
    ensures (forall moved :: 0 <= moved <= length ==>
              (moved % COUNTER_MODULUS == length <==> moved == length))
            <==> length <= DMA_BUFFER_SIZE
  {
    if length > DMA_BUFFER_SIZE {
      assert length % COUNTER_MODULUS < length;
    } else {
      forall moved | 0 <= moved <= length ensures moved % COUNTER_MODULUS == moved {
      }
    }
  }

  /** The first n bytes of `data` as the bus sees them: EOI on the first if it was armed
      before, and on the last of all the data if the write asks for it. */
  ghost function Gain(data: seq<Byte>, n: nat, sendEoi: bool, armed: bool): (r: seq<Tagged>)
    requires n <= |data|
    ensures |r| == n
  {
    seq(n, k requires 0 <= k < n =>
      Tagged(data[k], (armed && k == 0) || (sendEoi && k == |data| - 1)))
  }

  // EOI is on no byte but the last of all the data, and there only if asked for.
  ghost predicate EoiOnlyAtEnd(data: seq<Byte>, n: nat, sendEoi: bool, armed: bool)
    requires n <= |data|
  {
    forall k :: 0 <= k < n && Gain(data, n, sendEoi, armed)[k].eoi ==> sendEoi && k == |data| - 1
  }

  /** A write puts no EOI where it does not belong, if and only if none was armed on entry, or
      nothing was taken, or the only byte there is was to carry EOI anyway. */
  lemma SpuriousEoiExactly(data: seq<Byte>, n: nat, sendEoi: bool, armed: bool)
    requires n <= |data|
    ensures EoiOnlyAtEnd(data, n, sendEoi, armed)
            <==> !armed || n == 0 || (sendEoi && |data| == 1)
  {
    if armed && n > 0 {
      assert Gain(data, n, sendEoi, armed)[0].eoi;
    }
  }

  /** So a write that starts with nothing armed puts on the bus what writing byte by byte does. */
  lemma UnarmedGainIsTag(data: seq<Byte>, n: nat, sendEoi: bool)
    requires n <= |data|
    ensures Gain(data, n, sendEoi, false) == Tag(data[..n], sendEoi && n == |data|)
  {
  }

  lemma GainNone(data: seq<Byte>, sendEoi: bool, armed: bool)
    ensures Gain(data, 0, sendEoi, armed) == []
  {
  }

  // A block sent without EOI of its own continues what was sent before it.
  lemma GainBlock(data: seq<Byte>, n: nat, size: nat, m: nat, sendEoi: bool, armed: bool)
    requires m <= size && n + size <= |data| && (sendEoi ==> n + size < |data|)
    ensures Gain(data, n + m, sendEoi, armed)
            == Gain(data, n, sendEoi, armed) + Gain(data[n..n + size], m, false, armed && n == 0)
  {
  }

  // The last byte is sent with EOI.
  lemma GainLast(data: seq<Byte>, m: nat, armed: bool)
    requires data != [] && m <= 1
    ensures var n := |data| - 1;
      Gain(data, n + m, true, armed)
      == Gain(data, n, true, armed) + Gain(data[n..n + 1], m, false, true)
  {
  }

  function Min(a: nat, b: nat): nat { if a < b then a else b }

  /** What goes wrong at one of the driver's waits, if anything: a signal, a device clear, a bus
      error, the timer; or, where the DMA is set up, that it cannot be. */
  datatype Luck = Luck(signal: bool, clear: bool, error: bool, late: bool, noDma: bool)

  predicate Bad(luck: Luck) { luck.signal || luck.clear || luck.error || luck.late || luck.noDma }

  class Board {
    const hasDma: bool
    const world: nat -> Luck  // at the k-th such place
    var tick: nat
    var counter: nat      // bytes of this block that the chip has taken
    var eoiArmed: bool    // AUX_SEOI was given: the next byte carries EOI
    var ready: bool       // the chip waits for a byte
    var settled: bool     // the last byte it took is through
    var devClear: bool
    ghost var wire: seq<Tagged>

    // Something went wrong at one of the places from..upto.
    ghost predicate Trouble(from: nat, upto: nat) { exists k :: from <= k < upto && Bad(world(k)) }

    lemma Widened(from: nat, start: nat, end: nat, upto: nat)
      requires from <= start && end <= upto && Trouble(start, end)
      ensures Trouble(from, upto)
    {
    }

    constructor (hasDma: bool, world: nat -> Luck)
      ensures this.hasDma == hasDma && this.world == world && !eoiArmed && wire == []
    {
      this.hasDma, this.world, tick := hasDma, world, 0;
      counter, eoiArmed, ready, settled, devClear, wire := 0, false, false, false, false, [];
    }

    // What the chip has taken of a block that was started with EOI armed or not.
    ghost predicate Sent(block: seq<Byte>, before: seq<Tagged>, armed: bool)
      reads this`counter, this`wire, this`eoiArmed
    {
      && counter <= |block|
      && wire == before + Gain(block, counter, false, armed)
      && eoiArmed == (armed && counter == 0)
    }

    // The DMA engine and the chip; `all` means that they have time to finish.
    method DmaRuns(block: seq<Byte>, ghost before: seq<Tagged>, ghost armed: bool, all: bool)
      requires Sent(block, before, armed)
      modifies this`wire, this`counter, this`eoiArmed
      ensures Sent(block, before, armed) && old(counter) <= counter <= |block|
      ensures all ==> counter == |block|
    {
      var steps: int := *;
      while (all || steps > 0) && counter < |block|
        invariant Sent(block, before, armed) && counter >= old(counter)
        decreases |block| - counter
      {
        assert Gain(block, counter + 1, false, armed)
            == Gain(block, counter, false, armed) + [Tagged(block[counter], eoiArmed)];
        wire := wire + [Tagged(block[counter], eoiArmed)];
        eoiArmed := false;
        counter := counter + 1;
        steps := steps - 1;
      }
    }

    // A wait for something that comes unless something goes wrong.
    method Await() returns (ret: int)
      modifies this`devClear, this`tick
      ensures tick == old(tick) + 1 && !devClear
      ensures ret == if old(devClear) || world(old(tick)).clear then -EINTR
                     else if world(old(tick)).late then -ETIMEDOUT
                     else if world(old(tick)).signal then -ERESTARTSYS else 0
      ensures ret != 0 ==> Trouble(old(tick), tick) || old(devClear)
    {
      var luck := world(tick);
      tick := tick + 1;
      devClear := devClear || luck.clear;
      ret := if luck.signal then -ERESTARTSYS else 0;
      if luck.late {
        ret := -ETIMEDOUT;
      }
      if devClear {
        devClear, ret := false, -EINTR;
      }
    }

    method WaitForDataOutReady() returns (ret: int)
      modifies this`devClear, this`tick, this`ready
      ensures tick == old(tick) + 1 && !devClear && ret <= 0 && ret != -EFAULT
      ensures if ret == 0 then ready else Trouble(old(tick), tick) || old(devClear)
    {
      ret := Await();
      ready := ret == 0;
    }

    method WaitForSidsOrSgns() returns (ret: int)
      modifies this`devClear, this`tick, this`settled
      ensures tick == old(tick) + 1 && !devClear && ret <= 0 && ret != -EFAULT
      ensures if ret == 0 then settled else Trouble(old(tick), tick) || old(devClear)
    {
      ret := Await();
      settled := ret == 0;
    }

    // AUX_SEOI, given only when a byte can follow at once
    method SendEoi()
      requires ready
      modifies this`eoiArmed
      ensures eoiArmed
    {
      eoiArmed := true;
    }

    // The part of fluke_dma_write from starting the DMA to terminating it.
    method SendBlock(block: seq<Byte>, ghost before: seq<Tagged>, ghost armed: bool) returns (ret: int)
      requires 0 < |block| <= DMA_BUFFER_SIZE && Sent(block, before, armed)
      modifies this`wire, this`counter, this`eoiArmed, this`settled, this`devClear, this`tick
      ensures Sent(block, before, armed) && counter <= |block| && tick >= old(tick)
      ensures var luck := world(old(tick));
        && (luck.error ==> ret == -EIO)
        && (!luck.error && (luck.clear || old(devClear)) ==> ret == -EINTR)
        && (!luck.error && !luck.clear && !old(devClear) && luck.late ==> ret == -ETIMEDOUT)
      ensures ret == 0 ==> settled
      ensures ret <= 0 && ret != -EFAULT && (ret == 0 ==> counter == |block|)
      ensures ret != 0 ==> Trouble(old(tick), tick) || old(devClear)
      ensures !devClear
    {
      hide Sent;
      ret := 0;
      var luck := world(tick);
      tick := tick + 1;
      devClear := devClear || luck.clear;
      DmaRuns(block, before, armed, !Bad(luck) && !devClear);
      if !(counter % COUNTER_MODULUS == |block| || luck.error || devClear || luck.late) {
        ret := -ERESTARTSYS;
      }
      DmaRuns(block, before, armed, false);
      if luck.late {
        ret := -ETIMEDOUT;
      }
      if devClear {
        devClear, ret := false, -EINTR;
      }
      if luck.error {
        ret := -EIO;
      }
      ghost var start := tick;
      if ret == 0 {
        ret := WaitForSidsOrSgns();
        if ret != 0 {
          Widened(old(tick), start, tick, tick);
        }
      }
    }

    /** Counts exactly the bytes it put on the bus, whatever went wrong; for a block that fits
        the buffer none of its own checks fails, and success means the whole block. */
    method DmaWrite(block: seq<Byte>) returns (ret: int, n: nat)
      requires block != [] && ready
      modifies this`wire, this`counter, this`eoiArmed, this`ready, this`settled, this`devClear, this`tick
      ensures ret <= 0 && n <= |block|
      ensures wire == old(wire) + Gain(block, n, false, old(eoiArmed))
      ensures eoiArmed == (old(eoiArmed) && n == 0)
      ensures (ret == 0 ==> n == |block| && settled) && (n > 0 ==> !ready)
      ensures |block| <= DMA_BUFFER_SIZE ==> ret != -EFAULT
      ensures |block| <= DMA_BUFFER_SIZE && world(old(tick)).noDma ==> ret == -ENOMEM && n == 0
      ensures tick >= old(tick)
      ensures ret != 0 ==> |block| > DMA_BUFFER_SIZE || Trouble(old(tick), tick) || old(devClear)
      ensures !old(devClear) ==> !devClear
    {
      hide Gain;
      GainNone(block, false, eoiArmed);
      if |block| > DMA_BUFFER_SIZE {
        return -EFAULT, 0;
      }
      counter, n := 0, 0;
      var luck := world(tick);
      tick := tick + 1;
      if luck.noDma {
        return -ENOMEM, 0;
      }
      ghost var start := tick;
      ready := false;
      ret := SendBlock(block, wire, eoiArmed);
      if ret != 0 && !old(devClear) {
        Widened(old(tick), start, tick, tick);
      }
      n := counter % COUNTER_MODULUS;
      if n > |block| {
        return -EFAULT, n;
      }
    }

    // The loop: all but a last byte that is to carry EOI.
    method WriteBlocks(data: seq<Byte>, sendEoi: bool) returns (ret: int, n: nat, remainder: nat)
      requires data != [] && !devClear
      modifies this`wire, this`counter, this`eoiArmed, this`ready, this`settled, this`devClear, this`tick
      ensures ret <= 0 && ret != -EFAULT && n + remainder == |data|
      ensures n <= |data| - (if sendEoi then 1 else 0)
      ensures ret == 0 ==> remainder == (if sendEoi then 1 else 0) && (n > 0 ==> settled)
      ensures wire == old(wire) + Gain(data, n, sendEoi, old(eoiArmed))
      ensures eoiArmed == (old(eoiArmed) && n == 0)
      ensures tick >= old(tick) && !devClear && (ret != 0 ==> Trouble(old(tick), tick))
    {
      hide Gain, Trouble;
      GainNone(data, sendEoi, eoiArmed);
      ghost var armed := eoiArmed;
      n, ret, remainder := 0, 0, |data|;
      var dmaRemainder: nat := if sendEoi then remainder - 1 else remainder;
      var moved;
      while dmaRemainder > 0
        invariant remainder == dmaRemainder + if sendEoi then 1 else 0
        invariant n == |data| - remainder && ret == 0 && (n > 0 ==> settled)
        invariant wire == old(wire) + Gain(data, n, sendEoi, armed)
        invariant eoiArmed == (armed && n == 0) && tick >= old(tick) && !devClear
        decreases dmaRemainder
      {
        ghost var start := tick;
        ret := WaitForDataOutReady();
        if ret < 0 {
          Widened(old(tick), start, tick, tick);
          return;
        }
        start := tick;
        var size := Min(DMA_BUFFER_SIZE, dmaRemainder);
        ret, moved := DmaWrite(data[n..n + size]);
        GainBlock(data, n, size, moved, sendEoi, armed);
        n, remainder := n + moved, remainder - moved;
        if ret < 0 {
          Widened(old(tick), start, tick, tick);
          return;
        }
        dmaRemainder := dmaRemainder - moved;
      }
    }

    /** fluke_accel_write: the count is always exactly what was sent, the bytes are the
        caller's, success means all of them, a failure means that something outside went wrong,
        and the checks marked with warnings never fail.
        The last byte of all carries EOI if that is asked for; no other byte does, but the first
        if EOI was armed on entry. It is left armed exactly when the byte it was armed for was
        not taken: nothing at all if that was on entry, or else the last byte alone. */
    method AccelWrite(data: seq<Byte>, sendEoi: bool) returns (ret: int, n: nat, ghost reachedLast: bool)
      modifies this`wire, this`counter, this`eoiArmed, this`ready, this`settled, this`devClear, this`tick
      ensures ret <= 0 && n <= |data|
      ensures wire == old(wire) + Gain(data, n, sendEoi, old(eoiArmed))
      ensures ret == 0 ==> n == |data| && (n > 0 ==> settled)
      ensures ret != -EFAULT
      ensures eoiArmed <==> (old(eoiArmed) && n == 0) || (reachedLast && n < |data|)
      ensures reachedLast ==> sendEoi && data != [] && n >= |data| - 1 && (n < |data| ==> ret < 0)
      ensures if hasDma then ret != 0 ==> Trouble(old(tick), tick) else ret == -ENXIO && n == 0
    {
      hide Gain, Trouble, Bad;
      GainNone(data, sendEoi, eoiArmed);
      n, ret, reachedLast := 0, 0, false;
      if !hasDma {
        ret := -ENXIO;
        return;
      }
      if data == [] {
        return;
      }
      devClear := false;
      var remainder;
      ret, n, remainder := WriteBlocks(data, sendEoi);
      if ret < 0 {
        return;
      }
      if sendEoi {
        if remainder != 1 {
          return -EFAULT, n, false;
        }
        ghost var start := tick;
        ret := WaitForDataOutReady();
        if ret < 0 {
          Widened(old(tick), start, tick, tick);
          return;
        }
        start := tick;
        SendEoi();
        reachedLast := true;
        var moved;
        ret, moved := DmaWrite(data[n..n + 1]);
        GainLast(data, moved, old(eoiArmed));
        n := n + moved;
        if ret < 0 {
          Widened(old(tick), start, tick, tick);
        }
      }
    }
  }
}
