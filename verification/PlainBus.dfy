/** Data bytes as they cross the bus: the value and the EOI line that goes with it.
    The byte-by-byte transfers defined here are the reference that the core's buffer loops
    and the accelerated board drivers are proved against. */
module PlainBus {

  type Byte = b: int | 0 <= b < 256

  datatype Tagged = Tagged(byte: Byte, eoi: bool)

  // What a listener sees when `data` is sent, EOI accompanying its last byte if `endIt`.
  ghost function Tag(data: seq<Byte>, endIt: bool): (r: seq<Tagged>)
    ensures |r| == |data|
  {
    seq(|data|, k requires 0 <= k < |data| => Tagged(data[k], endIt && k == |data| - 1))
  }

  ghost function Values(wire: seq<Tagged>): (r: seq<Byte>)
    ensures |r| == |wire|
  {
    seq(|wire|, k requires 0 <= k < |wire| => wire[k].byte)
  }

  lemma TagSplit(data: seq<Byte>, k: nat, endIt: bool)
    requires k < |data|
    ensures Tag(data, endIt) == Tag(data[..k], false) + Tag(data[k..], endIt)
  {
  }

  lemma TagNone(endIt: bool)
    ensures Tag([], endIt) == []
  {
  }

  lemma TagAppend(first: seq<Byte>, rest: seq<Byte>, endIt: bool)
    ensures Tag(first + rest, endIt && rest != []) == Tag(first, false) + Tag(rest, endIt)
  {
  }

  /** The one-byte-at-a-time read: take bytes from the talker until `length` are in or one
      carried EOI. `n` is the number taken. */
  ghost function PlainReadCount(talker: seq<Tagged>, length: nat): (n: nat)
    ensures n <= length && n <= |talker|
    decreases length
  {
    if length == 0 || talker == [] then 0
    else if talker[0].eoi then 1
    else 1 + PlainReadCount(talker[1..], length - 1)
  }

  // A read that took `n` bytes and reported `end` is a complete one-byte-path read.
  ghost predicate CompleteRead(talker: seq<Tagged>, length: nat, n: nat, end: bool) {
    && n <= length && n <= |talker|
    && (forall k :: 0 <= k < n - 1 ==> !talker[k].eoi)
    && (end <==> n > 0 && talker[n - 1].eoi)
    && (n == length || end)
  }

  /** Any transfer strategy that takes a complete read takes exactly what the one-byte path
      takes: the same bytes, the same count and the same END. */
  lemma {:induction false} CompleteReadIsPlain(talker: seq<Tagged>, length: nat, n: nat, end: bool)
    requires CompleteRead(talker, length, n, end)
    ensures n == PlainReadCount(talker, length)
    decreases length
  {
    if n > 1 {
      assert !talker[0].eoi;
      forall k | 0 <= k < n - 2 ensures !talker[1..][k].eoi {
        assert talker[1..][k] == talker[k + 1];
      }
      assert talker[1..][n - 2] == talker[n - 1];
      CompleteReadIsPlain(talker[1..], length - 1, n - 1, end);
    } else if n == 1 {
      if !talker[0].eoi {
        assert length == 1;
        assert PlainReadCount(talker[1..], 0) == 0;
      }
    }
  }

  /** Two reads joined: the first ended without EOI short of the length, the second
      completes the rest. */
  lemma JoinReads(talker: seq<Tagged>, length: nat, first: nat, n: nat, end: bool)
    requires first <= length && first <= |talker|
    requires forall k :: 0 <= k < first ==> !talker[k].eoi
    requires CompleteRead(talker[first..], length - first, n, end)
    requires first > 0 && n == 0 ==> !end
    ensures CompleteRead(talker, length, first + n, end)
  {
    forall k | 0 <= k < first + n - 1 ensures !talker[k].eoi {
      if first <= k {
        assert talker[k] == talker[first..][k - first];
      }
    }
    if n > 0 {
      assert talker[first + n - 1] == talker[first..][n - 1];
    }
  }
}
