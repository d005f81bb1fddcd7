/** Command bytes and packed addresses, as gpib_user.h and ibutil.c define them. The C bit
    operations on these small unsigned values are written as division and remainder. */
module GpibUser {
  import opened PlainBus

  const SPE: Byte := 0x18
  const SPD: Byte := 0x19
  const LAD: Byte := 0x20
  const UNL: Byte := 0x3F
  const TAD: Byte := 0x40
  const UNT: Byte := 0x5F
  const SAD: Byte := 0x60

  const GPIB_ADDR_MAX := 30
  const GPIB_SAD_MAX := 31

  // confine address to range 0 to 30
  function AddressRestrict(addr: nat): (r: nat)
    ensures r <= GPIB_ADDR_MAX
  {
    if addr % 32 == 31 then 0 else addr % 32
  }

  function MLA(addr: nat): Byte { LAD + AddressRestrict(addr) }

  function MTA(addr: nat): Byte { TAD + AddressRestrict(addr) }

  function MSA(addr: nat): Byte { SAD + addr % 32 }

  predicate InAddressedCommandGroup(command: Byte) { command / 16 % 8 == 0 }

  predicate InUniversalCommandGroup(command: Byte) { command / 16 % 8 == 1 }

  predicate InListenAddressGroup(command: Byte) { command / 32 % 4 == 1 }

  predicate InTalkAddressGroup(command: Byte) { command / 32 % 4 == 2 }

  predicate InPrimaryCommandGroup(command: Byte) {
    || InAddressedCommandGroup(command)
    || InUniversalCommandGroup(command)
    || InListenAddressGroup(command)
    || InTalkAddressGroup(command)
  }

  predicate AddressEqual(pad1: nat, sad1: int, pad2: nat, sad2: int) {
    pad1 == pad2 && (sad1 == sad2 || (sad1 < 0 && sad2 < 0))
  }

  /** The bytes built from addresses fall in the groups the bus decodes them in; no listen
      address can be mistaken for UNL nor a talk address for UNT, and for legal addresses
      distinct addresses give distinct bytes. */
  lemma AddressBytesDecode(a: nat, b: nat)
    ensures InListenAddressGroup(MLA(a)) && MLA(a) != UNL
    ensures InTalkAddressGroup(MTA(a)) && MTA(a) != UNT
    ensures !InPrimaryCommandGroup(MSA(a))
    ensures a <= GPIB_ADDR_MAX && b <= GPIB_ADDR_MAX ==>
              (MLA(a) == MLA(b) <==> a == b) && (MTA(a) == MTA(b) <==> a == b)
    ensures a <= GPIB_SAD_MAX && b <= GPIB_SAD_MAX ==> (MSA(a) == MSA(b) <==> a == b)
  {
    assert MLA(a) / 32 == 1 && MTA(a) / 32 == 2 && MSA(a) / 32 == 3;
    assert MSA(a) / 16 == 6 || MSA(a) / 16 == 7;
  }

  // ---- packed addresses (Addr4882_t is a 16-bit unsigned integer) ----

  type Addr4882 = a: int | 0 <= a < 0x1_0000

  const NOADDR: Addr4882 := 0xFFFF
  const NO_SAD := 0
  const SAD_DISABLED := -1
  const ADDR_INVALID := -2

  function ExtractPAD(address: Addr4882): int {
    var pad := address % 256;
    if address == NOADDR then ADDR_INVALID
    else if pad > GPIB_ADDR_MAX then ADDR_INVALID
    else pad
  }

  function ExtractSAD(address: Addr4882): int {
    var sad := address / 256;
    if address == NOADDR then ADDR_INVALID
    else if sad == NO_SAD then SAD_DISABLED
    else if sad / 32 % 4 == 0 then ADDR_INVALID
    else
      var low := sad / 128 * 128 + sad % 32;  // sad with the two address bits cleared
      if low > GPIB_SAD_MAX then ADDR_INVALID else low
  }

  // sad with the two secondary address bits set, low byte only
  function SadByte(sad: nat): Byte { sad / 128 % 2 * 128 + 0x60 + sad % 32 }

  function PackAddress(pad: nat, sad: int): Addr4882 {
    pad % 256 + if sad >= 0 then SadByte(sad) * 256 else 0
  }

  predicate AddressIsValid(address: Addr4882) {
    address == NOADDR || (ExtractPAD(address) != ADDR_INVALID && ExtractSAD(address) != ADDR_INVALID)
  }

  /** A valid address has a legal primary byte, and either no secondary byte or one with at least
      one of the two address bits, the top bit clear and legal low bits; those are what is
      extracted. */
  lemma ValidExactly(address: Addr4882)
    ensures var pad, sad := address % 256, address / 256;
      && (AddressIsValid(address) <==>
            address == NOADDR
            || (pad <= GPIB_ADDR_MAX
                && (sad == NO_SAD || (0x20 <= sad < 0x80 && sad % 32 <= GPIB_SAD_MAX))))
      && (AddressIsValid(address) && address != NOADDR ==>
            ExtractPAD(address) == pad
            && ExtractSAD(address) == if sad == NO_SAD then SAD_DISABLED else sad % 32)
  {
    var sad := address / 256;
    assert sad / 128 == 0 || sad / 128 == 1;
    if sad < 128 {
      assert sad / 32 % 4 == sad / 32;
    }
  }

  /** Packing then extracting gives back exactly what was packed precisely for the legal
      addresses; a larger primary address is truncated to eight bits before the check. */
  lemma UnpackPacked(pad: nat, sad: int)
    requires sad >= -1
    ensures (ExtractPAD(PackAddress(pad, sad)) == pad && ExtractSAD(PackAddress(pad, sad)) == sad)
            <==> pad <= GPIB_ADDR_MAX && sad <= GPIB_SAD_MAX
  {
    var a := PackAddress(pad, sad);
    if sad >= 0 {
      var s := SadByte(sad);
      assert a == s * 256 + pad % 256;
      assert a / 256 == s && a % 256 == pad % 256;
      assert s / 32 % 4 == 3;
      assert s / 128 == sad / 128 % 2 && s % 32 == sad % 32;
    } else {
      assert a / 256 == 0 && a % 256 == pad % 256;
    }
  }

  /** The other direction: repacking a valid address gives it back exactly when its
      secondary byte is absent or written with both address bits set. */
  lemma RepackExtracted(address: Addr4882)
    requires AddressIsValid(address) && address != NOADDR
    ensures PackAddress(ExtractPAD(address), ExtractSAD(address)) == address
            <==> address / 256 == NO_SAD || 0x60 <= address / 256 < 0x80
    ensures 0 <= ExtractPAD(address) <= GPIB_ADDR_MAX
    ensures -1 <= ExtractSAD(address) <= GPIB_SAD_MAX
  {
    var high := address / 256;
    assert address == high * 256 + address % 256;
    if high != NO_SAD {
      assert high / 128 == 0;
      assert SadByte(ExtractSAD(address)) == 0x60 + high % 32;
      assert PackAddress(ExtractPAD(address), ExtractSAD(address))
             == address % 256 + (0x60 + high % 32) * 256;
    }
  }

  // ---- address lists, terminated by NOADDR ----

  ghost predicate Terminated(list: seq<Addr4882>) { NOADDR in list }

  // The addresses before the terminator.
  function Addresses(list: seq<Addr4882>): (r: seq<Addr4882>)
    ensures NOADDR !in r
    ensures Terminated(list) ==> |r| < |list| && list[|r|] == NOADDR
    ensures r <= list
  {
    if list == [] || list[0] == NOADDR then [] else [list[0]] + Addresses(list[1..])
  }

  ghost predicate ListIsValid(list: seq<Addr4882>) {
    forall k :: 0 <= k < |Addresses(list)| ==> AddressIsValid(Addresses(list)[k])
  }

  method NumAddresses(list: array?<Addr4882>) returns (count: nat)
    requires list != null ==> Terminated(list[..])
    ensures count == if list == null then 0 else |Addresses(list[..])|
  {
    if list == null {
      return 0;
    }
    ghost var addresses := Addresses(list[..]);
    assert forall k :: 0 <= k < |addresses| ==> addresses[k] == list[k] && list[k] != NOADDR;
    count := 0;
    while list[count] != NOADDR
      invariant count <= |addresses| < list.Length
      decreases list.Length - count
    {
      count := count + 1;
    }
  }

  method AddressListIsValid(list: array?<Addr4882>) returns (valid: bool)
    requires list != null ==> Terminated(list[..])
    ensures valid <==> list == null || ListIsValid(list[..])
  {
    if list == null {
      return true;
    }
    ghost var addresses := Addresses(list[..]);
    assert forall k :: 0 <= k < |addresses| ==> addresses[k] == list[k] && list[k] != NOADDR;
    var i := 0;
    while list[i] != NOADDR
      invariant i <= |addresses| < list.Length
      invariant forall k :: 0 <= k < i ==> AddressIsValid(addresses[k])
      decreases list.Length - i
    {
      if !AddressIsValid(list[i]) {
        return false;
      }
      i := i + 1;
    }
    valid := true;
  }
}
