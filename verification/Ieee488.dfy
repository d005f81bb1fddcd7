/** What command bytes do to the instruments that receive them: the talker, extended talker,
    listener and extended listener functions of sections 2.5 and 2.6 of IEEE Std
    488.1-1987, with the serial poll mode of the talker functions. */
module Ieee488 {
  import opened PlainBus
  import opened GpibUser

  datatype Address = Plain(pad: nat) | Extended(pad: nat, sad: nat)

  /** One instrument. The two options say whether it drops its talk address when it is made
      a listener, and the other way round; the standard leaves both to the designer.
      `tpas` and `lpas` are the talker and listener primary addressed states. */
  datatype Device = Device(
    address: Address,
    untalkOnListen: bool,
    unlistenOnTalk: bool,
    talker: bool,
    listener: bool,
    tpas: bool,
    lpas: bool,
    spms: bool)

  type Bus = seq<Device>

  // Reception of one command byte with ATN asserted; DIO8 is ignored.
  function Receive(d: Device, command: Byte): Device {
    var c: Byte := command % 128;
    var mla := c == MLA(d.address.pad);
    var mta := c == MTA(d.address.pad);
    var spms := if c == SPE then true else if c == SPD then false else d.spms;
    match d.address
    case Plain(_) =>
      d.(talker := mta || (d.talker && !InTalkAddressGroup(c) && !(mla && d.untalkOnListen)),
         listener := mla || (d.listener && c != UNL && !(mta && d.unlistenOnTalk)),
         spms := spms)
    case Extended(_, sad) =>
      var pcg := InPrimaryCommandGroup(c);
      var msa := c == MSA(sad);
      var osa := !pcg && !msa;
      d.(talker := (msa && d.tpas)
                   || (d.talker && !(InTalkAddressGroup(c) && !mta) && !(osa && d.tpas)
                       && !(msa && d.lpas && d.untalkOnListen)),
         listener := (msa && d.lpas)
                     || (d.listener && c != UNL && !(msa && d.tpas && d.unlistenOnTalk)),
         tpas := mta || (d.tpas && !pcg),
         lpas := mla || (d.lpas && !pcg),
         spms := spms)
  }

  function ReceiveAll(d: Device, commands: seq<Byte>): (r: Device)
    ensures r.address == d.address
    ensures r.untalkOnListen == d.untalkOnListen && r.unlistenOnTalk == d.unlistenOnTalk
    decreases |commands|
  {
    if commands == [] then d else ReceiveAll(Receive(d, commands[0]), commands[1..])
  }

  function Run(bus: Bus, commands: seq<Byte>): (r: Bus)
    ensures |r| == |bus|
    ensures forall i :: 0 <= i < |bus| ==> r[i] == ReceiveAll(bus[i], commands)
  {
    seq(|bus|, i requires 0 <= i < |bus| => ReceiveAll(bus[i], commands))
  }

  lemma {:induction false} ReceiveAllAppend(d: Device, a: seq<Byte>, b: seq<Byte>)
    ensures ReceiveAll(d, a + b) == ReceiveAll(ReceiveAll(d, a), b)
    decreases |a|
  {
    if a == [] {
      assert a + b == b;
    } else {
      assert (a + b)[1..] == a[1..] + b;
      ReceiveAllAppend(Receive(d, a[0]), a[1..], b);
    }
  }

  predicate Legal(address: Address) {
    address.pad <= GPIB_ADDR_MAX && (address.Extended? ==> address.sad <= GPIB_SAD_MAX)
  }

  /** Legal addresses, no two instruments at one address, and each primary address used
      either plain or extended but not both. */
  ghost predicate WellFormed(bus: Bus) {
    && (forall i :: 0 <= i < |bus| ==> Legal(bus[i].address))
    && (forall i, j :: 0 <= i < j < |bus| && bus[i].address.pad == bus[j].address.pad ==>
          bus[i].address.Extended? && bus[j].address.Extended?
          && bus[i].address.sad != bus[j].address.sad)
  }

  // ---- addresses as the library and the driver name them: sad negative means none ----

  datatype Target = Target(pad: nat, sad: int)

  predicate LegalTarget(t: Target) {
    t.pad <= GPIB_ADDR_MAX && t.sad <= GPIB_SAD_MAX
  }

  // The instrument responds when the bytes for `t` go out. A plain one ignores secondaries.
  predicate Reaches(t: Target, a: Address) {
    t.pad == a.pad && (a.Extended? ==> t.sad == a.sad)
  }

  predicate Names(t: Target, a: Address) {
    t.pad == a.pad && if a.Extended? then t.sad == a.sad else t.sad < 0
  }

  // `t` is written with a secondary address exactly if that primary address is extended.
  ghost predicate Fits(t: Target, bus: Bus) {
    LegalTarget(t)
    && forall i :: 0 <= i < |bus| && bus[i].address.pad == t.pad ==>
         (bus[i].address.Extended? <==> t.sad >= 0)
  }

  function TargetOf(a: Address): Target {
    if a.Extended? then Target(a.pad, a.sad) else Target(a.pad, -1)
  }

  function Secondary(sad: int): seq<Byte> {
    if sad >= 0 then [MSA(sad)] else []
  }

  function ListenBytes(t: Target): seq<Byte> { [MLA(t.pad)] + Secondary(t.sad) }

  function TalkBytes(t: Target): seq<Byte> { [MTA(t.pad)] + Secondary(t.sad) }

  // Unfolds ReceiveAll for the one- and two-byte strings.
  lemma ReceiveAddress(d: Device, first: Byte, sad: int)
    ensures ReceiveAll(d, [first] + Secondary(sad))
            == if sad >= 0 then Receive(Receive(d, first), MSA(sad)) else Receive(d, first)
  {
    if sad >= 0 {
      var bytes := [first] + Secondary(sad);
      assert bytes[1..] == [MSA(sad)];
      assert bytes[1..][1..] == [];
      assert ReceiveAll(Receive(d, first), bytes[1..]) == Receive(Receive(d, first), MSA(sad));
    } else {
      assert ([first] + Secondary(sad))[1..] == [];
    }
  }

  lemma ReceiveOne(d: Device, c: Byte)
    ensures ReceiveAll(d, [c]) == Receive(d, c)
  {
    assert [c][1..] == [];
  }

  // One talk, listen or secondary address, with the byte coding resolved.
  lemma ReceiveMta(d: Device, pad: nat)
    requires Legal(d.address) && pad <= GPIB_ADDR_MAX
    ensures var same := pad == d.address.pad;
      Receive(d, MTA(pad))
      == if d.address.Plain?
         then d.(talker := same, listener := d.listener && !(same && d.unlistenOnTalk))
         else d.(talker := d.talker && same, tpas := same, lpas := false)
  {
    AddressBytesDecode(pad, d.address.pad);
    assert InTalkAddressGroup(MTA(pad)) && !InListenAddressGroup(MTA(pad));
  }

  lemma ReceiveMla(d: Device, pad: nat)
    requires Legal(d.address) && pad <= GPIB_ADDR_MAX
    ensures var same := pad == d.address.pad;
      Receive(d, MLA(pad))
      == if d.address.Plain?
         then d.(listener := d.listener || same, talker := d.talker && !(same && d.untalkOnListen))
         else d.(tpas := false, lpas := same)
  {
    AddressBytesDecode(pad, d.address.pad);
    assert InListenAddressGroup(MLA(pad)) && !InTalkAddressGroup(MLA(pad));
  }

  lemma ReceiveMsa(d: Device, sad: nat)
    requires Legal(d.address) && sad <= GPIB_SAD_MAX
    ensures d.address.Plain? ==> Receive(d, MSA(sad)) == d
    ensures d.address.Extended? ==>
      var same := sad == d.address.sad;
      Receive(d, MSA(sad))
      == d.(talker := if same then d.tpas || (d.talker && !(d.lpas && d.untalkOnListen))
                      else d.talker && !d.tpas,
            listener := if same then d.lpas || (d.listener && !(d.tpas && d.unlistenOnTalk))
                        else d.listener)
  {
    MsaIsApart(sad, d.address.pad);
    if d.address.Extended? {
      AddressBytesDecode(sad, d.address.sad);
    }
    hide MLA, MTA, MSA, InPrimaryCommandGroup, InTalkAddressGroup;
  }

  lemma MsaIsApart(sad: nat, pad: nat)
    ensures MSA(sad) % 128 == MSA(sad)
    ensures !InPrimaryCommandGroup(MSA(sad)) && !InTalkAddressGroup(MSA(sad))
    ensures MSA(sad) !in {UNL, SPE, SPD, MLA(pad), MTA(pad)}
  {
    AddressBytesDecode(sad, pad);
    assert MSA(sad) / 32 == 3 && MLA(pad) / 32 == 1 && MTA(pad) / 32 == 2;
  }

  /** Addressed and universal commands leave talkers and listeners as they are, and of them only
      SPE and SPD change the serial poll mode. Unlisten and untalk reach every instrument. */
  lemma ReceiveOthers(d: Device, command: Byte)
    requires Legal(d.address) && command < 128
    ensures command < 32 ==>
      var r := Receive(d, command);
      && r.talker == d.talker && r.listener == d.listener
      && r.spms == (if command == SPE then true else if command == SPD then false else d.spms)
    ensures !Receive(d, UNL).listener && Receive(d, UNL).talker == d.talker
    ensures !Receive(d, UNT).talker && Receive(d, UNT).listener == d.listener
  {
    AddressBytesDecode(d.address.pad, d.address.pad);
    if d.address.Extended? {
      MsaIsApart(d.address.sad, d.address.pad);
      assert MSA(d.address.sad) / 32 == 3;
    }
    assert MLA(d.address.pad) / 32 == 1 && MTA(d.address.pad) / 32 == 2;
    assert UNL / 32 == 1 && UNT / 32 == 2;
  }

  /** A listen address adds exactly the instruments it reaches to the listeners, from any
      state; talkers change only where the unaddress option says so. */
  lemma ListenEffect(d: Device, t: Target)
    requires Legal(d.address) && LegalTarget(t)
    ensures var r := ReceiveAll(d, ListenBytes(t));
      && r.listener == (d.listener || Reaches(t, d.address))
      && r.talker == (d.talker && !(d.untalkOnListen && Reaches(t, d.address)))
      && r.spms == d.spms
  {
    hide Receive;
    ReceiveAddress(d, MLA(t.pad), t.sad);
    ReceiveMla(d, t.pad);
    if t.sad >= 0 {
      ReceiveMsa(Receive(d, MLA(t.pad)), t.sad);
    }
  }

  /** A talk address leaves no talker but the instrument it reaches, from any state, except
      that a bare primary does not disturb an extended talker of that same primary. */
  lemma TalkEffect(d: Device, t: Target)
    requires Legal(d.address) && LegalTarget(t)
    ensures var r := ReceiveAll(d, TalkBytes(t));
      && r.talker == (Reaches(t, d.address)
                      || (d.talker && d.address.Extended? && t.pad == d.address.pad && t.sad < 0))
      && r.listener == (d.listener && !(d.unlistenOnTalk && Reaches(t, d.address)))
      && r.spms == d.spms
  {
    hide Receive;
    ReceiveAddress(d, MTA(t.pad), t.sad);
    ReceiveMta(d, t.pad);
    if t.sad >= 0 {
      ReceiveMsa(Receive(d, MTA(t.pad)), t.sad);
    }
  }
}
