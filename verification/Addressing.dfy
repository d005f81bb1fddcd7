/** The command strings the library compiles from addresses (ibCmd.c, ibRd.c,
    ibFindLstn.c) and what they do to the bus. */
module Addressing {
  import opened PlainBus
  import opened GpibUser
  import opened Ieee488

  // ---- compiled strings ----

  function TargetOfPacked(a: Addr4882): (t: Target)
    requires AddressIsValid(a) && a != NOADDR
    ensures LegalTarget(t)
  {
    RepackExtracted(a);
    Target(ExtractPAD(a), ExtractSAD(a))
  }

  function Targets(list: seq<Addr4882>): (r: seq<Target>)
    requires forall k :: 0 <= k < |list| ==> AddressIsValid(list[k]) && list[k] != NOADDR
    ensures |r| == |list|
    ensures forall k :: 0 <= k < |r| ==> r[k] == TargetOfPacked(list[k]) && LegalTarget(r[k])
  {
    seq(|list|, k requires 0 <= k < |list| => TargetOfPacked(list[k]))
  }

  function ListenAll(targets: seq<Target>): (r: seq<Byte>)
    ensures |r| <= 2 * |targets|
  {
    if targets == [] then []
    else ListenAll(targets[..|targets| - 1]) + ListenBytes(targets[|targets| - 1])
  }

  function SendSetupBytes(board: Target, targets: seq<Target>): (r: seq<Byte>)
    ensures |r| <= 3 + 2 * |targets|
  {
    TalkBytes(board) + [UNL] + ListenAll(targets)
  }

  function ReceiveSetupBytes(board: Target, talker: Target): (r: seq<Byte>)
    ensures |r| <= 5
  {
    [UNL] + ListenBytes(board) + TalkBytes(talker)
  }

  // ---- what they mean ----

  ghost predicate Reached(targets: seq<Target>, a: Address) {
    exists k :: 0 <= k < |targets| && Reaches(targets[k], a)
  }

  ghost predicate Named(targets: seq<Target>, a: Address) {
    exists k :: 0 <= k < |targets| && Names(targets[k], a)
  }

  ghost predicate SoleTalker(bus: Bus, talker: nat) {
    forall i :: 0 <= i < |bus| ==> (bus[i].talker <==> i == talker)
  }

  lemma {:induction false} ListenAllEffect(d: Device, targets: seq<Target>)
    requires Legal(d.address)
    requires forall k :: 0 <= k < |targets| ==> LegalTarget(targets[k])
    ensures var r := ReceiveAll(d, ListenAll(targets));
      && (r.listener <==> d.listener || Reached(targets, d.address))
      && (r.talker <==> d.talker && !(d.untalkOnListen && Reached(targets, d.address)))
      && r.spms == d.spms
    decreases |targets|
  {
    if targets != [] {
      var init, last := targets[..|targets| - 1], targets[|targets| - 1];
      ListenAllEffect(d, init);
      ReceiveAllAppend(d, ListenAll(init), ListenBytes(last));
      ListenEffect(ReceiveAll(d, ListenAll(init)), last);
      assert Reached(targets, d.address) <==> Reached(init, d.address) || Reaches(last, d.address) by {
        if Reached(targets, d.address) {
          var k :| 0 <= k < |targets| && Reaches(targets[k], d.address);
          assert k < |init| ==> Reaches(init[k], d.address);
        }
        if Reached(init, d.address) {
          var k :| 0 <= k < |init| && Reaches(init[k], d.address);
          assert Reaches(targets[k], d.address);
        }
      }
    }
  }

  /** One instrument's view of the send setup string, from any prior state. */
  lemma SendSetupOne(d: Device, board: Target, targets: seq<Target>)
    requires Legal(d.address) && LegalTarget(board)
    requires forall k :: 0 <= k < |targets| ==> LegalTarget(targets[k])
    requires d.address.pad == board.pad && d.address.Extended? ==> board.sad >= 0
    ensures var r := ReceiveAll(d, SendSetupBytes(board, targets));
      && (r.listener <==> Reached(targets, d.address))
      && (r.talker <==> Reaches(board, d.address)
                        && !(d.untalkOnListen && Reached(targets, d.address)))
      && r.spms == d.spms
  {
    hide Receive;
    var a := ReceiveAll(d, TalkBytes(board));
    var b := ReceiveAll(a, [UNL]);
    TalkEffect(d, board);
    assert !b.listener && b.talker == a.talker && b.spms == a.spms by {
      UnlistenEffect(a);
    }
    ReceiveAllAppend(d, TalkBytes(board), [UNL]);
    ReceiveAllAppend(d, TalkBytes(board) + [UNL], ListenAll(targets));
    ListenAllEffect(b, targets);
  }

  lemma UnlistenEffect(d: Device)
    ensures var r := ReceiveAll(d, [UNL]); !r.listener && r.talker == d.talker && r.spms == d.spms
  {
    ReceiveOne(d, UNL);
    assert InListenAddressGroup(UNL) && !InTalkAddressGroup(UNL);
    AddressBytesDecode(d.address.pad, d.address.pad);
    if d.address.Extended? {
      AddressBytesDecode(d.address.sad, d.address.sad);
    }
  }

  /** From every prior bus state, the send setup string makes the board the only talker and
      the instruments named by the list, no others, the listeners. */
  lemma SendSetupMeaning(bus: Bus, board: nat, targets: seq<Target>)
    requires WellFormed(bus) && board < |bus|
    requires forall k :: 0 <= k < |targets| ==> Fits(targets[k], bus)
    requires !Named(targets, bus[board].address)
    ensures var r := Run(bus, SendSetupBytes(TargetOf(bus[board].address), targets));
      && SoleTalker(r, board)
      && forall i :: 0 <= i < |bus| ==> (r[i].listener <==> Named(targets, bus[i].address))
  {
    var self := TargetOf(bus[board].address);
    forall i | 0 <= i < |bus|
      ensures var r := ReceiveAll(bus[i], SendSetupBytes(self, targets));
        && (r.talker <==> i == board)
        && (r.listener <==> Named(targets, bus[i].address))
    {
      var a := bus[i].address;
      assert forall k :: 0 <= k < |targets| ==>
          Fits(targets[k], bus) && (Reaches(targets[k], a) <==> Names(targets[k], a));
      SendSetupOne(bus[i], self, targets);
      assert Reached(targets, a) <==> Named(targets, a);
      assert Reaches(self, a) <==> i == board;
    }
  }

  /** From every prior bus state, the receive setup string makes the board the only
      listener and the named instrument the only talker. */
  lemma ReceiveSetupMeaning(bus: Bus, board: nat, device: nat)
    requires WellFormed(bus) && board < |bus| && device < |bus| && board != device
    ensures var r := Run(bus, ReceiveSetupBytes(TargetOf(bus[board].address),
                                                TargetOf(bus[device].address)));
      && SoleTalker(r, device)
      && forall i :: 0 <= i < |bus| ==> (r[i].listener <==> i == board)
  {
    var self, from := TargetOf(bus[board].address), TargetOf(bus[device].address);
    forall i | 0 <= i < |bus|
      ensures var r := ReceiveAll(bus[i], ReceiveSetupBytes(self, from));
        && (r.talker <==> i == device) && (r.listener <==> i == board)
    {
      ReceiveSetupOne(bus[i], self, from);
      assert Reaches(self, bus[i].address) <==> i == board;
      assert Reaches(from, bus[i].address) <==> i == device;
    }
  }

  lemma ReceiveSetupOne(d: Device, board: Target, from: Target)
    requires Legal(d.address) && LegalTarget(board) && LegalTarget(from)
    requires d.address.pad == from.pad && d.address.Extended? ==> from.sad >= 0
    ensures var r := ReceiveAll(d, ReceiveSetupBytes(board, from));
      && (r.talker <==> Reaches(from, d.address))
      && (r.listener <==> Reaches(board, d.address)
                          && !(d.unlistenOnTalk && Reaches(from, d.address)))
  {
    hide Receive;
    UnlistenEffect(d);
    var a := ReceiveAll(d, [UNL]);
    ListenEffect(a, board);
    var b := ReceiveAll(a, ListenBytes(board));
    TalkEffect(b, from);
    ReceiveAllAppend(d, [UNL], ListenBytes(board));
    ReceiveAllAppend(d, [UNL] + ListenBytes(board), TalkBytes(from));
  }

  /** `after` is the bus addressed for sending to `targets`, provided they fit it and do
      not name the board itself. */
  ghost predicate Addressed(before: Bus, after: Bus, board: nat, targets: seq<Target>)
    requires board < |before| == |after|
  {
    (forall k :: 0 <= k < |targets| ==> Fits(targets[k], before))
    && !Named(targets, before[board].address) ==>
      && SoleTalker(after, board)
      && forall i :: 0 <= i < |after| ==> (after[i].listener <==> Named(targets, after[i].address))
  }

  lemma SendSetupAddresses(bus: Bus, board: nat, targets: seq<Target>)
    requires WellFormed(bus) && board < |bus|
    ensures Addressed(bus, Run(bus, SendSetupBytes(TargetOf(bus[board].address), targets)), board, targets)
  {
    if (forall k :: 0 <= k < |targets| ==> Fits(targets[k], bus)) && !Named(targets, bus[board].address) {
      SendSetupMeaning(bus, board, targets);
    }
  }

  // ---- the methods ----

  // The answer of query_pad or query_sad, which can fail.
  datatype Query = QueryFailed | Answer(value: int)

  ghost function CreateSendSetupBytes(pad: Query, sad: Query, list: seq<Addr4882>): seq<Byte> {
    if !ListIsValid(list) || pad.QueryFailed? || sad.QueryFailed? || pad.value < 0 then []
    else SendSetupBytes(Target(pad.value, sad.value), Targets(Addresses(list)))
  }

  ghost function ValidTargets(list: seq<Addr4882>): (r: seq<Target>)
    requires ListIsValid(list)
    ensures |r| == |Addresses(list)| && r == Targets(Addresses(list))
    ensures forall k :: 0 <= k < |r| ==>
      AddressIsValid(Addresses(list)[k]) && Addresses(list)[k] != NOADDR
      && r[k] == TargetOfPacked(Addresses(list)[k])
  {
    Targets(Addresses(list))
  }

  lemma ListenAllNone(targets: seq<Target>)
    ensures ListenAll(targets[..0]) == []
  {
  }

  lemma ListenAllStep(talk: seq<Byte>, before: seq<Byte>, targets: seq<Target>, j: nat)
    requires j < |targets| && before == talk + ListenAll(targets[..j])
    ensures talk + ListenAll(targets[..j + 1])
            == before + [MLA(targets[j].pad)] + Secondary(targets[j].sad)
  {
    assert targets[..j + 1][..j] == targets[..j];
    assert ListenBytes(targets[j]) == [MLA(targets[j].pad)] + Secondary(targets[j].sad);
  }

  // Appends a primary address byte and, if there is one, its secondary.
  method PutAddress(cmdString: array<Byte>, i: nat, primary: Byte, sad: int) returns (next: nat)
    requires i + |Secondary(sad)| < cmdString.Length
    modifies cmdString
    ensures next == i + 1 + |Secondary(sad)|
    ensures cmdString[..next] == old(cmdString[..i]) + [primary] + Secondary(sad)
    ensures forall k :: next <= k < cmdString.Length ==> cmdString[k] == old(cmdString[k])
  {
    next := i;
    cmdString[next] := primary;
    next := next + 1;
    if sad >= 0 {
      cmdString[next] := MSA(sad);
      next := next + 1;
    }
  }

  // The loop over the address list.
  method PutListeners(addressList: array<Addr4882>, cmdString: array<Byte>, start: nat)
    returns (i: nat)
    requires Terminated(addressList[..]) && ListIsValid(addressList[..])
    requires start + 2 * |Addresses(addressList[..])| <= cmdString.Length
    requires addressList as object != cmdString
    modifies cmdString
    ensures start <= i <= start + 2 * |Addresses(addressList[..])|
    ensures cmdString[..i]
            == old(cmdString[..start]) + ListenAll(Targets(Addresses(addressList[..])))
    ensures forall k :: start + 2 * |Addresses(addressList[..])| <= k < cmdString.Length ==>
              cmdString[k] == old(cmdString[k])
  {
    hide ListIsValid, MLA, MSA, ExtractPAD, ExtractSAD, ListenAll;
    ghost var list := addressList[..];
    ghost var addresses := Addresses(list);
    ghost var talk := cmdString[..start];
    ghost var targets := ValidTargets(list);
    ghost var room := start + 2 * |addresses|;
    i := start;
    var n := NumAddresses(addressList);
    var j := 0;
    ListenAllNone(targets);
    while j < n
      invariant j <= n == |addresses|
      invariant start <= i <= start + 2 * j
      invariant cmdString[..i] == talk + ListenAll(targets[..j])
      invariant forall k :: room <= k < cmdString.Length ==> cmdString[k] == old(cmdString[k])
    {
      assert addressList[j] == list[j] == addresses[j];
      assert targets[j] == TargetOfPacked(addresses[j]);
      ListenAllStep(talk, cmdString[..i], targets, j);
      i := PutAddress(cmdString, i, MLA(ExtractPAD(addressList[j])), ExtractSAD(addressList[j]));
      j := j + 1;
    }
    assert targets[..n] == targets;
  }

  /** Fills `cmdString` and returns how much of it is used; zero when the list is null or
      malformed or the board cannot be asked for its address. Bytes past the longest string
      the list can need are never touched. */
  method CreateSendSetup(pad: Query, sad: Query, addressList: array?<Addr4882>,
                         cmdString: array<Byte>)
    returns (i: nat)
    requires addressList != null ==> Terminated(addressList[..])
    requires addressList != null ==> addressList as object != cmdString
    requires addressList != null ==> 3 + 2 * |Addresses(addressList[..])| <= cmdString.Length
    requires pad.Answer? ==> pad.value >= 0
    modifies cmdString
    ensures i <= cmdString.Length
    ensures cmdString[..i] == if addressList == null then []
                              else CreateSendSetupBytes(pad, sad, addressList[..])
    ensures forall k :: 0 <= k < cmdString.Length
                        && (addressList != null ==> 3 + 2 * |Addresses(addressList[..])| <= k) ==>
              cmdString[k] == old(cmdString[k])
  {
    if addressList == null {
      return 0;
    }
    var valid := AddressListIsValid(addressList);
    if !valid {
      return 0;
    }
    i := 0;
    if pad.QueryFailed? {
      return 0;
    }
    ghost var addresses := Addresses(addressList[..]);
    ghost var targets := Targets(addresses);
    if sad.QueryFailed? {
      cmdString[i] := MTA(pad.value);
      return 0;
    }
    i := PutAddress(cmdString, i, MTA(pad.value), sad.value);
    cmdString[i] := UNL;
    i := i + 1;
    ghost var talk := TalkBytes(Target(pad.value, sad.value)) + [UNL];
    assert cmdString[..i] == talk;
    i := PutListeners(addressList, cmdString, i);
  }

  // How much of a command string goes out, and whether an error is reported all the same.
  datatype IbcmdCall = IbcmdCall(sent: nat, fails: bool) {
    predicate Succeeds(count: nat) { sent >= count && !fails }

    function Part(bytes: seq<Byte>): (r: seq<Byte>)
      ensures r <= bytes
      ensures Succeeds(|bytes|) ==> r == bytes
    {
      bytes[..if sent < |bytes| then sent else |bytes|]
    }
  }

  /** The library's side of one board: the bus it commands, and the board's place on it. */
  class Controller {
    var bus: Bus
    const board: nat

    ghost predicate Valid() reads this {
      WellFormed(bus) && board < |bus|
    }

    function Self(): Target
      requires board < |bus|
      reads this
    {
      TargetOf(bus[board].address)
    }

    constructor (bus: Bus, board: nat)
      requires WellFormed(bus) && board < |bus|
      ensures Valid() && this.bus == bus && this.board == board
    {
      this.bus := bus;
      this.board := board;
    }

    // query_pad and query_sad: the board's own address, or a failed ioctl.
    method QueryPad(works: bool) returns (q: Query)
      requires Valid()
      ensures q == if works then Answer(Self().pad) else QueryFailed
    {
      q := if works then Answer(Self().pad) else QueryFailed;
    }

    method QuerySad(works: bool) returns (q: Query)
      requires Valid()
      ensures q == if works then Answer(Self().sad) else QueryFailed
    {
      q := if works then Answer(Self().sad) else QueryFailed;
    }

    /** The command ioctl: as much of the string goes out as the call says, and the result is -1
        unless all of it did and the call reports no error. */
    method MyIbcmd(buffer: array<Byte>, count: nat, call: IbcmdCall) returns (r: int)
      requires Valid() && count <= buffer.Length
      modifies this
      ensures Valid() && bus == Run(old(bus), call.Part(buffer[..count]))
      ensures r == if call.Succeeds(count) then count else -1
    {
      var n := if call.sent < count then call.sent else count;
      bus := Run(bus, buffer[..n]);
      assert buffer[..n] == call.Part(buffer[..count]);
      r := if n == count && !call.fails then count else -1;
    }

    /** Succeeds exactly if the list is valid and not empty, the descriptor is a board in charge,
        there is memory and the command goes out. The board is then sole talker and exactly
        the named instruments listen, unless the board's own address could not be read: then
        nothing is sent and success is reported all the same. */
    method InternalSendSetup(list: array?<Addr4882>, isInterface: bool, cic: int,
                             padWorks: bool, sadWorks: bool, gotMemory: bool, call: IbcmdCall)
      returns (retval: int)
      requires Valid()
      requires list != null ==> Terminated(list[..])
      modifies this
      ensures Valid() && (retval == 0 || retval == -1)
      ensures retval == 0 <==>
        && list != null && ListIsValid(list[..]) && Addresses(list[..]) != []
        && isInterface && cic > 0 && gotMemory
        && call.Succeeds(|SetupString(padWorks, sadWorks, list[..])|)
      ensures bus == old(bus)
              || (list != null
                  && bus == Run(old(bus), call.Part(old(SetupString(padWorks, sadWorks, list[..])))))
      ensures retval == 0 ==> bus == Run(old(bus), old(SetupString(padWorks, sadWorks, list[..])))
      ensures retval == 0 && !(padWorks && sadWorks) ==> bus == old(bus)
      ensures retval == 0 && padWorks && sadWorks ==>
        Addressed(old(bus), bus, board, Targets(Addresses(list[..])))
    {
      hide Receive, MLA, MTA, MSA, ReceiveAll;
      var valid := AddressListIsValid(list);
      var n := NumAddresses(list);
      if !valid || n == 0 || !isInterface || cic <= 0 {
        return -1;
      }
      if !gotMemory {
        return -1;
      }
      var cmd := new Byte[16 + 2 * n];
      var qp := QueryPad(padWorks);
      var qs := QuerySad(sadWorks);
      var i := CreateSendSetup(qp, qs, list, cmd);
      ghost var bytes := cmd[..i];
      ghost var before := bus;
      assert bytes == SetupString(padWorks, sadWorks, list[..]);
      var count := MyIbcmd(cmd, i, call);
      if count != i {
        return -1;
      }
      retval := 0;
      assert call.Part(bytes) == bytes;
      if padWorks && sadWorks {
        ghost var targets := Targets(Addresses(list[..]));
        assert bytes == SendSetupBytes(TargetOf(before[board].address), targets);
        SendSetupAddresses(before, board, targets);
      } else {
        RunNothing(before);
      }
    }

    // What create_send_setup makes of a list, given which of its two queries work.
    ghost function SetupString(padWorks: bool, sadWorks: bool, list: seq<Addr4882>): seq<Byte>
      requires board < |bus|
      reads this
    {
      CreateSendSetupBytes(if padWorks then Answer(Self().pad) else QueryFailed,
                           if sadWorks then Answer(Self().sad) else QueryFailed, list)
    }

    /** send_setup for one instrument: the eight-byte buffer is always large enough, and it
        succeeds exactly if the command goes out. */
    method SendSetup(settingsPad: nat, settingsSad: int, padWorks: bool, sadWorks: bool, call: IbcmdCall)
      returns (retval: int)
      requires Valid()
      modifies this
      ensures Valid() && (retval == 0 || retval == -1)
      ensures var list := [PackAddress(settingsPad, settingsSad), NOADDR];
        && (retval == 0 <==> call.Succeeds(|SetupString(padWorks, sadWorks, list)|))
        && bus == Run(old(bus), call.Part(old(SetupString(padWorks, sadWorks, list))))
        && (retval == 0 ==> bus == Run(old(bus), old(SetupString(padWorks, sadWorks, list))))
        && (retval == 0 && ListIsValid(list) && padWorks && sadWorks ==>
              Addressed(old(bus), bus, board, Targets(Addresses(list))))
    {
      hide Receive, MLA, MTA, MSA, ReceiveAll, PackAddress, ListIsValid, AddressIsValid;
      var cmdString := new Byte[8];
      var addressList := new Addr4882[2];
      addressList[0] := PackAddress(settingsPad, settingsSad);
      addressList[1] := NOADDR;
      ghost var list := [PackAddress(settingsPad, settingsSad), NOADDR];
      assert addressList[..] == list;
      AddressesOfOne(addressList[0]);
      var qp := QueryPad(padWorks);
      var qs := QuerySad(sadWorks);
      var i := CreateSendSetup(qp, qs, addressList, cmdString);
      assert addressList[..] == list;
      ghost var before, bytes := bus, cmdString[..i];
      assert bytes == SetupString(padWorks, sadWorks, list);
      var count := MyIbcmd(cmdString, i, call);
      retval := if count < 0 then -1 else 0;
      if ListIsValid(list) && padWorks && sadWorks {
        SendSetupAddresses(before, board, ValidTargets(list));
      }
    }

    /** Succeeds exactly if the address is valid, the board's own can be read and the command
        goes out; the board is then sole listener and, when the address names another
        instrument on the bus, that instrument sole talker. */
    method InternalReceiveSetup(address: Addr4882, padWorks: bool, sadWorks: bool, call: IbcmdCall)
      returns (retval: int)
      requires Valid()
      modifies this
      ensures Valid() && (retval == 0 || retval == -1)
      ensures retval == 0 <==>
        && AddressIsValid(address) && address != NOADDR && padWorks && sadWorks
        && call.Succeeds(|ReceiveSetupBytes(Self(), TargetOfPacked(address))|)
      ensures retval == 0 ==>
        bus == Run(old(bus), ReceiveSetupBytes(old(Self()), TargetOfPacked(address)))
      ensures retval == 0 ==>
        forall device: nat | device < |bus| && device != board
                             && TargetOf(old(bus)[device].address) == TargetOfPacked(address) ::
          SoleTalker(bus, device) && (forall i :: 0 <= i < |bus| ==> (bus[i].listener <==> i == board))
    {
      hide Receive, MLA, MTA, MSA, ReceiveAll;
      if !AddressIsValid(address) || address == NOADDR {
        return -1;
      }
      var cmdString := new Byte[8];
      var boardPad := QueryPad(padWorks);
      if boardPad.QueryFailed? {
        return -1;
      }
      var boardSad := QuerySad(sadWorks);
      if boardSad.QueryFailed? {
        return -1;
      }
      var to := TargetOfPacked(address);
      var i: nat := 0;
      cmdString[i] := UNL;
      i := i + 1;
      i := PutAddress(cmdString, i, MLA(boardPad.value), boardSad.value);
      i := PutAddress(cmdString, i, MTA(to.pad), to.sad);
      ghost var before, self := bus, Self();
      assert cmdString[..i] == ReceiveSetupBytes(self, to);
      var count := MyIbcmd(cmdString, i, call);
      if count < 0 {
        return -1;
      }
      assert call.Part(cmdString[..i]) == cmdString[..i];
      forall device: nat | device < |before| && device != board && TargetOf(before[device].address) == to
        ensures SoleTalker(bus, device)
        ensures forall i :: 0 <= i < |bus| ==> (bus[i].listener <==> i == board)
      {
        ReceiveSetupMeaning(before, board, device);
      }
      retval := 0;
    }
  }

  lemma AddressesOfOne(a: Addr4882)
    ensures Terminated([a, NOADDR]) && |Addresses([a, NOADDR])| <= 1
  {
    assert [a, NOADDR][1] == NOADDR;
    assert [a, NOADDR][1..] == [NOADDR];
  }

  lemma RunNothing(bus: Bus)
    ensures Run(bus, []) == bus
  {
  }
}
