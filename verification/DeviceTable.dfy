/** The board's list of open device addresses and the descriptors of the files that opened
    them (gpib_os.c). The list counts, per address, how many descriptors have it open. */
module DeviceTable {
  import opened PlainBus
  import opened GpibUser
  import opened StatusQueues
  import opened Errno

  const MAX_DESCRIPTORS := 0x1000

  datatype Descriptor = Descriptor(pad: nat, sad: int, isBoard: bool)

  datatype Slot = Free | Live(desc: Descriptor)

  datatype Entry = Entry(pad: nat, sad: int, refs: nat)

  type Files = map<int, seq<Slot>>

  datatype Table = Table(entries: seq<Entry>, files: Files)

  // All negative secondary addresses are one address.
  datatype Key = Key(pad: nat, sad: int)

  function KeyOf(pad: nat, sad: int): Key { Key(pad, if sad < 0 then -1 else sad) }

  lemma KeysAgree(pad1: nat, sad1: int, pad2: nat, sad2: int)
    ensures AddressEqual(pad1, sad1, pad2, sad2) <==> KeyOf(pad1, sad1) == KeyOf(pad2, sad2)
  {
  }

  function EntryKey(e: Entry): Key { KeyOf(e.pad, e.sad) }

  // ---- what the list should say ----

  ghost predicate Opens(s: Slot, key: Key) {
    s.Live? && KeyOf(s.desc.pad, s.desc.sad) == key
  }

  /** The descriptors that have an address open: all but the one each file has of itself,
      its handle 0. */
  ghost function Holders(files: Files, key: Key): set<(int, int)> {
    set f, h | f in files && 1 <= h < |files[f]| && Opens(files[f][h], key) :: (f, h)
  }

  ghost predicate UniqueKeys(entries: seq<Entry>) {
    forall i, j :: 0 <= i < j < |entries| ==> EntryKey(entries[i]) != EntryKey(entries[j])
  }

  ghost predicate Positive(entries: seq<Entry>) {
    forall i :: 0 <= i < |entries| ==> entries[i].refs > 0
  }

  function Find(entries: seq<Entry>, key: Key): (i: nat)
    ensures i <= |entries|
    ensures i < |entries| ==> EntryKey(entries[i]) == key
    ensures forall k :: 0 <= k < i ==> EntryKey(entries[k]) != key
  {
    if entries == [] || EntryKey(entries[0]) == key then 0
    else
      var rest := Find(entries[1..], key);
      assert forall k :: 1 <= k < rest + 1 ==> entries[k] == entries[1..][k - 1];
      rest + 1
  }

  function RefsOf(entries: seq<Entry>, key: Key): nat {
    var i := Find(entries, key);
    if i < |entries| then entries[i].refs else 0
  }

  ghost predicate FilesOk(files: Files) {
    forall f :: f in files ==>
      |files[f]| == MAX_DESCRIPTORS && files[f][0].Live? && files[f][0].desc.isBoard
  }

  /** Each address is listed at most once, with as many references as descriptors that have
      it open, and is listed exactly when there is one. */
  ghost predicate Consistent(t: Table) {
    && FilesOk(t.files)
    && UniqueKeys(t.entries) && Positive(t.entries)
    && forall key :: RefsOf(t.entries, key) == |Holders(t.files, key)|
  }

  // ---- the list operations ----

  function Increment(entries: seq<Entry>, pad: nat, sad: int): seq<Entry> {
    var i := Find(entries, KeyOf(pad, sad));
    if i < |entries| then entries[i := entries[i].(refs := entries[i].refs + 1)]
    else [Entry(pad, sad, 1)] + entries
  }

  function Without<T>(s: seq<T>, i: nat): (r: seq<T>)
    requires i < |s|
    ensures r == s[..i] + s[i + 1..]
    ensures |r| == |s| - 1
    ensures forall k :: 0 <= k < |r| ==> r[k] == s[if k < i then k else k + 1]
    ensures forall x :: x in r ==> x in s
  {
    s[..i] + s[i + 1..]
  }

  datatype Subtracted = Subtracted(entries: seq<Entry>, bug: bool)

  function Subtract(entries: seq<Entry>, pad: nat, sad: int, count: nat): Subtracted {
    var i := Find(entries, KeyOf(pad, sad));
    if i == |entries| || count > entries[i].refs then Subtracted(entries, true)
    else if entries[i].refs == count then Subtracted(Without(entries, i), false)
    else Subtracted(entries[i := entries[i].(refs := entries[i].refs - count)], false)
  }

  // An address has the references of any entry that lists it, and none if no entry does.
  lemma RefsOfIs(entries: seq<Entry>, key: Key, j: nat)
    requires UniqueKeys(entries) && j <= |entries|
    requires j < |entries| ==> EntryKey(entries[j]) == key
    requires j == |entries| ==> forall k :: 0 <= k < |entries| ==> EntryKey(entries[k]) != key
    ensures RefsOf(entries, key) == if j < |entries| then entries[j].refs else 0
  {
  }

  lemma IncrementAdds(entries: seq<Entry>, pad: nat, sad: int)
    requires UniqueKeys(entries) && Positive(entries)
    ensures var r := Increment(entries, pad, sad);
      && UniqueKeys(r) && Positive(r)
      && forall key :: RefsOf(r, key) == RefsOf(entries, key) + if key == KeyOf(pad, sad) then 1 else 0
  {
    var r := Increment(entries, pad, sad);
    assert UniqueKeys(r);
    forall key
      ensures RefsOf(r, key) == RefsOf(entries, key) + if key == KeyOf(pad, sad) then 1 else 0
    {
      IncrementOne(entries, pad, sad, key);
    }
  }

  lemma IncrementOne(entries: seq<Entry>, pad: nat, sad: int, key: Key)
    requires UniqueKeys(entries) && UniqueKeys(Increment(entries, pad, sad))
    ensures RefsOf(Increment(entries, pad, sad), key)
            == RefsOf(entries, key) + if key == KeyOf(pad, sad) then 1 else 0
  {
    var r := Increment(entries, pad, sad);
    var j := Find(entries, key);
    if |r| == |entries| {
      RefsOfIs(r, key, j);
    } else if key == KeyOf(pad, sad) {
      RefsOfIs(r, key, 0);
    } else {
      RefsOfIs(r, key, j + 1);
    }
  }

  lemma SubtractOne(entries: seq<Entry>, pad: nat, sad: int, count: nat, key: Key)
    requires UniqueKeys(entries) && !Subtract(entries, pad, sad, count).bug
    requires UniqueKeys(Subtract(entries, pad, sad, count).entries)
    ensures RefsOf(Subtract(entries, pad, sad, count).entries, key)
            == RefsOf(entries, key) - if key == KeyOf(pad, sad) then count else 0
  {
    var r := Subtract(entries, pad, sad, count).entries;
    var i := Find(entries, KeyOf(pad, sad));
    var j := Find(entries, key);
    if |r| == |entries| {
      RefsOfIs(r, key, j);
    } else if key == KeyOf(pad, sad) {
      RefsOfIs(r, key, |r|);
    } else if j > i {
      RefsOfIs(r, key, j - 1);
    } else {
      RefsOfIs(r, key, j);
    }
  }

  /** Taking references off an address succeeds exactly when it has that many, and changes
      no other address. */
  lemma SubtractRemoves(entries: seq<Entry>, pad: nat, sad: int, count: nat)
    requires UniqueKeys(entries) && Positive(entries) && count > 0
    ensures var r := Subtract(entries, pad, sad, count);
      && (r.bug <==> count > RefsOf(entries, KeyOf(pad, sad)))
      && UniqueKeys(r.entries) && Positive(r.entries)
      && (r.bug ==> r.entries == entries)
    ensures !Subtract(entries, pad, sad, count).bug ==>
      forall key ::
        RefsOf(Subtract(entries, pad, sad, count).entries, key)
        == RefsOf(entries, key) - if key == KeyOf(pad, sad) then count else 0
  {
    var r := Subtract(entries, pad, sad, count);
    assert UniqueKeys(r.entries);
    if !r.bug {
      forall key
        ensures RefsOf(r.entries, key)
                == RefsOf(entries, key) - if key == KeyOf(pad, sad) then count else 0
      {
        SubtractOne(entries, pad, sad, count, key);
      }
    }
  }

  // ---- the ioctls and file operations on the table ----

  /** `bug` says that one of the two branches the code marks "bug!" was taken. */
  datatype Outcome = Outcome(table: Table, retval: int, bug: bool)

  function FreeSlot(slots: seq<Slot>, from: nat): (h: nat)
    requires from <= |slots|
    ensures from <= h <= |slots|
    ensures h < |slots| ==> slots[h].Free?
    ensures forall k :: from <= k < h ==> slots[k].Live?
    decreases |slots| - from
  {
    if from == |slots| || slots[from].Free? then from else FreeSlot(slots, from + 1)
  }

  function SetSlot(files: Files, f: int, h: nat, s: Slot): Files
    requires f in files && h < |files[f]|
  {
    files[f := files[f][h := s]]
  }

  // The entry for an address gains a reference; a missing entry needs memory.
  function Count(t: Table, pad: nat, sad: int, gotMemory: bool): Outcome {
    if gotMemory || Find(t.entries, KeyOf(pad, sad)) < |t.entries|
    then Outcome(Table(Increment(t.entries, pad, sad), t.files), 0, false)
    else Outcome(t, -ENOMEM, false)
  }

  function OpenDev(t: Table, f: int, pad: nat, sad: int, isBoard: bool, gotMemory: bool): Outcome
    requires f in t.files
  {
    var h := FreeSlot(t.files[f], 0);
    if h == |t.files[f]| then Outcome(t, -ERANGE, false)
    else
      Count(t.(files := SetSlot(t.files, f, h, Live(Descriptor(pad, sad, isBoard)))), pad, sad, gotMemory)
  }

  function CloseDev(t: Table, f: int, h: nat): Outcome
    requires f in t.files
  {
    if h >= |t.files[f]| || t.files[f][h].Free? then Outcome(t, -EINVAL, false)
    else
      var d := t.files[f][h].desc;
      var s := Subtract(t.entries, d.pad, d.sad, 1);
      if s.bug then Outcome(t, -EINVAL, true)
      else Outcome(Table(s.entries, SetSlot(t.files, f, h, Free)), 0, false)
  }

  // The device branch of pad_ioctl and sad_ioctl.
  function Readdress(t: Table, f: int, h: nat, pad: nat, sad: int, gotMemory: bool): Outcome
    requires f in t.files && h < |t.files[f]| && t.files[f][h].Live?
  {
    var d := t.files[f][h].desc;
    var s := Subtract(t.entries, d.pad, d.sad, 1);
    if s.bug then Outcome(t, -EINVAL, true)
    else
      Count(Table(s.entries, SetSlot(t.files, f, h, Live(d.(pad := pad, sad := sad)))), pad, sad, gotMemory)
  }

  function SetPad(t: Table, f: int, h: int, pad: nat, gotMemory: bool): Outcome
    requires f in t.files
  {
    if h < 0 || h >= |t.files[f]| || t.files[f][h].Free? then Outcome(t, -EINVAL, false)
    else if t.files[f][h].desc.isBoard
    then Outcome(t, if pad > GPIB_ADDR_MAX then -EINVAL else 0, false)
    else Readdress(t, f, h, pad, t.files[f][h].desc.sad, gotMemory)
  }

  function SetSad(t: Table, f: int, h: int, sad: int, gotMemory: bool): Outcome
    requires f in t.files
  {
    if h < 0 || h >= |t.files[f]| || t.files[f][h].Free? then Outcome(t, -EINVAL, false)
    else if t.files[f][h].desc.isBoard
    then Outcome(t, if sad > GPIB_SAD_MAX then -EINVAL else 0, false)
    else Readdress(t, f, h, t.files[f][h].desc.pad, sad, gotMemory)
  }

  // cleanup_open_devices from handle h on: stops at the first error.
  function Cleanup(entries: seq<Entry>, slots: seq<Slot>, h: nat): Subtracted
    requires h <= |slots|
    decreases |slots| - h
  {
    if h == |slots| then Subtracted(entries, false)
    else if slots[h].Free? || slots[h].desc.isBoard then Cleanup(entries, slots, h + 1)
    else
      var s := Subtract(entries, slots[h].desc.pad, slots[h].desc.sad, 1);
      if s.bug then s else Cleanup(s.entries, slots, h + 1)
  }

  function NewFile(): (slots: seq<Slot>)
    ensures |slots| == MAX_DESCRIPTORS
    ensures slots[0] == Live(Descriptor(0, -1, true))
    ensures forall h :: 1 <= h < |slots| ==> slots[h].Free?
  {
    seq(MAX_DESCRIPTORS, h => if h == 0 then Live(Descriptor(0, -1, true)) else Free)
  }

  function OpenedFile(t: Table, f: int): Outcome {
    Outcome(t.(files := t.files[f := NewFile()]), 0, false)
  }

  function ClosedFile(t: Table, f: int): Outcome
    requires f in t.files
  {
    var c := Cleanup(t.entries, t.files[f], 0);
    Outcome(Table(c.entries, t.files - {f}), 0, c.bug)
  }

  // ---- each keeps the table consistent, exactly when ... ----

  lemma HoldersSet(files: Files, f: int, h: nat, s: Slot, key: Key)
    requires f in files && 1 <= h < |files[f]|
    ensures |Holders(SetSlot(files, f, h, s), key)|
            == |Holders(files, key)| - (if Opens(files[f][h], key) then 1 else 0)
               + (if Opens(s, key) then 1 else 0)
  {
    hide Holders, Opens;
    var files' := SetSlot(files, f, h, s);
    var a, b, e := Holders(files, key), Holders(files', key), (f, h);
    forall x: (int, int) ensures x in a - {e} <==> x in b - {e} {
      if x != e {
        InHolders(files, key, x.0, x.1);
        InHolders(files', key, x.0, x.1);
        SetSlotElsewhere(files, f, h, s, x.0, x.1);
      }
    }
    InHolders(files, key, f, h);
    InHolders(files', key, f, h);
    assert files'[f][h] == s;
    assert a - {e} == b - {e};
    CardinalityBut(a, e);
    CardinalityBut(b, e);
  }

  lemma SetSlotElsewhere(files: Files, f: int, h: nat, s: Slot, f1: int, h1: int)
    requires f in files && h < |files[f]| && (f1, h1) != (f, h)
    ensures var files' := SetSlot(files, f, h, s);
      && (f1 in files' <==> f1 in files)
      && (f1 in files ==> |files'[f1]| == |files[f1]|)
      && (f1 in files && 0 <= h1 < |files[f1]| ==> files'[f1][h1] == files[f1][h1])
  {
  }

  lemma InHolders(files: Files, key: Key, f: int, h: int)
    ensures (f, h) in Holders(files, key)
            <==> f in files && 1 <= h < |files[f]| && Opens(files[f][h], key)
  {
  }

  lemma CardinalityBut<T>(s: set<T>, e: T)
    ensures |s| == |s - {e}| + if e in s then 1 else 0
  {
    if e in s {
      assert s == (s - {e}) + {e};
    } else {
      assert s == s - {e};
    }
  }

  // Everything but the counts of the table after one descriptor changed.
  lemma SetSlotCounts(t: Table, f: int, h: nat, s: Slot)
    requires Consistent(t) && f in t.files && 1 <= h < |t.files[f]|
    ensures FilesOk(SetSlot(t.files, f, h, s))
    ensures forall key ::
      |Holders(SetSlot(t.files, f, h, s), key)|
      == RefsOf(t.entries, key) - (if Opens(t.files[f][h], key) then 1 else 0)
         + (if Opens(s, key) then 1 else 0)
  {
    forall key
      ensures |Holders(SetSlot(t.files, f, h, s), key)|
              == RefsOf(t.entries, key) - (if Opens(t.files[f][h], key) then 1 else 0)
                 + (if Opens(s, key) then 1 else 0)
    {
      HoldersSet(t.files, f, h, s, key);
    }
  }

  // ---- what each of them does ----

  // Slot h of file f becomes s, and no other slot of any file changes.
  ghost predicate OnlySlot(t: Table, r: Table, f: int, h: nat, s: Slot) {
    && f in t.files && r.files.Keys == t.files.Keys
    && |r.files[f]| == |t.files[f]| && h < |t.files[f]| && r.files[f][h] == s
    && (forall k :: 0 <= k < |t.files[f]| && k != h ==> r.files[f][k] == t.files[f][k])
    && (forall g :: g in t.files && g != f ==> r.files[g] == t.files[g])
  }

  /** open_dev_ioctl takes the first free slot for the descriptor asked for, and fails with
      -ERANGE, doing nothing, exactly when there is none. */
  lemma OpenDevEffect(t: Table, f: int, pad: nat, sad: int, isBoard: bool, gotMemory: bool)
    requires f in t.files
    ensures var o := OpenDev(t, f, pad, sad, isBoard, gotMemory);
      && (o.retval == -ERANGE <==> forall k :: 0 <= k < |t.files[f]| ==> t.files[f][k].Live?)
      && (o.retval == -ERANGE ==> o.table == t)
      && (o.retval != -ERANGE ==>
            exists h: nat :: h < |t.files[f]| && t.files[f][h].Free?
              && (forall k :: 0 <= k < h ==> t.files[f][k].Live?)
              && OnlySlot(t, o.table, f, h, Live(Descriptor(pad, sad, isBoard))))
  {
    var h := FreeSlot(t.files[f], 0);
    var o := OpenDev(t, f, pad, sad, isBoard, gotMemory);
    if h < |t.files[f]| {
      assert OnlySlot(t, o.table, f, h, Live(Descriptor(pad, sad, isBoard)));
    }
  }

  /** close_dev_ioctl frees the slot of a live handle above 0 and takes one reference off its
      address, alone; any handle that is not live is refused and nothing changes. */
  lemma CloseDevEffect(t: Table, f: int, h: nat)
    requires Consistent(t) && f in t.files && h != 0
    ensures var o, slots := CloseDev(t, f, h), t.files[f];
      if h < |slots| && slots[h].Live? then
        && o.retval == 0 && OnlySlot(t, o.table, f, h, Free)
        && forall key :: RefsOf(o.table.entries, key)
             == RefsOf(t.entries, key) - if key == KeyOf(slots[h].desc.pad, slots[h].desc.sad) then 1 else 0
      else o.retval == -EINVAL && o.table == t
  {
    if h < |t.files[f]| && t.files[f][h].Live? {
      var d := t.files[f][h].desc;
      SubtractRemoves(t.entries, d.pad, d.sad, 1);
      assert Opens(t.files[f][h], KeyOf(d.pad, d.sad));
      assert (f, h) in Holders(t.files, KeyOf(d.pad, d.sad));
    }
  }

  /** pad_ioctl: a handle that is not live is refused; on a board handle the table never
      changes and the address has to be in range; on a device handle the descriptor gets the
      new primary address and keeps the rest, also when memory for its entry is missing. */
  lemma SetPadEffect(t: Table, f: int, h: int, pad: nat, gotMemory: bool)
    requires Consistent(t) && f in t.files
    ensures var o, slots := SetPad(t, f, h, pad, gotMemory), t.files[f];
      if h < 0 || h >= |slots| || slots[h].Free? then o.retval == -EINVAL && o.table == t
      else if slots[h].desc.isBoard then
        o.table == t && o.retval == if pad <= GPIB_ADDR_MAX then 0 else -EINVAL
      else
        && OnlySlot(t, o.table, f, h, Live(Descriptor(pad, slots[h].desc.sad, false)))
        && o.retval == if CanReaddress(t, slots[h].desc, pad, slots[h].desc.sad, gotMemory) then 0 else -ENOMEM
  {
    if IsDevice(t, f, h) {
      ReaddressExact(t, f, h, pad, t.files[f][h].desc.sad, gotMemory);
    }
  }

  /** sad_ioctl, in the same way. */
  lemma SetSadEffect(t: Table, f: int, h: int, sad: int, gotMemory: bool)
    requires Consistent(t) && f in t.files
    ensures var o, slots := SetSad(t, f, h, sad, gotMemory), t.files[f];
      if h < 0 || h >= |slots| || slots[h].Free? then o.retval == -EINVAL && o.table == t
      else if slots[h].desc.isBoard then
        o.table == t && o.retval == if sad <= GPIB_SAD_MAX then 0 else -EINVAL
      else
        && OnlySlot(t, o.table, f, h, Live(Descriptor(slots[h].desc.pad, sad, false)))
        && o.retval == if CanReaddress(t, slots[h].desc, slots[h].desc.pad, sad, gotMemory) then 0 else -ENOMEM
  {
    if IsDevice(t, f, h) {
      ReaddressExact(t, f, h, t.files[f][h].desc.pad, sad, gotMemory);
    }
  }

  /** A file comes with its board descriptor alone and no references; when it goes, every
      address loses as many as the file has device descriptors for it, and no other file
      changes. */
  lemma FileEffect(t: Table, f: int)
    requires Consistent(t)
    ensures f !in t.files ==>
      var o := OpenedFile(t, f);
      && o.table.files.Keys == t.files.Keys + {f} && o.table.entries == t.entries
      && (forall g :: g in t.files ==> o.table.files[g] == t.files[g])
      && |o.table.files[f]| == MAX_DESCRIPTORS
      && o.table.files[f][0] == Live(Descriptor(0, -1, true))
      && (forall h :: 1 <= h < MAX_DESCRIPTORS ==> o.table.files[f][h].Free?)
    ensures f in t.files ==>
      var o := ClosedFile(t, f);
      && o.table.files == t.files - {f}
      && forall key :: RefsOf(o.table.entries, key)
                       == RefsOf(t.entries, key) - CountFrom(t.files[f], 0, key, true)
  {
    if f in t.files {
      var slots := t.files[f];
      CountsDiffer(slots, 1);
      forall key
        ensures CountFrom(slots, 0, key, true) == CountFrom(slots, 1, key, true)
        ensures RefsOf(t.entries, key)
                == |Holders(t.files - {f}, key)| + CountFrom(slots, 1, key, false)
      {
        HoldersWithout(t.files, f, key);
      }
      CleanupRemoves(t.entries, slots, 0);
    }
  }

  // Opening does not need memory for an entry, or has it.
  predicate CanOpen(t: Table, f: int, pad: nat, sad: int, gotMemory: bool)
    requires f in t.files
  {
    FreeSlot(t.files[f], 0) == |t.files[f]| || gotMemory || RefsOf(t.entries, KeyOf(pad, sad)) > 0
  }

  // Changing an address does not: the new address stays listed when the old one is taken off.
  predicate CanReaddress(t: Table, d: Descriptor, pad: nat, sad: int, gotMemory: bool) {
    gotMemory
    || RefsOf(t.entries, KeyOf(pad, sad)) > if KeyOf(pad, sad) == KeyOf(d.pad, d.sad) then 1 else 0
  }

  lemma ListedIfReferenced(entries: seq<Entry>, key: Key)
    requires Positive(entries)
    ensures Find(entries, key) < |entries| <==> RefsOf(entries, key) > 0
  {
  }

  /** Opening keeps the table consistent exactly when there is no descriptor left, so that it
      does nothing, or memory for an entry, or an entry already: otherwise the descriptor
      stays behind uncounted. Its own address gains one reference, no other changes. */
  lemma OpenDevExact(t: Table, f: int, pad: nat, sad: int, isBoard: bool, gotMemory: bool)
    requires Consistent(t) && f in t.files
    ensures var o := OpenDev(t, f, pad, sad, isBoard, gotMemory);
      !o.bug && (Consistent(o.table) <==> CanOpen(t, f, pad, sad, gotMemory))
    ensures var o := OpenDev(t, f, pad, sad, isBoard, gotMemory);
      (o.retval == 0 <==> FreeSlot(t.files[f], 0) < |t.files[f]| && CanOpen(t, f, pad, sad, gotMemory))
      && forall key :: RefsOf(o.table.entries, key)
                       == RefsOf(t.entries, key) + if o.retval == 0 && key == KeyOf(pad, sad) then 1 else 0
  {
    var h := FreeSlot(t.files[f], 0);
    ListedIfReferenced(t.entries, KeyOf(pad, sad));
    if h < |t.files[f]| {
      var d := Live(Descriptor(pad, sad, isBoard));
      SetSlotCounts(t, f, h, d);
      IncrementAdds(t.entries, pad, sad);
      assert Opens(d, KeyOf(pad, sad));
    }
  }

  /** Closing a handle keeps the table consistent, and avoids the "bug!" branches, exactly
      when it is not the file's own handle 0. */
  lemma CloseDevExact(t: Table, f: int, h: nat)
    requires Consistent(t) && f in t.files
    ensures var o := CloseDev(t, f, h);
      (Consistent(o.table) && !o.bug) <==> h != 0
  {
    if h < |t.files[f]| && t.files[f][h].Live? {
      var d := t.files[f][h].desc;
      SubtractRemoves(t.entries, d.pad, d.sad, 1);
      if h != 0 {
        SetSlotCounts(t, f, h, Free);
        assert Opens(t.files[f][h], KeyOf(d.pad, d.sad));
        assert (f, h) in Holders(t.files, KeyOf(d.pad, d.sad));
      } else {
        var o := CloseDev(t, f, h);
        assert !o.bug ==> o.table.files[f][0].Free?;
      }
    }
  }

  /** Changing the address of a device descriptor keeps the table consistent exactly when an
      entry for the new address remains or can be allocated, and then moves one reference. */
  lemma ReaddressExact(t: Table, f: int, h: nat, pad: nat, sad: int, gotMemory: bool)
    requires Consistent(t) && f in t.files
    requires h < |t.files[f]| && t.files[f][h].Live? && !t.files[f][h].desc.isBoard
    ensures var o := Readdress(t, f, h, pad, sad, gotMemory);
      var able := CanReaddress(t, t.files[f][h].desc, pad, sad, gotMemory);
      !o.bug && (Consistent(o.table) <==> able) && (o.retval == 0 <==> able)
    ensures var o, d := Readdress(t, f, h, pad, sad, gotMemory), t.files[f][h].desc;
      o.retval == 0 ==>
        forall key :: RefsOf(o.table.entries, key)
                      == RefsOf(t.entries, key) - (if key == KeyOf(d.pad, d.sad) then 1 else 0)
                         + (if key == KeyOf(pad, sad) then 1 else 0)
  {
    var d := t.files[f][h].desc;
    var d' := Live(d.(pad := pad, sad := sad));
    SubtractRemoves(t.entries, d.pad, d.sad, 1);
    assert (f, h) in Holders(t.files, KeyOf(d.pad, d.sad));
    var s := Subtract(t.entries, d.pad, d.sad, 1).entries;
    SetSlotCounts(t, f, h, d');
    IncrementAdds(s, pad, sad);
    ListedIfReferenced(s, KeyOf(pad, sad));
    assert Opens(d', KeyOf(pad, sad));
  }

  // ---- closing a file ----

  // How many handles from h on have `key` open; only device handles if `devices`.
  ghost function CountFrom(slots: seq<Slot>, h: nat, key: Key, devices: bool): nat
    requires h <= |slots|
    decreases |slots| - h
  {
    if h == |slots| then 0
    else
      (if Opens(slots[h], key) && !(devices && slots[h].desc.isBoard) then 1 else 0)
      + CountFrom(slots, h + 1, key, devices)
  }

  ghost predicate BoardFrom(slots: seq<Slot>, h: nat) {
    exists k :: h <= k < |slots| && slots[k].Live? && slots[k].desc.isBoard
  }

  lemma {:induction false} CountsDiffer(slots: seq<Slot>, h: nat)
    requires h <= |slots|
    ensures forall key :: CountFrom(slots, h, key, true) <= CountFrom(slots, h, key, false)
    ensures BoardFrom(slots, h) <==>
            exists key :: CountFrom(slots, h, key, true) != CountFrom(slots, h, key, false)
    decreases |slots| - h
  {
    if h < |slots| {
      CountsDiffer(slots, h + 1);
      if slots[h].Live? && slots[h].desc.isBoard {
        var key := KeyOf(slots[h].desc.pad, slots[h].desc.sad);
        assert CountFrom(slots, h, key, true) < CountFrom(slots, h, key, false);
      } else {
        assert BoardFrom(slots, h) <==> BoardFrom(slots, h + 1);
        if BoardFrom(slots, h + 1) {
          var key :| CountFrom(slots, h + 1, key, true) != CountFrom(slots, h + 1, key, false);
          assert CountFrom(slots, h, key, true) != CountFrom(slots, h, key, false);
        } else {
          forall key ensures CountFrom(slots, h, key, true) == CountFrom(slots, h, key, false) {
            assert CountFrom(slots, h + 1, key, true) == CountFrom(slots, h + 1, key, false);
          }
        }
      }
    }
  }

  lemma {:induction false} HoldersFrom(files: Files, f: int, h: nat, key: Key)
    requires f in files && 1 <= h <= |files[f]|
    ensures |set k | h <= k < |files[f]| && Opens(files[f][k], key) :: (f, k)|
            == CountFrom(files[f], h, key, false)
    decreases |files[f]| - h
  {
    var a := set k | h <= k < |files[f]| && Opens(files[f][k], key) :: (f, k);
    if h == |files[f]| {
      assert a == {};
    } else {
      HoldersFrom(files, f, h + 1, key);
      var b := set k | h + 1 <= k < |files[f]| && Opens(files[f][k], key) :: (f, k);
      if Opens(files[f][h], key) {
        assert a == b + {(f, h)} && (f, h) !in b;
      } else {
        assert a == b;
      }
    }
  }

  lemma HoldersWithout(files: Files, f: int, key: Key)
    requires f in files && |files[f]| >= 1
    ensures |Holders(files, key)|
            == |Holders(files - {f}, key)| + CountFrom(files[f], 1, key, false)
  {
    HoldersFrom(files, f, 1, key);
    var own := set k | 1 <= k < |files[f]| && Opens(files[f][k], key) :: (f, k);
    var others := Holders(files - {f}, key);
    forall x ensures x in Holders(files, key) <==> x in others + own {
      InHolders(files, key, x.0, x.1);
      InHolders(files - {f}, key, x.0, x.1);
    }
    assert Holders(files, key) == others + own && others !! own;
  }

  lemma {:induction false} CleanupRemoves(entries: seq<Entry>, slots: seq<Slot>, h: nat)
    requires h <= |slots| && UniqueKeys(entries) && Positive(entries)
    requires forall key :: CountFrom(slots, h, key, true) <= RefsOf(entries, key)
    ensures var c := Cleanup(entries, slots, h);
      && !c.bug && UniqueKeys(c.entries) && Positive(c.entries)
      && forall key :: RefsOf(c.entries, key) == RefsOf(entries, key) - CountFrom(slots, h, key, true)
    decreases |slots| - h
  {
    if h < |slots| {
      if slots[h].Live? && !slots[h].desc.isBoard {
        var d := slots[h].desc;
        SubtractRemoves(entries, d.pad, d.sad, 1);
        var s := Subtract(entries, d.pad, d.sad, 1).entries;
        assert CountFrom(slots, h, KeyOf(d.pad, d.sad), true) >= 1;
        forall key ensures CountFrom(slots, h + 1, key, true) <= RefsOf(s, key) {
          assert CountFrom(slots, h, key, true) <= RefsOf(entries, key);
        }
        CleanupRemoves(s, slots, h + 1);
      } else {
        forall key ensures CountFrom(slots, h, key, true) == CountFrom(slots, h + 1, key, true) {
        }
        CleanupRemoves(entries, slots, h + 1);
      }
    }
  }

  /** Closing a file keeps the table consistent exactly when the file has no board
      descriptor besides its own: such a descriptor was counted when it was opened and is
      passed over here. The "bug!" branches are never taken. */
  lemma CloseFileExact(t: Table, f: int)
    requires Consistent(t) && f in t.files
    ensures var o := ClosedFile(t, f);
      !o.bug && (Consistent(o.table) <==> !BoardFrom(t.files[f], 1))
  {
    var slots := t.files[f];
    CountsDiffer(slots, 1);
    forall key
      ensures CountFrom(slots, 0, key, true) == CountFrom(slots, 1, key, true)
      ensures RefsOf(t.entries, key)
              == |Holders(t.files - {f}, key)| + CountFrom(slots, 1, key, false)
    {
      HoldersWithout(t.files, f, key);
    }
    CleanupRemoves(t.entries, slots, 0);
    var o := ClosedFile(t, f).table;
    assert forall key :: RefsOf(o.entries, key) - |Holders(o.files, key)|
                         == CountFrom(slots, 1, key, false) - CountFrom(slots, 1, key, true);
    if BoardFrom(slots, 1) {
      var key :| CountFrom(slots, 1, key, true) != CountFrom(slots, 1, key, false);
      assert RefsOf(o.entries, key) != |Holders(o.files, key)|;
    } else {
      assert forall key :: CountFrom(slots, 1, key, false) == CountFrom(slots, 1, key, true);
    }
  }

  // ---- whole runs ----

  datatype Op =
    | DoOpenFile(f: int)
    | DoCloseFile(f: int)
    | DoOpenDev(f: int, pad: nat, sad: int, isBoard: bool, gotMemory: bool)
    | DoCloseDev(f: int, handle: nat)
    | DoSetPad(f: int, h: int, pad: nat, gotMemory: bool)
    | DoSetSad(f: int, h: int, sad: int, gotMemory: bool)

  // Files are opened once; everything else needs the file open.
  predicate Possible(t: Table, op: Op) {
    op.f in t.files <==> !op.DoOpenFile?
  }

  function Step(t: Table, op: Op): Outcome
    requires Possible(t, op)
  {
    match op
    case DoOpenFile(f) => OpenedFile(t, f)
    case DoCloseFile(f) => ClosedFile(t, f)
    case DoOpenDev(f, pad, sad, isBoard, gotMemory) => OpenDev(t, f, pad, sad, isBoard, gotMemory)
    case DoCloseDev(f, h) => CloseDev(t, f, h)
    case DoSetPad(f, h, pad, gotMemory) => SetPad(t, f, h, pad, gotMemory)
    case DoSetSad(f, h, sad, gotMemory) => SetSad(t, f, h, sad, gotMemory)
  }

  predicate IsDevice(t: Table, f: int, h: int)
    requires f in t.files
  {
    0 <= h < |t.files[f]| && t.files[f][h].Live? && !t.files[f][h].desc.isBoard
  }

  // What a caller has to avoid, and memory for an entry running out.
  ghost predicate Proper(t: Table, op: Op)
    requires Possible(t, op)
  {
    match op
    case DoOpenFile(_) => true
    case DoCloseFile(f) => !BoardFrom(t.files[f], 1)
    case DoCloseDev(_, h) => h != 0
    case DoOpenDev(f, pad, sad, _, gotMemory) => CanOpen(t, f, pad, sad, gotMemory)
    case DoSetPad(f, h, pad, gotMemory) =>
      IsDevice(t, f, h) ==>
        CanReaddress(t, t.files[f][h].desc, pad, t.files[f][h].desc.sad, gotMemory)
    case DoSetSad(f, h, sad, gotMemory) =>
      IsDevice(t, f, h) ==>
        CanReaddress(t, t.files[f][h].desc, t.files[f][h].desc.pad, sad, gotMemory)
  }

  /** From a consistent table a step leaves a consistent table, reaching no "bug!" branch,
      if and only if it is proper. */
  lemma StepExact(t: Table, op: Op)
    requires Consistent(t) && Possible(t, op)
    ensures (Consistent(Step(t, op).table) && !Step(t, op).bug) <==> Proper(t, op)
    ensures op.DoOpenFile? ==> Step(t, op).table.files.Keys == t.files.Keys + {op.f}
    ensures op.DoCloseFile? ==> Step(t, op).table.files == t.files - {op.f}
    ensures op.DoCloseDev? && op.handle != 0 ==>
      op.handle >= |Step(t, op).table.files[op.f]| || Step(t, op).table.files[op.f][op.handle].Free?
  {
    match op
    case DoOpenFile(f) =>
      forall key ensures Holders(t.files[f := NewFile()], key) == Holders(t.files, key) {
      }
    case DoCloseFile(f) => CloseFileExact(t, f);
    case DoOpenDev(f, pad, sad, isBoard, gotMemory) => OpenDevExact(t, f, pad, sad, isBoard, gotMemory);
    case DoCloseDev(f, h) =>
      CloseDevExact(t, f, h);
      if h != 0 {
        CloseDevEffect(t, f, h);
      }
    case DoSetPad(f, h, pad, gotMemory) =>
      if IsDevice(t, f, h) {
        ReaddressExact(t, f, h, pad, t.files[f][h].desc.sad, gotMemory);
      }
    case DoSetSad(f, h, sad, gotMemory) =>
      if IsDevice(t, f, h) {
        ReaddressExact(t, f, h, t.files[f][h].desc.pad, sad, gotMemory);
      }
  }

  ghost predicate ProperRun(t: Table, ops: seq<Op>)
    decreases |ops|
  {
    ops != [] ==>
      Possible(t, ops[0]) && Proper(t, ops[0]) && ProperRun(Step(t, ops[0]).table, ops[1..])
  }

  ghost function Run(t: Table, ops: seq<Op>): Table
    requires ProperRun(t, ops)
    decreases |ops|
  {
    if ops == [] then t else Run(Step(t, ops[0]).table, ops[1..])
  }

  ghost predicate NoBugs(t: Table, ops: seq<Op>)
    requires ProperRun(t, ops)
    decreases |ops|
  {
    ops != [] ==> !Step(t, ops[0]).bug && NoBugs(Step(t, ops[0]).table, ops[1..])
  }

  // A run is its steps one after the other.
  lemma {:induction false} RunMore(t: Table, ops: seq<Op>, op: Op)
    requires ProperRun(t, ops) && Possible(Run(t, ops), op) && Proper(Run(t, ops), op)
    ensures ProperRun(t, ops + [op]) && Run(t, ops + [op]) == Step(Run(t, ops), op).table
    decreases |ops|
  {
    hide Step, Proper;
    if ops == [] {
      assert (ops + [op])[1..] == [];
    } else {
      assert (ops + [op])[1..] == ops[1..] + [op];
      RunMore(Step(t, ops[0]).table, ops[1..], op);
    }
  }

  /** Over any run of proper steps by any number of files, starting with no file open. */
  lemma RunsConsistent(ops: seq<Op>)
    requires ProperRun(Table([], map[]), ops)
    ensures Consistent(Run(Table([], map[]), ops)) && NoBugs(Table([], map[]), ops)
  {
    var t := Table([], map[]);
    forall key ensures RefsOf(t.entries, key) == |Holders(t.files, key)| {
      assert Holders(t.files, key) == {};
    }
    RunsFrom(t, ops);
  }

  lemma {:induction false} RunsFrom(t: Table, ops: seq<Op>)
    requires Consistent(t) && ProperRun(t, ops)
    ensures Consistent(Run(t, ops)) && NoBugs(t, ops)
    decreases |ops|
  {
    if ops != [] {
      StepExact(t, ops[0]);
      RunsFrom(Step(t, ops[0]).table, ops[1..]);
    }
  }

  // ---- the board's own list and descriptor tables, updated in place ----

  ghost function EntriesOf(devices: seq<StatusQueue>): seq<Entry>
    reads devices
  {
    seq(|devices|, k requires 0 <= k < |devices| reads devices =>
      Entry(devices[k].pad, devices[k].sad, devices[k].referenceCount))
  }

  lemma EntriesWithout(devices: seq<StatusQueue>, i: nat)
    requires i < |devices|
    ensures EntriesOf(Without(devices, i)) == Without(EntriesOf(devices), i)
  {
  }

  lemma FirstMatch(devices: seq<StatusQueue>, pad: nat, sad: int, i: nat)
    requires i <= |devices|
    requires i < |devices| ==> AddressEqual(devices[i].pad, devices[i].sad, pad, sad)
    requires forall k :: 0 <= k < i ==> !AddressEqual(devices[k].pad, devices[k].sad, pad, sad)
    ensures i == Find(EntriesOf(devices), KeyOf(pad, sad))
  {
    var entries, key := EntriesOf(devices), KeyOf(pad, sad);
    forall k | 0 <= k < |devices|
      ensures AddressEqual(devices[k].pad, devices[k].sad, pad, sad) <==> EntryKey(entries[k]) == key
    {
      KeysAgree(devices[k].pad, devices[k].sad, pad, sad);
    }
    assert i < |devices| ==> EntryKey(entries[i]) == key;
  }

  class OpenDevices {
    var deviceList: seq<StatusQueue>
    var files: Files

    ghost predicate Valid() reads this {
      && (forall i, j :: 0 <= i < j < |deviceList| ==> deviceList[i] != deviceList[j])
      && forall f :: f in files ==> |files[f]| == MAX_DESCRIPTORS
    }

    ghost function State(): Table reads this, deviceList {
      Table(EntriesOf(deviceList), files)
    }

    constructor ()
      ensures Valid() && State() == Table([], map[])
    {
      deviceList, files := [], map[];
    }

    method IncrementOpenDeviceCount(pad: nat, sad: int, gotMemory: bool) returns (retval: int)
      requires Valid()
      modifies this`deviceList, deviceList`referenceCount
      ensures Valid()
      ensures State() == Count(old(State()), pad, sad, gotMemory).table
      ensures retval == Count(old(State()), pad, sad, gotMemory).retval
      ensures forall q :: q in deviceList ==> q in old(deviceList) || fresh(q)
    {
      hide KeyOf, AddressEqual;
      var i := FindStatusQueue(deviceList, pad, sad);
      ghost var entries := EntriesOf(deviceList);
      FirstMatch(deviceList, pad, sad, i);
      if i < |deviceList| {
        deviceList[i].referenceCount := deviceList[i].referenceCount + 1;
        assert EntriesOf(deviceList) == Increment(entries, pad, sad);
        return 0;
      }
      if !gotMemory {
        return -ENOMEM;
      }
      var device := new StatusQueue(pad, sad);
      deviceList := [device] + deviceList;
      assert EntriesOf(deviceList) == Increment(entries, pad, sad);
      retval := 0;
    }

    method SubtractOpenDeviceCount(pad: nat, sad: int, count: nat)
      returns (retval: int, ghost bug: bool)
      requires Valid()
      modifies this`deviceList, deviceList`referenceCount
      ensures Valid()
      ensures Subtracted(EntriesOf(deviceList), bug)
              == Subtract(old(EntriesOf(deviceList)), pad, sad, count)
      ensures retval == if bug then -EINVAL else 0
      ensures forall q :: q in deviceList ==> q in old(deviceList)
    {
      hide KeyOf, AddressEqual;
      var i := FindStatusQueue(deviceList, pad, sad);
      FirstMatch(deviceList, pad, sad, i);
      if i == |deviceList| {
        return -EINVAL, true;
      }
      var device := deviceList[i];
      if count > device.referenceCount {
        return -EINVAL, true;
      }
      ghost var entries := EntriesOf(deviceList);
      device.referenceCount := device.referenceCount - count;
      ghost var lowered := entries[i := entries[i].(refs := device.referenceCount)];
      assert EntriesOf(deviceList) == lowered;
      if device.referenceCount == 0 {
        EntriesWithout(deviceList, i);
        deviceList := Without(deviceList, i);
        assert Without(lowered, i) == Without(entries, i);
      }
      return 0, false;
    }

    // cleanup_open_devices, then the file itself goes, whatever it returned
    method CloseFile(f: int) returns (ghost bug: bool)
      requires Valid() && f in files
      modifies this, deviceList`referenceCount
      ensures Valid()
      ensures State() == ClosedFile(old(State()), f).table
      ensures bug == ClosedFile(old(State()), f).bug
      ensures forall q :: q in deviceList ==> q in old(deviceList)
    {
      bug := false;
      var slots := files[f];
      var i := 0;
      while i < MAX_DESCRIPTORS
        invariant i <= MAX_DESCRIPTORS == |slots|
        invariant Valid() && files == old(files) && !bug
        invariant forall q :: q in deviceList ==> q in old(deviceList)
        invariant Cleanup(EntriesOf(deviceList), slots, i) == Cleanup(old(EntriesOf(deviceList)), slots, 0)
      {
        assert forall k :: 0 <= k < |deviceList| ==> deviceList[k] in old(deviceList);
        if slots[i].Live? && !slots[i].desc.isBoard {
          var retval;
          retval, bug := SubtractOpenDeviceCount(slots[i].desc.pad, slots[i].desc.sad, 1);
          if retval < 0 {
            assert Cleanup(old(EntriesOf(deviceList)), slots, 0) == Subtracted(EntriesOf(deviceList), true);
            break;
          }
        }
        i := i + 1;
      }
      assert Cleanup(old(EntriesOf(deviceList)), slots, 0) == Subtracted(EntriesOf(deviceList), bug);
      files := files - {f};
    }

    method OpenDevIoctl(f: int, pad: nat, sad: int, isBoard: bool, gotMemory: bool)
      returns (retval: int, handle: nat)
      requires Valid() && f in files
      modifies this, deviceList`referenceCount
      ensures Valid()
      ensures State() == OpenDev(old(State()), f, pad, sad, isBoard, gotMemory).table
      ensures retval == OpenDev(old(State()), f, pad, sad, isBoard, gotMemory).retval
      ensures retval == 0 ==> handle == FreeSlot(old(files[f]), 0)
    {
      handle := 0;
      while handle < MAX_DESCRIPTORS
        invariant handle <= MAX_DESCRIPTORS
        invariant FreeSlot(files[f], 0) == FreeSlot(files[f], handle)
      {
        if files[f][handle].Free? {
          break;
        }
        handle := handle + 1;
      }
      if handle == MAX_DESCRIPTORS {
        return -ERANGE, handle;
      }
      files := SetSlot(files, f, handle, Live(Descriptor(pad, sad, isBoard)));
      retval := IncrementOpenDeviceCount(pad, sad, gotMemory);
    }

    method CloseDevIoctl(f: int, handle: nat) returns (retval: int, ghost bug: bool)
      requires Valid() && f in files
      modifies this, deviceList`referenceCount
      ensures Valid()
      ensures State() == CloseDev(old(State()), f, handle).table
      ensures retval == CloseDev(old(State()), f, handle).retval
      ensures bug == CloseDev(old(State()), f, handle).bug
    {
      if handle >= MAX_DESCRIPTORS || files[f][handle].Free? {
        return -EINVAL, false;
      }
      var d := files[f][handle].desc;
      retval, bug := SubtractOpenDeviceCount(d.pad, d.sad, 1);
      if retval < 0 {
        return;
      }
      files := SetSlot(files, f, handle, Free);
    }

    method PadIoctl(f: int, handle: int, pad: nat, gotMemory: bool)
      returns (retval: int, ghost bug: bool)
      requires Valid() && f in files
      modifies this, deviceList`referenceCount
      ensures Valid()
      ensures Outcome(State(), retval, bug) == SetPad(old(State()), f, handle, pad, gotMemory)
    {
      if handle < 0 || handle >= MAX_DESCRIPTORS || files[f][handle].Free? {
        return -EINVAL, false;
      }
      var d := files[f][handle].desc;
      if d.isBoard {
        return if pad > GPIB_ADDR_MAX then -EINVAL else 0, false;
      }
      retval, bug := SubtractOpenDeviceCount(d.pad, d.sad, 1);
      if retval < 0 {
        return;
      }
      files := SetSlot(files, f, handle, Live(d.(pad := pad)));
      assert forall k :: 0 <= k < |deviceList| ==> deviceList[k] in old(deviceList);
      retval := IncrementOpenDeviceCount(pad, d.sad, gotMemory);
    }

    method SadIoctl(f: int, handle: int, sad: int, gotMemory: bool)
      returns (retval: int, ghost bug: bool)
      requires Valid() && f in files
      modifies this, deviceList`referenceCount
      ensures Valid()
      ensures Outcome(State(), retval, bug) == SetSad(old(State()), f, handle, sad, gotMemory)
    {
      if handle < 0 || handle >= MAX_DESCRIPTORS || files[f][handle].Free? {
        return -EINVAL, false;
      }
      var d := files[f][handle].desc;
      if d.isBoard {
        return if sad > GPIB_SAD_MAX then -EINVAL else 0, false;
      }
      retval, bug := SubtractOpenDeviceCount(d.pad, d.sad, 1);
      if retval < 0 {
        return;
      }
      files := SetSlot(files, f, handle, Live(d.(sad := sad)));
      assert forall k :: 0 <= k < |deviceList| ==> deviceList[k] in old(deviceList);
      retval := IncrementOpenDeviceCount(d.pad, sad, gotMemory);
    }

    method OpenFile(f: int)
      requires Valid() && f !in files
      modifies this
      ensures Valid() && State() == OpenedFile(old(State()), f).table
    {
      files := files[f := NewFile()];
    }
  }
}
