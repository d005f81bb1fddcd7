/** Who uses a board: the count of files using it, the references those files have on the
    driver module that provides its interface, and the count of files that asked for
    autopolling (gpib_os.c). */
module BoardUse {
  import opened Errno

  type Module = int

  datatype Option<T> = None | Some(value: T)

  // got: the file's got_module; autopoll: autopoll_enabled of its board descriptor.
  datatype FileUse = FileUse(got: bool, autopoll: bool)

  datatype Board = Board(
    files: map<int, FileUse>,
    useCount: nat,
    autospollers: nat,
    provider: Option<Module>,  // None as long as the board has no interface
    refs: map<Module, int>)

  /** `bug` says that a count was found to be zero that should not have been. */
  datatype Outcome = Outcome(board: Board, retval: int, bug: bool)

  function Refs(refs: map<Module, int>, m: Module): int { if m in refs then refs[m] else 0 }

  function AddRefs(refs: map<Module, int>, m: Module, n: int): map<Module, int> {
    refs[m := Refs(refs, m) + n]
  }

  // ---- what the counts should say ----

  ghost function Users(files: map<int, FileUse>): set<int> {
    set f | f in files && files[f].got
  }

  ghost function Spollers(files: map<int, FileUse>): set<int> {
    set f | f in files && files[f].autopoll
  }

  ghost predicate Consistent(b: Board) {
    && b.useCount == |Users(b.files)|
    && b.autospollers == |Spollers(b.files)|
    && (forall m :: Refs(b.refs, m) == if b.provider == Some(m) then b.useCount else 0)
    && (b.provider.None? ==> b.useCount == 0)
  }

  // ---- the operations ----

  function UseModule(b: Board, f: int, granted: bool): Outcome
    requires f in b.files && b.provider.Some?
  {
    if !granted then Outcome(b, -EIO, false)
    else
      Outcome(b.(files := b.files[f := b.files[f].(got := true)],
                 useCount := b.useCount + 1,
                 refs := AddRefs(b.refs, b.provider.value, 1)), 0, false)
  }

  // ibopen; when it fails there is no file.
  function Open(b: Board, f: int, granted: bool): Outcome {
    var listed := b.(files := b.files[f := FileUse(false, false)]);
    if b.provider.None? then Outcome(listed, 0, false)
    else
      var o := UseModule(listed, f, granted);
      if o.retval < 0 then Outcome(b, o.retval, false) else o
  }

  // ibclose
  function Close(b: Board, f: int): Outcome
    requires f in b.files
  {
    var file := b.files[f];
    var spollers := if file.autopoll && b.autospollers > 0 then b.autospollers - 1 else b.autospollers;
    var put := file.got && b.useCount > 0 && b.provider.Some?;
    Outcome(
      b.(files := b.files - {f},
         autospollers := spollers,
         useCount := if put then b.useCount - 1 else b.useCount,
         refs := if put then AddRefs(b.refs, b.provider.value, -1) else b.refs),
      0,
      (file.autopoll && b.autospollers == 0) || (file.got && !put))
  }

  // What every ioctl but two does first.
  function FirstIoctl(b: Board, f: int, granted: bool): Outcome
    requires f in b.files
  {
    if b.provider.None? then Outcome(b, -ENODEV, false)
    else if b.files[f].got then Outcome(b, 0, false)
    else UseModule(b, f, granted)
  }

  // autospoll_ioctl
  function Autospoll(b: Board, f: int, enable: bool): Outcome
    requires f in b.files
  {
    var file := b.files[f];
    if enable && file.autopoll then Outcome(b, 0, false)
    else if enable then
      Outcome(b.(files := b.files[f := file.(autopoll := true)], autospollers := b.autospollers + 1), 0, false)
    else if !file.autopoll then Outcome(b, -EINVAL, false)
    else
      var off := b.(files := b.files[f := file.(autopoll := false)]);
      if b.autospollers > 0 then Outcome(off.(autospollers := b.autospollers - 1), 0, false)
      else Outcome(off, -EINVAL, true)
  }

  /** board_type_ioctl, given the module of the driver asked for, None when no driver of
      that name is registered. `failAt` counts the module gets that succeed before one
      fails. */
  function BoardType(b: Board, f: int, driver: Option<Module>, failAt: nat): Outcome
    requires f in b.files
  {
    if driver.None? then Outcome(b, -EINVAL, false)
    else
      var had, n, m := b.files[f].got, b.useCount, driver.value;
      var put :=
        if n == 0 then b.(provider := driver)
        else
          b.(files := b.files[f := b.files[f].(got := false)],
             refs := if b.provider.Some? then AddRefs(b.refs, b.provider.value, 0 - n) else b.refs,
             provider := driver);
      var bug := n > 0 && b.provider.None?;
      if failAt < n then
        Outcome(put.(refs := AddRefs(put.refs, m, failAt), useCount := failAt), -EIO, bug)
      else
        var back := put.(refs := AddRefs(put.refs, m, n));
        if !had && failAt == n then Outcome(back, -EIO, bug)
        else
          var extra := if had then 0 else 1;
          Outcome(
            back.(files := back.files[f := back.files[f].(got := true)],
                  refs := AddRefs(back.refs, m, extra),
                  useCount := n + extra),
            0, bug)
  }

  // ---- each keeps the counts right, exactly when ... ----

  lemma SameBut(a: set<int>, b: set<int>, f: int)
    requires forall x :: x != f ==> (x in a <==> x in b)
    ensures |a| - (if f in a then 1 else 0) == |b| - if f in b then 1 else 0
  {
    assert forall x :: x in a - {f} <==> x in b - {f};
    assert a - {f} == b - {f};
    assert |a - {f}| == |a| - if f in a then 1 else 0;
    assert |b - {f}| == |b| - if f in b then 1 else 0;
  }

  // What one file's entry adds to a count.
  lemma UsersUpdate(files: map<int, FileUse>, f: int, file: FileUse)
    ensures |Users(files[f := file])|
            == |Users(files)| - (if f in files && files[f].got then 1 else 0) + (if file.got then 1 else 0)
    ensures |Spollers(files[f := file])|
            == |Spollers(files)| - (if f in files && files[f].autopoll then 1 else 0)
               + (if file.autopoll then 1 else 0)
  {
    var after := files[f := file];
    SameBut(Users(after), Users(files), f);
    SameBut(Spollers(after), Spollers(files), f);
  }

  lemma UsersRemove(files: map<int, FileUse>, f: int)
    requires f in files
    ensures |Users(files - {f})| == |Users(files)| - if files[f].got then 1 else 0
    ensures |Spollers(files - {f})| == |Spollers(files)| - if files[f].autopoll then 1 else 0
  {
    assert Users(files - {f}) == Users(files) - {f};
    assert Spollers(files - {f}) == Spollers(files) - {f};
  }

  // Only what is said of file f has changed in the files.
  ghost predicate OnlyFile(b: Board, r: Board, f: int, file: FileUse) {
    && r.files.Keys == b.files.Keys + {f} && r.files[f] == file
    && forall g :: g in b.files && g != f ==> r.files[g] == b.files[g]
  }

  lemma UseModuleKeeps(b: Board, f: int, granted: bool)
    requires Consistent(b) && f in b.files && !b.files[f].got && b.provider.Some?
    ensures Consistent(UseModule(b, f, granted).board)
    ensures granted ==> f in Users(UseModule(b, f, granted).board.files)
  {
    UsersUpdate(b.files, f, b.files[f].(got := true));
  }

  /** Opening a file uses the module if the board has one, and fails, without a file, exactly
      when that is refused. */
  lemma OpenKeeps(b: Board, f: int, granted: bool)
    requires Consistent(b) && f !in b.files
    ensures Consistent(Open(b, f, granted).board)
    ensures var o := Open(b, f, granted);
      && (o.retval == 0 <==> b.provider.None? || granted)
      && (o.retval == 0 ==> o.board.provider == b.provider && o.board.autospollers == b.autospollers
                            && OnlyFile(b, o.board, f, FileUse(b.provider.Some?, false)))
      && (o.retval != 0 ==> o.retval == -EIO && o.board == b)
  {
    UsersUpdate(b.files, f, FileUse(false, false));
    if b.provider.Some? {
      UseModuleKeeps(b.(files := b.files[f := FileUse(false, false)]), f, granted);
    }
  }

  /** Closing a file removes it and its part in the counts, and never finds a count at zero that
      it has to lower. */
  lemma CloseKeeps(b: Board, f: int)
    requires Consistent(b) && f in b.files
    ensures Consistent(Close(b, f).board) && !Close(b, f).bug
    ensures var r := Close(b, f).board;
      && r.files == b.files - {f} && r.provider == b.provider
      && r.useCount == b.useCount - (if b.files[f].got then 1 else 0)
      && r.autospollers == b.autospollers - (if b.files[f].autopoll then 1 else 0)
  {
    UsersRemove(b.files, f);
    if b.files[f].got {
      assert f in Users(b.files);
    }
    if b.files[f].autopoll {
      assert f in Spollers(b.files);
    }
  }

  lemma AutospollKeeps(b: Board, f: int, enable: bool)
    requires Consistent(b) && f in b.files
    ensures Consistent(Autospoll(b, f, enable).board) && !Autospoll(b, f, enable).bug
    ensures var o := Autospoll(b, f, enable);
      && (o.retval == 0 <==> enable || b.files[f].autopoll) && (o.retval != 0 ==> o.retval == -EINVAL)
      && OnlyFile(b, o.board, f, FileUse(b.files[f].got, enable))
      && o.board.provider == b.provider && o.board.useCount == b.useCount
  {
    UsersUpdate(b.files, f, b.files[f].(autopoll := enable));
    if b.files[f].autopoll {
      assert f in Spollers(b.files);
    }
  }

  /** Any other ioctl is refused on a board without a driver; on one with a driver its file uses
      the module from then on, and it is refused exactly when that fails. */
  lemma FirstIoctlKeeps(b: Board, f: int, granted: bool)
    requires Consistent(b) && f in b.files
    ensures Consistent(FirstIoctl(b, f, granted).board) && !FirstIoctl(b, f, granted).bug
    ensures var o, file := FirstIoctl(b, f, granted), b.files[f];
      if b.provider.None? then o.retval == -ENODEV && o.board == b
      else if file.got || granted then
        && o.retval == 0 && OnlyFile(b, o.board, f, FileUse(true, file.autopoll))
        && o.board.provider == b.provider && o.board.autospollers == b.autospollers
      else o.retval == -EIO && o.board == b
  {
    if b.provider.Some? && !b.files[f].got {
      UseModuleKeeps(b, f, granted);
    }
  }

  /** Changing the driver leaves a board with that driver and the calling file using it, if it
      succeeds; with no driver of that name nothing changes; if references are refused, the
      board has the driver all the same. No other file changes in any case. */
  lemma BoardTypeEffect(b: Board, f: int, driver: Option<Module>, failAt: nat)
    requires f in b.files
    ensures var o, file := BoardType(b, f, driver, failAt), b.files[f];
      var enough := failAt >= b.useCount && (file.got || failAt > b.useCount);
      && o.board.autospollers == b.autospollers
      && if driver.None? then o.retval == -EINVAL && o.board == b
         else
           && o.board.provider == driver && o.retval == (if enough then 0 else -EIO)
           && OnlyFile(b, o.board, f, FileUse(enough || (file.got && b.useCount == 0), file.autopoll))
  {
  }

  /** Changing the driver under open files moves the references to the new module, as many as
      are granted; it keeps the counts right exactly when all that were given up are got back,
      or all but the calling file's own. */
  lemma BoardTypeExact(b: Board, f: int, driver: Option<Module>, failAt: nat)
    requires Consistent(b) && f in b.files
    ensures var o := BoardType(b, f, driver, failAt);
      && !o.bug
      && (Consistent(o.board) <==>
          driver.None? || failAt >= b.useCount || (b.files[f].got && failAt == b.useCount - 1))
    ensures driver.Some? ==>
      var o := BoardType(b, f, driver, failAt);
      && o.board.useCount == (if failAt < b.useCount then failAt
                              else if b.files[f].got || failAt == b.useCount then b.useCount
                              else b.useCount + 1)
      && forall m :: Refs(o.board.refs, m) == if driver == Some(m) then o.board.useCount else 0
  {
    if driver.Some? {
      var o := BoardType(b, f, driver, failAt);
      var had, n := b.files[f].got, b.useCount;
      if had {
        assert f in Users(b.files);
      }
      UsersUpdate(b.files, f, b.files[f].(got := false));
      UsersUpdate(b.files, f, b.files[f].(got := true));
      assert b.files[f := b.files[f].(got := false)][f := b.files[f].(got := true)]
          == b.files[f := b.files[f].(got := true)];
      assert !had ==> b.files[f := b.files[f].(got := false)] == b.files;
      forall m ensures Refs(o.board.refs, m) == if driver == Some(m) then o.board.useCount else 0 {
      }
    }
  }

  // ---- whole runs ----

  datatype Op =
    | DoOpen(f: int, granted: bool)
    | DoClose(f: int)
    | DoIoctl(f: int, granted: bool)
    | DoAutospoll(f: int, granted: bool, enable: bool)
    | DoBoardType(f: int, driver: Option<Module>, failAt: nat)

  predicate Possible(b: Board, op: Op) { op.f in b.files <==> !op.DoOpen? }

  function Step(b: Board, op: Op): Outcome
    requires Possible(b, op)
  {
    match op
    case DoOpen(f, granted) => Open(b, f, granted)
    case DoClose(f) => Close(b, f)
    case DoIoctl(f, granted) => FirstIoctl(b, f, granted)
    case DoAutospoll(f, granted, enable) =>
      var o := FirstIoctl(b, f, granted);
      if o.retval < 0 then o else Autospoll(o.board, f, enable)
    case DoBoardType(f, driver, failAt) => BoardType(b, f, driver, failAt)
  }

  /** Asking for autopolling is such an ioctl: it succeeds only for a file that then uses the
      module and has what it asked for. */
  lemma AutospollStep(b: Board, f: int, granted: bool, enable: bool)
    requires Consistent(b) && f in b.files
    ensures var o, file := Step(b, DoAutospoll(f, granted, enable)), b.files[f];
      && (o.retval == 0 <==> b.provider.Some? && (file.got || granted) && (enable || file.autopoll))
      && (o.retval == 0 ==> OnlyFile(b, o.board, f, FileUse(true, enable)))
  {
    FirstIoctlKeeps(b, f, granted);
    var o := FirstIoctl(b, f, granted);
    if o.retval == 0 {
      AutospollKeeps(o.board, f, enable);
    }
  }

  // The re-getting of references on a change of driver goes well enough.
  predicate Proper(b: Board, op: Op)
    requires Possible(b, op)
  {
    op.DoBoardType? ==>
      op.driver.None? || op.failAt >= b.useCount || (b.files[op.f].got && op.failAt == b.useCount - 1)
  }

  /** No step ever finds a count wrongly at zero; it leaves the counts right if and only if
      it is proper. */
  lemma StepExact(b: Board, op: Op)
    requires Consistent(b) && Possible(b, op)
    ensures !Step(b, op).bug && (Consistent(Step(b, op).board) <==> Proper(b, op))
    ensures var o := Step(b, op);
      && (op.DoClose? ==> o.board.files == b.files - {op.f})
      && (op.DoOpen? ==> o.board.files.Keys == b.files.Keys + if o.retval == 0 then {op.f} else {})
      && (op.DoIoctl? && o.retval == 0 ==> o.board.files[op.f].got)
      && (op.DoBoardType? && op.driver.Some? ==> o.board.provider == op.driver)
  {
    match op
    case DoOpen(f, granted) => OpenKeeps(b, f, granted);
    case DoClose(f) => CloseKeeps(b, f);
    case DoIoctl(f, granted) => FirstIoctlKeeps(b, f, granted);
    case DoAutospoll(f, granted, enable) =>
      FirstIoctlKeeps(b, f, granted);
      if FirstIoctl(b, f, granted).retval == 0 {
        AutospollKeeps(FirstIoctl(b, f, granted).board, f, enable);
      }
    case DoBoardType(f, driver, failAt) =>
      BoardTypeExact(b, f, driver, failAt);
      BoardTypeEffect(b, f, driver, failAt);
  }

  ghost predicate ProperRun(b: Board, ops: seq<Op>)
    decreases |ops|
  {
    ops != [] ==>
      Possible(b, ops[0]) && Proper(b, ops[0]) && ProperRun(Step(b, ops[0]).board, ops[1..])
  }

  ghost function Run(b: Board, ops: seq<Op>): Board
    requires ProperRun(b, ops)
    decreases |ops|
  {
    if ops == [] then b else Run(Step(b, ops[0]).board, ops[1..])
  }

  // A run is its steps one after the other.
  lemma {:induction false} RunMore(b: Board, ops: seq<Op>, op: Op)
    requires ProperRun(b, ops) && Possible(Run(b, ops), op) && Proper(Run(b, ops), op)
    ensures ProperRun(b, ops + [op]) && Run(b, ops + [op]) == Step(Run(b, ops), op).board
    decreases |ops|
  {
    hide Step, Proper;
    if ops == [] {
      assert (ops + [op])[1..] == [];
    } else {
      assert (ops + [op])[1..] == ops[1..] + [op];
      RunMore(Step(b, ops[0]).board, ops[1..], op);
    }
  }

  /** Over any run of proper steps by any number of files, from a board nobody has open. */
  lemma RunsConsistent(provider: Option<Module>, ops: seq<Op>)
    requires ProperRun(Board(map[], 0, 0, provider, map[]), ops)
    ensures Consistent(Run(Board(map[], 0, 0, provider, map[]), ops))
  {
    RunsFrom(Board(map[], 0, 0, provider, map[]), ops);
  }

  lemma {:induction false} RunsFrom(b: Board, ops: seq<Op>)
    requires Consistent(b) && ProperRun(b, ops)
    ensures Consistent(Run(b, ops))
    decreases |ops|
  {
    if ops != [] {
      StepExact(b, ops[0]);
      RunsFrom(Step(b, ops[0]).board, ops[1..]);
    }
  }

  /** In particular, when every file is closed again no module reference is left, whatever
      drivers the board had in between. */
  lemma NothingLeft(provider: Option<Module>, ops: seq<Op>)
    requires ProperRun(Board(map[], 0, 0, provider, map[]), ops)
    requires Run(Board(map[], 0, 0, provider, map[]), ops).files == map[]
    ensures var b := Run(Board(map[], 0, 0, provider, map[]), ops);
      b.useCount == 0 && b.autospollers == 0 && forall m :: Refs(b.refs, m) == 0
  {
    RunsConsistent(provider, ops);
    var b := Run(Board(map[], 0, 0, provider, map[]), ops);
    assert Users(b.files) == {} && Spollers(b.files) == {};
  }

  // ---- the board's own fields ----

  class BoardCounts {
    var files: map<int, FileUse>
    var useCount: nat
    var autospollers: nat
    var provider: Option<Module>
    ghost var refs: map<Module, int>

    ghost function State(): Board reads this {
      Board(files, useCount, autospollers, provider, refs)
    }

    constructor ()
      ensures State() == Board(map[], 0, 0, None, map[])
    {
      files, useCount, autospollers, provider, refs := map[], 0, 0, None, map[];
    }

    method ModulePut(m: Module)
      modifies this`refs
      ensures refs == AddRefs(old(refs), m, -1)
    {
      refs := AddRefs(refs, m, -1);
    }

    method TryModuleGet(m: Module, granted: bool) returns (ok: bool)
      modifies this`refs
      ensures ok == granted
      ensures refs == if granted then AddRefs(old(refs), m, 1) else old(refs)
    {
      if granted {
        refs := AddRefs(refs, m, 1);
      }
      ok := granted;
    }

    method Ibopen(f: int, granted: bool) returns (retval: int)
      requires f !in files
      modifies this
      ensures State() == Open(old(State()), f, granted).board
      ensures retval == Open(old(State()), f, granted).retval
    {
      if provider.Some? {
        var ok := TryModuleGet(provider.value, granted);
        if !ok {
          return -EIO;
        }
        useCount := useCount + 1;
      }
      files := files[f := FileUse(provider.Some?, false)];
      retval := 0;
    }

    method Ibclose(f: int)
      requires f in files && Consistent(State())
      modifies this
      ensures State() == Close(old(State()), f).board && Consistent(State())
    {
      CloseKeeps(State(), f);
      if files[f].autopoll && autospollers > 0 {
        autospollers := autospollers - 1;
      }
      if files[f].got && useCount > 0 {
        ModulePut(provider.value);
        useCount := useCount - 1;
      }
      files := files - {f};
    }

    method IoctlPrologue(f: int, granted: bool) returns (retval: int)
      requires f in files
      modifies this
      ensures State() == FirstIoctl(old(State()), f, granted).board
      ensures retval == FirstIoctl(old(State()), f, granted).retval
    {
      if provider.None? {
        return -ENODEV;
      }
      if !files[f].got {
        var ok := TryModuleGet(provider.value, granted);
        if !ok {
          return -EIO;
        }
        files := files[f := files[f].(got := true)];
        useCount := useCount + 1;
      }
      retval := 0;
    }

    method AutospollIoctl(f: int, enable: bool) returns (retval: int)
      requires f in files
      modifies this
      ensures State() == Autospoll(old(State()), f, enable).board
      ensures retval == Autospoll(old(State()), f, enable).retval
    {
      var file := files[f];
      if enable {
        if !file.autopoll {
          autospollers := autospollers + 1;
          files := files[f := file.(autopoll := true)];
        }
        return 0;
      }
      if !file.autopoll {
        return -EINVAL;
      }
      files := files[f := file.(autopoll := false)];
      if autospollers == 0 {
        return -EINVAL;
      }
      autospollers := autospollers - 1;
      retval := 0;
    }

    method BoardTypeIoctl(f: int, driver: Option<Module>, failAt: nat) returns (retval: int)
      requires f in files && Consistent(State())
      modifies this
      ensures forall m :: Refs(refs, m) == Refs(BoardType(old(State()), f, driver, failAt).board.refs, m)
      ensures State().(refs := map[]) == BoardType(old(State()), f, driver, failAt).board.(refs := map[])
      ensures retval == BoardType(old(State()), f, driver, failAt).retval
    {
      assert useCount > 0 ==> provider.Some?;
      hide Consistent;
      if driver.None? {
        return -EINVAL;
      }
      var had := files[f].got;
      if useCount > 0 {
        var i := 0;
        while i < useCount
          invariant i <= useCount
          invariant State() == old(State()).(refs := refs)
          invariant forall m :: Refs(refs, m) == Refs(old(refs), m) - if provider == Some(m) then i else 0
        {
          ModulePut(provider.value);
          i := i + 1;
        }
        files := files[f := files[f].(got := false)];
      }
      provider := driver;
      ghost var put := State();
      var i := 0;
      while i < useCount
        invariant i <= useCount && i <= failAt
        invariant State() == put.(refs := refs)
        invariant forall m :: Refs(refs, m) == Refs(put.refs, m) + if driver == Some(m) then i else 0
      {
        var ok := TryModuleGet(driver.value, i < failAt);
        if !ok {
          useCount := i;
          return -EIO;
        }
        i := i + 1;
      }
      if !had {
        var ok := TryModuleGet(driver.value, useCount < failAt);
        if !ok {
          return -EIO;
        }
        useCount := useCount + 1;
      }
      files := files[f := files[f].(got := true)];
      retval := 0;
    }
  }
}
