/** Asynchronous I/O on one descriptor (async.c, ibstop.c, ibWait.c), with the flag behind
    CMPL that the board core keeps for it (gpib_os.c, iblib.c). Launching threads, the worker
    each of them starts, and the threads that stop or wait for an operation take steps in
    any order. */
module AsyncIo {

  datatype Kind = Command | Read | Write

  datatype Option<T> = None | Some(value: T)

  // gpib_aio_launch
  datatype LaunchPc =
    | Idle
    | Checking   // async.lock is held from here ...
    | Filling
    | Marking
    | Testing    // ... to here, and while the condition is tested
    | Waiting
    | Releasing
    | Freeing
    | Succeeded
    | Refused

  // do_aio
  datatype WorkPc =
    | NotYet
    | Starting
    | WantBoard
    | Clearing
    | Signalling
    | Flagging
    | Unlocking
    | Addressing
    | AddressIo(noClear: bool)
    | Transfer
    | TransferIo
    | Disabling     // the last point at which a cancellation can act
    | WantResult
    | Result1
    | Result2
    | Result3
    | ResultUnlock
    | SetCmpl       // cleanup_aio
    | GiveBoard
    | Exited

  // internal_ibstop, and ibwait for CMPL
  datatype JoinPc =
    | Away
    | StopCheck
    | StopRelease(op: int)
    | Picking
    | Joining(op: int, stop: bool)
    | Joined(op: int, stop: bool)
    | Unmarking(op: int, stop: bool)

  /** One launch with its argument and its worker. `took` and `gave` count what the worker
      does to the board mutex, `before` is io when it took it. `cleared` says that its ioctl
      that makes CMPL disappear succeeded, `raised` that this or a later ioctl of the operation
      did so, `ended` that CMPL may be back: the data ioctl is over, or the addressing failed,
      or cleanup set it. `usedFreed` and `readEarly` record that the worker touched its argument
      after it was freed, or read in_progress and aio_type before they were set for it. */
  datatype Op = Op(
    kind: Kind, lpc: LaunchPc, wpc: WorkPc,
    flag: bool, freed: bool, cancel: bool,
    took: nat, gave: nat,
    before: bool, cleared: bool, raised: bool, ended: bool, reported: bool,
    usedFreed: bool, readEarly: bool)

  // Whose value a result field has.
  datatype Field = Untouched(op: int) | From(op: int)

  datatype Who = Launcher(op: int) | Worker(op: int) | Joiner(j: int)

  /** `board` is the owner of the board mutex, a worker or 0 for anybody else; `io` is the
      descriptor's io_in_progress, the opposite of CMPL. */
  datatype Shared = Shared(
    lock: Option<Who>,
    inProgress: bool, thread: int, aioType: Kind,
    ibcntl: Field, iberr: Field, ibsta: Field,
    board: Option<int>,
    io: bool)

  datatype State = State(ops: map<int, Op>, joiners: map<int, JoinPc>, sh: Shared)

  // What one launch and its worker see.
  datatype View = View(op: Op, sh: Shared)

  datatype Outcome = Good | Bad | Skip

  datatype Action =
    | Launch(l: int)
    | Work(l: int, outcome: Outcome)
    | Cancelled(l: int)
    | Stop(j: int)
    | Wait(j: int)
    | Join(j: int, ok: bool)
    | OthersTake
    | OthersGive
    | OthersIo(value: bool)

  // ---- the steps ----

  function LaunchStep(v: View, l: int): Option<View> {
    var op, sh := v.op, v.sh;
    match op.lpc
    case Idle =>
      if sh.lock.None? then Some(View(op.(lpc := Checking), sh.(lock := Some(Launcher(l))))) else None
    case Checking =>
      if sh.inProgress then Some(View(op.(lpc := Refused), sh.(lock := None)))
      else Some(View(op.(lpc := Filling), sh))
    case Filling =>
      Some(View(op.(lpc := Marking, wpc := Starting),
                sh.(ibcntl := Untouched(l), iberr := Untouched(l), ibsta := Untouched(l),
                    aioType := op.kind, thread := l)))
    case Marking => Some(View(op.(lpc := Testing), sh.(inProgress := true)))
    case Testing =>
      if op.flag then Some(View(op.(lpc := Releasing), sh))
      else Some(View(op.(lpc := Waiting), sh.(lock := None)))
    case Waiting =>
      if sh.lock.None? then Some(View(op.(lpc := Testing), sh.(lock := Some(Launcher(l))))) else None
    case Releasing => Some(View(op.(lpc := Freeing), sh.(lock := None)))
    case Freeing => Some(View(op.(lpc := Succeeded, freed := true), sh))
    case _ => None
  }

  // The worker up to the point where the launcher can go on.
  function HandshakeStep(v: View, l: int, outcome: Outcome): Option<View> {
    var op, sh := v.op, v.sh;
    match op.wpc
    case Starting => Some(View(op.(wpc := WantBoard, usedFreed := op.usedFreed || op.freed), sh))
    case WantBoard =>
      if !outcome.Good? then Some(View(op.(wpc := Signalling), sh))
      else if sh.board.Some? then None
      else Some(View(op.(wpc := Clearing, took := op.took + 1, before := sh.io), sh.(board := Some(l))))
    case Clearing =>
      if !outcome.Good? then Some(View(op.(wpc := Signalling), sh))
      else Some(View(op.(wpc := Signalling, cleared := true, raised := true), sh.(io := true)))
    case Signalling =>
      if sh.lock.None? then Some(View(op.(wpc := Flagging), sh.(lock := Some(Worker(l))))) else None
    case Flagging =>
      Some(View(op.(wpc := Unlocking, flag := true, usedFreed := op.usedFreed || op.freed), sh))
    case Unlocking =>
      Some(View(op.(wpc := if op.took > op.gave then Addressing else Exited), sh.(lock := None)))
    case _ => None
  }

  /** my_ibcmd, my_ibrd and my_ibwrt, without the unaddress option and with XEOS off. The
      command ioctl leaves io set at its end if it was told so and succeeded. */
  function TransferStep(v: View, l: int, outcome: Outcome): Option<View> {
    var op, sh := v.op, v.sh;
    match op.wpc
    case Addressing =>
      if outcome.Bad? then Some(View(op.(wpc := Disabling, ended := true), sh))
      else if outcome.Skip? && !op.kind.Command? then Some(View(op.(wpc := Transfer), sh))
      else
        Some(View(op.(wpc := AddressIo(sh.inProgress && !sh.aioType.Command?),
                      readEarly := op.readEarly || !sh.inProgress || sh.aioType != op.kind,
                      raised := true),
                  sh.(io := true)))
    case AddressIo(noClear) =>
      if !outcome.Good? then Some(View(op.(wpc := Disabling, ended := true), sh.(io := false)))
      else if op.kind.Command?
      then Some(View(op.(wpc := Disabling, ended := true), sh.(io := noClear && sh.io)))
      else Some(View(op.(wpc := Transfer), sh.(io := noClear && sh.io)))
    case Transfer =>
      if outcome.Skip? then Some(View(op.(wpc := Disabling), sh))
      else if outcome.Bad? then Some(View(op.(wpc := Disabling, ended := true), sh))
      else Some(View(op.(wpc := TransferIo, raised := true), sh.(io := true)))
    case TransferIo => Some(View(op.(wpc := Disabling, ended := true), sh.(io := false)))
    case _ => None
  }

  function FinishStep(v: View, l: int, outcome: Outcome): Option<View> {
    var op, sh := v.op, v.sh;
    match op.wpc
    case Disabling => Some(View(op.(wpc := WantResult), sh))
    case WantResult =>
      if sh.lock.None? then Some(View(op.(wpc := Result1), sh.(lock := Some(Worker(l))))) else None
    case Result1 => Some(View(op.(wpc := Result2), sh.(ibcntl := From(l))))
    case Result2 => Some(View(op.(wpc := Result3), sh.(iberr := From(l))))
    case Result3 => Some(View(op.(wpc := ResultUnlock, reported := true), sh.(ibsta := From(l))))
    case ResultUnlock => Some(View(op.(wpc := SetCmpl), sh.(lock := None)))
    case SetCmpl =>
      Some(View(op.(wpc := GiveBoard, ended := true), if outcome.Good? then sh.(io := false) else sh))
    case GiveBoard => Some(View(op.(wpc := Exited, gave := op.gave + 1), sh.(board := None)))
    case _ => None
  }

  function WorkStep(v: View, l: int, outcome: Outcome): Option<View> {
    if HandshakeStep(v, l, outcome).Some? then HandshakeStep(v, l, outcome)
    else if TransferStep(v, l, outcome).Some? then TransferStep(v, l, outcome)
    else FinishStep(v, l, outcome)
  }

  // A pending cancellation acts between two ioctls and runs the cleanup handler.
  function CancelStep(v: View): Option<View> {
    if v.op.cancel && (v.op.wpc.Addressing? || v.op.wpc.Transfer? || v.op.wpc.Disabling?)
    then Some(View(v.op.(wpc := SetCmpl), v.sh)) else None
  }

  function AtJ(s: State, j: int, pc: JoinPc, lock: Option<Who>): State {
    s.(joiners := s.joiners[j := pc], sh := s.sh.(lock := lock))
  }

  function JoinStep(s: State, j: int, ok: bool): Option<State>
    requires j in s.joiners
  {
    var lock := s.sh.lock;
    match s.joiners[j]
    case StopCheck =>
      if !s.sh.inProgress || !ok || s.sh.thread !in s.ops then Some(AtJ(s, j, Away, None))
      else
        Some(AtJ(s, j, StopRelease(s.sh.thread), lock)
             .(ops := s.ops[s.sh.thread := s.ops[s.sh.thread].(cancel := true)]))
    case StopRelease(t) => Some(AtJ(s, j, Joining(t, true), None))
    case Picking => Some(AtJ(s, j, Joining(s.sh.thread, false), lock))
    case Joining(t, stop) =>
      if t in s.ops && s.ops[t].wpc.Exited? then Some(AtJ(s, j, Joined(t, stop), lock)) else None
    case Joined(t, stop) =>
      if !stop then Some(AtJ(s, j, Unmarking(t, stop), lock))
      else if lock.None? then Some(AtJ(s, j, Unmarking(t, stop), Some(Joiner(j))))
      else None
    case Unmarking(t, stop) =>
      Some(s.(joiners := s.joiners[j := Away],
              sh := s.sh.(inProgress := false, lock := if stop then None else lock)))
    case Away => None
  }

  // internal_ibstop begins, or ibwait sees in_progress.
  function StartJoin(s: State, j: int, stop: bool): Option<State>
    requires j in s.joiners
  {
    if !s.joiners[j].Away? then None
    else if stop then
      if s.sh.lock.None? then Some(AtJ(s, j, StopCheck, Some(Joiner(j)))) else None
    else if s.sh.inProgress then Some(AtJ(s, j, Picking, s.sh.lock)) else None
  }

  // Anybody else: the rest of this program, other programs, the autospoll thread.
  function OthersStep(sh: Shared, a: Action): Option<Shared> {
    if a.OthersTake? && sh.board.None? then Some(sh.(board := Some(0)))
    else if a.OthersGive? && sh.board == Some(0) then Some(sh.(board := None))
    else if a.OthersIo? && sh.board == Some(0) then Some(sh.(io := a.value))
    else None
  }

  function Put(s: State, l: int, v: Option<View>): Option<State> {
    if v.None? then None else Some(s.(ops := s.ops[l := v.value.op], sh := v.value.sh))
  }

  function ViewStep(v: View, a: Action): Option<View> {
    if a.Launch? then LaunchStep(v, a.l)
    else if a.Work? then WorkStep(v, a.l, a.outcome)
    else if a.Cancelled? then CancelStep(v)
    else None
  }

  function Next(s: State, a: Action): Option<State> {
    if a.Launch? || a.Work? || a.Cancelled? then
      if a.l in s.ops then Put(s, a.l, ViewStep(View(s.ops[a.l], s.sh), a)) else None
    else if a.Join? || a.Stop? || a.Wait? then
      if a.j !in s.joiners then None
      else if a.Join? then JoinStep(s, a.j, a.ok)
      else StartJoin(s, a.j, a.Stop?)
    else
      var sh := OthersStep(s.sh, a);
      if sh.None? then None else Some(s.(sh := sh.value))
  }

  // ---- the invariant ----

  predicate Live(pc: WorkPc) { !pc.NotYet? && !pc.Exited? }

  predicate LauncherLocks(pc: LaunchPc) {
    pc.Checking? || pc.Filling? || pc.Marking? || pc.Testing? || pc.Releasing?
  }

  predicate WorkerLocks(pc: WorkPc) {
    pc.Flagging? || pc.Unlocking? || pc.Result1? || pc.Result2? || pc.Result3? || pc.ResultUnlock?
  }

  // The worker has not yet told the launcher to go on.
  predicate BeforeFlag(pc: WorkPc) {
    pc.NotYet? || pc.Starting? || pc.WantBoard? || pc.Clearing? || pc.Signalling? || pc.Flagging?
  }

  // The worker is on its way to its data ioctl, or in it.
  predicate BeforeData(pc: WorkPc) {
    pc.Unlocking? || pc.Addressing? || pc.AddressIo? || pc.Transfer? || pc.TransferIo?
  }

  predicate BeforeBoard(pc: WorkPc) { pc.NotYet? || pc.Starting? || pc.WantBoard? }

  predicate NeedsBoard(pc: WorkPc) {
    !BeforeBoard(pc) && !pc.Signalling? && !pc.Flagging? && !pc.Unlocking? && !pc.Exited?
  }

  predicate Reporting(pc: WorkPc) { pc.ResultUnlock? || pc.SetCmpl? || pc.GiveBoard? || pc.Exited? }

  // The result fields as the worker has left them so far.
  predicate FieldsOf(v: View, l: int) {
    var op, sh := v.op, v.sh;
    && sh.ibcntl == (if op.reported || op.wpc.Result2? || op.wpc.Result3? then From(l) else Untouched(l))
    && sh.iberr == (if op.reported || op.wpc.Result3? then From(l) else Untouched(l))
    && sh.ibsta == (if op.reported then From(l) else Untouched(l))
  }

  // async.lock, the condition and the argument
  predicate HandshakeOk(v: View, l: int) {
    var op, sh := v.op, v.sh;
    && (LauncherLocks(op.lpc) <==> sh.lock == Some(Launcher(l)))
    && (WorkerLocks(op.wpc) <==> sh.lock == Some(Worker(l)))
    && (op.wpc.NotYet? <==> op.lpc.Idle? || op.lpc.Checking? || op.lpc.Filling? || op.lpc.Refused?)
    && (op.flag <==> !BeforeFlag(op.wpc))
    && (op.lpc.Releasing? || op.lpc.Freeing? || op.lpc.Succeeded? ==> op.flag)
    && (op.freed <==> op.lpc.Succeeded?)
    && !op.usedFreed
  }

  predicate BoardOk(v: View, l: int) {
    var op, sh := v.op, v.sh;
    && op.gave <= op.took <= 1
    && (sh.board == Some(l) <==> op.took > op.gave)
    && (NeedsBoard(op.wpc) ==> op.took > op.gave)
    && (BeforeBoard(op.wpc) ==> op.took == 0)
    && (op.wpc.Exited? ==> op.gave == op.took)
  }

  // in_progress, aio_type and thread
  predicate MarksOk(v: View, l: int) {
    var op, sh := v.op, v.sh;
    && (Live(op.wpc) ==> sh.thread == l && sh.aioType == op.kind && (sh.inProgress || op.lpc.Marking?))
    && (op.lpc.Filling? || op.lpc.Marking? ==> !sh.inProgress)
    && (op.lpc.Marking? ==> BeforeFlag(op.wpc) && !op.wpc.Flagging?)
    && !op.readEarly
  }

  predicate ResultsOk(v: View, l: int) {
    && (v.op.reported ==> Reporting(v.op.wpc))
    && (v.op.wpc.ResultUnlock? ==> v.op.reported)
    && (v.sh.thread == l && !v.op.wpc.NotYet? ==> FieldsOf(v, l))
  }

  predicate CmplOk(v: View, l: int) {
    var op, sh := v.op, v.sh;
    && (op.took > 0 && !op.ended ==>
          sh.io == (op.raised || op.before) && op.took > op.gave && !op.wpc.GiveBoard?)
    && (op.wpc.AddressIo? ==> op.wpc.noClear == !op.kind.Command? && op.raised)
    && (op.wpc.TransferIo? ==> op.raised)
    && (op.cleared ==> op.raised)
    && (op.raised ==> op.took > 0)
    && (BeforeBoard(op.wpc) || op.wpc.Clearing? ==> !op.raised)
    && (op.ended ==> !BeforeFlag(op.wpc) && !BeforeData(op.wpc) && op.took > 0)
  }

  predicate OpOk(v: View, l: int) {
    l != 0 && HandshakeOk(v, l) && BoardOk(v, l) && MarksOk(v, l) && ResultsOk(v, l) && CmplOk(v, l)
  }

  predicate JoinerLocks(pc: JoinPc) { pc.StopCheck? || pc.StopRelease? || (pc.Unmarking? && pc.stop) }

  // The joiner has seen that an operation is marked as in progress.
  predicate Past(pc: JoinPc) { !pc.Away? && !pc.StopCheck? }

  predicate HasOp(pc: JoinPc) { pc.StopRelease? || pc.Joining? || pc.Joined? || pc.Unmarking? }

  predicate Started(l: int, ops: map<int, Op>) { l in ops && !ops[l].wpc.NotYet? }

  predicate JoinerOk(pc: JoinPc, j: int, ops: map<int, Op>, sh: Shared) {
    && (JoinerLocks(pc) <==> sh.lock == Some(Joiner(j)))
    && (Past(pc) ==> Started(sh.thread, ops))
    && (HasOp(pc) ==> Started(pc.op, ops))
    && (pc.Joined? || pc.Unmarking? ==> ops[pc.op].wpc.Exited?)
  }

  predicate OwnersKnown(s: State) {
    && (s.sh.lock.Some? ==>
          match s.sh.lock.value
          case Launcher(l) => l in s.ops
          case Worker(l) => l in s.ops
          case Joiner(j) => j in s.joiners)
    && (s.sh.board.Some? ==> s.sh.board.value == 0 || s.sh.board.value in s.ops)
  }

  ghost predicate Inv(s: State) {
    && (forall l :: l in s.ops ==> OpOk(View(s.ops[l], s.sh), l))
    && (forall j :: j in s.joiners ==> JoinerOk(s.joiners[j], j, s.ops, s.sh))
    && (s.sh.inProgress ==> Started(s.sh.thread, s.ops))
    && OwnersKnown(s)
  }

  // ---- a step of a launcher or a worker ----

  // What an operation never takes back.
  predicate Grows(a: Op, b: Op) {
    && a.took <= b.took && (a.raised ==> b.raised) && (a.took > 0 ==> b.before == a.before)
  }

  // What it may do to everything else, and that it stays in order itself.
  predicate Local(v: View, l: int, w: View) {
    var a, b := v.sh, w.sh;
    && (|| b.lock == a.lock
        || (a.lock.None? && (b.lock == Some(Launcher(l)) || b.lock == Some(Worker(l))))
        || (b.lock.None? && (a.lock == Some(Launcher(l)) || a.lock == Some(Worker(l)))))
    && (|| b.board == a.board
        || (a.board.None? && b.board == Some(l))
        || (a.board == Some(l) && b.board.None?))
    && (b.io == a.io || a.board == Some(l))
    && ((b.ibcntl == a.ibcntl && b.iberr == a.iberr && b.ibsta == a.ibsta) || b.thread == l)
    && (|| (b.thread == a.thread && b.aioType == a.aioType)
        || (b.thread == l && !a.inProgress && a.lock == Some(Launcher(l))))
    && (b.inProgress == a.inProgress || (b.inProgress && b.thread == l && a.lock == Some(Launcher(l))))
    && (v.op.wpc.Exited? ==> w.op.wpc.Exited?)
    && (w.op.wpc.NotYet? ==>
          v.op.wpc.NotYet? && b.thread == a.thread && b.inProgress == a.inProgress)
    && Grows(v.op, w.op)
    && OpOk(w, l)
  }

  lemma LaunchBegins(v: View, l: int)
    requires OpOk(v, l) && LaunchStep(v, l).Some?
    requires v.op.lpc.Idle? || v.op.lpc.Checking? || v.op.lpc.Filling? || v.op.lpc.Marking?
    ensures Local(v, l, LaunchStep(v, l).value)
  {
  }

  lemma LaunchEnds(v: View, l: int)
    requires OpOk(v, l) && LaunchStep(v, l).Some?
    requires v.op.lpc.Testing? || v.op.lpc.Waiting? || v.op.lpc.Releasing? || v.op.lpc.Freeing?
    ensures Local(v, l, LaunchStep(v, l).value)
  {
  }

  lemma BoardIsLocal(v: View, l: int, outcome: Outcome)
    requires OpOk(v, l) && HandshakeStep(v, l, outcome).Some?
    requires v.op.wpc.Starting? || v.op.wpc.WantBoard? || v.op.wpc.Clearing?
    ensures Local(v, l, HandshakeStep(v, l, outcome).value)
  {
  }

  lemma SignalIsLocal(v: View, l: int, outcome: Outcome)
    requires OpOk(v, l) && HandshakeStep(v, l, outcome).Some?
    requires v.op.wpc.Signalling? || v.op.wpc.Flagging? || v.op.wpc.Unlocking?
    ensures Local(v, l, HandshakeStep(v, l, outcome).value)
  {
  }

  lemma AddressingIsLocal(v: View, l: int, outcome: Outcome)
    requires OpOk(v, l) && v.op.wpc.Addressing?
    ensures Local(v, l, TransferStep(v, l, outcome).value)
  {
  }

  lemma AddressIoIsLocal(v: View, l: int, outcome: Outcome)
    requires OpOk(v, l) && v.op.wpc.AddressIo?
    ensures Local(v, l, TransferStep(v, l, outcome).value)
  {
    if outcome.Good? && !v.op.kind.Command? {
      AddressedIsLocal(v, l);
    }
  }

  lemma AddressedIsLocal(v: View, l: int)
    requires OpOk(v, l) && v.op.wpc.AddressIo? && !v.op.kind.Command?
    ensures Local(v, l, TransferStep(v, l, Good).value)
  {
  }

  lemma DataIsLocal(v: View, l: int, outcome: Outcome)
    requires OpOk(v, l) && (v.op.wpc.Transfer? || v.op.wpc.TransferIo?)
    ensures Local(v, l, TransferStep(v, l, outcome).value)
  {
  }

  lemma ReportIsLocal(v: View, l: int, outcome: Outcome)
    requires OpOk(v, l) && FinishStep(v, l, outcome).Some?
    requires v.op.wpc.Result1? || v.op.wpc.Result2? || v.op.wpc.Result3?
    ensures Local(v, l, FinishStep(v, l, outcome).value)
  {
  }

  lemma LockingIsLocal(v: View, l: int, outcome: Outcome)
    requires OpOk(v, l) && FinishStep(v, l, outcome).Some?
    requires v.op.wpc.Disabling? || v.op.wpc.WantResult? || v.op.wpc.ResultUnlock?
    ensures Local(v, l, FinishStep(v, l, outcome).value)
  {
  }

  lemma CleanupIsLocal(v: View, l: int, outcome: Outcome)
    requires OpOk(v, l) && (v.op.wpc.SetCmpl? || v.op.wpc.GiveBoard?)
    ensures Local(v, l, FinishStep(v, l, outcome).value)
  {
  }

  lemma WorkIsLocal(v: View, l: int, outcome: Outcome)
    requires OpOk(v, l) && WorkStep(v, l, outcome).Some?
    ensures Local(v, l, WorkStep(v, l, outcome).value)
  {
    hide OpOk, Local;
    if v.op.wpc.Starting? || v.op.wpc.WantBoard? || v.op.wpc.Clearing? {
      BoardIsLocal(v, l, outcome);
    } else if v.op.wpc.Signalling? || v.op.wpc.Flagging? || v.op.wpc.Unlocking? {
      SignalIsLocal(v, l, outcome);
    } else if v.op.wpc.Addressing? {
      AddressingIsLocal(v, l, outcome);
    } else if v.op.wpc.AddressIo? {
      AddressIoIsLocal(v, l, outcome);
    } else if v.op.wpc.Transfer? || v.op.wpc.TransferIo? {
      DataIsLocal(v, l, outcome);
    } else if v.op.wpc.Result1? || v.op.wpc.Result2? || v.op.wpc.Result3? {
      ReportIsLocal(v, l, outcome);
    } else if v.op.wpc.SetCmpl? || v.op.wpc.GiveBoard? {
      CleanupIsLocal(v, l, outcome);
    } else {
      LockingIsLocal(v, l, outcome);
    }
  }

  lemma CancelIsLocal(v: View, l: int)
    requires OpOk(v, l) && CancelStep(v).Some?
    ensures Local(v, l, CancelStep(v).value)
  {
  }

  lemma OtherOpKept(v: View, l: int, w: View, other: Op, k: int)
    requires OpOk(v, l) && Local(v, l, w) && OpOk(View(other, v.sh), k) && k != l
    ensures OpOk(View(other, w.sh), k)
  {
  }

  lemma ViewStepIsLocal(v: View, a: Action)
    requires (a.Launch? || a.Work? || a.Cancelled?) && OpOk(v, a.l) && ViewStep(v, a).Some?
    ensures Local(v, a.l, ViewStep(v, a).value)
  {
    hide OpOk, Local, WorkStep, CancelStep;
    if a.Work? {
      WorkIsLocal(v, a.l, a.outcome);
    } else if a.Cancelled? {
      CancelIsLocal(v, a.l);
    } else if v.op.lpc.Idle? || v.op.lpc.Checking? || v.op.lpc.Filling? || v.op.lpc.Marking? {
      LaunchBegins(v, a.l);
    } else {
      LaunchEnds(v, a.l);
    }
  }

  lemma JoinerKept(s: State, l: int, w: View, j: int)
    requires l in s.ops && Local(View(s.ops[l], s.sh), l, w)
    requires j in s.joiners && JoinerOk(s.joiners[j], j, s.ops, s.sh)
    ensures JoinerOk(s.joiners[j], j, s.ops[l := w.op], w.sh)
  {
    hide OpOk;
  }

  lemma LocalKeepsInv(s: State, l: int, w: View)
    requires Inv(s) && l in s.ops && Local(View(s.ops[l], s.sh), l, w)
    ensures Inv(Put(s, l, Some(w)).value)
  {
    var v, r := View(s.ops[l], s.sh), Put(s, l, Some(w)).value;
    assert r.sh.inProgress ==> Started(r.sh.thread, r.ops);
    hide OpOk, JoinerOk;
    assert OpOk(w, l) by { assert Local(v, l, w); }
    hide Local;
    forall k | k in r.ops ensures OpOk(View(r.ops[k], r.sh), k) {
      if k != l {
        OtherOpKept(v, l, w, s.ops[k], k);
      }
    }
    forall j | j in r.joiners ensures JoinerOk(r.joiners[j], j, r.ops, r.sh) {
      JoinerKept(s, l, w, j);
    }
  }

  // ---- a step of a joiner, and of anybody else ----

  // What a joiner may do to the rest.
  predicate JoinLocal(s: State, j: int, r: State) {
    var a, b := s.sh, r.sh;
    && j in r.joiners && r.joiners == s.joiners[j := r.joiners[j]]
    && b == a.(lock := b.lock, inProgress := b.inProgress)
    && (|| b.lock == a.lock
        || (a.lock.None? && b.lock == Some(Joiner(j)))
        || (a.lock == Some(Joiner(j)) && b.lock.None?))
    && (b.inProgress == a.inProgress
        || (!b.inProgress && a.thread in s.ops && !Live(s.ops[a.thread].wpc)))
    && r.ops.Keys == s.ops.Keys
    && (forall l :: l in s.ops ==> r.ops[l] == s.ops[l] || r.ops[l] == s.ops[l].(cancel := true))
    && JoinerOk(r.joiners[j], j, r.ops, r.sh)
  }

  lemma JoinIsLocal(s: State, j: int, ok: bool)
    requires j in s.joiners && JoinerOk(s.joiners[j], j, s.ops, s.sh)
    requires s.sh.inProgress ==> Started(s.sh.thread, s.ops)
    requires JoinStep(s, j, ok).Some? && !Disowns(s, Join(j, ok))
    ensures JoinLocal(s, j, JoinStep(s, j, ok).value)
  {
    hide JoinerOk, JoinLocal, JoinStep, Disowns;
    if s.joiners[j].Unmarking? {
      UnmarkIsLocal(s, j, ok);
    } else if s.joiners[j].StopCheck? {
      CheckIsLocal(s, j, ok);
    } else {
      WaitingIsLocal(s, j, ok);
    }
  }

  lemma UnmarkIsLocal(s: State, j: int, ok: bool)
    requires j in s.joiners && JoinerOk(s.joiners[j], j, s.ops, s.sh) && s.joiners[j].Unmarking?
    requires s.sh.inProgress ==> Started(s.sh.thread, s.ops)
    requires !Disowns(s, Join(j, ok))
    ensures JoinLocal(s, j, JoinStep(s, j, ok).value)
  {
  }

  lemma CheckIsLocal(s: State, j: int, ok: bool)
    requires j in s.joiners && JoinerOk(s.joiners[j], j, s.ops, s.sh) && s.joiners[j].StopCheck?
    requires s.sh.inProgress ==> Started(s.sh.thread, s.ops)
    ensures JoinLocal(s, j, JoinStep(s, j, ok).value)
  {
  }

  lemma WaitingIsLocal(s: State, j: int, ok: bool)
    requires j in s.joiners && JoinerOk(s.joiners[j], j, s.ops, s.sh)
    requires !s.joiners[j].Unmarking? && !s.joiners[j].StopCheck? && JoinStep(s, j, ok).Some?
    ensures JoinLocal(s, j, JoinStep(s, j, ok).value)
  {
  }

  lemma StartJoinIsLocal(s: State, j: int, stop: bool)
    requires j in s.joiners && JoinerOk(s.joiners[j], j, s.ops, s.sh)
    requires s.sh.inProgress ==> Started(s.sh.thread, s.ops)
    requires StartJoin(s, j, stop).Some?
    ensures JoinLocal(s, j, StartJoin(s, j, stop).value)
  {
  }

  lemma OpKeptByJoiner(s: State, j: int, r: State, l: int)
    requires JoinLocal(s, j, r) && l in s.ops && OpOk(View(s.ops[l], s.sh), l)
    ensures OpOk(View(r.ops[l], r.sh), l)
  {
    hide JoinerOk;
  }

  lemma OtherJoinerKept(s: State, j: int, r: State, k: int)
    requires JoinLocal(s, j, r) && k in s.joiners && k != j
    requires JoinerOk(s.joiners[k], k, s.ops, s.sh)
    ensures k in r.joiners && JoinerOk(r.joiners[k], k, r.ops, r.sh)
  {
  }

  lemma JoinKeepsInv(s: State, j: int, r: State)
    requires Inv(s) && JoinLocal(s, j, r)
    ensures Inv(r)
  {
    assert OwnersKnown(r) && (r.sh.inProgress ==> Started(r.sh.thread, r.ops));
    assert JoinerOk(r.joiners[j], j, r.ops, r.sh);
    assert r.joiners.Keys == s.joiners.Keys + {j} && r.ops.Keys == s.ops.Keys;
    hide OpOk, JoinerOk, JoinLocal;
    forall l | l in r.ops ensures OpOk(View(r.ops[l], r.sh), l) {
      OpKeptByJoiner(s, j, r, l);
    }
    forall k | k in r.joiners ensures JoinerOk(r.joiners[k], k, r.ops, r.sh) {
      if k != j {
        OtherJoinerKept(s, j, r, k);
      }
    }
  }

  lemma OthersKeepInv(s: State, a: Action)
    requires Inv(s) && OthersStep(s.sh, a).Some?
    ensures Inv(s.(sh := OthersStep(s.sh, a).value))
  {
    hide JoinerLocks;
    var sh := OthersStep(s.sh, a).value;
    forall l | l in s.ops ensures OpOk(View(s.ops[l], sh), l) {
      assert OpOk(View(s.ops[l], s.sh), l);
    }
    forall j | j in s.joiners ensures JoinerOk(s.joiners[j], j, s.ops, sh) {
      assert JoinerOk(s.joiners[j], j, s.ops, s.sh);
    }
  }

  /** The call clears in_progress for the operation it has joined, although in_progress now
      stands for a later one whose worker is at work. */
  predicate Disowns(s: State, a: Action) {
    && a.Join? && a.j in s.joiners && s.joiners[a.j].Unmarking?
    && s.sh.inProgress && s.sh.thread != s.joiners[a.j].op
    && s.sh.thread in s.ops && Live(s.ops[s.sh.thread].wpc)
  }

  /** Every step keeps the invariant, if and only if it does not clear another operation's
      in_progress. */
  lemma StepExact(s: State, a: Action)
    requires Inv(s) && Next(s, a).Some?
    ensures Inv(Next(s, a).value) <==> !Disowns(s, a)
  {
    var r := Next(s, a).value;
    if Disowns(s, a) {
      DisowningBreaks(s, a);
    } else {
      hide OpOk, JoinerOk, Local, JoinLocal, ViewStep, JoinStep, OthersStep;
      if a.Launch? || a.Work? || a.Cancelled? {
        ViewStepIsLocal(View(s.ops[a.l], s.sh), a);
        LocalKeepsInv(s, a.l, ViewStep(View(s.ops[a.l], s.sh), a).value);
      } else if a.Join? {
        JoinIsLocal(s, a.j, a.ok);
        JoinKeepsInv(s, a.j, r);
      } else if a.Stop? || a.Wait? {
        StartJoinIsLocal(s, a.j, a.Stop?);
        JoinKeepsInv(s, a.j, r);
      } else {
        OthersKeepInv(s, a);
      }
    }
  }

  lemma DisowningBreaks(s: State, a: Action)
    requires Inv(s) && Next(s, a).Some? && Disowns(s, a)
    ensures !Inv(Next(s, a).value)
  {
    var r, l := Next(s, a).value, s.sh.thread;
    assert OpOk(View(s.ops[l], s.sh), l);
    assert r.ops == s.ops && !r.sh.inProgress;
    assert !OpOk(View(r.ops[l], r.sh), l);
  }

  // ---- one call that clears in_progress at a time ----

  // Every call that is past its test still deals with the operation in progress.
  ghost predicate Current(s: State) {
    forall j :: j in s.joiners && Past(s.joiners[j]) ==>
      s.sh.inProgress && (HasOp(s.joiners[j]) ==> s.joiners[j].op == s.sh.thread)
  }

  // A call clears in_progress while another one is past its test.
  ghost predicate Overtakes(s: State, a: Action) {
    && a.Join? && a.j in s.joiners && s.joiners[a.j].Unmarking?
    && exists k :: k in s.joiners && k != a.j && Past(s.joiners[k])
  }

  lemma ViewStepKeepsCurrent(s: State, l: int, w: View)
    requires Current(s) && l in s.ops && Local(View(s.ops[l], s.sh), l, w)
    ensures Current(Put(s, l, Some(w)).value)
  {
    hide OpOk;
  }

  lemma JoinKeepsCurrent(s: State, j: int, ok: bool)
    requires Inv(s) && Current(s) && j in s.joiners && JoinStep(s, j, ok).Some?
    requires JoinerOk(s.joiners[j], j, s.ops, s.sh)
    ensures !Disowns(s, Join(j, ok))
    ensures Current(JoinStep(s, j, ok).value) <==> !Overtakes(s, Join(j, ok))
  {
    hide Inv;
    var r := JoinStep(s, j, ok).value;
    assert forall k :: k in s.joiners && k != j ==> r.joiners[k] == s.joiners[k];
    if Overtakes(s, Join(j, ok)) {
      var k :| k in s.joiners && k != j && Past(s.joiners[k]);
      assert Past(r.joiners[k]) && !r.sh.inProgress;
    }
  }

  lemma StartKeepsCurrent(s: State, j: int, stop: bool)
    requires Current(s) && j in s.joiners && StartJoin(s, j, stop).Some?
    ensures Current(StartJoin(s, j, stop).value)
  {
  }

  /** As long as that is so, no step clears another operation's in_progress; and it stays so
      if and only if no call clears in_progress while another one is past its test. */
  lemma StepCurrent(s: State, a: Action)
    requires Inv(s) && Current(s) && Next(s, a).Some?
    ensures !Disowns(s, a)
    ensures Current(Next(s, a).value) <==> !Overtakes(s, a)
  {
    if a.Launch? || a.Work? || a.Cancelled? {
      hide OpOk, JoinerOk, Local, ViewStep, Current;
      ViewStepIsLocal(View(s.ops[a.l], s.sh), a);
      ViewStepKeepsCurrent(s, a.l, ViewStep(View(s.ops[a.l], s.sh), a).value);
    } else if a.Join? {
      assert JoinerOk(s.joiners[a.j], a.j, s.ops, s.sh);
      hide OpOk, JoinerOk, JoinStep, Current, Inv;
      JoinKeepsCurrent(s, a.j, a.ok);
    } else if a.Stop? || a.Wait? {
      hide OpOk, JoinerOk, StartJoin, Current, Inv;
      StartKeepsCurrent(s, a.j, a.Stop?);
    } else {
      hide OpOk, JoinerOk, Inv;
      assert Next(s, a).value.joiners == s.joiners;
    }
  }

  // ---- whole runs ----

  function NewOp(kind: Kind): Op {
    Op(kind, Idle, NotYet, false, false, false, 0, 0, false, false, false, false, false, false, false)
  }

  // Nothing has been launched; any number of launches, stops and waits may follow.
  ghost predicate Initial(s: State) {
    && (forall l :: l in s.ops ==> l != 0 && s.ops[l] == NewOp(s.ops[l].kind))
    && (forall j :: j in s.joiners ==> s.joiners[j].Away?)
    && s.sh.lock.None? && !s.sh.inProgress && s.sh.thread == 0 && s.sh.board.None?
  }

  ghost predicate Possible(s: State, actions: seq<Action>)
    decreases |actions|
  {
    actions != [] ==> Next(s, actions[0]).Some? && Possible(Next(s, actions[0]).value, actions[1..])
  }

  ghost function Run(s: State, actions: seq<Action>): State
    requires Possible(s, actions)
    decreases |actions|
  {
    if actions == [] then s else Run(Next(s, actions[0]).value, actions[1..])
  }

  // No call clears another operation's in_progress.
  ghost predicate Owned(s: State, actions: seq<Action>)
    requires Possible(s, actions)
    decreases |actions|
  {
    actions != [] ==> !Disowns(s, actions[0]) && Owned(Next(s, actions[0]).value, actions[1..])
  }

  // No call clears in_progress while another one is past its test.
  ghost predicate InTurn(s: State, actions: seq<Action>)
    requires Possible(s, actions)
    decreases |actions|
  {
    actions != [] ==> !Overtakes(s, actions[0]) && InTurn(Next(s, actions[0]).value, actions[1..])
  }

  lemma {:induction false} RunKeepsInv(s: State, actions: seq<Action>)
    requires Inv(s) && Possible(s, actions) && Owned(s, actions)
    ensures Inv(Run(s, actions))
    decreases |actions|
  {
    hide Inv, Next;
    if actions != [] {
      StepExact(s, actions[0]);
      RunKeepsInv(Next(s, actions[0]).value, actions[1..]);
    }
  }

  lemma {:induction false} InTurnIsOwned(s: State, actions: seq<Action>)
    requires Inv(s) && Current(s) && Possible(s, actions) && InTurn(s, actions)
    ensures Owned(s, actions) && Current(Run(s, actions))
    decreases |actions|
  {
    hide Inv, Next, Current;
    if actions != [] {
      StepExact(s, actions[0]);
      StepCurrent(s, actions[0]);
      InTurnIsOwned(Next(s, actions[0]).value, actions[1..]);
    }
  }

  // What a caller relies on, one launch at a time.
  predicate Kept(v: View, l: int) {
    && !v.op.usedFreed && !v.op.readEarly
    && v.op.gave <= v.op.took <= 1 && (v.op.wpc.Exited? ==> v.op.gave == v.op.took)
    && (Live(v.op.wpc) ==> v.sh.thread == l)
  }

  // The three results are those of operation t: all there, or none of them touched.
  predicate ResultsOf(t: int, op: Op, sh: Shared) {
    && sh.ibcntl == (if op.reported then From(t) else Untouched(t))
    && sh.iberr == sh.ibcntl && sh.ibsta == sh.ibcntl
  }

  predicate NoneOf(t: int, sh: Shared) { sh.ibcntl.op != t && sh.iberr.op != t && sh.ibsta.op != t }

  lemma OpOkKeeps(v: View, l: int)
    requires OpOk(v, l)
    ensures Kept(v, l)
    ensures v.op.wpc.Exited? && v.sh.thread == l ==> ResultsOf(l, v.op, v.sh)
    ensures !v.op.wpc.NotYet? && v.sh.thread == l ==>
      v.sh.ibcntl.op == l && v.sh.iberr.op == l && v.sh.ibsta.op == l
  {
  }

  lemma InitialInv(s: State)
    requires Initial(s)
    ensures Inv(s) && Current(s)
  {
    forall l | l in s.ops ensures OpOk(View(s.ops[l], s.sh), l) {
      assert s.ops[l] == NewOp(s.ops[l].kind);
    }
  }

  /** In every interleaving in which no call clears another operation's in_progress: a worker
      never touches its argument after it was freed, and never looks at in_progress and aio_type
      before they are set for it; at most one worker is alive; each takes the board mutex at
      most once and has given it back when it is gone; and whoever has joined a worker finds
      its three results all there or all untouched if and only if no later operation has been
      launched, else none of the three. */
  lemma Safety(s: State, actions: seq<Action>)
    requires Initial(s) && Possible(s, actions) && Owned(s, actions)
    ensures var r := Run(s, actions);
      && (forall l :: l in r.ops ==> Kept(View(r.ops[l], r.sh), l))
      && (forall l, k :: l in r.ops && k in r.ops && Live(r.ops[l].wpc) && Live(r.ops[k].wpc) ==> l == k)
    ensures var r := Run(s, actions);
      forall j :: j in r.joiners && r.joiners[j].Joined? ==>
        var t := r.joiners[j].op;
        && t in r.ops && r.ops[t].wpc.Exited?
        && if r.sh.thread == t then ResultsOf(t, r.ops[t], r.sh) else NoneOf(t, r.sh)
  {
    hide OpOk;
    InitialInv(s);
    RunKeepsInv(s, actions);
    var r := Run(s, actions);
    forall l | l in r.ops ensures Kept(View(r.ops[l], r.sh), l) {
      OpOkKeeps(View(r.ops[l], r.sh), l);
    }
    forall j | j in r.joiners && r.joiners[j].Joined?
      ensures var t := r.joiners[j].op;
        && t in r.ops && r.ops[t].wpc.Exited?
        && if r.sh.thread == t then ResultsOf(t, r.ops[t], r.sh) else NoneOf(t, r.sh)
    {
      assert JoinerOk(r.joiners[j], j, r.ops, r.sh);
      OpOkKeeps(View(r.ops[r.sh.thread], r.sh), r.sh.thread);
    }
  }

  /** That is so in every interleaving in which no call clears in_progress while another one
      is past its test, and there whoever has joined a worker finds its own results. */
  lemma SafeInTurn(s: State, actions: seq<Action>)
    requires Initial(s) && Possible(s, actions) && InTurn(s, actions)
    ensures Owned(s, actions)
    ensures var r := Run(s, actions);
      forall j :: j in r.joiners && r.joiners[j].Joined? ==>
        r.joiners[j].op in r.ops && ResultsOf(r.joiners[j].op, r.ops[r.joiners[j].op], r.sh)
  {
    hide Inv;
    InitialInv(s);
    InTurnIsOwned(s, actions);
    Safety(s, actions);
  }

  // ---- longer runs from a state ----

  lemma {:induction false} RunMore(s: State, actions: seq<Action>, a: Action)
    requires Possible(s, actions) && Next(Run(s, actions), a).Some?
    ensures Possible(s, actions + [a]) && Run(s, actions + [a]) == Next(Run(s, actions), a).value
    decreases |actions|
  {
    hide Next;
    if actions == [] {
      assert (actions + [a])[1..] == [];
    } else {
      assert (actions + [a])[1..] == actions[1..] + [a];
      RunMore(Next(s, actions[0]).value, actions[1..], a);
    }
  }

  ghost predicate Leads(s: State, r: State) {
    exists actions :: Possible(s, actions) && Run(s, actions) == r
  }

  lemma LeadsToSelf(s: State)
    ensures Leads(s, s)
  {
    assert Possible(s, []) && Run(s, []) == s;
  }

  lemma Moves(c: State, s: State, a: Action) returns (r: State)
    requires Leads(c, s) && Next(s, a).Some?
    ensures Leads(c, r) && r == Next(s, a).value
    ensures Inv(s) && !Disowns(s, a) ==> Inv(r)
  {
    hide Inv, Next;
    if Inv(s) {
      StepExact(s, a);
    }
    var actions :| Possible(c, actions) && Run(c, actions) == s;
    RunMore(c, actions, a);
    r := Next(s, a).value;
  }

  // A step of one worker, with what it does to the others.
  lemma Works(c: State, s: State, k: int, outcome: Outcome) returns (r: State)
    requires Leads(c, s) && k in s.ops && WorkStep(View(s.ops[k], s.sh), k, outcome).Some?
    ensures Leads(c, r) && r.joiners == s.joiners
    ensures var w := WorkStep(View(s.ops[k], s.sh), k, outcome).value;
      r.ops == s.ops[k := w.op] && r.sh == w.sh
    ensures Inv(s) ==> Inv(r)
  {
    hide Leads, WorkStep, Inv;
    r := Moves(c, s, Work(k, outcome));
  }

  // ---- when CMPL can be seen ----

  // The operation has io set, or found it set, from the moment its worker had the board.
  predicate Shielded(op: Op) { op.took == 1 && (op.raised || op.before) }

  // The launch has returned, and the worker has not got past its data ioctl, or it is past but
  // nothing has brought CMPL back: a write of no bytes, or a cancellation, before its cleanup.
  predicate Pending(s: State, l: int) {
    l in s.ops && s.ops[l].lpc.Succeeded? && (BeforeData(s.ops[l].wpc) || !s.ops[l].ended)
  }

  // No continuation shows CMPL before the operation's end.
  ghost predicate NeverSeen(s: State, l: int) {
    forall more :: Possible(s, more) && Owned(s, more) && Pending(Run(s, more), l) ==> Run(s, more).sh.io
  }

  // Some continuation does.
  ghost predicate CanBeSeen(s: State, l: int) {
    exists r :: Leads(s, r) && Pending(r, l) && !r.sh.io
  }

  lemma StepGrows(s: State, a: Action, l: int)
    requires Inv(s) && Next(s, a).Some? && l in s.ops
    ensures l in Next(s, a).value.ops && Grows(s.ops[l], Next(s, a).value.ops[l])
  {
    if (a.Launch? || a.Work? || a.Cancelled?) && a.l == l {
      ViewStepIsLocal(View(s.ops[l], s.sh), a);
    }
    hide OpOk, JoinerOk, ViewStep;
  }

  lemma {:induction false} RunGrows(s: State, actions: seq<Action>, l: int)
    requires Inv(s) && Possible(s, actions) && Owned(s, actions) && l in s.ops
    ensures l in Run(s, actions).ops && Grows(s.ops[l], Run(s, actions).ops[l])
    decreases |actions|
  {
    hide Inv, Next;
    if actions != [] {
      StepExact(s, actions[0]);
      StepGrows(s, actions[0], l);
      RunGrows(Next(s, actions[0]).value, actions[1..], l);
    }
  }

  lemma ShieldedIsNeverSeen(s: State, l: int)
    requires Inv(s) && l in s.ops && Shielded(s.ops[l])
    ensures NeverSeen(s, l)
  {
    forall more | Possible(s, more) && Owned(s, more) && Pending(Run(s, more), l)
      ensures Run(s, more).sh.io
    {
      RunGrows(s, more, l);
      RunKeepsInv(s, more);
      var r := Run(s, more);
      assert OpOk(View(r.ops[l], r.sh), l);
    }
  }

  /** A launch has returned success, and its operation is not over. If its worker locked the
      board, CMPL is visible exactly if it was when the lock was taken and no ioctl of the
      operation has made it disappear since. If it locked the board and CMPL is not visible, as
      when its first two ioctls both succeeded, then CMPL stays away until the data ioctl is
      over, the addressing has failed or the cleanup has set it, whatever happens. Otherwise
      some continuation shows it before that. */
  lemma CmplExact(start: State, actions: seq<Action>, l: int)
    requires Initial(start) && Possible(start, actions) && Owned(start, actions)
    requires Pending(Run(start, actions), l)
    ensures var s := Run(start, actions);
      && (s.ops[l].took == 1 ==> s.sh.io == (s.ops[l].raised || s.ops[l].before))
      && (s.ops[l].took == 1 && s.ops[l].cleared ==> Shielded(s.ops[l]))
      && (Shielded(s.ops[l]) && BeforeData(s.ops[l].wpc) ==> s.sh.io)
      && (Shielded(s.ops[l]) ==> NeverSeen(s, l))
      && (!Shielded(s.ops[l]) ==> CanBeSeen(s, l))
  {
    InitialInv(start);
    RunKeepsInv(start, actions);
    var s := Run(start, actions);
    assert OpOk(View(s.ops[l], s.sh), l);
    hide OpOk, NeverSeen, Leads;
    if Shielded(s.ops[l]) {
      ShieldedIsNeverSeen(s, l);
    } else if s.ops[l].took == 1 {
      LeadsToSelf(s);
    } else {
      var r := TurnsOff(s, l);
    }
  }

  // ---- a continuation that shows CMPL: somebody else's I/O comes to an end ----

  // Steps of one launcher or worker that leave the board and the descriptor alone.
  predicate Quietly(s: State, m: int, r: State) {
    && m in s.ops && m in r.ops && r.ops == s.ops[m := r.ops[m]] && r.joiners == s.joiners
    && r.sh.board == s.sh.board && r.sh.io == s.sh.io
    && r.ops[m].took == s.ops[m].took && r.ops[m].ended == s.ops[m].ended
    && (s.ops[m].lpc.Succeeded? ==> r.ops[m].lpc.Succeeded?)
  }

  function LaunchRank(pc: LaunchPc): nat {
    if pc.Checking? then 4 else if pc.Filling? then 3 else if pc.Marking? then 2
    else if pc.Testing? then 1 else 0
  }

  function WorkRank(pc: WorkPc): nat {
    if pc.Result1? || pc.Flagging? then 3 else if pc.Result2? then 2 else if pc.Result3? then 1 else 0
  }

  // The rest of the lock holder's way is shorter, or it has let go.
  predicate LetsGoSoon(v: View, w: View) {
    && w.sh.board == v.sh.board && w.sh.io == v.sh.io
    && w.op.took == v.op.took && w.op.ended == v.op.ended
    && (v.op.lpc.Succeeded? ==> w.op.lpc.Succeeded?)
    && (w.sh.lock.None? || w.sh.lock == v.sh.lock)
  }

  lemma LauncherStepQuiet(v: View, m: int)
    requires OpOk(v, m) && v.sh.lock == Some(Launcher(m))
    ensures LaunchStep(v, m).Some? && LetsGoSoon(v, LaunchStep(v, m).value)
    ensures LaunchStep(v, m).value.sh.lock.Some? ==>
      LaunchRank(LaunchStep(v, m).value.op.lpc) < LaunchRank(v.op.lpc)
  {
    assert LauncherLocks(v.op.lpc);
    if v.op.lpc.Checking? || v.op.lpc.Filling? || v.op.lpc.Marking? {
      LaunchBeginsQuiet(v, m);
    } else {
      LaunchEndsQuiet(v, m);
    }
  }

  lemma LaunchBeginsQuiet(v: View, m: int)
    requires OpOk(v, m) && (v.op.lpc.Checking? || v.op.lpc.Filling? || v.op.lpc.Marking?)
    ensures LaunchStep(v, m).Some? && LetsGoSoon(v, LaunchStep(v, m).value)
    ensures LaunchStep(v, m).value.sh.lock.Some? ==>
      LaunchRank(LaunchStep(v, m).value.op.lpc) < LaunchRank(v.op.lpc)
  {
  }

  lemma LaunchEndsQuiet(v: View, m: int)
    requires OpOk(v, m) && (v.op.lpc.Testing? || v.op.lpc.Releasing?)
    ensures LaunchStep(v, m).Some? && LetsGoSoon(v, LaunchStep(v, m).value)
    ensures LaunchStep(v, m).value.sh.lock.Some? ==>
      LaunchRank(LaunchStep(v, m).value.op.lpc) < LaunchRank(v.op.lpc)
  {
  }

  lemma WorkerStepQuiet(v: View, m: int)
    requires OpOk(v, m) && v.sh.lock == Some(Worker(m))
    ensures WorkStep(v, m, Good).Some? && LetsGoSoon(v, WorkStep(v, m, Good).value)
    ensures WorkStep(v, m, Good).value.sh.lock.Some? ==>
      WorkRank(WorkStep(v, m, Good).value.op.wpc) < WorkRank(v.op.wpc)
  {
    assert WorkerLocks(v.op.wpc);
    hide LetsGoSoon, WorkRank;
    if v.op.wpc.Flagging? || v.op.wpc.Unlocking? {
      SignalStepQuiet(v, m);
    } else {
      ReportStepQuiet(v, m);
      assert HandshakeStep(v, m, Good).None? && TransferStep(v, m, Good).None?;
    }
  }

  lemma SignalStepQuiet(v: View, m: int)
    requires OpOk(v, m) && (v.op.wpc.Flagging? || v.op.wpc.Unlocking?)
    ensures HandshakeStep(v, m, Good).Some? && LetsGoSoon(v, HandshakeStep(v, m, Good).value)
    ensures HandshakeStep(v, m, Good).value.sh.lock.Some? ==>
      WorkRank(HandshakeStep(v, m, Good).value.op.wpc) < WorkRank(v.op.wpc)
  {
  }

  lemma ReportStepQuiet(v: View, m: int)
    requires OpOk(v, m) && WorkerLocks(v.op.wpc) && !v.op.wpc.Flagging? && !v.op.wpc.Unlocking?
    ensures FinishStep(v, m, Good).Some? && LetsGoSoon(v, FinishStep(v, m, Good).value)
    ensures FinishStep(v, m, Good).value.sh.lock.Some? ==>
      WorkRank(FinishStep(v, m, Good).value.op.wpc) < WorkRank(v.op.wpc)
  {
  }

  lemma {:induction false} LauncherLetsGo(c: State, s: State, m: int) returns (r: State)
    requires Leads(c, s) && Inv(s) && m in s.ops && s.sh.lock == Some(Launcher(m))
    ensures Leads(c, r) && Inv(r) && r.sh.lock.None? && Quietly(s, m, r)
    decreases LaunchRank(s.ops[m].lpc)
  {
    assert OpOk(View(s.ops[m], s.sh), m);
    LauncherStepQuiet(View(s.ops[m], s.sh), m);
    hide OpOk, JoinerOk, LaunchStep, LauncherLocks, Leads, Inv, LaunchRank;
    StepExact(s, Launch(m));
    r := Moves(c, s, Launch(m));
    if r.sh.lock.Some? {
      r := LauncherLetsGo(c, r, m);
    }
  }

  lemma {:induction false} WorkerLetsGo(c: State, s: State, m: int) returns (r: State)
    requires Leads(c, s) && Inv(s) && m in s.ops && s.sh.lock == Some(Worker(m))
    ensures Leads(c, r) && Inv(r) && r.sh.lock.None? && Quietly(s, m, r)
    decreases WorkRank(s.ops[m].wpc)
  {
    assert OpOk(View(s.ops[m], s.sh), m);
    WorkerStepQuiet(View(s.ops[m], s.sh), m);
    hide OpOk, JoinerOk, WorkStep, WorkerLocks, Leads, Inv, WorkRank;
    StepExact(s, Work(m, Good));
    r := Moves(c, s, Work(m, Good));
    if r.sh.lock.Some? {
      r := WorkerLetsGo(c, r, m);
    }
  }

  lemma JoinerLetsGo(c: State, s: State, j: int) returns (r: State)
    requires Leads(c, s) && Inv(s) && j in s.joiners && s.sh.lock == Some(Joiner(j))
    ensures Leads(c, r) && r.sh.lock.None? && r.ops == s.ops
    ensures r.sh.board == s.sh.board && r.sh.io == s.sh.io
  {
    assert JoinerOk(s.joiners[j], j, s.ops, s.sh);
    hide OpOk, JoinerOk, Leads, Inv;
    r := Moves(c, s, Join(j, false));
  }

  // What is needed of a worker that has the board.
  predicate OnBoard(v: View, k: int) {
    v.sh.board == Some(k) && HandshakeOk(v, k) && BoardOk(v, k)
  }

  lemma LockLetGo(c: State, s: State, l: int, k: int) returns (r: State)
    requires Leads(c, s) && Inv(s) && Pending(s, l) && s.sh.board == Some(k) && k in s.ops
    ensures Leads(c, r) && r.sh.lock.None? && r.sh.io == s.sh.io
    ensures Pending(r, l) && k in r.ops && OnBoard(View(r.ops[k], r.sh), k)
    ensures r.ops[l].took == s.ops[l].took
  {
    assert OpOk(View(s.ops[k], s.sh), k);
    hide Leads, Inv, Disowns;
    r := s;
    if s.sh.lock.Some? {
      match s.sh.lock.value
      case Launcher(m) =>
        hide OpOk, JoinerOk;
        r := LauncherLetsGo(c, s, m);
        KnownOnBoard(r, k);
      case Worker(m) =>
        hide OpOk, JoinerOk;
        r := WorkerLetsGo(c, s, m);
        KnownOnBoard(r, k);
      case Joiner(j) =>
        r := JoinerLetsGo(c, s, j);
    }
  }

  lemma KnownOnBoard(s: State, k: int)
    requires Inv(s) && k in s.ops && s.sh.board == Some(k)
    ensures OnBoard(View(s.ops[k], s.sh), k)
  {
    assert OpOk(View(s.ops[k], s.sh), k);
  }

  // The worker that has the board brings io down: through an ioctl that ends, or its cleanup.
  lemma BoardTurnsOff(c: State, s: State, k: int) returns (r: State)
    requires Leads(c, s) && k in s.ops && OnBoard(View(s.ops[k], s.sh), k) && s.sh.lock.None?
    ensures Leads(c, r) && k in r.ops && r.ops == s.ops[k := r.ops[k]] && !r.sh.io
  {
    var pc := s.ops[k].wpc;
    hide Leads, HandshakeOk, WorkStep;
    r := s;
    if pc.Clearing? || pc.Signalling? {
      r := Handshakes(c, s, k);
      r := AddressingFails(c, r, k);
    } else if pc.Addressing? || pc.AddressIo? {
      r := AddressingFails(c, s, k);
    } else if pc.Transfer? || pc.TransferIo? {
      r := DataEnds(c, s, k);
    } else if pc.GiveBoard? {
      r := GivesBoard(c, s, k);
    } else {
      assert pc.Disabling? || pc.WantResult? || pc.SetCmpl? by {
        assert HandshakeOk(View(s.ops[k], s.sh), k);
        NotLocking(View(s.ops[k], s.sh), k);
      }
      r := CleansUp(c, s, k);
    }
  }

  lemma NotLocking(v: View, k: int)
    requires OnBoard(v, k) && v.sh.lock.None?
    ensures !WorkerLocks(v.op.wpc) && !BeforeBoard(v.op.wpc) && !v.op.wpc.Exited?
  {
  }

  lemma Handshakes(c: State, s: State, k: int) returns (r: State)
    requires Leads(c, s) && k in s.ops && OnBoard(View(s.ops[k], s.sh), k) && s.sh.lock.None?
    requires s.ops[k].wpc.Clearing? || s.ops[k].wpc.Signalling?
    ensures Leads(c, r) && k in r.ops && r.ops == s.ops[k := r.ops[k]] && r.ops[k].wpc.Addressing?
  {
    assert s.ops[k].took > s.ops[k].gave;
    hide Leads, OnBoard;
    r := s;
    if s.ops[k].wpc.Clearing? {
      r := Shakes(c, r, k, Bad);
    }
    r := Signals(c, r, k);
  }

  lemma Signals(c: State, s: State, k: int) returns (r: State)
    requires Leads(c, s) && k in s.ops && s.sh.lock.None? && s.ops[k].took > s.ops[k].gave
    requires s.ops[k].wpc.Signalling?
    ensures Leads(c, r) && k in r.ops && r.ops == s.ops[k := r.ops[k]] && r.ops[k].wpc.Addressing?
  {
    hide Leads;
    r := Shakes(c, s, k, Good);
    r := Shakes(c, r, k, Good);
    r := Shakes(c, r, k, Good);
  }

  lemma Shakes(c: State, s: State, k: int, outcome: Outcome) returns (r: State)
    requires Leads(c, s) && k in s.ops && HandshakeStep(View(s.ops[k], s.sh), k, outcome).Some?
    ensures Leads(c, r) && r.joiners == s.joiners
    ensures var w := HandshakeStep(View(s.ops[k], s.sh), k, outcome).value;
      r.ops == s.ops[k := w.op] && r.sh == w.sh
  {
    hide Leads, HandshakeStep, TransferStep, FinishStep;
    r := Works(c, s, k, outcome);
  }

  lemma AddressingFails(c: State, s: State, k: int) returns (r: State)
    requires Leads(c, s) && k in s.ops && (s.ops[k].wpc.Addressing? || s.ops[k].wpc.AddressIo?)
    ensures Leads(c, r) && k in r.ops && r.ops == s.ops[k := r.ops[k]] && !r.sh.io
  {
    hide Leads, Inv, Disowns;
    r := s;
    if s.ops[k].wpc.Addressing? {
      r := Works(c, r, k, Good);
    }
    r := Works(c, r, k, Bad);
  }

  lemma DataEnds(c: State, s: State, k: int) returns (r: State)
    requires Leads(c, s) && k in s.ops && (s.ops[k].wpc.Transfer? || s.ops[k].wpc.TransferIo?)
    ensures Leads(c, r) && k in r.ops && r.ops == s.ops[k := r.ops[k]] && !r.sh.io
  {
    hide Leads, Inv, Disowns;
    r := s;
    if s.ops[k].wpc.Transfer? {
      r := Works(c, r, k, Good);
    }
    r := Works(c, r, k, Good);
  }

  lemma CleansUp(c: State, s: State, k: int) returns (r: State)
    requires Leads(c, s) && k in s.ops && s.sh.lock.None?
    requires s.ops[k].wpc.Disabling? || s.ops[k].wpc.WantResult? || s.ops[k].wpc.SetCmpl?
    ensures Leads(c, r) && k in r.ops && r.ops == s.ops[k := r.ops[k]] && !r.sh.io
  {
    hide Leads, Inv, Disowns;
    r := s;
    if s.ops[k].wpc.Disabling? {
      r := Works(c, r, k, Good);
    }
    if !s.ops[k].wpc.SetCmpl? {
      r := Reports(c, r, k);
    }
    r := Works(c, r, k, Good);
  }

  lemma Reports(c: State, s: State, k: int) returns (r: State)
    requires Leads(c, s) && k in s.ops && s.sh.lock.None? && s.ops[k].wpc.WantResult?
    ensures Leads(c, r) && k in r.ops && r.ops == s.ops[k := r.ops[k]] && r.ops[k].wpc.SetCmpl?
  {
    hide Leads, HandshakeStep, TransferStep;
    r := Finishes(c, s, k);
    r := Finishes(c, r, k);
    r := Finishes(c, r, k);
    r := ReportEnds(c, r, k);
  }

  lemma ReportEnds(c: State, s: State, k: int) returns (r: State)
    requires Leads(c, s) && k in s.ops && s.ops[k].wpc.Result3?
    ensures Leads(c, r) && k in r.ops && r.ops == s.ops[k := r.ops[k]] && r.ops[k].wpc.SetCmpl?
  {
    hide Leads, HandshakeStep, TransferStep;
    r := Finishes(c, s, k);
    r := Finishes(c, r, k);
  }

  lemma Finishes(c: State, s: State, k: int) returns (r: State)
    requires Leads(c, s) && k in s.ops && FinishStep(View(s.ops[k], s.sh), k, Good).Some?
    ensures Leads(c, r) && r.joiners == s.joiners
    ensures var w := FinishStep(View(s.ops[k], s.sh), k, Good).value;
      r.ops == s.ops[k := w.op] && r.sh == w.sh
  {
    hide Leads, Inv, Disowns;
    r := Works(c, s, k, Good);
  }

  lemma GivesBoard(c: State, s: State, k: int) returns (r: State)
    requires Leads(c, s) && k in s.ops && s.ops[k].wpc.GiveBoard?
    ensures Leads(c, r) && k in r.ops && r.ops == s.ops[k := r.ops[k]] && !r.sh.io
  {
    hide Leads, Inv, Disowns;
    r := Works(c, s, k, Good);
    r := OthersTurnOff(c, r);
  }

  lemma OthersTurnOff(c: State, s: State) returns (r: State)
    requires Leads(c, s) && (s.sh.board.None? || s.sh.board == Some(0))
    ensures Leads(c, r) && r.ops == s.ops && !r.sh.io
  {
    hide Leads, Inv, Disowns;
    r := s;
    if s.sh.board.None? {
      r := Moves(c, r, OthersTake);
    }
    r := Moves(c, r, OthersIo(false));
  }

  lemma TurnsOff(s: State, l: int) returns (r: State)
    requires Inv(s) && Pending(s, l) && s.ops[l].took == 0
    ensures Leads(s, r) && Pending(r, l) && !r.sh.io
  {
    LeadsToSelf(s);
    assert OwnersKnown(s);
    hide Leads, Inv, OnBoard;
    if s.sh.board.None? || s.sh.board == Some(0) {
      r := OthersTurnOff(s, s);
    } else {
      var k := s.sh.board.value;
      r := LockLetGo(s, s, l, k);
      NotTheSame(r, l, k);
      r := BoardTurnsOff(s, r, k);
    }
  }

  lemma NotTheSame(s: State, l: int, k: int)
    requires l in s.ops && k in s.ops && s.ops[l].took == 0 && OnBoard(View(s.ops[k], s.sh), k)
    ensures l != k
  {
  }

  // ---- what the calls do, with nobody in the way ----

  // A launch that has returned, its worker about to start on the bus; `before` is what io was.
  function UnderwayOp(kind: Kind, before: bool): Op {
    NewOp(kind).(lpc := Succeeded, wpc := Addressing, flag := true, freed := true,
                 took := 1, before := before, cleared := true, raised := true)
  }

  /** A launch on an idle descriptor succeeds, and when it does, the operation is the one in
      progress, its worker has the board, and CMPL is not to be seen. */
  lemma LaunchGetsUnderway(s: State, l: int) returns (r: State)
    requires l in s.ops && s.ops[l] == NewOp(s.ops[l].kind)
    requires s.sh.lock.None? && !s.sh.inProgress && s.sh.board.None?
    ensures Leads(s, r) && r.ops.Keys == s.ops.Keys && r.joiners == s.joiners
    ensures r.ops[l] == UnderwayOp(s.ops[l].kind, s.sh.io)
    ensures r.sh.inProgress && r.sh.thread == l && r.sh.aioType == r.ops[l].kind
    ensures r.sh.board == Some(l) && r.sh.io && r.sh.lock.None?
  {
    LeadsToSelf(s);
    hide Leads, Inv;
    r := Launches(s, s, l);
    r := HandshakeDone(s, r, l);
    var w := r;
    r := LauncherReturns(s, w, l);
  }

  lemma HandshakeDone(c: State, s: State, l: int) returns (r: State)
    requires Leads(c, s) && l in s.ops && s.sh.lock.None? && s.sh.board.None?
    requires s.ops[l] == NewOp(s.ops[l].kind).(lpc := Waiting, wpc := Starting)
    ensures Leads(c, r) && r.joiners == s.joiners
    ensures r.ops == s.ops[l := s.ops[l].(wpc := Addressing, flag := true, took := 1,
                                          before := s.sh.io, cleared := true, raised := true)]
    ensures r.sh == s.sh.(board := Some(l), io := true)
  {
    hide Leads, TransferStep, FinishStep;
    r := Shakes(c, s, l, Good);
    r := Shakes(c, r, l, Good);
    r := Shakes(c, r, l, Good);
    r := Shakes(c, r, l, Good);
    r := Shakes(c, r, l, Good);
    r := Shakes(c, r, l, Good);
  }

  // A step of the worker between its handshake and its results.
  lemma Transfers(c: State, s: State, k: int, outcome: Outcome) returns (r: State)
    requires Leads(c, s) && k in s.ops && TransferStep(View(s.ops[k], s.sh), k, outcome).Some?
    ensures Leads(c, r) && r.joiners == s.joiners
    ensures var w := TransferStep(View(s.ops[k], s.sh), k, outcome).value;
      r.ops == s.ops[k := w.op] && r.sh == w.sh
  {
    hide Leads;
    r := Works(c, s, k, outcome);
  }

  /** From there a read or write whose ioctls succeed goes through its addressing ioctl, with CMPL
      still not to be seen at its end, then through its data ioctl, and CMPL is back at the end
      of that. */
  lemma AddressesThenTransfers(s: State, l: int) returns (addressed: State, data: State, r: State)
    requires l in s.ops && s.ops[l] == UnderwayOp(s.ops[l].kind, s.ops[l].before) && s.sh.inProgress && s.sh.io
    requires s.sh.aioType == s.ops[l].kind && !s.ops[l].kind.Command?
    ensures Leads(s, addressed) && l in addressed.ops && addressed.ops[l].wpc.Transfer? && addressed.sh.io
    ensures Leads(addressed, data) && l in data.ops && data.ops[l].wpc.TransferIo? && data.sh.io
    ensures Leads(data, r) && r.ops == s.ops[l := s.ops[l].(wpc := Disabling, ended := true)]
    ensures r.sh == s.sh.(io := false) && r.joiners == s.joiners
  {
    LeadsToSelf(s);
    hide Leads;
    addressed := Transfers(s, s, l, Good);
    addressed := Transfers(s, addressed, l, Good);
    LeadsToSelf(addressed);
    data := Transfers(addressed, addressed, l, Good);
    LeadsToSelf(data);
    r := Transfers(data, data, l, Good);
  }

  /** An ioctl that fails, or does not reach the descriptor, ends the operation: a data ioctl never
      follows an addressing that failed. Only an ioctl that had begun brings CMPL back. */
  lemma AddressingFailureEnds(op: Op, sh: Shared, l: int)
    ensures TransferStep(View(op.(wpc := Addressing), sh), l, Bad)
            == Some(View(op.(wpc := Disabling, ended := true), sh))
  {
  }

  lemma AddressIoFailureEnds(op: Op, sh: Shared, l: int, noClear: bool)
    ensures TransferStep(View(op.(wpc := AddressIo(noClear)), sh), l, Bad)
            == Some(View(op.(wpc := Disabling, ended := true), sh.(io := false)))
  {
  }

  lemma DataFailureEnds(op: Op, sh: Shared, l: int)
    ensures TransferStep(View(op.(wpc := Transfer), sh), l, Bad)
            == Some(View(op.(wpc := Disabling, ended := true), sh))
  {
  }

  /** A read or write on an interface board addresses nobody and goes straight to its data ioctl,
      with CMPL left as it is; a command always has its ioctl. */
  lemma BoardAddressesNobody(op: Op, sh: Shared, l: int)
    requires op.wpc.Addressing?
    ensures !op.kind.Command? ==>
      TransferStep(View(op, sh), l, Skip) == Some(View(op.(wpc := Transfer), sh))
    ensures op.kind.Command? ==>
      TransferStep(View(op, sh), l, Skip) == TransferStep(View(op, sh), l, Good)
  {
  }

  /** The cleanup that cannot reach the driver leaves CMPL as it is and gives the board back. */
  lemma CleanupFailure(op: Op, sh: Shared, l: int, outcome: Outcome)
    requires outcome != Good
    ensures FinishStep(View(op.(wpc := SetCmpl), sh), l, outcome)
            == Some(View(op.(wpc := GiveBoard, ended := true), sh))
  {
  }

  /** A write of no bytes has no data ioctl, and CMPL stays away until the cleanup. */
  lemma NoDataNoIoctl(op: Op, sh: Shared, l: int)
    ensures TransferStep(View(op.(wpc := Transfer), sh), l, Skip) == Some(View(op.(wpc := Disabling), sh))
  {
  }

  /** A command is over with its one ioctl. */
  lemma Commands(s: State, l: int) returns (sending: State, r: State)
    requires l in s.ops && s.ops[l] == UnderwayOp(s.ops[l].kind, s.ops[l].before) && s.sh.inProgress
    requires s.sh.aioType == s.ops[l].kind && s.ops[l].kind.Command?
    ensures Leads(s, sending) && l in sending.ops && sending.ops[l].wpc.AddressIo? && sending.sh.io
    ensures Leads(sending, r) && r.ops == s.ops[l := s.ops[l].(wpc := Disabling, ended := true)]
    ensures r.sh == s.sh.(io := false) && r.joiners == s.joiners
  {
    LeadsToSelf(s);
    hide Leads;
    sending := Transfers(s, s, l, Good);
    LeadsToSelf(sending);
    r := Transfers(sending, sending, l, Good);
  }

  /** After that the worker leaves all three results, makes CMPL visible, gives the board back
      and is gone. */
  lemma WorkerEnds(s: State, l: int) returns (r: State)
    requires l in s.ops && s.sh.lock.None?
    requires s.ops[l] == UnderwayOp(s.ops[l].kind, s.ops[l].before).(wpc := Disabling, ended := true)
    ensures Leads(s, r) && r.joiners == s.joiners
    ensures r.ops == s.ops[l := s.ops[l].(wpc := Exited, reported := true, gave := 1)]
    ensures r.sh == s.sh.(ibcntl := From(l), iberr := From(l), ibsta := From(l), io := false, board := None)
  {
    LeadsToSelf(s);
    hide Leads, HandshakeStep, TransferStep;
    r := Finishes(s, s, l);
    r := Finishes(s, r, l);
    r := Finishes(s, r, l);
    r := Finishes(s, r, l);
    r := WorkerReports(s, r, l);
  }

  lemma WorkerReports(c: State, s: State, l: int) returns (r: State)
    requires Leads(c, s) && l in s.ops
    requires s.ops[l] == UnderwayOp(s.ops[l].kind, s.ops[l].before).(wpc := Result3, ended := true)
    ensures Leads(c, r) && r.joiners == s.joiners
    ensures r.ops == s.ops[l := s.ops[l].(wpc := Exited, reported := true, gave := 1)]
    ensures r.sh == s.sh.(ibsta := From(l), io := false, board := None, lock := None)
  {
    hide Leads, HandshakeStep, TransferStep;
    r := Finishes(c, s, l);
    r := Finishes(c, r, l);
    r := Finishes(c, r, l);
    r := Finishes(c, r, l);
  }

  /** A launch while another operation is in progress is refused and changes nothing else. */
  lemma LaunchRefused(s: State, l: int) returns (r: State)
    requires l in s.ops && s.ops[l] == NewOp(s.ops[l].kind) && s.sh.lock.None? && s.sh.inProgress
    ensures Leads(s, r) && r == s.(ops := s.ops[l := s.ops[l].(lpc := Refused)])
  {
    LeadsToSelf(s);
    hide Leads;
    r := Steps(s, s, l);
    r := Steps(s, r, l);
    assert r.sh == s.sh;
  }

  /** A worker with a cancellation pending goes to its cleanup from between its ioctls, and has
      then made CMPL visible and given the board back without touching the results. */
  lemma CancelledEnds(s: State, l: int) returns (r: State)
    requires l in s.ops && s.ops[l].cancel
    requires s.ops[l].wpc.Addressing? || s.ops[l].wpc.Transfer? || s.ops[l].wpc.Disabling?
    ensures Leads(s, r) && r.joiners == s.joiners
    ensures r.ops == s.ops[l := s.ops[l].(wpc := Exited, ended := true, gave := s.ops[l].gave + 1)]
    ensures r.sh == s.sh.(io := false, board := None)
  {
    LeadsToSelf(s);
    hide Leads, HandshakeStep, TransferStep, Inv, Disowns;
    r := Moves(s, s, Cancelled(l));
    r := Finishes(s, r, l);
    r := Finishes(s, r, l);
  }

  /** Stopping marks the operation's worker for cancellation; it does nothing if no operation is
      in progress. */
  lemma StopCancels(s: State, j: int) returns (r: State)
    requires j in s.joiners && s.joiners[j].Away? && s.sh.lock.None?
    requires s.sh.inProgress ==> s.sh.thread in s.ops
    ensures Leads(s, r)
    ensures if s.sh.inProgress
            then r == s.(ops := s.ops[s.sh.thread := s.ops[s.sh.thread].(cancel := true)],
                         joiners := s.joiners[j := Joining(s.sh.thread, true)])
            else r == s
  {
    LeadsToSelf(s);
    hide Leads, Inv, Disowns;
    r := Moves(s, s, Stop(j));
    r := Moves(s, r, Join(j, true));
    if s.sh.inProgress {
      r := Moves(s, r, Join(j, true));
    }
    assert r.joiners == if s.sh.inProgress then s.joiners[j := Joining(s.sh.thread, true)] else s.joiners;
  }

  /** If the cancellation cannot be sent, stopping gives up. */
  lemma StopGivesUp(s: State, j: int) returns (r: State)
    requires j in s.joiners && s.joiners[j].Away? && s.sh.lock.None?
    ensures Leads(s, r) && r == s
  {
    LeadsToSelf(s);
    hide Leads, Inv, Disowns;
    r := Moves(s, s, Stop(j));
    r := Moves(s, r, Join(j, false));
    assert r.joiners == s.joiners;
  }

  /** It cannot go on before the worker is gone, and clears in_progress then. So does a wait for
      CMPL. */
  lemma JoinClears(s: State, j: int, stop: bool, t: int) returns (r: State)
    requires j in s.joiners && s.joiners[j] == Joining(t, stop) && t in s.ops && s.sh.lock.None?
    ensures !s.ops[t].wpc.Exited? ==> Next(s, Join(j, true)).None? && Next(s, Join(j, false)).None?
    ensures s.ops[t].wpc.Exited? ==>
      Leads(s, r) && r == s.(joiners := s.joiners[j := Away], sh := s.sh.(inProgress := false))
  {
    LeadsToSelf(s);
    hide Leads, Inv, Disowns;
    r := s;
    if s.ops[t].wpc.Exited? {
      r := Moves(s, r, Join(j, true));
      r := Moves(s, r, Join(j, true));
      r := Moves(s, r, Join(j, true));
      assert r.joiners == s.joiners[j := Away];
    }
  }

  lemma WaitPicks(s: State, j: int) returns (r: State)
    requires j in s.joiners && s.joiners[j].Away? && s.sh.inProgress
    ensures Leads(s, r) && r == s.(joiners := s.joiners[j := Joining(s.sh.thread, false)])
  {
    LeadsToSelf(s);
    hide Leads, Inv, Disowns;
    r := Moves(s, s, Wait(j));
    r := Moves(s, r, Join(j, true));
    assert r.joiners == s.joiners[j := Joining(s.sh.thread, false)];
  }

  // ---- states and runs in which the conditions matter ----

  // A launcher gets as far as waiting for its worker, which has not taken a step yet.
  lemma Launches(c: State, s: State, l: int) returns (r: State)
    requires Leads(c, s) && l in s.ops && s.ops[l] == NewOp(s.ops[l].kind)
    requires s.sh.lock.None? && !s.sh.inProgress
    ensures Leads(c, r) && r.joiners == s.joiners
    ensures r.ops == s.ops[l := s.ops[l].(lpc := Waiting, wpc := Starting)]
    ensures r.sh.lock.None? && r.sh.inProgress && r.sh.thread == l && r.sh.aioType == s.ops[l].kind
    ensures r.sh.io == s.sh.io && r.sh.board == s.sh.board
    ensures Inv(s) ==> Inv(r)
  {
    hide Leads, Inv;
    r := Moves(c, s, Launch(l));
    r := Moves(c, r, Launch(l));
    r := Moves(c, r, Launch(l));
    r := Moves(c, r, Launch(l));
    r := Moves(c, r, Launch(l));
  }

  // The worker cannot lock the board, and ends.
  lemma WorkerFails(c: State, s: State, l: int) returns (r: State)
    requires Leads(c, s) && l in s.ops && s.ops[l] == NewOp(Read).(lpc := Waiting, wpc := Starting)
    requires s.sh.lock.None?
    ensures Leads(c, r) && r.joiners == s.joiners && r.sh == s.sh
    ensures r.ops == s.ops[l := NewOp(Read).(lpc := Waiting, wpc := Exited, flag := true)]
    ensures Inv(s) ==> Inv(r)
  {
    hide Leads, Inv;
    r := Works(c, s, l, Bad);
    r := Works(c, r, l, Bad);
    r := Works(c, r, l, Bad);
    r := Works(c, r, l, Bad);
    r := Works(c, r, l, Bad);
  }

  // The worker locks the board, but its ioctl that makes CMPL disappear fails.
  lemma ClearingFails(c: State, s: State, l: int) returns (r: State)
    requires Leads(c, s) && l in s.ops && s.ops[l] == NewOp(Read).(lpc := Waiting, wpc := Starting)
    requires s.sh.lock.None? && s.sh.board.None?
    ensures Leads(c, r) && r.sh.lock.None? && r.sh.io == s.sh.io
    ensures r.ops == s.ops[l := NewOp(Read).(lpc := Waiting, wpc := Addressing, flag := true,
                                             took := 1, before := s.sh.io)]
  {
    hide Leads, Inv, Disowns;
    r := Works(c, s, l, Good);
    r := Works(c, r, l, Good);
    r := Works(c, r, l, Bad);
    r := Works(c, r, l, Good);
    r := Works(c, r, l, Good);
    r := Works(c, r, l, Good);
  }

  // A step of one launcher, with what it does to the others.
  lemma Steps(c: State, s: State, l: int) returns (r: State)
    requires Leads(c, s) && l in s.ops && LaunchStep(View(s.ops[l], s.sh), l).Some?
    ensures Leads(c, r) && r.joiners == s.joiners
    ensures var w := LaunchStep(View(s.ops[l], s.sh), l).value;
      r.ops == s.ops[l := w.op] && r.sh == w.sh
  {
    hide Leads, LaunchStep, Inv, Disowns;
    r := Moves(c, s, Launch(l));
  }

  lemma LauncherReturns(c: State, s: State, l: int) returns (r: State)
    requires Leads(c, s) && l in s.ops && s.ops[l].lpc.Waiting? && s.ops[l].flag && s.sh.lock.None?
    ensures Leads(c, r) && r.sh == s.sh && r.joiners == s.joiners
    ensures r.ops == s.ops[l := s.ops[l].(lpc := Succeeded, freed := true)]
  {
    hide Leads;
    r := Steps(c, s, l);
    r := Steps(c, r, l);
    r := Steps(c, r, l);
    r := Steps(c, r, l);
  }

  /** Any read can be launched with success although its worker could not lock the board, or
      locked it but could not make CMPL disappear; and CMPL is then seen at once if it was
      there before. */
  lemma CmplAtOnce(c: State, l: int, locks: bool) returns (r: State)
    requires Initial(c) && l in c.ops && c.ops[l].kind == Read && !c.sh.io
    ensures Leads(c, r) && Pending(r, l) && !r.sh.io
    ensures r.ops[l].took == (if locks then 1 else 0) && !Shielded(r.ops[l])
  {
    LeadsToSelf(c);
    hide Leads, Inv, Disowns;
    assert c.ops[l] == NewOp(Read);
    r := Launches(c, c, l);
    if locks {
      r := ClearingFails(c, r, l);
    } else {
      r := WorkerFails(c, r, l);
    }
    r := LauncherReturns(c, r, l);
  }

  lemma Waits(c: State, s: State, j: int, t: int) returns (r: State)
    requires Leads(c, s) && j in s.joiners && s.joiners[j].Away?
    requires s.sh.inProgress && s.sh.thread == t && t in s.ops && s.ops[t].wpc.Exited?
    ensures Leads(c, r) && r.ops == s.ops && r.sh == s.sh
    ensures r.joiners == s.joiners[j := Unmarking(t, false)]
    ensures Inv(s) ==> Inv(r)
  {
    hide Leads, Inv;
    r := Moves(c, s, Wait(j));
    r := Moves(c, r, Join(j, true));
    r := Moves(c, r, Join(j, true));
    r := Moves(c, r, Join(j, true));
  }

  lemma Unmarks(c: State, s: State, j: int, t: int) returns (r: State)
    requires Leads(c, s) && j in s.joiners && s.joiners[j] == Unmarking(t, false)
    ensures Leads(c, r) && r.ops == s.ops && r.joiners == s.joiners[j := Away]
    ensures r.sh == s.sh.(inProgress := false)
    ensures Inv(s) && !Disowns(s, Join(j, true)) ==> Inv(r)
  {
    hide Leads, Inv;
    r := Moves(c, s, Join(j, true));
  }

  /** Two threads that wait for the same operation can bring about, all being in order so far,
      that one of them is about to clear the in_progress of the next operation. */
  lemma TwoWaitersDisown(c: State) returns (r: State)
    requires Initial(c) && {1, 2, 3} <= c.ops.Keys && {1, 2} <= c.joiners.Keys
    requires forall l :: l in {1, 2, 3} ==> c.ops[l].kind == Read
    ensures Leads(c, r) && Inv(r) && Disowns(r, Join(2, true)) && r.sh.lock.None?
    ensures 3 in r.ops && r.ops[3] == NewOp(Read)
  {
    LeadsToSelf(c);
    InitialInv(c);
    hide Leads, Inv;
    assert c.ops[1] == NewOp(Read) && c.ops[2] == NewOp(Read) && c.ops[3] == NewOp(Read);
    r := Launches(c, c, 1);
    r := WorkerFails(c, r, 1);
    r := Waits(c, r, 1, 1);
    r := Waits(c, r, 2, 1);
    r := Unmarks(c, r, 1, 1);
    r := Launches(c, r, 2);
  }

  /** From every state in which a call is about to do that, and a launch is still to come, two
      workers of one descriptor can be alive at the same time. */
  lemma DisowningTwoWorkers(s: State, j: int, l: int) returns (r: State)
    requires Inv(s) && Disowns(s, Join(j, true)) && l in s.ops && s.ops[l] == NewOp(s.ops[l].kind)
    requires s.joiners[j].stop || s.sh.lock.None?
    ensures Leads(s, r) && s.sh.thread in r.ops && l in r.ops && l != s.sh.thread
    ensures Live(r.ops[s.sh.thread].wpc) && Live(r.ops[l].wpc)
  {
    LeadsToSelf(s);
    assert JoinerOk(s.joiners[j], j, s.ops, s.sh);
    hide Leads, Inv, OpOk;
    r := Moves(s, s, Join(j, true));
    assert r.ops == s.ops && r.sh == s.sh.(inProgress := false, lock := None);
    hide JoinStep, JoinerOk;
    r := Moves(s, r, Launch(l));
    r := Moves(s, r, Launch(l));
    r := Moves(s, r, Launch(l));
  }
}
