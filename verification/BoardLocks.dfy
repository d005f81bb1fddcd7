/** The two mutexes of a board, the locking-pid gate in front of bus I/O, and the autospoll
    thread, as interleaved steps of any number of threads (gpib_os.c, iblib.c). A step is
    what one thread does between two points where another can get in. */
module BoardLocks {

  // An ioctl as far as the locks see it; `f` is the file it is made on.
  datatype Call =
    | MutexLock(f: int)
    | MutexUnlock(f: int)
    | Gated(dropsBig: bool)  // dropsBig: IBRD, IBWRT and IBCMD
    | Wait(noMask: bool)
    | Other

  datatype Pc =
    // ibioctl
    | Idle
    | WantBig(call: Call)
    | Dispatch(call: Call)
    // mutex_ioctl
    | WantUser(f: int)
    | GotUser(f: int)
    | Unlocking(f: int)
    | PidCleared
    // gated bus I/O, with and without big_gpib_mutex
    | ShortIo
    | LongIo
    // ibwait
    | Asleep
    | WantCheck
    | Check
    | WantBack
    | Back
    // autospoll_thread; the state is tested twice before it polls
    | PollIdle
    | WantTest(again: bool)
    | Test(again: bool)
    | PollWantUser
    | PollWantBig
    | Polling
    | PollRelease

  datatype Option<T> = None | Some(value: T)

  /** `locking_pid` is 0 when no process is recorded; `holding` are the files whose
      holding_mutex flag is set. Threads are identified by positive process ids. */
  datatype State = State(
    pc: map<int, Pc>,
    user: Option<int>,
    big: Option<int>,
    lockingPid: int,
    holding: set<int>)

  datatype Action =
    | DoCall(t: int, call: Call)
    | LockBig(t: int)
    | LockUser(t: int)
    | Interrupt(t: int)
    | Refuse(t: int)
    | Proceed(t: int)
    | Wake(t: int)
    | Tested(t: int, go: bool)
    | CloseFile(f: int)

  function At(s: State, t: int, pc: Pc): State { s.(pc := s.pc[t := pc]) }

  // The thread takes big_gpib_mutex and continues at `pc`.
  function TakeBig(s: State, t: int, pc: Pc): Option<State> {
    if s.big.None? then Some(At(s, t, pc).(big := Some(t))) else None
  }

  function TakeUser(s: State, t: int, pc: Pc): Option<State> {
    if s.user.None? then Some(At(s, t, pc).(user := Some(t))) else None
  }

  function DropBig(s: State, t: int, pc: Pc): Option<State> {
    Some(At(s, t, pc).(big := None))
  }

  function DropUser(s: State, t: int, pc: Pc): Option<State> {
    Some(At(s, t, pc).(user := None))
  }

  function LockBigStep(s: State, t: int, pc: Pc): Option<State> {
    match pc
    case WantBig(call) => TakeBig(s, t, Dispatch(call))
    case WantCheck => TakeBig(s, t, Check)
    case WantBack => TakeBig(s, t, Back)
    case WantTest(again) => TakeBig(s, t, Test(again))
    case PollWantBig => TakeBig(s, t, Polling)
    case _ => None
  }

  function LockUserStep(s: State, t: int, pc: Pc): Option<State> {
    match pc
    case WantUser(f) => TakeUser(s, t, GotUser(f))
    case PollWantUser => TakeUser(s, t, PollWantBig)
    case _ => None
  }

  /** A signal ends an interruptible wait. Inside wait_satisfied it makes the condition come
      out true, so the waiter goes on to take the mutex back. */
  function InterruptStep(s: State, t: int, pc: Pc): Option<State> {
    match pc
    case WantBig(_) => Some(At(s, t, Idle))
    case WantUser(_) => Some(At(s, t, Idle))
    case Asleep => Some(At(s, t, Idle))
    case WantCheck => Some(At(s, t, WantBack))
    case WantBack => Some(At(s, t, Idle))
    case PollWantUser => Some(At(s, t, PollIdle))
    case PollWantBig => DropUser(s, t, PollIdle)
    case _ => None
  }

  // The next step of a thread that is not waiting for a mutex.
  function ProceedStep(s: State, t: int, pc: Pc): Option<State> {
    match pc
    case Dispatch(MutexLock(f)) => DropBig(s, t, WantUser(f))
    case Dispatch(MutexUnlock(f)) => DropBig(s, t, Unlocking(f))
    case Dispatch(Gated(dropsBig)) =>
      if s.lockingPid != t then DropBig(s, t, Idle)
      else if dropsBig then DropBig(s, t, LongIo)
      else Some(At(s, t, ShortIo))
    case Dispatch(Wait(noMask)) => DropBig(s, t, if noMask then Idle else Asleep)
    case Dispatch(Other) => DropBig(s, t, Idle)
    case GotUser(f) => Some(At(s, t, Idle).(lockingPid := t, holding := s.holding + {f}))
    case Unlocking(f) =>
      if s.lockingPid != t then Some(At(s, t, Idle))
      else Some(At(s, t, PidCleared).(lockingPid := 0, holding := s.holding - {f}))
    case PidCleared => DropUser(s, t, Idle)
    case ShortIo => DropBig(s, t, Idle)
    case LongIo => Some(At(s, t, Idle))
    case Back => DropBig(s, t, Idle)
    case PollIdle => Some(At(s, t, WantTest(false)))
    case Polling => DropBig(s, t, PollRelease)
    case PollRelease => DropUser(s, t, PollIdle)
    case _ => None
  }

  function TestedStep(s: State, t: int, pc: Pc, go: bool): Option<State> {
    match pc
    case Check => DropBig(s, t, if go then WantBack else Asleep)
    case Test(again) =>
      DropBig(s, t, if !go then PollIdle else if again then PollWantUser else WantTest(true))
    case _ => None
  }

  predicate Uses(pc: Pc, f: int) {
    match pc
    case WantBig(MutexLock(g)) => f == g
    case WantBig(MutexUnlock(g)) => f == g
    case Dispatch(MutexLock(g)) => f == g
    case Dispatch(MutexUnlock(g)) => f == g
    case WantUser(g) => f == g
    case GotUser(g) => f == g
    case Unlocking(g) => f == g
    case _ => false
  }

  /** The step `a` takes from `s`, if it is possible there. A file is closed only when no
      call on it is under way; closing it releases user_mutex if its flag is set, and leaves
      locking_pid as it is. */
  function Next(s: State, a: Action): Option<State> {
    if a.CloseFile? then
      if exists t | t in s.pc :: Uses(s.pc[t], a.f) then None
      else if a.f in s.holding then Some(s.(user := None, holding := s.holding - {a.f}))
      else Some(s)
    else if a.t !in s.pc then None
    else
      var t, pc := a.t, s.pc[a.t];
      if a.DoCall? then if pc.Idle? then Some(At(s, t, WantBig(a.call))) else None
      else if a.LockBig? then LockBigStep(s, t, pc)
      else if a.LockUser? then LockUserStep(s, t, pc)
      else if a.Interrupt? then InterruptStep(s, t, pc)
      else if a.Refuse? then if pc.Dispatch? then DropBig(s, t, Idle) else None
      else if a.Wake? then if pc.Asleep? then Some(At(s, t, WantCheck)) else None
      else if a.Tested? then TestedStep(s, t, pc, a.go)
      else ProceedStep(s, t, pc)
  }

  // ---- who owns what ----

  predicate HoldsBig(pc: Pc) {
    pc.Dispatch? || pc.ShortIo? || pc.Check? || pc.Back? || pc.Test? || pc.Polling?
  }

  // Owns user_mutex without being the recorded process.
  predicate OwnsUnrecorded(pc: Pc) {
    pc.GotUser? || pc.PidCleared? || pc.PollWantBig? || pc.Polling? || pc.PollRelease?
  }

  predicate Poller(pc: Pc) {
    || pc.PollIdle? || pc.WantTest? || pc.Test?
    || pc.PollWantUser? || pc.PollWantBig? || pc.Polling? || pc.PollRelease?
  }

  predicate DrivesBus(pc: Pc) { pc.ShortIo? || pc.LongIo? || pc.Polling? }

  ghost predicate Inv(s: State) {
    && (forall t :: t in s.pc ==> t > 0)
    && (s.big.Some? ==> s.big.value in s.pc)
    && (s.user.Some? ==> s.user.value in s.pc)
    && (forall t :: t in s.pc ==> (HoldsBig(s.pc[t]) <==> s.big == Some(t)))
    && (forall t :: t in s.pc && OwnsUnrecorded(s.pc[t]) ==> s.user == Some(t) && s.lockingPid == 0)
    && (forall t :: t in s.pc && s.user == Some(t) ==> OwnsUnrecorded(s.pc[t]) || s.lockingPid == t)
    && (s.lockingPid != 0 ==> s.user == Some(s.lockingPid))
    && (forall t :: t in s.pc && (s.pc[t].ShortIo? || s.pc[t].LongIo?) ==> s.lockingPid == t)
    && (forall t :: t in s.pc && Poller(s.pc[t]) ==> s.lockingPid != t)
  }

  // Closing a file whose flag says it holds a mutex that is indeed held.
  predicate ClosesHolder(s: State, a: Action) {
    a.CloseFile? && a.f in s.holding && s.user.Some?
  }

  // What one thread may do to the locks, said about that thread alone.
  ghost predicate Local(s: State, t: int, r: State) {
    && t in s.pc && t in r.pc && r.pc == s.pc[t := r.pc[t]]
    && (HoldsBig(r.pc[t]) <==> r.big == Some(t))
    && (if r.big == Some(t) then s.big == None || s.big == Some(t)
        else r.big == if s.big == Some(t) then None else s.big)
    && (r.user == s.user || (s.user == None && r.user == Some(t)) || (s.user == Some(t) && r.user == None))
    && (r.lockingPid == s.lockingPid || (s.lockingPid == 0 && r.lockingPid == t)
        || (s.lockingPid == t && r.lockingPid == 0))
    && (OwnsUnrecorded(r.pc[t]) ==> r.user == Some(t) && r.lockingPid == 0)
    && (r.user == Some(t) ==> OwnsUnrecorded(r.pc[t]) || r.lockingPid == t)
    && (r.lockingPid == t ==> r.user == Some(t))
    && (r.pc[t].ShortIo? || r.pc[t].LongIo? ==> r.lockingPid == t)
    && (Poller(r.pc[t]) ==> r.lockingPid != t)
  }

  lemma LocalKeepsInv(s: State, t: int, r: State)
    requires Inv(s) && Local(s, t, r)
    ensures Inv(r)
  {
    hide HoldsBig, OwnsUnrecorded, Poller;
    assert forall u :: u in r.pc && u != t ==> r.pc[u] == s.pc[u];
    if s.user == Some(t) && r.user == None && s.lockingPid != 0 {
      assert s.lockingPid == t;
    }
    if r.lockingPid != s.lockingPid {
      assert r.user == Some(t) || s.user == Some(t);
    }
  }

  // The invariant as far as one thread is concerned.
  ghost predicate Own(s: State, t: int) {
    && t in s.pc && t > 0
    && (HoldsBig(s.pc[t]) <==> s.big == Some(t))
    && (OwnsUnrecorded(s.pc[t]) ==> s.user == Some(t) && s.lockingPid == 0)
    && (s.user == Some(t) ==> OwnsUnrecorded(s.pc[t]) || s.lockingPid == t)
    && (s.lockingPid != 0 ==> s.user == Some(s.lockingPid))
    && (s.pc[t].ShortIo? || s.pc[t].LongIo? ==> s.lockingPid == t)
    && (Poller(s.pc[t]) ==> s.lockingPid != t)
  }

  lemma ProceedIsLocal(s: State, t: int)
    requires Own(s, t) && ProceedStep(s, t, s.pc[t]).Some?
    ensures Local(s, t, ProceedStep(s, t, s.pc[t]).value)
  {
  }

  lemma LockIsLocal(s: State, t: int)
    requires Own(s, t)
    ensures LockBigStep(s, t, s.pc[t]).Some? ==> Local(s, t, LockBigStep(s, t, s.pc[t]).value)
    ensures LockUserStep(s, t, s.pc[t]).Some? ==> Local(s, t, LockUserStep(s, t, s.pc[t]).value)
  {
  }

  lemma WaitIsLocal(s: State, t: int, go: bool)
    requires Own(s, t)
    ensures InterruptStep(s, t, s.pc[t]).Some? ==> Local(s, t, InterruptStep(s, t, s.pc[t]).value)
    ensures TestedStep(s, t, s.pc[t], go).Some? ==> Local(s, t, TestedStep(s, t, s.pc[t], go).value)
  {
  }

  lemma StepIsLocal(s: State, a: Action)
    requires Inv(s) && Next(s, a).Some? && !a.CloseFile?
    ensures Local(s, a.t, Next(s, a).value)
  {
    hide ProceedStep, LockBigStep, LockUserStep, InterruptStep, TestedStep;
    assert Own(s, a.t);
    if a.Proceed? {
      ProceedIsLocal(s, a.t);
    } else if a.LockBig? || a.LockUser? {
      LockIsLocal(s, a.t);
    } else if a.Interrupt? || a.Tested? {
      WaitIsLocal(s, a.t, a.Tested? && a.go);
    }
  }

  /** Every step keeps the invariant, except closing a file while it holds the mutex, which
      always breaks it. */
  lemma StepExact(s: State, a: Action)
    requires Inv(s) && Next(s, a).Some?
    ensures Inv(Next(s, a).value) <==> !ClosesHolder(s, a)
  {
    var r := Next(s, a).value;
    if a.CloseFile? {
      if ClosesHolder(s, a) {
        var owner := s.user.value;
        assert OwnsUnrecorded(r.pc[owner]) || r.lockingPid == owner;
      }
    } else {
      StepIsLocal(s, a);
      LocalKeepsInv(s, a.t, r);
    }
  }

  // ---- whole runs ----

  ghost predicate Initial(s: State) {
    && (forall t :: t in s.pc ==> t > 0 && (s.pc[t].Idle? || s.pc[t].PollIdle?))
    && s.user == None && s.big == None && s.lockingPid == 0 && s.holding == {}
  }

  // A run in which no file is closed while it holds the mutex.
  ghost predicate CleanRun(s: State, actions: seq<Action>)
    decreases |actions|
  {
    actions != [] ==>
      && Next(s, actions[0]).Some? && !ClosesHolder(s, actions[0])
      && CleanRun(Next(s, actions[0]).value, actions[1..])
  }

  ghost function Run(s: State, actions: seq<Action>): State
    requires CleanRun(s, actions)
    decreases |actions|
  {
    if actions == [] then s else Run(Next(s, actions[0]).value, actions[1..])
  }

  lemma {:induction false} RunKeepsInv(s: State, actions: seq<Action>)
    requires Inv(s) && CleanRun(s, actions)
    ensures Inv(Run(s, actions))
    decreases |actions|
  {
    if actions != [] {
      StepExact(s, actions[0]);
      RunKeepsInv(Next(s, actions[0]).value, actions[1..]);
    }
  }

  /** In every interleaving: whoever drives the bus owns user_mutex, so no two threads ever
      do; a thread holding big_gpib_mutex is never waiting for user_mutex; and a thread
      that has returned from ibioctl no longer holds big_gpib_mutex. */
  lemma Exclusion(s: State, actions: seq<Action>)
    requires Initial(s) && CleanRun(s, actions)
    ensures var r := Run(s, actions);
      && (forall t :: t in r.pc && DrivesBus(r.pc[t]) ==> r.user == Some(t))
      && (forall t, u :: t in r.pc && u in r.pc && DrivesBus(r.pc[t]) && DrivesBus(r.pc[u]) ==> t == u)
      && (forall t :: t in r.pc && (r.pc[t].WantUser? || r.pc[t].PollWantUser?) ==> r.big != Some(t))
      && (forall t :: t in r.pc && (r.pc[t].Idle? || r.pc[t].PollIdle?) ==> r.big != Some(t))
  {
    assert Inv(s);
    RunKeepsInv(s, actions);
  }

  // ---- waiting in a circle ----

  predicate WantsBig(pc: Pc) {
    pc.WantBig? || pc.WantCheck? || pc.WantBack? || pc.WantTest? || pc.PollWantBig?
  }

  predicate WantsUser(pc: Pc) { pc.WantUser? || pc.PollWantUser? }

  // Thread t waits for a mutex that u has.
  predicate WaitsFor(s: State, t: int, u: int) {
    t in s.pc
    && ((WantsBig(s.pc[t]) && s.big == Some(u)) || (WantsUser(s.pc[t]) && s.user == Some(u)))
  }

  ghost predicate WaitCycle(s: State, path: seq<int>) {
    && |path| >= 2 && path[0] == path[|path| - 1]
    && forall i :: 0 <= i < |path| - 1 ==> WaitsFor(s, path[i], path[i + 1])
  }

  /** The two mutexes are never waited for in a circle. The only circle there can be is a
      thread that asks for user_mutex a second time while it has it. */
  lemma CyclesExactly(s: State)
    requires Inv(s)
    ensures (exists path :: WaitCycle(s, path))
            <==> (exists t :: t in s.pc && s.pc[t].WantUser? && s.user == Some(t))
  {
    forall path | WaitCycle(s, path)
      ensures exists t :: t in s.pc && s.pc[t].WantUser? && s.user == Some(t)
    {
      CycleIsSelf(s, path);
    }
    forall t | t in s.pc && s.pc[t].WantUser? && s.user == Some(t)
      ensures exists path :: WaitCycle(s, path)
    {
      assert WaitCycle(s, [t, t]);
    }
  }

  lemma CycleIsSelf(s: State, path: seq<int>)
    requires Inv(s) && WaitCycle(s, path)
    ensures path[1] in s.pc && s.pc[path[1]].WantUser? && s.user == Some(path[1])
  {
    var a, b := path[0], path[1];
    assert WaitsFor(s, a, b);
    var c := if |path| == 2 then b else path[2];
    assert WaitsFor(s, b, c) by {
      if |path| > 2 {
        assert WaitsFor(s, path[1], path[1 + 1]);
      }
    }
    // b waits, so it cannot hold big_gpib_mutex; a waits for it on user_mutex
    assert !HoldsBig(s.pc[b]);
    assert s.user == Some(b);
    if WantsBig(s.pc[b]) {
      // then c holds big_gpib_mutex, and does not wait: the path cannot go on to close
      BigHolderEndsPath(s, path, if |path| == 2 then 1 else 2);
    }
  }

  lemma BigHolderEndsPath(s: State, path: seq<int>, i: nat)
    requires Inv(s) && WaitCycle(s, path) && i < |path|
    ensures path[i] in s.pc && !HoldsBig(s.pc[path[i]])
  {
    var j := if i == |path| - 1 then 0 else i;
    assert path[i] == path[j];
    assert WaitsFor(s, path[j], path[j + 1]);
  }

  // Runs in which no thread asks for user_mutex while it is recorded as having it.
  ghost predicate NoRelock(s: State, actions: seq<Action>)
    requires CleanRun(s, actions)
    decreases |actions|
  {
    actions != [] ==>
      && (actions[0].DoCall? && actions[0].call.MutexLock? ==> s.lockingPid != actions[0].t)
      && NoRelock(Next(s, actions[0]).value, actions[1..])
  }

  predicate Locking(pc: Pc) {
    pc.WantUser? || (pc.WantBig? && pc.call.MutexLock?) || (pc.Dispatch? && pc.call.MutexLock?)
  }

  ghost predicate NotRelocking(s: State) {
    forall t :: t in s.pc && Locking(s.pc[t]) ==> s.user != Some(t)
  }

  /** So in runs whose threads do not lock twice nobody ever waits in a circle. */
  lemma NoCycles(s: State, actions: seq<Action>, path: seq<int>)
    requires Initial(s) && CleanRun(s, actions) && NoRelock(s, actions)
    ensures !WaitCycle(Run(s, actions), path)
  {
    NotRelockingKept(s, actions);
    RunKeepsInv(s, actions);
    if WaitCycle(Run(s, actions), path) {
      CycleIsSelf(Run(s, actions), path);
    }
  }

  lemma {:induction false} NotRelockingKept(s: State, actions: seq<Action>)
    requires Inv(s) && NotRelocking(s) && CleanRun(s, actions) && NoRelock(s, actions)
    ensures NotRelocking(Run(s, actions))
    decreases |actions|
  {
    if actions != [] {
      var a := actions[0];
      var r := Next(s, a).value;
      StepExact(s, a);
      if !a.CloseFile? {
        StepIsLocal(s, a);
        LockingOnlyByCall(s, a);
        assert forall u :: u in r.pc && u != a.t ==> r.pc[u] == s.pc[u];
      }
      NotRelockingKept(r, actions[1..]);
    }
  }

  ghost predicate NotNewlyLocking(s: State, t: int, r: Option<State>)
    requires t in s.pc
  {
    r.Some? && t in r.value.pc && Locking(r.value.pc[t]) ==>
      Locking(s.pc[t]) && r.value.user == s.user
  }

  lemma ProceedNotLocking(s: State, t: int)
    requires t in s.pc
    ensures NotNewlyLocking(s, t, ProceedStep(s, t, s.pc[t]))
  {
  }

  lemma OthersNotLocking(s: State, t: int, go: bool)
    requires t in s.pc
    ensures NotNewlyLocking(s, t, LockBigStep(s, t, s.pc[t]))
    ensures NotNewlyLocking(s, t, LockUserStep(s, t, s.pc[t]))
    ensures NotNewlyLocking(s, t, InterruptStep(s, t, s.pc[t]))
    ensures NotNewlyLocking(s, t, TestedStep(s, t, s.pc[t], go))
  {
  }

  lemma LockingOnlyByCall(s: State, a: Action)
    requires Inv(s) && Next(s, a).Some? && !a.CloseFile?
    ensures a.t in Next(s, a).value.pc
    ensures Locking(Next(s, a).value.pc[a.t]) ==>
      (Locking(s.pc[a.t]) && Next(s, a).value.user == s.user) || (a.DoCall? && a.call.MutexLock?)
  {
    hide ProceedStep, LockBigStep, LockUserStep, InterruptStep, TestedStep;
    StepIsLocal(s, a);
    ProceedNotLocking(s, a.t);
    OthersNotLocking(s, a.t, a.Tested? && a.go);
  }

  // ---- why such closing has to be excluded ----

  lemma {:induction false} RunMore(s: State, actions: seq<Action>, a: Action)
    requires CleanRun(s, actions) && Next(Run(s, actions), a).Some?
    requires !ClosesHolder(Run(s, actions), a)
    ensures CleanRun(s, actions + [a]) && Run(s, actions + [a]) == Next(Run(s, actions), a).value
    decreases |actions|
  {
    if actions == [] {
      assert (actions + [a])[1..] == [];
    } else {
      assert (actions + [a])[1..] == actions[1..] + [a];
      RunMore(Next(s, actions[0]).value, actions[1..], a);
    }
  }

  ghost predicate Leads(s: State, r: State) {
    exists actions :: CleanRun(s, actions) && Run(s, actions) == r
  }

  lemma LeadsOn(c: State, s: State, a: Action, r: State)
    requires Leads(c, s) && Next(s, a) == Some(r) && !a.CloseFile?
    ensures Leads(c, r)
  {
    var actions :| CleanRun(c, actions) && Run(c, actions) == s;
    RunMore(c, actions, a);
  }

  lemma Moves(c: State, s: State, a: Action) returns (r: State)
    requires Leads(c, s) && !a.CloseFile? && Next(s, a).Some?
    ensures Leads(c, r) && r == Next(s, a).value
  {
    r := Next(s, a).value;
    LeadsOn(c, s, a, r);
  }

  // Whoever has big_gpib_mutex can let go of it.
  lemma BigFrees(c: State, s: State, u: int, p: int) returns (r: State)
    requires Leads(c, s) && Parked(s, u) && Parked(s, p)
    requires s.big.Some? ==> s.big.value in s.pc && HoldsBig(s.pc[s.big.value])
    ensures Leads(c, r) && r.big.None? && r.user == s.user && r.lockingPid == s.lockingPid
    ensures u in r.pc && r.pc[u] == s.pc[u] && p in r.pc && r.pc[p] == s.pc[p]
  {
    hide Leads;
    r := s;
    if s.big.Some? {
      var w := s.big.value;
      var pc := s.pc[w];
      r := Moves(c, s, if pc.Dispatch? then Refuse(w)
                       else if pc.Check? || pc.Test? then Tested(w, false)
                       else Proceed(w));
    }
  }

  lemma BigHolder(s: State)
    requires Inv(s) && s.big.Some?
    ensures s.big.value in s.pc && HoldsBig(s.pc[s.big.value])
  {
    var w := s.big.value;
    assert w in s.pc && s.big == Some(w);
    assert HoldsBig(s.pc[w]) <==> s.big == Some(w);
  }

  predicate Parked(s: State, t: int) { t in s.pc && (s.pc[t].Idle? || s.pc[t].PollIdle?) }

  // The thread on record passes the gate, holding the mutex or not.
  lemma Writes(c: State, s: State, u: int) returns (r: State)
    requires Leads(c, s) && u in s.pc && s.pc[u].Idle? && s.big.None? && s.lockingPid == u
    ensures Leads(c, r) && r == At(s, u, LongIo)
  {
    hide Leads;
    r := Moves(c, s, DoCall(u, Gated(true)));
    r := Moves(c, r, LockBig(u));
    r := Moves(c, r, Proceed(u));
  }

  lemma TestsState(c: State, s: State, p: int) returns (r: State)
    requires Leads(c, s) && p in s.pc && s.pc[p].PollIdle? && s.big.None?
    ensures Leads(c, r) && r == At(s, p, WantTest(true))
  {
    hide Leads;
    r := Moves(c, s, Proceed(p));
    r := Moves(c, r, LockBig(p));
    r := Moves(c, r, Tested(p, true));
  }

  lemma PollsNow(c: State, s: State, p: int) returns (r: State)
    requires Leads(c, s) && p in s.pc && s.pc[p] == WantTest(true) && s.big.None? && s.user.None?
    ensures Leads(c, r) && r == At(s, p, Polling).(big := Some(p), user := Some(p))
  {
    hide Leads;
    r := Moves(c, s, LockBig(p));
    r := Moves(c, r, Tested(p, true));
    r := Moves(c, r, LockUser(p));
    r := Moves(c, r, LockBig(p));
  }

  lemma Locks(c: State, s: State, p: int, f: int) returns (r: State)
    requires Leads(c, s) && p in s.pc && s.pc[p].Idle? && s.big.None? && s.user.None?
    ensures Leads(c, r)
    ensures r == s.(user := Some(p), lockingPid := p, holding := s.holding + {f})
  {
    hide Leads;
    r := Moves(c, s, DoCall(p, MutexLock(f)));
    r := Moves(c, r, LockBig(p));
    r := Moves(c, r, Proceed(p));
    r := LocksOn(c, r, p, f);
    assert r.pc == s.pc;
  }

  lemma LocksOn(c: State, s: State, p: int, f: int) returns (r: State)
    requires Leads(c, s) && p in s.pc && s.pc[p] == WantUser(f) && s.user.None?
    ensures Leads(c, r)
    ensures r == At(s, p, Idle).(user := Some(p), lockingPid := p, holding := s.holding + {f})
  {
    hide Leads;
    r := Moves(c, s, LockUser(p));
    r := Moves(c, r, Proceed(p));
  }

  // ---- what the calls do, with nobody in the way ----

  lemma LeadsToSelf(s: State)
    ensures Leads(s, s)
  {
    assert CleanRun(s, []) && Run(s, []) == s;
  }

  /** Locking the mutex records the process and the file. */
  lemma LockTakes(s: State, u: int, f: int) returns (r: State)
    requires u in s.pc && s.pc[u].Idle? && s.big.None? && s.user.None?
    ensures Leads(s, r)
    ensures r == s.(user := Some(u), lockingPid := u, holding := s.holding + {f})
  {
    LeadsToSelf(s);
    r := Locks(s, s, u, f);
  }

  /** Unlocking it releases it and clears the record, the file's too, if the caller is the process
      on record. */
  lemma UnlockReleases(s: State, u: int, f: int) returns (r: State)
    requires u in s.pc && s.pc[u].Idle? && s.big.None? && s.lockingPid == u
    ensures Leads(s, r)
    ensures r == s.(user := None, lockingPid := 0, holding := s.holding - {f})
  {
    LeadsToSelf(s);
    hide Leads;
    r := AsksToUnlock(s, s, u, f);
    r := Moves(s, r, Proceed(u));
    r := Moves(s, r, Proceed(u));
    assert r.pc == s.pc;
  }

  lemma AsksToUnlock(c: State, s: State, u: int, f: int) returns (r: State)
    requires Leads(c, s) && u in s.pc && s.pc[u].Idle? && s.big.None?
    ensures Leads(c, r) && r == At(s, u, Unlocking(f))
  {
    hide Leads;
    r := Moves(c, s, DoCall(u, MutexUnlock(f)));
    r := Moves(c, r, LockBig(u));
    r := Moves(c, r, Proceed(u));
  }

  /** Anybody else's unlock changes nothing. */
  lemma ForeignUnlockIdle(s: State, u: int, f: int) returns (r: State)
    requires u in s.pc && s.pc[u].Idle? && s.big.None? && s.lockingPid != u
    ensures Leads(s, r) && r == s
  {
    LeadsToSelf(s);
    hide Leads;
    r := AsksToUnlock(s, s, u, f);
    r := Moves(s, r, Proceed(u));
    assert r.pc == s.pc;
  }

  /** The process on record passes the gate: a short call does its I/O holding big_gpib_mutex, a
      long one without, and both come back having changed nothing else. */
  lemma GateOpens(s: State, u: int, dropsBig: bool) returns (inside: State, r: State)
    requires u in s.pc && s.pc[u].Idle? && s.big.None? && s.lockingPid == u
    ensures Leads(s, inside) && Leads(s, r) && r == s
    ensures Next(inside, Proceed(u)) == Some(r)
    ensures inside == At(s, u, if dropsBig then LongIo else ShortIo)
                      .(big := if dropsBig then None else Some(u))
  {
    LeadsToSelf(s);
    hide Leads;
    r := Moves(s, s, DoCall(u, Gated(dropsBig)));
    r := Moves(s, r, LockBig(u));
    inside := Moves(s, r, Proceed(u));
    r := Moves(s, inside, Proceed(u));
    assert r.pc == s.pc;
  }

  /** Nobody else does: the call returns without I/O. */
  lemma GateShut(s: State, u: int, dropsBig: bool) returns (asked: State)
    requires u in s.pc && s.pc[u].Idle? && s.big.None? && s.lockingPid != u
    ensures Leads(s, asked) && asked == At(s, u, Dispatch(Gated(dropsBig))).(big := Some(u))
    ensures Next(asked, Proceed(u)) == Some(s)
  {
    LeadsToSelf(s);
    hide Leads;
    asked := Moves(s, s, DoCall(u, Gated(dropsBig)));
    asked := Moves(s, asked, LockBig(u));
    assert At(asked, u, Idle).pc == s.pc;
  }

  /** Every other call, and a wait for nothing, is served holding big_gpib_mutex and gives it
      back. */
  lemma ShortCall(s: State, u: int, call: Call) returns (asked: State)
    requires u in s.pc && s.pc[u].Idle? && s.big.None? && (call == Other || call == Wait(true))
    ensures Leads(s, asked) && asked == At(s, u, Dispatch(call)).(big := Some(u))
    ensures Next(asked, Proceed(u)) == Some(s)
  {
    LeadsToSelf(s);
    hide Leads;
    asked := Moves(s, s, DoCall(u, call));
    asked := Moves(s, asked, LockBig(u));
    assert At(asked, u, Idle).pc == s.pc;
  }

  /** A wait sleeps without any mutex, tests its condition with big_gpib_mutex as often as it is
      woken, and goes back to sleep as long as that is false. */
  lemma WaitSleeps(s: State, u: int) returns (asleep: State, check: State)
    requires u in s.pc && s.pc[u].Idle? && s.big.None?
    ensures Leads(s, asleep) && asleep == At(s, u, Asleep)
    ensures Leads(asleep, check) && check == At(s, u, Check).(big := Some(u))
    ensures Next(check, Tested(u, false)) == Some(asleep)
  {
    LeadsToSelf(s);
    hide Leads;
    asleep := Moves(s, s, DoCall(u, Wait(false)));
    asleep := Moves(s, asleep, LockBig(u));
    asleep := Moves(s, asleep, Proceed(u));
    LeadsToSelf(asleep);
    check := Moves(asleep, asleep, Wake(u));
    check := Moves(asleep, check, LockBig(u));
    assert At(check, u, Asleep).pc == asleep.pc;
  }

  /** Once it is true the caller has the mutex again before it returns, and then gives it back. */
  lemma WaitReturns(s: State, check: State, u: int) returns (back: State, r: State)
    requires u in s.pc && s.pc[u].Idle? && check == At(s, u, Check).(big := Some(u)) && s.big.None?
    ensures Leads(check, back) && back == At(s, u, Back).(big := Some(u))
    ensures Leads(check, r) && r == s && Next(back, Proceed(u)) == Some(r)
  {
    LeadsToSelf(check);
    hide Leads;
    r := Moves(check, check, Tested(u, true));
    back := Moves(check, r, LockBig(u));
    r := Moves(check, back, Proceed(u));
    assert r.pc == s.pc;
  }

  /** The autospoll thread tests twice, polls with both mutexes, and gives both back. */
  lemma PollCycle(s: State, p: int) returns (polling: State, r: State)
    requires p in s.pc && s.pc[p].PollIdle? && s.big.None? && s.user.None?
    ensures Leads(s, polling) && polling == At(s, p, Polling).(big := Some(p), user := Some(p))
    ensures Leads(s, r) && r == s
  {
    LeadsToSelf(s);
    hide Leads;
    r := TestsState(s, s, p);
    polling := PollsNow(s, r, p);
    r := Moves(s, polling, Proceed(p));
    r := Moves(s, r, Proceed(p));
    assert r.pc == s.pc;
  }

  /** A test that fails, the first or the second, ends the round: the thread has neither mutex. */
  lemma NothingToPoll(s: State, p: int, again: bool) returns (test: State)
    requires p in s.pc && s.pc[p].PollIdle? && s.big.None?
    ensures Leads(s, test) && test == At(s, p, Test(again)).(big := Some(p))
    ensures Next(test, Tested(p, false)) == Some(s)
  {
    LeadsToSelf(s);
    hide Leads;
    test := Moves(s, s, Proceed(p));
    test := Moves(s, test, LockBig(p));
    if again {
      test := Moves(s, test, Tested(p, true));
      test := Moves(s, test, LockBig(p));
    }
    assert At(test, p, PollIdle).pc == s.pc;
  }

  /** A file is closed exactly when no call on it is under way, from its lock or unlock on.
      Closing gives up the mutex its flag stands for and nothing else, whoever is on record. */
  lemma CloseEffect(s: State, f: int)
    ensures Next(s, CloseFile(f)).None? <==>
      exists t :: t in s.pc
        && (s.pc[t] in {WantUser(f), GotUser(f), Unlocking(f)}
            || ((s.pc[t].WantBig? || s.pc[t].Dispatch?) && s.pc[t].call in {MutexLock(f), MutexUnlock(f)}))
    ensures var n := Next(s, CloseFile(f)); n.Some? ==>
      n.value == s.(user := if f in s.holding then None else s.user, holding := s.holding - {f})
  {
    assert f !in s.holding ==> s.holding - {f} == s.holding;
    forall t | t in s.pc
      ensures Uses(s.pc[t], f) <==>
        (s.pc[t] in {WantUser(f), GotUser(f), Unlocking(f)}
         || ((s.pc[t].WantBig? || s.pc[t].Dispatch?) && s.pc[t].call in {MutexLock(f), MutexUnlock(f)}))
    {
    }
  }

  /** A signal ends every wait but the one of a reader about to test its condition, which goes
      on to take the mutex back; what the thread had, and nothing else, is given up. The
      switch of a refused argument gives the mutex back as well. */
  lemma SignalEndsWait(s: State, t: int)
    requires Inv(s) && t in s.pc
    ensures var pc, n := s.pc[t], Next(s, Interrupt(t));
      && (n.Some? <==> pc.WantBig? || pc.WantUser? || pc.Asleep? || pc.WantCheck? || pc.WantBack?
                       || pc.PollWantUser? || pc.PollWantBig?)
      && (n.Some? ==>
            n.value == At(s, t, if pc.WantCheck? then WantBack else if Poller(pc) then PollIdle else Idle)
                       .(user := if OwnsUnrecorded(pc) then None else s.user))
    ensures var n := Next(s, Refuse(t));
      n == if s.pc[t].Dispatch? then Some(At(s, t, Idle).(big := None)) else None
  {
  }

  /** From every state in which an idle process is recorded as holding user_mutex: once a file
      that counts as holding it is closed, that process can still pass the gate and write to
      the bus, while any other idle thread gets the mutex and drives the bus as well. */
  lemma ClosingHolderBreaksExclusion(s: State, f: int, u: int, p: int) returns (after: State, both: State)
    requires Inv(s) && ClosesHolder(s, CloseFile(f)) && Next(s, CloseFile(f)).Some?
    requires u in s.pc && s.pc[u].Idle? && s.user == Some(u)
    requires Parked(s, p) && p != u
    ensures Next(s, CloseFile(f)) == Some(after) && Leads(after, both)
    ensures u in both.pc && p in both.pc && DrivesBus(both.pc[u]) && DrivesBus(both.pc[p])
  {
    after := Next(s, CloseFile(f)).value;
    assert CleanRun(after, []) && Run(after, []) == after;
    assert after.user.None? && after.lockingPid == u;
    if s.big.Some? {
      BigHolder(s);
    }
    hide Leads, Next, Inv;
    both := BigFrees(after, after, u, p);
    both := Writes(after, both, u);
    if both.pc[p].PollIdle? {
      both := TestsState(after, both, p);
      both := PollsNow(after, both, p);
    } else {
      both := Locks(after, both, p, f);
      both := Writes(after, both, p);
    }
  }

  /** There are such states: any idle thread can lock the mutex through any file that no call
      is using. */
  lemma HolderReached(start: State, u: int, f: int) returns (held: State)
    requires Initial(start) && u in start.pc && start.pc[u].Idle?
    ensures Leads(start, held) && Inv(held)
    ensures ClosesHolder(held, CloseFile(f)) && Next(held, CloseFile(f)).Some?
    ensures held.pc == start.pc && held.user == Some(u)
  {
    assert CleanRun(start, []) && Run(start, []) == start;
    held := Locks(start, start, u, f);
    var actions :| CleanRun(start, actions) && Run(start, actions) == held;
    RunKeepsInv(start, actions);
    forall t | t in held.pc ensures !Uses(held.pc[t], f) {
    }
  }
}
