/** How an ioctl is routed, and where big_gpib_mutex is given up on the way
    (gpib_os.c, iblib.c). */
module Ioctl {
  import opened Errno

  datatype Cmd =
    | CfcBoardType | IbOnl
    | CfcBase | CfcIrq | CfcDma | IbAutospoll | IbBoardInfo | IbMutex | IbPad | IbSad
    | IbSelectPci | IbSelectDevicePath
    | IbEvent | IbCloseDev | IbOpenDev | IbSpollBytes | IbWait | IbLines | IbLoc
    | IbT1Delay | IbCac | IbCmd | IbEos | IbGts | IbPpc | IbPp2Set | IbPp2Get | IbQueryBoardRsv
    | IbRd | IbRpp | IbRsc | IbRsp | IbRsv | IbRsv2 | IbSic | IbSre | IbTmo | IbWrt
    | Unknown

  // What a command needs before it is served.
  datatype Need = Nothing | Interface | Online | Permission

  function NeedOf(cmd: Cmd): Need {
    if cmd in {CfcBoardType, IbOnl} then Nothing
    else if cmd in {CfcBase, CfcIrq, CfcDma, IbAutospoll, IbBoardInfo, IbMutex, IbPad, IbSad,
                    IbSelectPci, IbSelectDevicePath} then Interface
    else if cmd in {IbEvent, IbCloseDev, IbOpenDev, IbSpollBytes, IbWait, IbLines, IbLoc} then Online
    else Permission
  }

  // The commands that can take long, or that wait for user_mutex.
  const RunsReleased: set<Cmd> := {IbMutex, IbCmd, IbRd, IbWrt}

  datatype Route =
    | Refused(error: int)
    | ServedHeld(cmd: Cmd)      // by a handler that runs holding big_gpib_mutex
    | ServedReleased(cmd: Cmd)  // by one that runs without it

  function RouteOf(cmd: Cmd, configured: bool, loaded: bool, online: bool, permitted: bool): Route {
    var need := NeedOf(cmd);
    if need != Nothing && !configured then Refused(-ENODEV)
    else if need != Nothing && !loaded then Refused(-EIO)
    else if need in {Online, Permission} && !online then Refused(-EINVAL)
    else if need == Permission && !permitted then Refused(-EPERM)
    else if cmd == Unknown then Refused(-ENOTTY)
    else if cmd in RunsReleased then ServedReleased(cmd)
    else ServedHeld(cmd)
  }

  /** The commands that may touch the bus are served exactly when the caller is the process that
      has locked the board, and the board has a driver, its module and is online; those that ask
      about an online board need all but the lock; those that configure it need a driver; and
      changing the driver or going on line needs nothing. Nothing else is served. */
  lemma ServedExactly(cmd: Cmd, configured: bool, loaded: bool, online: bool, permitted: bool)
    ensures var served := !RouteOf(cmd, configured, loaded, online, permitted).Refused?;
      && (cmd in {IbT1Delay, IbCac, IbCmd, IbEos, IbGts, IbPpc, IbPp2Set, IbPp2Get, IbQueryBoardRsv,
                  IbRd, IbRpp, IbRsc, IbRsp, IbRsv, IbRsv2, IbSic, IbSre, IbTmo, IbWrt} ==>
            (served <==> configured && loaded && online && permitted))
      && (cmd in {IbEvent, IbCloseDev, IbOpenDev, IbSpollBytes, IbWait, IbLines, IbLoc} ==>
            (served <==> configured && loaded && online))
      && (cmd in {CfcBase, CfcIrq, CfcDma, IbAutospoll, IbBoardInfo, IbMutex, IbPad, IbSad,
                  IbSelectPci, IbSelectDevicePath} ==>
            (served <==> configured && loaded))
      && (cmd in {CfcBoardType, IbOnl} ==> served)
      && (cmd == Unknown ==> !served)
    ensures var route := RouteOf(cmd, configured, loaded, online, permitted);
      route.ServedReleased? <==> !route.Refused? && cmd in {IbMutex, IbCmd, IbRd, IbWrt}
    ensures var route := RouteOf(cmd, configured, loaded, online, permitted);
      route.Refused? ==>
        route.error == if !configured then -ENODEV else if !loaded then -EIO
                       else if !online then -EINVAL else if !permitted then -EPERM else -ENOTTY
  {
  }

  /** One moment of a wait: whether a signal ends the attempt to lock the mutex, the status that is
      found with it, and whether a signal ends the sleep that follows. */
  datatype Moment = Moment(lockSignal: bool, status: Bits, sleepSignal: bool)

  // A status word or mask, as the set of its bits.
  type Bits = set<nat>

  predicate Holds(m: Moment, waitMask: Bits) { waitMask * m.status != {} }

  // The wait is over at this moment.
  predicate Ends(m: Moment, waitMask: Bits) { m.lockSignal || Holds(m, waitMask) || m.sleepSignal }

  /** The arguments of a wait, whether copying them in or out faults, whether the handle is good. */
  datatype WaitCall = WaitCall(mask: Bits, badArgument: bool, badHandle: bool, fault: bool)

  /** The calling thread, as far as it holds big_gpib_mutex, and what it reads of the board.
      Unlocking is only allowed to the holder, and locking to a thread that does not hold
      the mutex already. */
  class Caller {
    ghost var holdsBig: bool
    ghost var taken: nat
    ghost var released: nat
    ghost var served: seq<Route>
    var configured: bool
    var gotModule: bool
    var online: bool
    var lockingPid: int
    const pid: int
    const world: nat -> Moment  // at the k-th attempt to lock or to see a condition
    var tick: nat

    ghost predicate Valid() reads this {
      taken - released == if holdsBig then 1 else 0
    }

    constructor (pid: int, world: nat -> Moment)
      ensures Valid() && !holdsBig && this.pid == pid && this.world == world
    {
      this.pid, this.world, tick := pid, world, 0;
      holdsBig, taken, released, served := false, 0, 0, [];
      configured, gotModule, online, lockingPid := false, false, false, 0;
    }

    method LockInterruptible() returns (interrupted: bool)
      requires Valid() && !holdsBig
      modifies this`holdsBig, this`taken
      ensures Valid() && holdsBig == !interrupted && interrupted == world(tick).lockSignal
      ensures taken == old(taken) + if interrupted then 0 else 1
    {
      interrupted := world(tick).lockSignal;
      if !interrupted {
        holdsBig, taken := true, taken + 1;
      }
    }

    method Unlock()
      requires Valid() && holdsBig
      modifies this`holdsBig, this`released
      ensures Valid() && !holdsBig
    {
      holdsBig, released := false, released + 1;
    }

    // A handler: what it does is left open, where it runs is not, nor what comes of its result.
    method ServeHeld(cmd: Cmd, result: int) returns (ret: int)
      requires holdsBig && cmd !in RunsReleased
      modifies this`served
      ensures served == old(served) + [ServedHeld(cmd)] && ret == result
    {
      ret := result;
      served := served + [ServedHeld(cmd)];
    }

    method ServeReleased(cmd: Cmd, result: int) returns (ret: int)
      requires !holdsBig && cmd in RunsReleased
      modifies this`served
      ensures served == old(served) + [ServedReleased(cmd)] && ret == result
    {
      ret := result;
      served := served + [ServedReleased(cmd)];
    }

    // What the wait condition comes out as: 0 keeps waiting.
    method WaitSatisfied(waitMask: Bits) returns (ret: int)
      requires Valid() && !holdsBig
      modifies this`holdsBig, this`taken, this`released
      ensures Valid() && !holdsBig && taken >= old(taken)
      ensures var m := world(tick);
        ret == if m.lockSignal then -ERESTARTSYS else if Holds(m, waitMask) then 1 else 0
    {
      var interrupted := LockInterruptible();
      if interrupted {
        return -ERESTARTSYS;
      }
      var status := world(tick).status;
      Unlock();
      ret := if waitMask * status != {} then 1 else 0;
    }

    // `last` is the first moment from `from` on at which a wait for the mask is over.
    ghost predicate FirstEnd(from: nat, last: nat, waitMask: Bits) {
      from <= last && Ends(world(last), waitMask) && forall k :: from <= k < last ==> !Ends(world(k), waitMask)
    }

    // A wait that is over at `last` comes back without the mutex: a signal ended it or the relock.
    predicate Restarts(last: nat, waitMask: Bits) {
      (!world(last).lockSignal && !Holds(world(last), waitMask)) || world(last + 1).lockSignal
    }

    /** Waits until the first moment at which the condition holds or a signal comes, not shorter
        and not longer. Returns -ERESTARTSYS exactly when it no longer holds the mutex: if a
        signal ended the sleep, or kept it from taking the mutex back. */
    method Ibwait(waitMask: Bits, ghost last: nat) returns (ret: int)
      requires Valid() && holdsBig
      requires waitMask != {} ==> FirstEnd(tick, last, waitMask)
      modifies this`holdsBig, this`taken, this`released, this`tick
      ensures Valid() && taken >= old(taken)
      ensures ret == (if waitMask != {} && Restarts(last, waitMask) then -ERESTARTSYS else 0)
      ensures ret == -ERESTARTSYS <==> !holdsBig
      ensures if waitMask == {} then released == old(released) && tick == old(tick)
              else released > old(released) && tick in {last + 1, last + 2}
    {
      hide Holds;
      if waitMask == {} {
        return 0;
      }
      Unlock();
      ret := 0;
      while true
        invariant Valid() && !holdsBig && ret == 0 && taken >= old(taken) && released > old(released)
        invariant old(tick) <= tick <= last
        decreases last - tick
      {
        var satisfied := WaitSatisfied(waitMask);
        var signal := world(tick).sleepSignal;
        if satisfied != 0 {
          assert Ends(world(tick), waitMask);
          tick := tick + 1;
          break;
        }
        if signal {
          assert Ends(world(tick), waitMask);
          tick := tick + 1;
          return -ERESTARTSYS;
        }
        assert !Ends(world(tick), waitMask);
        tick := tick + 1;
      }
      var interrupted := LockInterruptible();
      tick := tick + 1;
      ret := if interrupted then -ERESTARTSYS else 0;
    }

    method WaitIoctl(call: WaitCall, ghost last: nat) returns (ret: int)
      requires Valid() && holdsBig
      requires call.mask != {} ==> FirstEnd(tick, last, call.mask)
      modifies this`holdsBig, this`taken, this`released, this`served, this`tick
      ensures Valid() && served == old(served) + [ServedHeld(IbWait)] && taken >= old(taken)
      ensures ret == -ERESTARTSYS <==> !holdsBig
      ensures ret == if call.badArgument then -EFAULT else if call.badHandle then -EINVAL
                     else if call.mask != {} && Restarts(last, call.mask) then -ERESTARTSYS
                     else if call.fault then -EFAULT else 0
      ensures call.badArgument || call.badHandle || call.mask == {} ==> released == old(released)
    {
      served := served + [ServedHeld(IbWait)];
      if call.badArgument {
        return -EFAULT;
      }
      if call.badHandle {
        return -EINVAL;
      }
      ret := Ibwait(call.mask, last);
      if ret < 0 {
        return;
      }
      if call.fault {
        ret := -EFAULT;
      }
    }

    method Refuse(error: int) returns (ret: int)
      modifies this`served
      ensures ret == error && served == old(served) + [Refused(error)]
    {
      ret := error;
      served := served + [Refused(error)];
    }

    // The commands that need the board to be online.
    method DispatchOnline(cmd: Cmd, wait: WaitCall, result: int, ghost last: nat) returns (ret: int, left: bool)
      requires Valid() && holdsBig && NeedOf(cmd) in {Online, Permission}
      requires cmd == IbWait && wait.mask != {} ==> FirstEnd(tick, last, wait.mask)
      modifies this`holdsBig, this`taken, this`released, this`served, this`tick
      ensures Valid() && left == !holdsBig
      ensures taken >= old(taken)
      ensures var route := RouteOf(cmd, true, true, online, lockingPid == pid);
        served == old(served) + [route]
        && (route.Refused? ==> ret == route.error) && (!route.Refused? && cmd != IbWait ==> ret == result)
    {
      left := false;
      if !online {
        ret := Refuse(-EINVAL);
        return;
      }
      if cmd in {IbEvent, IbCloseDev, IbOpenDev, IbSpollBytes, IbLines, IbLoc} {
        ret := ServeHeld(cmd, result);
        return;
      }
      if cmd == IbWait {
        ret := WaitIoctl(wait, last);
        left := ret == -ERESTARTSYS;
        return;
      }
      if lockingPid != pid {
        ret := Refuse(-EPERM);
        return;
      }
      if cmd in {IbCmd, IbRd, IbWrt} {
        Unlock();
        left := true;
        ret := ServeReleased(cmd, result);
        return;
      }
      if cmd == Unknown {
        ret := Refuse(-ENOTTY);
        return;
      }
      ret := ServeHeld(cmd, result);
    }

    // The cases that end at the label done, and IBWAIT; `left` says that it returned already.
    method Dispatch(cmd: Cmd, wait: WaitCall, granted: bool, result: int, ghost last: nat)
      returns (ret: int, left: bool)
      requires Valid() && holdsBig
      requires cmd == IbWait && wait.mask != {} ==> FirstEnd(tick, last, wait.mask)
      modifies this`holdsBig, this`taken, this`released, this`served, this`gotModule, this`tick
      ensures Valid() && left == !holdsBig
      ensures taken >= old(taken)
      ensures gotModule == (old(gotModule) || (NeedOf(cmd) != Nothing && configured && granted))
      ensures var route := RouteOf(cmd, configured, gotModule, online, lockingPid == pid);
        served == old(served) + [route]
        && (route.Refused? ==> ret == route.error) && (!route.Refused? && cmd != IbWait ==> ret == result)
    {
      left := false;
      if cmd == CfcBoardType || cmd == IbOnl {
        ret := ServeHeld(cmd, result);
        return;
      }
      if !configured {
        ret := Refuse(-ENODEV);
        return;
      }
      if !gotModule {
        if !granted {
          ret := Refuse(-EIO);
          return;
        }
        gotModule := true;
      }
      if cmd in {CfcBase, CfcIrq, CfcDma, IbAutospoll, IbBoardInfo, IbPad, IbSad,
                 IbSelectPci, IbSelectDevicePath} {
        ret := ServeHeld(cmd, result);
        return;
      }
      if cmd == IbMutex {
        Unlock();
        left := true;
        ret := ServeReleased(cmd, result);
        return;
      }
      ret, left := DispatchOnline(cmd, wait, result, last);
    }

    /** On every path the mutex is given back as often as it was taken, and never by a thread
        that does not hold it. Unless a signal comes while it waits for the mutex, the command is
        refused or served as its needs say, with the result of the handler. */
    method Ibioctl(cmd: Cmd, wait: WaitCall, granted: bool, result: int, ghost last: nat) returns (ret: int)
      requires Valid() && !holdsBig
      requires cmd == IbWait && wait.mask != {} ==> FirstEnd(tick + 1, last, wait.mask)
      modifies this`holdsBig, this`taken, this`released, this`served, this`gotModule, this`tick
      ensures Valid() && !holdsBig
      ensures taken - old(taken) == released - old(released)
      ensures if world(old(tick)).lockSignal
              then ret == -ERESTARTSYS && served == old(served) && taken == old(taken)
                   && gotModule == old(gotModule)
              else
                var route := RouteOf(cmd, configured, gotModule, online, lockingPid == pid);
                && served == old(served) + [route]
                && gotModule == (old(gotModule) || (NeedOf(cmd) != Nothing && configured && granted))
                && (route.Refused? ==> ret == route.error)
                && (!route.Refused? && cmd != IbWait ==> ret == result)
    {
      var interrupted := LockInterruptible();
      tick := tick + 1;
      if interrupted {
        return -ERESTARTSYS;
      }
      var left;
      ret, left := Dispatch(cmd, wait, granted, result, last);
      if !left {
        Unlock();
      }
    }
  }
}
