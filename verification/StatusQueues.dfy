/** Kernel error numbers, returned negated. */
module Errno {
  const EPERM := 1
  const EINTR := 4
  const EIO := 5
  const ENXIO := 6
  const ENOMEM := 12
  const EFAULT := 14
  const EBUSY := 16
  const ENODEV := 19
  const EINVAL := 22
  const ENOTTY := 25
  const EPIPE := 32
  const ERANGE := 34
  const ETIMEDOUT := 110
  const ERESTARTSYS := 512
}

/** The bounded FIFOs of gpib_os.c: serial poll bytes per device and bus events per board. */
module StatusQueues {
  import opened PlainBus
  import opened GpibUser
  import opened Errno

  const MAX_QUEUED := 1024

  /** A kernel list, its element counter, and the flag that records a lost element. */
  datatype Fifo<T> = Fifo(items: seq<T>, count: nat, dropped: bool)

  datatype Popped<T> = Popped(queue: Fifo<T>, retval: int, element: seq<T>)

  datatype Pushed<T> = Pushed(queue: Fifo<T>, retval: int)

  function Remove<T>(q: Fifo<T>): Fifo<T>
    requires q.items != [] && q.count > 0
  {
    Fifo(q.items[1..], q.count - 1, q.dropped)
  }

  function Append<T>(q: Fifo<T>, x: T): Fifo<T> {
    Fifo(q.items + [x], q.count + 1, q.dropped)
  }

  // ---- serial poll status bytes ----

  function PopStatus<T>(q: Fifo<T>): Popped<T> {
    if q.count == 0 || q.items == [] then Popped(q, -EIO, [])
    else if q.dropped then Popped(q.(dropped := false), -EPIPE, [])
    else Popped(Remove(q), 0, [q.items[0]])
  }

  function PushStatus<T>(q: Fifo<T>, x: T, gotMemory: bool): Pushed<T> {
    var room := if q.count >= MAX_QUEUED then PopStatus(q.(dropped := true)) else Popped(q, 0, []);
    if room.retval < 0 then Pushed(room.queue, room.retval)
    else if !gotMemory then Pushed(room.queue, -ENOMEM)
    else Pushed(Append(room.queue, x), 0)
  }

  // ---- bus events ----

  function PopEvent<T>(q: Fifo<T>): Popped<T> {
    if q.count == 0 then Popped(q, 0, [])
    else if q.items == [] then Popped(q, -EIO, [])
    else if q.dropped then Popped(q.(dropped := false), -EPIPE, [])
    else Popped(Remove(q), 0, [q.items[0]])
  }

  function PushEvent<T>(q: Fifo<T>, x: T, gotMemory: bool): Pushed<T> {
    var room := if q.count >= MAX_QUEUED then PopEvent(q.(dropped := true)) else Popped(q, 0, []);
    if room.retval < 0 then Pushed(room.queue, room.retval)
    else if !gotMemory then Pushed(room.queue.(dropped := true), -ENOMEM)
    else Pushed(Append(room.queue, x), 0)
  }

  // ---- whole runs ----

  datatype Op<T> = Push(x: T, gotMemory: bool) | Pop

  /** A queue with the history of what was accepted into it and handed out of it, how many
      pops reported a loss, and how many pushes found no memory. */
  datatype History<T> = History(queue: Fifo<T>, accepted: seq<T>, delivered: seq<T>,
                                losses: nat, failures: nat)

  ghost const NewStatusHistory: History<Byte> := History(Fifo([], 0, false), [], [], 0, 0)

  function Record<T>(h: History<T>, op: Op<T>, pushed: Pushed<T>, popped: Popped<T>): History<T> {
    match op
    case Push(x, gotMemory) =>
      h.(queue := pushed.queue,
         accepted := if pushed.retval == 0 then h.accepted + [x] else h.accepted,
         failures := if pushed.retval == -ENOMEM then h.failures + 1 else h.failures)
    case Pop =>
      h.(queue := popped.queue, delivered := h.delivered + popped.element,
         losses := if popped.retval == -EPIPE then h.losses + 1 else h.losses)
  }

  function StatusStep<T>(h: History<T>, op: Op<T>): History<T> {
    Record(h, op, if op.Push? then PushStatus(h.queue, op.x, op.gotMemory) else Pushed(h.queue, 0),
           PopStatus(h.queue))
  }

  function EventStep<T>(h: History<T>, op: Op<T>): History<T> {
    Record(h, op, if op.Push? then PushEvent(h.queue, op.x, op.gotMemory) else Pushed(h.queue, 0),
           PopEvent(h.queue))
  }

  function StatusRun<T>(h: History<T>, ops: seq<Op<T>>): History<T>
    decreases |ops|
  {
    if ops == [] then h else StatusRun(StatusStep(h, ops[0]), ops[1..])
  }

  function EventRun<T>(h: History<T>, ops: seq<Op<T>>): History<T>
    decreases |ops|
  {
    if ops == [] then h else EventRun(EventStep(h, ops[0]), ops[1..])
  }

  // A run is its steps one after the other.
  lemma {:induction false} StatusRunMore<T>(h: History<T>, ops: seq<Op<T>>, op: Op<T>)
    ensures StatusRun(h, ops + [op]) == StatusStep(StatusRun(h, ops), op)
    decreases |ops|
  {
    if ops == [] {
      assert StatusRun(StatusStep(h, op), []) == StatusStep(h, op);
      assert (ops + [op])[1..] == [];
    } else {
      assert (ops + [op])[1..] == ops[1..] + [op];
      StatusRunMore(StatusStep(h, ops[0]), ops[1..], op);
    }
  }

  lemma {:induction false} EventRunMore<T>(h: History<T>, ops: seq<Op<T>>, op: Op<T>)
    ensures EventRun(h, ops + [op]) == EventStep(EventRun(h, ops), op)
    decreases |ops|
  {
    if ops == [] {
      assert EventRun(EventStep(h, op), []) == EventStep(h, op);
      assert (ops + [op])[1..] == [];
    } else {
      assert (ops + [op])[1..] == ops[1..] + [op];
      EventRunMore(EventStep(h, ops[0]), ops[1..], op);
    }
  }

  // First in, first out, nothing lost once accepted, counter true to the list, bounded.
  ghost predicate InOrder<T>(h: History<T>) {
    && h.accepted == h.delivered + h.queue.items
    && h.queue.count == |h.queue.items| <= MAX_QUEUED
  }

  /** Over any run of polls and reads the status queue is in order and its loss flag is down
      between calls; so no reader is ever told that a byte was refused. */
  lemma {:induction false} StatusRunInOrder<T>(h: History<T>, ops: seq<Op<T>>)
    requires InOrder(h) && !h.queue.dropped
    ensures var r := StatusRun(h, ops);
      InOrder(r) && !r.queue.dropped && r.losses == h.losses
    decreases |ops|
  {
    if ops != [] {
      var s := StatusStep(h, ops[0]);
      assert h.queue.items != [] ==> h.queue.items == [h.queue.items[0]] + h.queue.items[1..];
      StatusRunInOrder(s, ops[1..]);
    }
  }

  /** From any point of such a run: a byte is accepted if and only if the queue has room and
      memory was to be had, and reading hands out the next accepted byte that was not handed out
      yet, and fails exactly when there is none. */
  lemma StatusStepEffect<T>(h: History<T>, x: T, gotMemory: bool)
    requires InOrder(h) && !h.queue.dropped
    ensures var r := StatusStep(h, Push(x, gotMemory));
      && r.accepted == (if h.queue.count < MAX_QUEUED && gotMemory then h.accepted + [x] else h.accepted)
      && r.delivered == h.delivered
    ensures PushStatus(h.queue, x, gotMemory).retval
            == if h.queue.count == MAX_QUEUED then -EPIPE else if gotMemory then 0 else -ENOMEM
    ensures var r, waiting := StatusStep(h, Pop), |h.delivered| < |h.accepted|;
      && r.accepted == h.accepted
      && r.delivered == (if waiting then h.delivered + [h.accepted[|h.delivered|]] else h.delivered)
      && PopStatus(h.queue).retval == (if waiting then 0 else -EIO)
  {
  }

  /** A byte pushed onto a full queue is refused with -EPIPE and leaves the queue exactly as
      it was: it is the newest byte that is lost, not the oldest. */
  lemma FullPushIsRefused<T>(h: History<T>, x: T, gotMemory: bool)
    requires InOrder(h) && !h.queue.dropped
    ensures PushStatus(h.queue, x, gotMemory).retval == -EPIPE <==> h.queue.count == MAX_QUEUED
    ensures PushStatus(h.queue, x, gotMemory).retval < 0 ==>
              PushStatus(h.queue, x, gotMemory).queue == h.queue
  {
  }

  /** The event queue is in order over any run, failed allocations included, and reports at
      most one loss for each of those. */
  lemma {:induction false} EventRunInOrder<T>(h: History<T>, ops: seq<Op<T>>)
    requires InOrder(h)
    requires h.losses + (if h.queue.dropped then 1 else 0) <= h.failures
    ensures var r := EventRun(h, ops);
      InOrder(r) && r.losses + (if r.queue.dropped then 1 else 0) <= r.failures
    decreases |ops|
  {
    if ops != [] {
      var s := EventStep(h, ops[0]);
      assert h.queue.items != [] ==> h.queue.items == [h.queue.items[0]] + h.queue.items[1..];
      EventRunInOrder(s, ops[1..]);
    }
  }

  /** The same for events: one is accepted if and only if there is room and memory; reading
      hands out the next one, unless a loss is still to be reported, which it then reports
      once; without memory such a report becomes due, and a push onto a full queue reports
      one itself. */
  lemma EventStepEffect<T>(h: History<T>, x: T, gotMemory: bool)
    requires InOrder(h)
    ensures var r := EventStep(h, Push(x, gotMemory));
      && r.accepted == (if h.queue.count < MAX_QUEUED && gotMemory then h.accepted + [x] else h.accepted)
      && r.delivered == h.delivered
      && r.queue.dropped == (if h.queue.count == MAX_QUEUED then false else h.queue.dropped || !gotMemory)
      && r.failures == h.failures + (if h.queue.count < MAX_QUEUED && !gotMemory then 1 else 0)
    ensures PushEvent(h.queue, x, gotMemory).retval
            == if h.queue.count == MAX_QUEUED then -EPIPE else if gotMemory then 0 else -ENOMEM
    ensures var r, waiting := EventStep(h, Pop), |h.delivered| < |h.accepted|;
      && r.accepted == h.accepted
      && r.delivered == (if waiting && !h.queue.dropped then h.delivered + [h.accepted[|h.delivered|]]
                         else h.delivered)
      && r.queue.dropped == (h.queue.dropped && !waiting)
      && r.losses == h.losses + (if h.queue.dropped && waiting then 1 else 0)
      && PopEvent(h.queue).retval == (if waiting && h.queue.dropped then -EPIPE else 0)
  {
  }

  // ---- the kernel's objects ----

  /** A device entry of the board: its address, its queued status bytes, and how many
      descriptors have it open. */
  class StatusQueue {
    var pad: nat
    var sad: int
    var statusBytes: seq<Byte>
    var numStatusBytes: nat
    var referenceCount: nat
    var droppedByte: bool

    constructor (pad: nat, sad: int)
      ensures this.pad == pad && this.sad == sad && referenceCount == 1
      ensures Queue() == Fifo([], 0, false)
    {
      this.pad, this.sad := pad, sad;
      statusBytes, numStatusBytes, droppedByte := [], 0, false;
      referenceCount := 1;
    }

    ghost function Queue(): Fifo<Byte> reads this {
      Fifo(statusBytes, numStatusBytes, droppedByte)
    }

    method PopStatusByte() returns (retval: int, pollByte: Byte)
      modifies this`statusBytes, this`numStatusBytes, this`droppedByte
      ensures Queue() == PopStatus(old(Queue())).queue
      ensures retval == PopStatus(old(Queue())).retval
      ensures retval == 0 ==> PopStatus(old(Queue())).element == [pollByte]
    {
      pollByte := 0;
      if numStatusBytes == 0 {
        return -EIO, pollByte;
      }
      if statusBytes == [] {
        return -EIO, pollByte;
      }
      if droppedByte {
        droppedByte := false;
        return -EPIPE, pollByte;
      }
      pollByte := statusBytes[0];
      statusBytes := statusBytes[1..];
      numStatusBytes := numStatusBytes - 1;
      retval := 0;
    }

    method PushStatusByte(pollByte: Byte, gotMemory: bool) returns (retval: int)
      modifies this`statusBytes, this`numStatusBytes, this`droppedByte
      ensures Queue() == PushStatus(old(Queue()), pollByte, gotMemory).queue
      ensures retval == PushStatus(old(Queue()), pollByte, gotMemory).retval
    {
      if numStatusBytes >= MAX_QUEUED {
        droppedByte := true;
        var lostByte;
        retval, lostByte := PopStatusByte();
        if retval < 0 {
          return;
        }
      }
      if !gotMemory {
        return -ENOMEM;
      }
      statusBytes := statusBytes + [pollByte];
      numStatusBytes := numStatusBytes + 1;
      retval := 0;
    }
  }

  // get_gpib_status_queue: the first entry for an address, if any
  method FindStatusQueue(devices: seq<StatusQueue>, pad: nat, sad: int) returns (i: nat)
    ensures i <= |devices|
    ensures i < |devices| ==> AddressEqual(devices[i].pad, devices[i].sad, pad, sad)
    ensures forall k :: 0 <= k < i ==> !AddressEqual(devices[k].pad, devices[k].sad, pad, sad)
  {
    i := 0;
    while i < |devices|
      invariant i <= |devices|
      invariant forall k :: 0 <= k < i ==> !AddressEqual(devices[k].pad, devices[k].sad, pad, sad)
    {
      if AddressEqual(devices[i].pad, devices[i].sad, pad, sad) {
        return;
      }
      i := i + 1;
    }
  }

  class EventQueue {
    var events: seq<int>
    var numEvents: nat
    var droppedEvent: bool

    constructor ()
      ensures Queue() == Fifo([], 0, false)
    {
      events, numEvents, droppedEvent := [], 0, false;
    }

    ghost function Queue(): Fifo<int> reads this {
      Fifo(events, numEvents, droppedEvent)
    }

    method PopEventNoLock() returns (retval: int, event: int)
      modifies this
      ensures Queue() == PopEvent(old(Queue())).queue
      ensures retval == PopEvent(old(Queue())).retval
      ensures PopEvent(old(Queue())).element == if retval == 0 && old(numEvents) > 0 then [event] else []
    {
      event := 0;  // EVENT_NONE
      if numEvents == 0 {
        return 0, event;
      }
      if events == [] {
        return -EIO, event;
      }
      if droppedEvent {
        droppedEvent := false;
        return -EPIPE, event;
      }
      event := events[0];
      events := events[1..];
      numEvents := numEvents - 1;
      retval := 0;
    }

    method PushEventNoLock(event: int, gotMemory: bool) returns (retval: int)
      modifies this
      ensures Queue() == PushEvent(old(Queue()), event, gotMemory).queue
      ensures retval == PushEvent(old(Queue()), event, gotMemory).retval
    {
      if numEvents >= MAX_QUEUED {
        droppedEvent := true;
        var lostEvent;
        retval, lostEvent := PopEventNoLock();
        if retval < 0 {
          return;
        }
      }
      if !gotMemory {
        droppedEvent := true;
        return -ENOMEM;
      }
      events := events + [event];
      numEvents := numEvents + 1;
      retval := 0;
    }

    // A pop that is due to report a loss removes nothing; any other takes the first event.
    lemma DueOrFirst(q: Fifo<int>)
      requires q.count == |q.items| > 0
      ensures q.dropped ==> PopEvent(q) == Popped(q.(dropped := false), -EPIPE, [])
      ensures !q.dropped ==> PopEvent(q) == Popped(Fifo(q.items[1..], q.count - 1, false), 0, [q.items[0]])
    {
    }

    /** The loop that empties the queue when the board is deallocated: it ends although one
        of its pops may remove nothing, having taken every event out in order. */
    method Drain() returns (taken: seq<int>)
      requires numEvents == |events|
      modifies this
      ensures taken == old(events) && events == [] && numEvents == 0
      ensures droppedEvent <==> old(droppedEvent) && old(numEvents) == 0
    {
      hide PopEvent;
      taken := [];
      while numEvents > 0
        invariant numEvents == |events| && taken + events == old(events)
        invariant numEvents == 0 && old(numEvents) > 0 ==> !droppedEvent
        invariant droppedEvent ==> old(droppedEvent)
        invariant old(numEvents) == 0 ==> droppedEvent == old(droppedEvent)
        decreases 2 * numEvents + if droppedEvent then 1 else 0
      {
        ghost var before := events;
        assert before == [before[0]] + before[1..];
        var wasDropped := droppedEvent;
        DueOrFirst(Queue());
        var retval, event := PopEventNoLock();
        if !wasDropped {
          taken := taken + [event];
        }
      }
    }
  }
}
