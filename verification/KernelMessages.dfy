/** Message passing is exactly-once and first-in first-out, whichever path a message takes. */
module KernelMessages {
  import opened Kernel
  import opened KernelInterrupts
  import opened KernelInvariant
  import opened KernelResources
  import opened KernelSchedule
  import opened KernelRuns
  import opened KernelProgress

  // ---------------------------------------------------------------- what an observer records

  datatype Message = Message(from: nat, body: Envelope)

  /** For every descriptor, what has been sent to its present task and what that task's
      own memory has received. */
  datatype History = History(sent: seq<seq<Message>>, got: seq<seq<Message>>)

  ghost predicate Sized(h: History) {
    |h.sent| == |h.got| == TASK_COUNT
  }

  /** What task r finds in its message and sender locations. */
  function Arrived(k: State, r: nat): Message
    requires r < TASK_COUNT
  {
    Message(k.tasks[r].sender, k.tasks[r].inbox)
  }

  /** Watch one handler run from k to k1: a send call is noted with its own arguments, a
      delivery with what the receiver then finds in its memory. */
  ghost function Watch(k: State, input: Input, k1: State, h: History): (w: History)
    requires Sized(h)
    ensures Sized(w)
  {
    match input
    case Syscall(Send(to, m)) =>
      var r := Id(to);
      if r >= TASK_COUNT then h
      else
        var sent := h.sent[r := h.sent[r] + [Message(k.tasks[k.active].tid, m)]];
        if k.tasks[r].state == SendBlocked
        then History(sent, h.got[r := h.got[r] + [Arrived(k1, r)]])
        else History(sent, h.got)
    case Syscall(Receive) =>
      if k1.tasks[k.active].state == Ready
      then History(h.sent, h.got[k.active := h.got[k.active] + [Arrived(k1, k.active)]])
      else h
    case Syscall(Create(_, _)) =>
      if k.pool == [] || k.pool[0] >= TASK_COUNT then h
      else History(h.sent[k.pool[0] := []], h.got[k.pool[0] := []])
    case _ => h
  }

  /** The messages waiting in a send queue, oldest first. */
  ghost function Waiting(ts: Tasks, queue: seq<nat>): seq<Message> {
    seq(|queue|, j requires 0 <= j < |queue| => Message(queue[j], ts[Id(queue[j]) % TASK_COUNT].message))
  }

  /** Sent is received plus waiting, in order, for every live task. */
  ghost predicate Delivered(ts: Tasks, h: History) {
    && Sized(h)
    && forall r: nat {:trigger ts[r]} :: Live(ts, r) ==> h.sent[r] == h.got[r] + Waiting(ts, ts[r].sendQueue)
  }

  // ---------------------------------------------------------------- steps that carry no message

  ghost predicate MailSame(ts: Tasks, us: Tasks) {
    forall i {:trigger ts[i]} {:trigger us[i]} :: 0 <= i < TASK_COUNT ==>
      us[i].message == ts[i].message
      && (us[i].state != Zombie ==> ts[i].state != Zombie && us[i].sendQueue == ts[i].sendQueue)
  }

  lemma MailFrame(ts: Tasks, us: Tasks, h: History)
    requires MailSame(ts, us) && Delivered(ts, h)
    ensures Delivered(us, h)
  {
    forall r: nat | Live(us, r) ensures h.sent[r] == h.got[r] + Waiting(us, us[r].sendQueue) {
      assert us[r].sendQueue == ts[r].sendQueue;
      WaitingSame(ts, us, ts[r].sendQueue);
    }
  }

  lemma WaitingSame(ts: Tasks, us: Tasks, queue: seq<nat>)
    requires forall v {:trigger v in queue} :: v in queue ==> ts[Id(v) % TASK_COUNT].message == us[Id(v) % TASK_COUNT].message
    ensures Waiting(ts, queue) == Waiting(us, queue)
  {
    forall j | 0 <= j < |queue| ensures Waiting(ts, queue)[j] == Waiting(us, queue)[j] {
      assert queue[j] in queue;
    }
  }

  /** Saving the caller's argument touches no waiting message: the caller waits nowhere. */
  lemma TrapMail(k: State, call: Call, h: History)
    requires Running(k) && Delivered(k.tasks, h)
    ensures Delivered(Trap(k, call).tasks, h)
  {
    var us := Trap(k, call).tasks;
    ActiveIsUnnamed(k);
    forall r: nat | Live(us, r) ensures h.sent[r] == h.got[r] + Waiting(us, us[r].sendQueue) {
      assert Live(k.tasks, r) && us[r].sendQueue == k.tasks[r].sendQueue;
      forall v | v in us[r].sendQueue
        ensures k.tasks[Id(v) % TASK_COUNT].message == us[Id(v) % TASK_COUNT].message
      {
        assert Names(k.tasks, v, ReceiveBlocked);
      }
      WaitingSame(k.tasks, us, us[r].sendQueue);
    }
  }

  lemma MailReflexive(ts: Tasks)
    ensures MailSame(ts, ts)
  {
  }

  lemma UpdateMail(ts: Tasks, i: nat, t: Task)
    requires i < TASK_COUNT && t.message == ts[i].message && t.sendQueue == ts[i].sendQueue && Live(ts, i)
    ensures MailSame(ts, ts[i := t])
  {
  }

  lemma WakeMail(k: State, event: nat)
    requires Running(k) && event < EVENT_TABLE_SIZE && Wake(k, event).Done?
    ensures MailSame(k.tasks, Wake(k, event).kernel.tasks)
  {
    MailReflexive(k.tasks);
    if k.events[event] != 0 {
      SlotNamesSleeper(k, event);
      var i := Id(k.events[event]);
      UpdateMail(k.tasks, i, Wake(k, event).kernel.tasks[i]);
    }
    hide Inv, MailSame;
  }

  lemma WakeReaderMail(k: State, event: nat, byte: nat)
    requires Running(k) && event < EVENT_TABLE_SIZE && WakeReader(k, event, byte).Done?
    ensures MailSame(k.tasks, WakeReader(k, event, byte).kernel.tasks)
  {
    MailReflexive(k.tasks);
    if k.events[event] != 0 {
      SlotNamesSleeper(k, event);
      var i := Id(k.events[event]);
      var us := WakeReader(k, event, byte).kernel.tasks;
      assert us == k.tasks[i := us[i]];
      UpdateMail(k.tasks, i, us[i]);
    }
    hide Inv, MailSame;
  }

  /** Interrupts move no message. */
  lemma InterruptMail(k: State, irq: Irq, h: History)
    requires Running(k) && Interrupt(k, irq).Done? && Delivered(k.tasks, h)
    ensures Delivered(Interrupt(k, irq).kernel.tasks, h)
  {
    hide Running, Wake, WakeReader, Interrupt, Delivered, MailSame;
    var p := (k1: State) => Delivered(k1.tasks, h);
    forall k1: State, e: nat | e < EVENT_TABLE_SIZE && Running(k1) && p(k1) && Wake(k1, e).Done?
      ensures p(Wake(k1, e).kernel)
    {
      WakeMail(k1, e);
      MailFrame(k1.tasks, Wake(k1, e).kernel.tasks, h);
    }
    forall k1: State, e: nat, b: nat | e < EVENT_TABLE_SIZE && Running(k1) && p(k1) && WakeReader(k1, e, b).Done?
      ensures p(WakeReader(k1, e, b).kernel)
    {
      WakeReaderMail(k1, e, b);
      MailFrame(k1.tasks, WakeReader(k1, e, b).kernel.tasks, h);
    }
    RunningSteps(k, irq, p);
  }

  // ---------------------------------------------------------------- steps that carry one

  lemma WaitingFrame(ts: Tasks, us: Tasks, queue: seq<nat>)
    requires SameMessages(ts, us)
    ensures Waiting(ts, queue) == Waiting(us, queue)
  {
    WaitingSame(ts, us, queue);
  }

  lemma WaitingPush(ts: Tasks, queue: seq<nat>, v: nat)
    requires Id(v) < TASK_COUNT
    ensures Waiting(ts, queue + [v]) == Waiting(ts, queue) + [Message(v, ts[Id(v)].message)]
  {
  }

  lemma WaitingPop(ts: Tasks, queue: seq<nat>)
    requires queue != [] && Id(queue[0]) < TASK_COUNT
    ensures Waiting(ts, queue) == [Message(queue[0], ts[Id(queue[0])].message)] + Waiting(ts, queue[1..])
  {
  }

  /** What a send does to queues and memory. */
  lemma SendShape(k: State, to: nat)
    requires Running(k) && DoSend(k, to).Done?
    ensures var r, ts, us, me := Id(to), k.tasks, DoSend(k, to).kernel.tasks, k.active;
      && r < TASK_COUNT && Id(ts[me].tid) == me && SameMessages(ts, us)
      && (forall q: nat {:trigger us[q]} :: q < TASK_COUNT ==>
            us[q].sendQueue == (if q == r && ts[r].state != SendBlocked then ts[r].sendQueue + [ts[me].tid] else ts[q].sendQueue)
            && (Live(us, q) ==> Live(ts, q)))
      && (ts[r].state == SendBlocked ==>
            ts[r].sendQueue == [] && us[r].sender == ts[me].tid && us[r].inbox == ts[me].message)
  {
    ActiveId(k);
    assert k.tasks[Id(to)].state == SendBlocked ==> Live(k.tasks, Id(to)) && QueueGood(k.tasks, k.tasks[Id(to)]);
    assert k.tasks[k.active].state == Ready;
    hide Inv, QueueGood;
    var r, ts, us, me := Id(to), k.tasks, DoSend(k, to).kernel.tasks, k.active;
    forall q: nat | q < TASK_COUNT
      ensures us[q].sendQueue == (if q == r && ts[r].state != SendBlocked then ts[r].sendQueue + [ts[me].tid] else ts[q].sendQueue)
      ensures Live(us, q) ==> Live(ts, q)
    {
      assert q != r && q != me ==> us[q] == ts[q];
    }
  }

  lemma WaitingNone(ts: Tasks)
    ensures Waiting(ts, []) == []
  {
  }

  /** At the receiver, what was sent grows by this message on either path. */
  lemma SendMailAt(k: State, to: nat, m: Envelope, h: History)
    requires Running(k) && DoSend(k, to).Done? && k.tasks[k.active].message == m && Delivered(k.tasks, h)
    requires Id(to) < TASK_COUNT && Live(k.tasks, Id(to))
    ensures var k1 := DoSend(k, to).kernel; var w := Watch(k, Syscall(Send(to, m)), k1, h);
      w.sent[Id(to)] == w.got[Id(to)] + Waiting(k1.tasks, k1.tasks[Id(to)].sendQueue)
  {
    hide DoSend, Running, Waiting, SameMessages;
    SendShape(k, to);
    var r, ts, us, v := Id(to), k.tasks, DoSend(k, to).kernel.tasks, k.tasks[k.active].tid;
    WaitingFrame(ts, us, us[r].sendQueue);
    WaitingPush(ts, ts[r].sendQueue, v);
    WaitingNone(ts);
  }

  /** A send, direct or queued, keeps the account of every live task. */
  lemma SendMail(k: State, to: nat, m: Envelope, h: History)
    requires Running(k) && DoSend(k, to).Done? && k.tasks[k.active].message == m && Delivered(k.tasks, h)
    ensures Delivered(DoSend(k, to).kernel.tasks, Watch(k, Syscall(Send(to, m)), DoSend(k, to).kernel, h))
  {
    hide DoSend, Running, Waiting, SameMessages;
    SendShape(k, to);
    var r, k1 := Id(to), DoSend(k, to).kernel;
    var w, ts, us := Watch(k, Syscall(Send(to, m)), k1, h), k.tasks, k1.tasks;
    if Live(ts, r) {
      SendMailAt(k, to, m, h);
    }
    forall q: nat | Live(us, q) ensures w.sent[q] == w.got[q] + Waiting(us, us[q].sendQueue) {
      assert Live(ts, q);
      WaitingFrame(ts, us, us[q].sendQueue);
    }
  }

  lemma ActiveId(k: State)
    requires Running(k)
    ensures Id(k.tasks[k.active].tid) == k.active
  {
  }

  ghost predicate SameMessages(ts: Tasks, us: Tasks) {
    forall i {:trigger ts[i]} {:trigger us[i]} :: 0 <= i < TASK_COUNT ==> us[i].message == ts[i].message
  }

  /** What a receive does to queues and memory. */
  lemma ReceiveShape(k: State)
    requires Running(k)
    ensures DoReceive(k).Done? && Live(k.tasks, k.active)
    ensures var ts, us, me := k.tasks, DoReceive(k).kernel.tasks, k.active;
      && SameMessages(ts, us)
      && (forall q: nat {:trigger us[q]} :: q < TASK_COUNT ==>
            us[q].sendQueue == (if q == me && ts[me].sendQueue != [] then ts[me].sendQueue[1..] else ts[q].sendQueue)
            && (Live(us, q) ==> Live(ts, q)))
      && (if ts[me].sendQueue == [] then us[me].state == SendBlocked
          else var id := ts[me].sendQueue[0];
            Id(id) < TASK_COUNT && us[me].state == Ready && us[me].sender == id && us[me].inbox == ts[Id(id)].message)
  {
    if k.tasks[k.active].sendQueue != [] { FirstSenderWaits(k); }
    hide Inv;
  }

  /** The receiver's account: the oldest waiting message becomes the newest received. */
  lemma ReceiveMailAt(k: State, h: History)
    requires Running(k) && Delivered(k.tasks, h)
    ensures DoReceive(k).Done?
    ensures var k1 := DoReceive(k).kernel; var w := Watch(k, Syscall(Receive), k1, h);
      w.sent[k.active] == w.got[k.active] + Waiting(k1.tasks, k1.tasks[k.active].sendQueue)
  {
    hide DoReceive, Running, Waiting, SameMessages;
    ReceiveShape(k);
    var me, ts, us := k.active, k.tasks, DoReceive(k).kernel.tasks;
    assert Live(ts, me) && h.sent[me] == h.got[me] + Waiting(ts, ts[me].sendQueue);
    hide Delivered;
    WaitingFrame(ts, us, us[me].sendQueue);
    if ts[me].sendQueue != [] {
      WaitingPop(ts, ts[me].sendQueue);
    }
  }

  /** A receive takes exactly the oldest waiting message, or blocks if there is none. */
  lemma ReceiveMail(k: State, h: History)
    requires Running(k) && Delivered(k.tasks, h)
    ensures DoReceive(k).Done?
    ensures Delivered(DoReceive(k).kernel.tasks, Watch(k, Syscall(Receive), DoReceive(k).kernel, h))
  {
    hide DoReceive, Running, Waiting, SameMessages;
    ReceiveShape(k);
    ReceiveMailAt(k, h);
    var me, k1 := k.active, DoReceive(k).kernel;
    var w, ts, us := Watch(k, Syscall(Receive), k1, h), k.tasks, k1.tasks;
    forall q: nat | Live(us, q) ensures w.sent[q] == w.got[q] + Waiting(us, us[q].sendQueue) {
      if q != me {
        assert Live(ts, q);
        WaitingFrame(ts, us, us[q].sendQueue);
      }
    }
  }

  lemma CreateMail(k: State, priority: nat, entry: int, h: History)
    requires Running(k) && k.pool != [] && DoCreate(k, priority, entry).Done? && Delivered(k.tasks, h)
    ensures Delivered(DoCreate(k, priority, entry).kernel.tasks,
                      Watch(k, Syscall(Create(priority, entry)), DoCreate(k, priority, entry).kernel, h))
  {
    CreateShape(k, priority, entry);
    var i, k1 := k.pool[0], DoCreate(k, priority, entry).kernel;
    var w, ts, us := Watch(k, Syscall(Create(priority, entry)), k1, h), k.tasks, k1.tasks;
    hide DoCreate, Running;
    assert SameMessages(ts, us);
    forall q: nat | Live(us, q) ensures w.sent[q] == w.got[q] + Waiting(us, us[q].sendQueue) {
      if q != i {
        assert Live(ts, q);
        WaitingSame(ts, us, us[q].sendQueue);
      }
    }
  }

  /** Any system call, as the observer sees it. */
  lemma SystemCallMail(k: State, call: Call, h: History)
    requires Running(k) && Trusted(k, Syscall(call)) && SystemCall(k, call).Done? && Delivered(k.tasks, h)
    requires call.Send? ==> k.tasks[k.active].message == call.message
    ensures Delivered(SystemCall(k, call).kernel.tasks, Watch(k, Syscall(call), SystemCall(k, call).kernel, h))
  {
    assert k.tasks[k.active].state == Ready;
    hide Running, DoCreate, DoSend, DoReceive, Delivered;
    match call {
      case Send(to, m) => SendMail(k, to, m, h);
      case Receive => ReceiveMail(k, h);
      case Create(p, entry) => CreateMail(k, p, entry, h);
      case _ => PlainMail(k, call, h);
    }
  }

  lemma PlainMail(k: State, call: Call, h: History)
    requires SystemCall(k, call).Done? && Delivered(k.tasks, h) && !call.Send? && !call.Receive? && !call.Create?
    requires k.tasks[k.active].state == Ready
    ensures Delivered(SystemCall(k, call).kernel.tasks, Watch(k, Syscall(call), SystemCall(k, call).kernel, h))
  {
    hide Delivered, DoCreate, DoSend, DoReceive;
    MailFrame(k.tasks, SystemCall(k, call).kernel.tasks, h);
  }

  lemma WatchThroughTrap(k: State, call: Call, k1: State, ret: int, h: History)
    requires Sized(h) && k1.active == k.active
    ensures Watch(k, Syscall(call), Returned(k1, ret), h) == Watch(Trap(k, call), Syscall(call), k1, h)
  {
  }

  /** Any entry into the kernel, up to the scheduler. */
  lemma HandlerMail(k: State, input: Input, h: History)
    requires Running(k) && Trusted(k, input) && AfterHandler(k, input).Done? && Delivered(k.tasks, h)
    ensures Delivered(AfterHandler(k, input).kernel.tasks, Watch(k, input, AfterHandler(k, input).kernel, h))
  {
    hide Running, Delivered, SystemCall, Interrupt, Trusted;
    match input {
      case Syscall(call) =>
        var k0 := Trap(k, call);
        TrapKeeps(k, call);
        TrappedTrust(k, call);
        TrapMail(k, call, h);
        SystemCallMail(k0, call, h);
        var r := SystemCall(k0, call);
        SystemCallGentle(k0, call);
        SizedHistory(k0.tasks, h);
        WatchThroughTrap(k, call, r.kernel, r.ret, h);
        ReturnMail(r.kernel, r.ret, Watch(k0, input, r.kernel, h));
      case Hardware(irq) =>
        InterruptMail(k, irq, h);
    }
  }

  lemma SizedHistory(ts: Tasks, h: History)
    requires Delivered(ts, h)
    ensures Sized(h)
  {
  }

  lemma ReturnMail(k: State, ret: int, h: History)
    requires Delivered(k.tasks, h)
    ensures Delivered(Returned(k, ret).tasks, h)
  {
    MailFrame(k.tasks, Returned(k, ret).tasks, h);
  }

  lemma ScheduleMail(k: State, h: History)
    requires Inv(k) && Schedule(k).Enter? && Delivered(k.tasks, h)
    ensures Delivered(Schedule(k).kernel.tasks, h)
  {
    hide Inv, Delivered, Schedule;
    ScheduleTasks(k);
    MailFrame(k.tasks, Schedule(k).kernel.tasks, h);
  }

  // ---------------------------------------------------------------- runs

  ghost function WatchRun(k: State, inputs: seq<Input>, h: History): History
    requires Sized(h)
    decreases |inputs|
  {
    if inputs == [] || !Step(k, inputs[0]).Enter? || !AfterHandler(k, inputs[0]).Done? then h
    else WatchRun(Step(k, inputs[0]).kernel, inputs[1..], Watch(k, inputs[0], AfterHandler(k, inputs[0]).kernel, h))
  }

  lemma StepMail(k: State, input: Input, h: History)
    requires Running(k) && Trusted(k, input) && Step(k, input).Enter? && Delivered(k.tasks, h)
    ensures AfterHandler(k, input).Done?
    ensures Delivered(Step(k, input).kernel.tasks, Watch(k, input, AfterHandler(k, input).kernel, h))
  {
    hide Running, Delivered, Trusted, Schedule, SystemCall, Interrupt, Inv;
    SizedHistory(k.tasks, h);
    HandlerGentle(k, input);
    HandlerMail(k, input, h);
    ScheduleMail(AfterHandler(k, input).kernel, Watch(k, input, AfterHandler(k, input).kernel, h));
  }

  /** Over any trusted run: for every live task, the messages sent to it are, in order and
      each once, those it has received followed by those still in its send queue. */
  lemma {:induction false} RunDelivers(k: State, inputs: seq<Input>, h: History)
    requires Running(k) && TrustedRun(k, inputs) && Run(k, inputs).Enter? && Delivered(k.tasks, h)
    ensures Delivered(Run(k, inputs).kernel.tasks, WatchRun(k, inputs, h))
    decreases |inputs|
  {
    hide Running, Delivered, Trusted, Step, AfterHandler, Watch;
    SizedHistory(k.tasks, h);
    if inputs != [] {
      StepGood(k, inputs[0]);
      StepMail(k, inputs[0], h);
      RunDelivers(Step(k, inputs[0]).kernel, inputs[1..], Watch(k, inputs[0], AfterHandler(k, inputs[0]).kernel, h));
    }
  }

  /** From boot, with nothing sent or received yet. */
  lemma BootRunDelivers(cts: nat, entry: int, inputs: seq<Input>)
    requires TrustedRun(Boot(cts, entry).kernel, inputs) && Run(Boot(cts, entry).kernel, inputs).Enter?
    ensures var none := seq(TASK_COUNT, _ => []);
      Delivered(Run(Boot(cts, entry).kernel, inputs).kernel.tasks,
                WatchRun(Boot(cts, entry).kernel, inputs, History(none, none)))
  {
    var none: seq<seq<Message>> := seq(TASK_COUNT, _ => []);
    BootIsRunning(cts, entry);
    BootShape(cts, entry);
    WaitingNone(Boot(cts, entry).kernel.tasks);
    RunDelivers(Boot(cts, entry).kernel, inputs, History(none, none));
  }

  // ---------------------------------------------------------------- who may be woken

  /** What one handler may do to a task that has sent: while queued it can only be received,
      and only by the task it sent to taking it from the front; while it awaits its reply
      it can only be replied to, and only that makes it ready. */
  lemma SenderWaitsForReply(k: State, input: Input, i: nat)
    requires Running(k) && Trusted(k, input) && AfterHandler(k, input).Done? && i < TASK_COUNT
    ensures var k1 := AfterHandler(k, input).kernel;
      k.tasks[i].state == ReceiveBlocked ==>
        || k1.tasks[i].state == ReceiveBlocked
        || (&& input == Syscall(Receive) && k1.tasks[i].state == ReplyBlocked
            && k.tasks[k.active].sendQueue != [] && k.tasks[k.active].sendQueue[0] == k.tasks[i].tid
            && Arrived(k1, k.active) == Message(k.tasks[i].tid, k.tasks[i].message))
    ensures var k1 := AfterHandler(k, input).kernel;
      k.tasks[i].state == ReplyBlocked ==>
        || k1.tasks[i].state == ReplyBlocked
        || (&& input.Syscall? && input.call.Reply? && Id(input.call.to) == i
            && k1.tasks[i].state == Ready && k1.tasks[i].reply == input.call.message)
  {
    hide SystemCall, Interrupt;
    match input {
      case Syscall(call) =>
        hide Inv, Trusted;
        TrapKeeps(k, call);
        TrappedTrust(k, call);
        CallOnSender(Trap(k, call), call, i);
      case Hardware(irq) =>
        InterruptSparesSenders(k, irq, i);
    }
  }

  lemma CallOnSender(k: State, call: Call, i: nat)
    requires Running(k) && Trusted(k, Syscall(call)) && SystemCall(k, call).Done? && i < TASK_COUNT
    ensures var k1 := SystemCall(k, call).kernel;
      k.tasks[i].state == ReceiveBlocked ==>
        || k1.tasks[i].state == ReceiveBlocked
        || (&& call == Receive && k1.tasks[i].state == ReplyBlocked
            && k.tasks[k.active].sendQueue != [] && k.tasks[k.active].sendQueue[0] == k.tasks[i].tid
            && Arrived(k1, k.active) == Message(k.tasks[i].tid, k.tasks[i].message))
    ensures var k1 := SystemCall(k, call).kernel;
      k.tasks[i].state == ReplyBlocked ==>
        || k1.tasks[i].state == ReplyBlocked
        || (call.Reply? && Id(call.to) == i && k1.tasks[i].state == Ready && k1.tasks[i].reply == call.message)
  {
    match call {
      case Create(p, entry) =>
        CreateShape(k, p, entry);
        hide Inv, DoCreate;
      case Receive =>
        ReceiveOnSender(k, i);
        hide Inv, DoReceive;
      case _ => hide Inv;
    }
  }

  lemma ReceiveOnSender(k: State, i: nat)
    requires Running(k) && DoReceive(k).Done? && i < TASK_COUNT
    ensures var k1 := DoReceive(k).kernel;
      k.tasks[i].state == ReceiveBlocked ==>
        || k1.tasks[i].state == ReceiveBlocked
        || (&& k1.tasks[i].state == ReplyBlocked
            && k.tasks[k.active].sendQueue != [] && k.tasks[k.active].sendQueue[0] == k.tasks[i].tid
            && Arrived(k1, k.active) == Message(k.tasks[i].tid, k.tasks[i].message))
    ensures k.tasks[i].state == ReplyBlocked ==> DoReceive(k).kernel.tasks[i].state == ReplyBlocked
  {
    if k.tasks[k.active].sendQueue != [] { FirstSenderWaits(k); }
    hide Inv;
  }

  lemma WakeSparesSenders(k: State, event: nat, byte: nat, i: nat)
    requires Running(k) && event < EVENT_TABLE_SIZE && i < TASK_COUNT
    requires k.tasks[i].state == ReceiveBlocked || k.tasks[i].state == ReplyBlocked
    ensures Wake(k, event).Done? ==> Wake(k, event).kernel.tasks[i] == k.tasks[i]
    ensures WakeReader(k, event, byte).Done? ==> WakeReader(k, event, byte).kernel.tasks[i] == k.tasks[i]
  {
    if k.events[event] != 0 {
      SlotNamesSleeper(k, event);
    }
    hide Inv;
  }

  lemma InterruptSparesSenders(k: State, irq: Irq, i: nat)
    requires Running(k) && Interrupt(k, irq).Done? && i < TASK_COUNT
    ensures k.tasks[i].state == ReceiveBlocked || k.tasks[i].state == ReplyBlocked ==>
      Interrupt(k, irq).kernel.tasks[i] == k.tasks[i]
  {
    hide Running, Wake, WakeReader, Interrupt;
    if k.tasks[i].state == ReceiveBlocked || k.tasks[i].state == ReplyBlocked {
      var p := (k1: State) => k1.tasks[i] == k.tasks[i];
      forall k1: State, e: nat | e < EVENT_TABLE_SIZE && Running(k1) && p(k1) && Wake(k1, e).Done?
        ensures p(Wake(k1, e).kernel)
      {
        WakeSparesSenders(k1, e, 0, i);
      }
      forall k1: State, e: nat, b: nat | e < EVENT_TABLE_SIZE && Running(k1) && p(k1) && WakeReader(k1, e, b).Done?
        ensures p(WakeReader(k1, e, b).kernel)
      {
        WakeSparesSenders(k1, e, b, i);
      }
      RunningSteps(k, irq, p);
    }
  }
}
