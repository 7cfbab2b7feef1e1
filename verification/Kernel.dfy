/** The kernel as a step machine: its data (kernel/kernelData.h, kernel/taskDescriptor.h),
    the system call handler, the event handler and the scheduler, as functions on values.
    KernelImage holds the same kernel as an object updated in place. */
module Kernel {
  import opened PriorityQueues

  const TASK_COUNT := 64
  const SEND_QUEUE_LENGTH := 8
  const BLOCK_COUNT := 64
  const BLOCK_WORDS := 16384

  /** Word address of the block area, byte address 0x01000000. */
  const BASE := 0x40_0000

  const EVENT_10MS_TICK := 1
  const EVENT_150MS_TICK := 2
  const EVENT_TERMINAL_READ := 3
  const EVENT_TERMINAL_WRITE := 4
  const EVENT_TRAIN_READ := 5
  const EVENT_TRAIN_WRITE := 6
  const EVENT_TABLE_SIZE := 7

  datatype TaskState = Zombie | Ready | Active | SendBlocked | ReceiveBlocked | ReplyBlocked | EventBlocked

  datatype Envelope = Envelope(kind: nat, body: nat)

  /** A descriptor, with what its saved argument registers point to: the envelope it
      sends, the byte it writes, the places a message, its sender and a reply are put,
      and the register that receives the call's result. */
  datatype Task = Task(
    state: TaskState, tid: nat, pid: nat, priority: nat,
    sendQueue: seq<nat>, sendLength: nat,
    stackBase: int, stackBlock: nat,
    message: Envelope, byte: nat, inbox: Envelope, sender: nat, reply: Envelope, ret: int)

  /** What UART 1 sees: readings of its CTS flag and the bytes written to it. */
  datatype Wire = CtsRead(isSet: bool) | Wrote(byte: nat, writer: nat)

  datatype KernelData = KernelData(
    active: nat, ready: Levels, tasks: seq<Task>, pool: seq<nat>, blocks: seq<nat>,
    memory: map<int, int>, events: seq<nat>, running: nat, cts: nat,
    uart1: seq<Wire>, uart2: seq<Wire>)

  const NO_MESSAGE := Envelope(0, 0)

  function UnusedTask(i: nat): Task {
    Task(Zombie, Tid(i, 0), 0, 0, [], 0, 0, 0, NO_MESSAGE, 0, NO_MESSAGE, 0, NO_MESSAGE, 0)
  }

  /** kernelDataInit and taskTableInit, before any task exists. */
  function Initial(cts: nat): (k: KernelData)
    ensures k.active < TASK_COUNT == |k.tasks| && |k.events| == EVENT_TABLE_SIZE
  {
    KernelData(0, seq(LEVELS, _ => []), seq(TASK_COUNT, i requires 0 <= i => UnusedTask(i)),
      seq(TASK_COUNT, i => i), seq(BLOCK_COUNT, i => i + 1), map[], seq(EVENT_TABLE_SIZE, _ => 0),
      1, cts, [CtsRead(cts != 0)], [])
  }

  type State = k: KernelData | k.active < TASK_COUNT == |k.tasks| && |k.events| == EVENT_TABLE_SIZE
    witness Initial(0)

  // ---------------------------------------------------------------- halting

  /** The assertions that can stop the kernel, and the array accesses the code does not check. */
  datatype Fault =
    | ReadyQueueFull | SendQueueFull | NotReplyBlocked | NoMemory | WildIndex | NullFree
    | SenderNotWaiting | BlockQueueFull | IdleMissing | StackOverwritten

  datatype Handled = Done(kernel: State, ret: int) | Halt(fault: Fault) {
    predicate IsFailure() { Halt? }

    function PropagateFailure(): Handled
      requires Halt?
    {
      this
    }

    function Extract(): State
      requires Done?
    {
      kernel
    }
  }

  /** The scheduler enters a task, ends the system, or hits a failed assertion. */
  datatype Scheduled = Enter(kernel: State) | Stop | Crash(fault: Fault)

  // ---------------------------------------------------------------- helpers

  /** The descriptor index in the low byte of a task id. */
  function Id(tid: nat): nat { tid % 256 }

  function Tid(index: nat, generation: nat): nat { index + 256 * generation }

  /** The address handed out for a block; the word above it is the block's header. */
  function Address(block: nat): int { BASE + block * BLOCK_WORDS - 2 }

  function Read(m: map<int, int>, a: int): int { if a in m then m[a] else 0 }

  function With(k: State, i: nat, t: Task): State
    requires i < TASK_COUNT
  {
    k.(tasks := k.tasks[i := t])
  }

  /** Mark a task ready and queue it at its own priority. */
  function MakeReady(k: State, i: nat): Handled
    requires i < TASK_COUNT
  {
    var t := k.tasks[i].(state := Ready);
    var queued := Pushed(k.ready, t.priority, t.tid);
    if queued.rc < 0 then Halt(ReadyQueueFull)
    else Done(With(k, i, t).(ready := queued.levels), 0)
  }

  // ---------------------------------------------------------------- blocks and descriptors

  /** memoryAllocatorAlloc: the address of a block, or 0 if none is left. */
  function AllocBlock(k: State): (State, int) {
    if k.blocks == [] then (k, 0)
    else
      var b := k.blocks[0];
      (k.(blocks := k.blocks[1..], memory := k.memory[Address(b) + 1 := b]), Address(b))
  }

  /** memoryAllocatorFree: the block's number is read back from its header. */
  function FreeBlock(k: State, address: int): Handled {
    if address == 0 then Halt(NullFree)
    else if |k.blocks| == BLOCK_COUNT then Halt(BlockQueueFull)
    else Done(k.(blocks := k.blocks + [Read(k.memory, address + 1) % 0x1_0000]), 0)
  }

  const TASK_EXIT := 0

  /** taskTableAlloc: the new task's id, or -1 if every descriptor is taken. */
  function AllocTask(k: State, priority: nat, entry: int, pid: nat): Handled {
    if k.pool == [] then Done(k, -1)
    else if k.pool[0] >= TASK_COUNT then Halt(WildIndex)
    else
      var i := k.pool[0];
      var (k1, stack) := AllocBlock(k.(pool := k.pool[1..]));
      if stack == 0 then Halt(NoMemory)
      else
        var header := Read(k1.memory, stack + 1);
        var t := k.tasks[i].(
          stackBase := stack, stackBlock := header % 0x1_0000, state := Ready, pid := pid,
          priority := priority, sendQueue := [], sendLength := SEND_QUEUE_LENGTH);
        var memory := k1.memory[stack := entry][stack - 14 := TASK_EXIT][stack - 15 := 0x10];
        Done(With(k1, i, t).(memory := memory), t.tid)
  }

  /** taskTableFree of the active zombie. */
  function FreeTask(k: State): Handled {
    var i := k.active;
    var t := k.tasks[i];
    var pool := if |k.pool| == TASK_COUNT then k.pool else k.pool + [i];
    var t' := t.(stackBlock := 0, tid := Tid(Id(t.tid), (t.tid / 256 + 1) % 256), pid := 0, stackBase := 0);
    FreeBlock(With(k, i, t').(pool := pool), t.stackBase)
  }

  // ---------------------------------------------------------------- system calls

  datatype Call =
    | Exit | Pass | IsRunning | Shutdown | Kill
    | Create(priority: nat, entry: int)
    | GetTid | GetPid | GetPriority(tid: nat) | GetState(tid: nat)
    | Send(to: nat, message: Envelope) | Receive | Reply(to: nat, message: Envelope)
    | Write(port: nat, byte: nat) | Await(event: nat, byte: nat)
    | Alloc | Free(address: int)
    | Unknown

  function StateNumber(s: TaskState): nat {
    match s
    case Zombie => 0
    case Ready => 1
    case Active => 2
    case SendBlocked => 3
    case ReceiveBlocked => 4
    case ReplyBlocked => 5
    case EventBlocked => 6
  }

  /** Entering the kernel saves the caller's argument registers. AWAIT and READ use only the
      first; the second holds whatever the caller left there. */
  function Trap(k: State, call: Call): State {
    var t := k.tasks[k.active];
    match call
    case Send(_, m) => With(k, k.active, t.(message := m))
    case Write(_, b) => With(k, k.active, t.(byte := b))
    case Await(_, b) => With(k, k.active, t.(byte := b))
    case _ => k
  }

  function DoCreate(k: State, priority: nat, entry: int): Handled {
    var created := AllocTask(k, priority % 256, entry, k.tasks[k.active].tid);
    if created.Halt? then created
    else
      var id := created.ret % 0x1_0000;
      var queued := Pushed(created.kernel.ready, priority % 256, id);
      if queued.rc < 0 then Halt(ReadyQueueFull)
      else Done(created.kernel.(ready := queued.levels), id)
  }

  function DoSend(k: State, to: nat): Handled {
    var r, me := Id(to), k.tasks[k.active];
    if r >= TASK_COUNT then Halt(WildIndex)
    else if k.tasks[r].state == SendBlocked then
      var k1 := With(k, r, k.tasks[r].(inbox := me.message, sender := me.tid, ret := 0));
      var k2 := With(k1, k.active, k1.tasks[k.active].(state := ReplyBlocked));
      MakeReady(k2, r)
    else if |k.tasks[r].sendQueue| == k.tasks[r].sendLength then Halt(SendQueueFull)
    else
      var k1 := With(k, r, k.tasks[r].(sendQueue := k.tasks[r].sendQueue + [me.tid]));
      Done(With(k1, k.active, k1.tasks[k.active].(state := ReceiveBlocked)), 0)
  }

  function DoReceive(k: State): Handled {
    var me := k.tasks[k.active];
    if me.sendQueue == [] then Done(With(k, k.active, me.(state := SendBlocked)), 0)
    else
      var id := me.sendQueue[0];
      var s := Id(id);
      if s >= TASK_COUNT then Halt(WildIndex)
      else
        var k1 := With(k, k.active, me.(sendQueue := me.sendQueue[1..], sender := id, inbox := k.tasks[s].message));
        if k1.tasks[s].state != ReceiveBlocked then Halt(SenderNotWaiting)
        else
          var k2 := With(k1, s, k1.tasks[s].(state := ReplyBlocked));
          Done(With(k2, k.active, k2.tasks[k.active].(state := Ready)), 0)
  }

  function DoReply(k: State, to: nat, m: Envelope): Handled {
    var r := Id(to);
    if r >= TASK_COUNT then Halt(WildIndex)
    else
      var k1 := With(k, r, k.tasks[r].(reply := m, ret := 0));
      if k1.tasks[r].state != ReplyBlocked then Halt(NotReplyBlocked) else MakeReady(k1, r)
  }

  function DoAwait(k: State, event: nat): Handled {
    if event >= EVENT_TABLE_SIZE then Halt(WildIndex)
    else
      var me := k.tasks[k.active];
      Done(With(k, k.active, me.(state := EventBlocked)).(events := k.events[event := me.tid]), 0)
  }

  /** systemCallHandler. */
  function SystemCall(k: State, call: Call): Handled {
    var me := k.tasks[k.active];
    match call
    case Exit => Done(With(k, k.active, me.(state := Zombie)), 0)
    case Pass => Done(k, 0)
    case IsRunning => Done(k, k.running)
    case Shutdown => Done(k.(running := 0), 0)
    case Kill => Done(k.(running := 2), 0)
    case Create(p, entry) => DoCreate(k, p, entry)
    case GetTid => Done(k, me.tid)
    case GetPid => Done(k, me.pid)
    case GetPriority(t) => if Id(t) >= TASK_COUNT then Halt(WildIndex) else Done(k, k.tasks[Id(t)].priority)
    case GetState(t) => if Id(t) >= TASK_COUNT then Halt(WildIndex) else Done(k, StateNumber(k.tasks[Id(t)].state))
    case Send(to, _) => DoSend(k, to)
    case Receive => DoReceive(k)
    case Reply(to, m) => DoReply(k, to, m)
    case Write(port, _) =>
      if port == EVENT_TERMINAL_WRITE || port == EVENT_TRAIN_WRITE then DoAwait(k, port) else Done(k, -1)
    case Await(event, _) => DoAwait(k, event)
    case Alloc => var (k1, a) := AllocBlock(k); Done(k1, a)
    case Free(a) => FreeBlock(k, a)
    case Unknown => Done(k, 0)
  }

  // ---------------------------------------------------------------- interrupts

  /** The status bits and device readings one interrupt finds. */
  datatype Irq = Irq(
    uart1: bool, modem: bool, cts: nat, tx1: bool, rx1: bool, byte1: nat,
    tick10: bool, tick150: bool, rx2: bool, byte2: nat, tx2: bool)

  /** Ready the task waiting in an event slot, if any, and empty the slot. */
  function Wake(k: State, event: nat): Handled
    requires event < EVENT_TABLE_SIZE
  {
    var i := Id(k.events[event]);
    if k.events[event] == 0 then Done(k, 0)
    else if i >= TASK_COUNT then Halt(WildIndex)
    else
      var k1 :- MakeReady(k, i);
      Done(k1.(events := k1.events[event := 0]), 0)
  }

  /** As Wake, and the woken task's call returns the byte read. */
  function WakeReader(k: State, event: nat, byte: nat): Handled
    requires event < EVENT_TABLE_SIZE
  {
    var i := Id(k.events[event]);
    if k.events[event] == 0 || i >= TASK_COUNT then Wake(k, event)
    else Wake(With(k, i, k.tasks[i].(ret := byte)), event)
  }

  function Modem(k: State, irq: Irq): State {
    if irq.modem then k.(cts := irq.cts, uart1 := k.uart1 + [CtsRead(irq.cts != 0)]) else k
  }

  /** A transmit interrupt writes the waiting byte only while CTS is set, and uses CTS up. */
  function Transmit1(k: State, irq: Irq): Handled {
    var tid := k.events[EVENT_TRAIN_WRITE];
    if !irq.tx1 || tid == 0 || k.cts == 0 then Done(k, 0)
    else
      var k1 :- Wake(k, EVENT_TRAIN_WRITE);
      Done(k1.(cts := 0, uart1 := k1.uart1 + [Wrote(k.tasks[Id(tid)].byte % 256, Id(tid))]), 0)
  }

  function Transmit2(k: State, irq: Irq): Handled {
    var tid := k.events[EVENT_TERMINAL_WRITE];
    if !irq.tx2 || tid == 0 then Done(k, 0)
    else
      var k1 :- Wake(k, EVENT_TERMINAL_WRITE);
      Done(k1.(uart2 := k1.uart2 + [Wrote(k.tasks[Id(tid)].byte % 256, Id(tid))]), 0)
  }

  function Uart1(k: State, irq: Irq): Handled {
    if !irq.uart1 then Done(k, 0)
    else
      var k1 :- Transmit1(Modem(k, irq), irq);
      if irq.rx1 then WakeReader(k1, EVENT_TRAIN_READ, irq.byte1 % 256) else Done(k1, 0)
  }

  /** eventHandler. */
  function Interrupt(k: State, irq: Irq): Handled {
    var k1 :- Uart1(k, irq);
    var k2 :- if irq.tick10 then Wake(k1, EVENT_10MS_TICK) else Done(k1, 0);
    var k3 :- if irq.tick150 then Wake(k2, EVENT_150MS_TICK) else Done(k2, 0);
    var k4 :- if irq.rx2 then WakeReader(k3, EVENT_TERMINAL_READ, irq.byte2 % 256) else Done(k3, 0);
    Transmit2(k4, irq)
  }

  // ---------------------------------------------------------------- the scheduler

  function Activate(k: State, tid: nat): Scheduled {
    var i := Id(tid);
    if i >= TASK_COUNT then Crash(WildIndex)
    else if k.tasks[i].stackBlock != Read(k.memory, k.tasks[i].stackBase + 1) then Crash(StackOverwritten)
    else Enter(k.(active := i))
  }

  function Yield(k: State): Scheduled {
    var me := k.tasks[k.active];
    var next := PushPopped(k.ready, me.priority, me.tid);
    if next.rc < 0 then Crash(ReadyQueueFull)
    else if next.rc == 1 then Enter(k)
    else Activate(k.(ready := next.levels), next.value)
  }

  function RunNext(k: State): Scheduled {
    if Lowest(k.ready) == LEVELS then
      if k.running != 0 then Crash(IdleMissing) else Stop
    else
      var next := Popped(k.ready, k.tasks[k.active].tid);
      Activate(k.(ready := next.levels), next.value)
  }

  function Schedule(k: State): Scheduled {
    var me := k.tasks[k.active];
    if k.running == 2 then Stop
    else if me.state == Ready then Yield(k)
    else if me.state == Zombie then
      var freed := FreeTask(k);
      if freed.Halt? then Crash(freed.fault) else RunNext(freed.kernel)
    else RunNext(k)
  }

  // ---------------------------------------------------------------- steps

  datatype Input = Syscall(call: Call) | Hardware(irq: Irq)

  /** One entry into the kernel: handler, result register, scheduler. */
  function Step(k: State, input: Input): Scheduled {
    match input
    case Syscall(call) =>
      var h := SystemCall(Trap(k, call), call);
      if h.Halt? then Crash(h.fault) else Schedule(Returned(h.kernel, h.ret))
    case Hardware(irq) =>
      var h := Interrupt(k, irq);
      if h.Halt? then Crash(h.fault) else Schedule(h.kernel)
  }

  function Returned(k: State, ret: int): State {
    With(k, k.active, k.tasks[k.active].(ret := ret))
  }

  // ---------------------------------------------------------------- boot

  /** bootstrap: the idle task is created directly, at the least urgent priority, and entered. */
  function Boot(cts: nat, entry: int): Handled {
    AllocTask(Initial(cts), LEVELS - 1, entry, 0)
  }
}
