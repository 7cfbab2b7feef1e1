/** Safety over whole runs of the kernel. */
module KernelRuns {
  import opened PriorityQueues
  import opened Kernel
  import opened KernelInvariant
  import opened KernelResources
  import opened KernelSchedule

  // ---------------------------------------------------------------- one step

  /** What the kernel trusts its callers with: creating a task only while a descriptor is
      free, and freeing only a block that ALLOC handed out. */
  ghost predicate Trusted(k: State, input: Input) {
    match input
    case Syscall(Create(_, _)) => k.pool != []
    case Syscall(Free(a)) => exists b {:trigger HandedOut(k, b)} :: HandedOut(k, b) && a == Address(b)
    case _ => true
  }

  /** The argument that a call uses as an array index is in range. */
  predicate InRange(input: Input) {
    match input
    case Syscall(Send(to, _)) => Id(to) < TASK_COUNT
    case Syscall(Reply(to, _)) => Id(to) < TASK_COUNT
    case Syscall(GetPriority(t)) => Id(t) < TASK_COUNT
    case Syscall(GetState(t)) => Id(t) < TASK_COUNT
    case Syscall(Await(e, _)) => e < EVENT_TABLE_SIZE
    case _ => true
  }

  /** The assertions that a well-meant run can still trip. */
  predicate CanHappen(k: State, input: Input, f: Fault) {
    match f
    case ReadyQueueFull => true
    case SendQueueFull => input.Syscall? && input.call.Send?
    case NotReplyBlocked => input.Syscall? && input.call.Reply?
    case NoMemory => input.Syscall? && input.call.Create? && k.blocks == []
    case WildIndex => !InRange(input)
    case IdleMissing => true
    case _ => false
  }

  lemma TrapKeeps(k: State, call: Call)
    requires Running(k)
    ensures Running(Trap(k, call))
    ensures Trap(k, call) == k.(tasks := Trap(k, call).tasks) && SameControl(k.tasks, Trap(k, call).tasks)
  {
    SameControlKeeps(k, Trap(k, call).tasks);
    hide ReadyExact, SendersWait, EventsName, PoolExact, BlocksPartitioned;
  }

  lemma ReturnedKeeps(k: State, ret: int)
    requires Inv(k)
    ensures Inv(Returned(k, ret))
  {
    SameControlKeeps(k, Returned(k, ret).tasks);
  }

  /** Every system call keeps the invariant or halts on an assertion that CanHappen admits. */
  lemma SystemCallKeeps(k: State, call: Call)
    requires Running(k) && Trusted(k, Syscall(call))
    ensures match SystemCall(k, call)
            case Done(k1, _) => Inv(k1)
            case Halt(f) => CanHappen(k, Syscall(call), f) && f != IdleMissing
  {
    match call {
      case Exit => BlockKeeps(k, Zombie);
      case Create(p, entry) =>
        if DoCreate(k, p, entry).Done? { CreateKeeps(k, p, entry); } else { CreateFaults(k, p, entry); }
      case Send(to, _) =>
        if DoSend(k, to).Done? { SendKeeps(k, to); }
      case Receive =>
        ReceiveKeeps(k);
      case Reply(to, m) =>
        if DoReply(k, to, m).Done? { ReplyKeeps(k, to, m); }
      case Write(port, _) =>
        if DoAwait(k, port).Done? { AwaitKeeps(k, port); }
      case Await(e, _) =>
        if DoAwait(k, e).Done? { AwaitKeeps(k, e); }
      case Alloc => AllocKeeps(k);
      case Free(a) =>
        var b :| HandedOut(k, b) && a == Address(b);
        FreeKeeps(k, b);
      case _ =>
    }
  }

  /** One entry into the kernel. */
  lemma StepKeeps(k: State, input: Input)
    requires Running(k) && Trusted(k, input)
    ensures match Step(k, input)
            case Enter(k1) => Running(k1)
            case Stop => true
            case Crash(f) => CanHappen(k, input, f)
  {
    hide Inv, SystemCall, Interrupt, Schedule;
    match input {
      case Syscall(call) =>
        TrapKeeps(k, call);
        TrappedTrust(k, call);
        var h := SystemCall(Trap(k, call), call);
        SystemCallKeeps(Trap(k, call), call);
        if h.Done? {
          ReturnedKeeps(h.kernel, h.ret);
          ScheduleKeeps(Returned(h.kernel, h.ret));
        }
      case Hardware(irq) =>
        InterruptKeeps(k, irq);
        var h := Interrupt(k, irq);
        if h.Done? {
          ScheduleKeeps(h.kernel);
        }
    }
  }

  lemma TrappedTrust(k: State, call: Call)
    requires Trusted(k, Syscall(call))
    ensures Trusted(Trap(k, call), Syscall(call))
  {
    if call.Free? {
      var b :| HandedOut(k, b) && call.address == Address(b);
      assert HandedOut(Trap(k, call), b);
    }
  }

  // ---------------------------------------------------------------- runs

  /** The state after a run, or how it ended. */
  function Run(k: State, inputs: seq<Input>): Scheduled
    decreases |inputs|
  {
    if inputs == [] then Enter(k)
    else
      match Step(k, inputs[0])
      case Enter(k1) => Run(k1, inputs[1..])
      case Stop => Stop
      case Crash(f) => Crash(f)
  }

  ghost predicate TrustedRun(k: State, inputs: seq<Input>)
    decreases |inputs|
  {
    inputs == [] ||
    (Trusted(k, inputs[0]) && (Step(k, inputs[0]).Enter? ==> TrustedRun(Step(k, inputs[0]).kernel, inputs[1..])))
  }

  lemma FirstTaskIs(k: State, entry: int)
    requires k.pool != [] && k.blocks != [] && k.pool[0] == 0 && k.blocks[0] == 1
    ensures var a, made := Address(1), AllocTask(k, LEVELS - 1, entry, 0);
      made == Done(k.(
        pool := k.pool[1..], blocks := k.blocks[1..],
        memory := k.memory[a + 1 := 1][a := entry][a - 14 := TASK_EXIT][a - 15 := 0x10],
        tasks := k.tasks[0 := k.tasks[0].(
          stackBase := a, stackBlock := 1, state := Ready, pid := 0, priority := LEVELS - 1,
          sendQueue := [], sendLength := SEND_QUEUE_LENGTH)]), k.tasks[0].tid)
  {
  }

  /** The tasks after boot: the idle task in slot 0 on block 1, every other descriptor unused. */
  lemma BootShape(cts: nat, entry: int)
    ensures Boot(cts, entry).Done? && Boot(cts, entry).ret == 0
    ensures var k := Boot(cts, entry).kernel;
      && k.active == 0 && k.ready == seq(LEVELS, _ => []) && k.events == seq(EVENT_TABLE_SIZE, _ => 0)
      && k.pool == seq(TASK_COUNT, i => i)[1..] && k.blocks == seq(BLOCK_COUNT, i => i + 1)[1..]
      && Read(k.memory, Address(1) + 1) == 1
      && k.tasks[0].state == Ready && k.tasks[0].tid == 0 && k.tasks[0].priority == LEVELS - 1
      && k.tasks[0].sendQueue == [] && k.tasks[0].sendLength == SEND_QUEUE_LENGTH
      && k.tasks[0].stackBlock == 1 && k.tasks[0].stackBase == Address(1)
      && (forall i {:trigger k.tasks[i]} :: 0 < i < TASK_COUNT ==> k.tasks[i] == UnusedTask(i))
  {
    var k0 := Initial(cts);
    assert k0.pool[0] == 0 && k0.blocks[0] == 1 && k0.pool != [] && k0.blocks != [];
    FirstTaskIs(k0, entry);
    var k := Boot(cts, entry).kernel;
    hide Boot;
    assert forall i {:trigger k.tasks[i]} :: 0 < i < TASK_COUNT ==> k.tasks[i] == k0.tasks[i];
  }

  /** The first state has one task, the idle task, alone and ready. */
  lemma BootIsRunning(cts: nat, entry: int)
    ensures Boot(cts, entry).Done? && Running(Boot(cts, entry).kernel)
  {
    BootShape(cts, entry);
    hide Boot;
    var k := Boot(cts, entry).kernel;
    BootPool(k.tasks, k.pool);
    BootBlocks(k.tasks, k.blocks, k.memory);
    hide PoolExact, BlocksPartitioned;
  }

  lemma BootPool(ts: Tasks, pool: seq<nat>)
    requires pool == seq(TASK_COUNT, i => i)[1..] && ts[0].state == Ready
    requires forall i {:trigger ts[i]} :: 0 < i < TASK_COUNT ==> ts[i] == UnusedTask(i)
    ensures PoolExact(ts, pool, 0)
  {
    forall i: nat | i < TASK_COUNT ensures i in pool <==> i != 0 {
      if i > 0 { assert pool[i - 1] == i; }
    }
  }

  lemma BootBlocks(ts: Tasks, blocks: seq<nat>, memory: map<int, int>)
    requires blocks == seq(BLOCK_COUNT, i => i + 1)[1..] && Read(memory, Address(1) + 1) == 1
    requires ts[0].stackBlock == 1 && ts[0].stackBase == Address(1)
    requires forall i {:trigger ts[i]} :: 0 < i < TASK_COUNT ==> ts[i] == UnusedTask(i)
    ensures BlocksPartitioned(ts, blocks, memory, 0)
  {
    forall b: nat | 2 <= b <= BLOCK_COUNT ensures b in blocks {
      assert blocks[b - 2] == b;
    }
  }

  /** The assertions a trusted run can trip. The others, among them the checks on a
      sender's state, on stack headers and on the two free queues, never fail. */
  predicate Expected(f: Fault) {
    f == ReadyQueueFull || f == SendQueueFull || f == NotReplyBlocked || f == NoMemory || f == WildIndex || f == IdleMissing
  }

  ghost predicate GoodEnd(end: Scheduled) {
    match end
    case Enter(k) => Running(k)
    case Stop => true
    case Crash(f) => Expected(f)
  }

  lemma StepGood(k: State, input: Input)
    requires Running(k) && Trusted(k, input)
    ensures GoodEnd(Step(k, input))
  {
    StepKeeps(k, input);
    hide Running, Step, Trusted;
  }

  /** Every state of every trusted run satisfies the invariant, and a trusted run can
      end only by an orderly stop or by an expected assertion. */
  lemma {:induction false} RunKeeps(k: State, inputs: seq<Input>)
    requires Running(k) && TrustedRun(k, inputs)
    ensures GoodEnd(Run(k, inputs))
    decreases |inputs|
  {
    hide Running, Step, Trusted, Expected;
    if inputs != [] {
      StepGood(k, inputs[0]);
      if Step(k, inputs[0]).Enter? {
        RunKeeps(Step(k, inputs[0]).kernel, inputs[1..]);
      }
    }
  }

  /** From boot. */
  lemma BootRunKeeps(cts: nat, entry: int, inputs: seq<Input>)
    requires TrustedRun(Boot(cts, entry).kernel, inputs)
    ensures GoodEnd(Run(Boot(cts, entry).kernel, inputs))
  {
    BootIsRunning(cts, entry);
    RunKeeps(Boot(cts, entry).kernel, inputs);
  }
}
