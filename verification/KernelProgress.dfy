/** Who runs next, how long a ready task can wait, and why the idle task is always there. */
module KernelProgress {
  import opened PriorityQueues
  import opened Kernel
  import opened KernelInterrupts
  import opened KernelInvariant
  import opened KernelResources
  import opened KernelSchedule
  import opened KernelRuns

  // ---------------------------------------------------------------- what handlers leave alone

  /** From k to k1 no waiting task loses its place and no ready bystander stops being ready. */
  ghost predicate Gentle(k: State, k1: State) {
    && k1.active == k.active
    && (k1.running == 1 ==> k.running == 1) && (k.running <= 2 ==> k1.running <= 2)
    && (forall p {:trigger k1.ready[p]} :: 0 <= p < LEVELS ==> k.ready[p] <= k1.ready[p])
    && (forall i {:trigger k1.tasks[i]} :: 0 <= i < TASK_COUNT && i != k.active && k.tasks[i].state == Ready ==>
          k1.tasks[i].state == Ready && k1.tasks[i].priority == k.tasks[i].priority)
  }

  lemma GentleTransitive(k: State, k1: State, k2: State)
    requires Gentle(k, k1) && Gentle(k1, k2)
    ensures Gentle(k, k2)
  {
    forall p | 0 <= p < LEVELS ensures k.ready[p] <= k2.ready[p] {
      assert k.ready[p] <= k1.ready[p] <= k2.ready[p];
    }
    forall i | 0 <= i < TASK_COUNT && i != k.active && k.tasks[i].state == Ready
      ensures k2.tasks[i].state == Ready && k2.tasks[i].priority == k.tasks[i].priority
    {
      assert k1.tasks[i].state == Ready;
    }
  }

  lemma MakeReadyGentle(k: State, i: nat)
    requires i < TASK_COUNT && MakeReady(k, i).Done?
    ensures Gentle(k, MakeReady(k, i).kernel)
  {
  }

  lemma WakeGentle(k: State, event: nat)
    requires event < EVENT_TABLE_SIZE && Wake(k, event).Done?
    ensures Gentle(k, Wake(k, event).kernel)
  {
    if k.events[event] != 0 {
      MakeReadyGentle(k, Id(k.events[event]));
    }
  }

  lemma WakeReaderGentle(k: State, event: nat, byte: nat)
    requires event < EVENT_TABLE_SIZE && WakeReader(k, event, byte).Done?
    ensures Gentle(k, WakeReader(k, event, byte).kernel)
  {
    var i := Id(k.events[event]);
    if k.events[event] == 0 || i >= TASK_COUNT {
      WakeGentle(k, event);
    } else {
      var k1 := With(k, i, k.tasks[i].(ret := byte));
      assert Gentle(k, k1);
      WakeGentle(k1, event);
      GentleTransitive(k, k1, Wake(k1, event).kernel);
    }
  }

  lemma InterruptGentle(k: State, irq: Irq)
    requires Interrupt(k, irq).Done?
    ensures Gentle(k, Interrupt(k, irq).kernel)
  {
    hide Wake, WakeReader, Interrupt, Gentle;
    var p := (k1: State) => Gentle(k, k1);
    forall k1: State, e: nat | e < EVENT_TABLE_SIZE && p(k1) && Wake(k1, e).Done? ensures p(Wake(k1, e).kernel) {
      WakeGentle(k1, e);
      GentleTransitive(k, k1, Wake(k1, e).kernel);
    }
    forall k1: State, e: nat, b: nat | e < EVENT_TABLE_SIZE && p(k1) && WakeReader(k1, e, b).Done?
      ensures p(WakeReader(k1, e, b).kernel)
    {
      WakeReaderGentle(k1, e, b);
      GentleTransitive(k, k1, WakeReader(k1, e, b).kernel);
    }
    forall k1: State, c, w | p(k1) ensures p(Rewired1(k1, c, w)) {
      RewiredGentle(k1, c, w);
      GentleTransitive(k, k1, Rewired1(k1, c, w));
    }
    forall k1: State, w | p(k1) ensures p(Rewired2(k1, w)) {
      RewiredGentle(k1, 0, w);
      GentleTransitive(k, k1, Rewired2(k1, w));
    }
    GentleReflexive(k);
    InterruptSteps(k, irq, p);
  }

  lemma RewiredGentle(k: State, cts: nat, wire: seq<Wire>)
    ensures Gentle(k, Rewired1(k, cts, wire)) && Gentle(k, Rewired2(k, wire))
  {
  }

  lemma GentleReflexive(k: State)
    ensures Gentle(k, k)
  {
  }

  lemma CreateGentle(k: State, priority: nat, entry: int)
    requires Running(k) && k.pool != [] && DoCreate(k, priority, entry).Done?
    ensures Gentle(k, DoCreate(k, priority, entry).kernel)
  {
    CreateShape(k, priority, entry);
    hide DoCreate, Running;
  }

  /** A system call disturbs no ready task but the caller. */
  lemma SystemCallGentle(k: State, call: Call)
    requires Running(k) && Trusted(k, Syscall(call)) && SystemCall(k, call).Done?
    ensures Gentle(k, SystemCall(k, call).kernel)
  {
    match call {
      case Create(p, entry) => CreateGentle(k, p, entry);
      case Receive =>
        if k.tasks[k.active].sendQueue != [] {
          FirstSenderWaits(k);
          hide Inv;
        }
      case Send(to, _) => SendGentle(k, to);
      case Reply(to, m) =>
        var k1 := With(k, Id(to), k.tasks[Id(to)].(reply := m, ret := 0));
        MakeReadyGentle(k1, Id(to));
      case Free(a) => hide Inv;
      case _ => hide Inv;
    }
  }

  lemma SendGentle(k: State, to: nat)
    requires Running(k) && DoSend(k, to).Done?
    ensures Gentle(k, DoSend(k, to).kernel)
  {
    hide Inv;
  }

  // ---------------------------------------------------------------- the choice

  /** The level the scheduler serves: that of the task it takes off the ready queue, or
      LEVELS when the running task simply goes on. */
  function ServedLevel(k: State): nat {
    var me := k.tasks[k.active];
    if me.state == Ready && me.priority < Lowest(k.ready) then LEVELS else Lowest(k.ready)
  }

  /** The levels once a yielding task has joined the tail of its own. */
  function Joined(k: State): Levels {
    var me := k.tasks[k.active];
    if me.state == Ready && me.priority < LEVELS
    then k.ready[me.priority := k.ready[me.priority] + [me.tid]]
    else k.ready
  }

  lemma YieldMoves(k: State)
    requires Yield(k).Enter?
    ensures var me, k1, s := k.tasks[k.active], Yield(k).kernel, Lowest(k.ready);
      if me.priority < s then k1 == k
      else
        var m := k.ready[me.priority := k.ready[me.priority] + [me.tid]];
        s < LEVELS && k.ready[s] != [] && k1.active == Id(k.ready[s][0]) && k1.ready == m[s := m[s][1..]]
  {
    var me, s := k.tasks[k.active], Lowest(k.ready);
    if me.priority >= s {
      var m := k.ready[me.priority := k.ready[me.priority] + [me.tid]];
      assert m[s][0] == k.ready[s][0];
    }
  }

  lemma RunNextMoves(k: State)
    requires RunNext(k).Enter?
    ensures var k1, s := RunNext(k).kernel, Lowest(k.ready);
      && s < LEVELS && k.ready[s] != [] && k1.active == Id(k.ready[s][0])
      && k1.ready == k.ready[s := k.ready[s][1..]]
  {
  }

  /** How scheduling moves the waiting tasks: a yielding task joins the tail of its own level,
      the served level loses its head, which is entered, and nothing else moves. */
  lemma ScheduleMoves(k: State)
    requires Inv(k) && Schedule(k).Enter?
    ensures var k1, s := Schedule(k).kernel, ServedLevel(k);
      if s == LEVELS then k1 == k
      else
        && s < LEVELS && k.ready[s] != [] && k1.active == Id(k.ready[s][0])
        && k1.ready == Joined(k)[s := Joined(k)[s][1..]]
  {
    var me := k.tasks[k.active];
    if me.state == Zombie { FreeTaskShape(k); }
    hide Inv, Yield, RunNext, FreeTask;
    if me.state == Ready {
      YieldMoves(k);
    } else if me.state == Zombie {
      RunNextMoves(FreeTask(k).kernel);
    } else {
      RunNextMoves(k);
    }
  }

  /** So no waiting task loses its place but to the one entered. */
  lemma PlacesKept(k: State, p: nat)
    requires Inv(k) && Schedule(k).Enter? && p < LEVELS
    ensures var k1, s := Schedule(k).kernel, ServedLevel(k);
      if p == s then k.ready[p] != [] && k.ready[p][1..] <= k1.ready[p] else k.ready[p] <= k1.ready[p]
  {
    ScheduleMoves(k);
    hide Inv, Schedule;
  }

  /** The task entered is at least as urgent as every ready task. */
  lemma EntersMostUrgent(k: State, i: nat)
    requires Inv(k) && Schedule(k).Enter? && i < TASK_COUNT && Schedule(k).kernel.tasks[i].state == Ready
    ensures var k1 := Schedule(k).kernel; k1.tasks[k1.active].priority <= k1.tasks[i].priority
  {
    ScheduleKeeps(k);
    ScheduleMoves(k);
    var k1, s := Schedule(k).kernel, ServedLevel(k);
    hide Schedule;
    if i != k1.active {
      QueuedPriority(k1, i);
      if s < LEVELS {
        EntersServed(k);
        StaysBelow(k, k1.tasks[i].priority);
      } else {
        assert k.ready[k1.tasks[i].priority] != [];
      }
    }
  }

  lemma QueuedPriority(k: State, i: nat)
    requires Running(k) && i < TASK_COUNT && i != k.active && k.tasks[i].state == Ready
    ensures k.tasks[i].priority < LEVELS && k.ready[k.tasks[i].priority] != []
  {
    assert k.tasks[i].tid in k.ready[k.tasks[i].priority];
  }

  lemma EntersServed(k: State)
    requires Inv(k) && Schedule(k).Enter? && ServedLevel(k) < LEVELS
    ensures var k1 := Schedule(k).kernel; k1.tasks[k1.active].priority == Lowest(k.ready)
  {
    var p := Lowest(k.ready);
    assert k.ready[p][0] in k.ready[p];
    ScheduleMoves(k);
    if k.tasks[k.active].state == Zombie {
      ZombieKeeps(k);
    }
  }

  /** After scheduling, only levels from the served one on can hold anything. */
  lemma StaysBelow(k: State, p: nat)
    requires Inv(k) && Schedule(k).Enter? && ServedLevel(k) < LEVELS && p < LEVELS && Schedule(k).kernel.ready[p] != []
    ensures Lowest(k.ready) <= p
  {
    if k.tasks[k.active].state == Zombie {
      FreeTaskShape(k);
    }
    hide Inv;
  }

  // ---------------------------------------------------------------- waiting is bounded

  /** The state a handler leaves for the scheduler. */
  function AfterHandler(k: State, input: Input): Handled {
    match input
    case Syscall(call) =>
      var h := SystemCall(Trap(k, call), call);
      if h.Halt? then h else Done(Returned(h.kernel, h.ret), 0)
    case Hardware(irq) => Interrupt(k, irq)
  }

  lemma TrapAndReturnGentle(k: State, call: Call, ret: int)
    ensures Gentle(k, Trap(k, call)) && Gentle(k, Returned(k, ret))
  {
  }

  lemma HandledCallGentle(k: State, call: Call)
    requires Running(k) && Trusted(k, Syscall(call)) && SystemCall(Trap(k, call), call).Done?
    ensures var h := SystemCall(Trap(k, call), call);
      Gentle(k, Returned(h.kernel, h.ret)) && Inv(Returned(h.kernel, h.ret))
  {
    hide Inv, SystemCall, Gentle, Trusted;
    var k0 := Trap(k, call);
    TrapKeeps(k, call);
    TrappedTrust(k, call);
    SystemCallKeeps(k0, call);
    SystemCallGentle(k0, call);
    var h := SystemCall(k0, call);
    ReturnedKeeps(h.kernel, h.ret);
    TrapAndReturnGentle(k, call, 0);
    TrapAndReturnGentle(h.kernel, call, h.ret);
    GentleTransitive(k, k0, h.kernel);
    GentleTransitive(k, h.kernel, Returned(h.kernel, h.ret));
  }

  lemma HandlerGentle(k: State, input: Input)
    requires Running(k) && Trusted(k, input) && AfterHandler(k, input).Done?
    ensures Gentle(k, AfterHandler(k, input).kernel) && Inv(AfterHandler(k, input).kernel)
    ensures Step(k, input) == Schedule(AfterHandler(k, input).kernel)
  {
    hide Inv, SystemCall, Schedule, Gentle, Interrupt, Trusted;
    match input {
      case Syscall(call) =>
        HandledCallGentle(k, call);
      case Hardware(irq) =>
        InterruptKeeps(k, irq);
        InterruptGentle(k, irq);
    }
  }

  lemma HandlerDone(k: State, input: Input)
    requires Step(k, input).Enter?
    ensures AfterHandler(k, input).Done?
  {
    hide SystemCall, Interrupt, Schedule;
  }

  function Served(k: State, input: Input): nat
    requires AfterHandler(k, input).Done?
  {
    ServedLevel(AfterHandler(k, input).kernel)
  }

  /** In one step a waiting task is entered, or keeps its place, or moves up by one, and it
      moves up exactly when its level is served. */
  lemma WaiterMovesUp(k: State, input: Input, p: nat, n: nat)
    requires Running(k) && Trusted(k, input) && Step(k, input).Enter? && p < LEVELS && n < |k.ready[p]|
    ensures AfterHandler(k, input).Done?
    ensures var k1, v := Step(k, input).kernel, k.ready[p][n];
      if Served(k, input) != p then n < |k1.ready[p]| && k1.ready[p][n] == v
      else if n == 0 then k1.active == Id(v)
      else n - 1 < |k1.ready[p]| && k1.ready[p][n - 1] == v
  {
    HandlerGentle(k, input);
    var h := AfterHandler(k, input).kernel;
    ScheduleMoves(h);
    PlacesKept(h, p);
    hide Inv, Schedule, Step;
    assert k.ready[p] <= h.ready[p];
    var k1 := Step(k, input).kernel;
    assert if p == ServedLevel(h) then h.ready[p][1..] <= k1.ready[p] else h.ready[p] <= k1.ready[p];
  }

  /** How often level p is served during a run. */
  ghost function Serves(k: State, inputs: seq<Input>, p: nat): nat
    decreases |inputs|
  {
    if inputs == [] || !Step(k, inputs[0]).Enter? || !AfterHandler(k, inputs[0]).Done? then 0
    else (if Served(k, inputs[0]) == p then 1 else 0) + Serves(Step(k, inputs[0]).kernel, inputs[1..], p)
  }

  /** Task i is entered at some step of the run. */
  ghost predicate Entered(k: State, inputs: seq<Input>, i: nat)
    decreases |inputs|
  {
    inputs != [] && Step(k, inputs[0]).Enter? &&
    (Step(k, inputs[0]).kernel.active == i || Entered(Step(k, inputs[0]).kernel, inputs[1..], i))
  }

  /** A ready task with n others ahead of it at its level is entered by the time that
      level has been served n + 1 times. */
  lemma {:induction false} WaitIsBounded(k: State, inputs: seq<Input>, p: nat, n: nat)
    requires Running(k) && TrustedRun(k, inputs) && p < LEVELS && n < |k.ready[p]|
    ensures Serves(k, inputs, p) > n ==> Entered(k, inputs, Id(k.ready[p][n]))
    decreases |inputs|
  {
    hide Running, Step, Trusted, Served, AfterHandler;
    if inputs != [] && Step(k, inputs[0]).Enter? {
      var v, k1 := k.ready[p][n], Step(k, inputs[0]).kernel;
      StepGood(k, inputs[0]);
      WaiterMovesUp(k, inputs[0], p, n);
      if Served(k, inputs[0]) != p {
        WaitIsBounded(k1, inputs[1..], p, n);
      } else if n > 0 {
        WaitIsBounded(k1, inputs[1..], p, n - 1);
      }
    }
  }

  // ---------------------------------------------------------------- the idle task

  /** While the system runs, the idle task (user/IdleTask.c) issues only these calls. */
  predicate IdleObeys(k: State, input: Input) {
    k.active == 0 && k.running == 1 && input.Syscall? ==>
      input.call.Create? || input.call.IsRunning? || input.call.Pass?
  }

  ghost predicate IdleAlive(k: State) {
    k.running <= 2 && (k.running == 1 ==> k.tasks[0].state == Ready)
  }

  lemma IdleCall(k: State, call: Call)
    requires Running(k) && Trusted(k, Syscall(call)) && SystemCall(k, call).Done?
    requires call.Create? || call.IsRunning? || call.Pass?
    ensures SystemCall(k, call).kernel.tasks[k.active].state == Ready
  {
    if call.Create? {
      CreateShape(k, call.priority, call.entry);
      hide Inv, DoCreate;
    }
  }

  lemma IdleThroughHandler(k: State, input: Input)
    requires Running(k) && Trusted(k, input) && AfterHandler(k, input).Done?
    requires IdleAlive(k) && IdleObeys(k, input)
    ensures IdleAlive(AfterHandler(k, input).kernel)
  {
    hide Inv, SystemCall, Interrupt, Trusted;
    HandlerGentle(k, input);
    if k.active == 0 && k.running == 1 {
      match input {
        case Syscall(call) =>
          TrapKeeps(k, call);
          TrappedTrust(k, call);
          IdleCall(Trap(k, call), call);
        case Hardware(irq) =>
          InterruptKeeps(k, irq);
      }
    }
  }

  /** Then the empty-queue branch is not taken while the system runs, its assertion never
      fails, and the idle task stays alive. */
  lemma IdleIsAlwaysThere(k: State, input: Input)
    requires Running(k) && Trusted(k, input) && IdleAlive(k) && IdleObeys(k, input)
    ensures match Step(k, input)
            case Enter(k1) => IdleAlive(k1)
            case Stop => AfterHandler(k, input).Done? && AfterHandler(k, input).kernel.running != 1
            case Crash(f) => f != IdleMissing
  {
    if AfterHandler(k, input).Done? {
      IdleThroughHandler(k, input);
      HandlerGentle(k, input);
      hide AfterHandler, Step;
      IdleThroughScheduler(AfterHandler(k, input).kernel);
    } else {
      StepKeeps(k, input);
      HandlerFaults(k, input);
    }
  }

  lemma HandlerFaults(k: State, input: Input)
    requires Running(k) && Trusted(k, input) && AfterHandler(k, input).Halt?
    ensures Step(k, input) == Crash(AfterHandler(k, input).fault) && AfterHandler(k, input).fault != IdleMissing
  {
    match input {
      case Syscall(call) =>
        TrapKeeps(k, call);
        TrappedTrust(k, call);
        SystemCallKeeps(Trap(k, call), call);
        hide SystemCall, Inv;
      case Hardware(irq) =>
        InterruptKeeps(k, irq);
        hide Interrupt, Inv;
    }
  }

  lemma IdleThroughScheduler(k: State)
    requires Inv(k) && IdleAlive(k)
    ensures match Schedule(k)
            case Enter(k1) => IdleAlive(k1)
            case Stop => k.running != 1
            case Crash(f) => f != IdleMissing
  {
    ScheduleKeeps(k);
    if k.running == 1 && k.active != 0 {
      assert k.tasks[0].tid in k.ready[k.tasks[0].priority];
      assert Lowest(k.ready) < LEVELS;
    }
    if k.tasks[k.active].state == Zombie {
      FreeTaskShape(k);
    }
    hide Inv;
  }

  ghost predicate IdleObeysRun(k: State, inputs: seq<Input>)
    decreases |inputs|
  {
    inputs == [] ||
    (IdleObeys(k, inputs[0]) && (Step(k, inputs[0]).Enter? ==> IdleObeysRun(Step(k, inputs[0]).kernel, inputs[1..])))
  }

  /** So over a whole run the scheduler never finds the queue empty while the system runs. */
  lemma {:induction false} IdleNeverMissing(k: State, inputs: seq<Input>)
    requires Running(k) && TrustedRun(k, inputs) && IdleAlive(k) && IdleObeysRun(k, inputs)
    ensures Run(k, inputs) != Crash(IdleMissing)
    decreases |inputs|
  {
    hide Running, Step, Trusted, IdleAlive, IdleObeys, AfterHandler;
    if inputs != [] {
      StepGood(k, inputs[0]);
      IdleIsAlwaysThere(k, inputs[0]);
      if Step(k, inputs[0]).Enter? {
        IdleNeverMissing(Step(k, inputs[0]).kernel, inputs[1..]);
      }
    }
  }

  lemma IdleNeverMissingFromBoot(cts: nat, entry: int, inputs: seq<Input>)
    requires TrustedRun(Boot(cts, entry).kernel, inputs) && IdleObeysRun(Boot(cts, entry).kernel, inputs)
    ensures Run(Boot(cts, entry).kernel, inputs) != Crash(IdleMissing)
  {
    hide Running, TrustedRun, IdleObeysRun, Run;
    BootIsRunning(cts, entry);
    BootShape(cts, entry);
    BootRuns(cts, entry);
    IdleNeverMissing(Boot(cts, entry).kernel, inputs);
  }

  lemma BootRuns(cts: nat, entry: int)
    ensures Boot(cts, entry).Done? && Boot(cts, entry).kernel.running == 1
  {
    BootShape(cts, entry);
  }
}
