/** Stack blocks over whole runs: what ALLOC returned and FREE has not taken back is exactly
    what is neither free nor under a stack. */
module KernelMemory {
  import opened Kernel
  import opened KernelInterrupts
  import opened KernelInvariant
  import opened KernelResources
  import opened KernelSchedule
  import opened KernelRuns
  import opened KernelProgress

  // ---------------------------------------------------------------- the three classes

  /** The blocks under the stacks of tasks. */
  ghost function Stacks(k: State): set<nat> {
    set i | 0 <= i < TASK_COUNT && (k.tasks[i].state != Zombie || i == k.active) :: k.tasks[i].stackBlock
  }

  /** The addresses of the blocks that are neither free nor under a stack. */
  ghost function HeldNow(k: State): set<int> {
    set b: nat | 1 <= b <= BLOCK_COUNT && HandedOut(k, b) :: Address(b)
  }

  lemma HandedOutIs(k: State, b: nat)
    ensures HandedOut(k, b) <==> 1 <= b <= BLOCK_COUNT && b !in k.blocks && b !in Stacks(k)
  {
  }

  lemma HeldIs(k: State, b: nat)
    ensures Address(b) in HeldNow(k) <==> HandedOut(k, b)
  {
  }

  // ---------------------------------------------------------------- what a step moves

  /** Free blocks and stacks are as they were. */
  ghost predicate SameUse(k: State, k1: State) {
    && k1.blocks == k.blocks
    && forall i {:trigger k.tasks[i]} {:trigger k1.tasks[i]} :: 0 <= i < TASK_COUNT ==>
         && (k.tasks[i].state != Zombie || i == k.active <==> k1.tasks[i].state != Zombie || i == k1.active)
         && (k.tasks[i].state != Zombie || i == k.active ==> k1.tasks[i].stackBlock == k.tasks[i].stackBlock)
  }

  lemma SameStacks(k: State, k1: State)
    requires SameUse(k, k1)
    ensures Stacks(k1) == Stacks(k)
  {
  }

  /** Which blocks a call moves between the classes. */
  ghost predicate Moved(k: State, input: Input, k1: State) {
    match input
    case Syscall(Create(_, _)) =>
      k.blocks != [] && k1.blocks == k.blocks[1..] && Stacks(k1) == Stacks(k) + {k.blocks[0]}
    case Syscall(Alloc) =>
      k1.blocks == (if k.blocks == [] then [] else k.blocks[1..]) && Stacks(k1) == Stacks(k)
    case Syscall(Free(a)) =>
      Stacks(k1) == Stacks(k) && exists b {:trigger HandedOut(k, b)} ::
        HandedOut(k, b) && a == Address(b) && k1.blocks == k.blocks + [b]
    case Syscall(Exit) =>
      k1.blocks == k.blocks + [k.tasks[k.active].stackBlock] && Stacks(k1) == Stacks(k) - {k.tasks[k.active].stackBlock}
    case _ => k1.blocks == k.blocks && Stacks(k1) == Stacks(k)
  }

  lemma OrdinaryCallUse(k: State, call: Call)
    requires Running(k) && SystemCall(k, call).Done?
    requires !call.Create? && !call.Alloc? && !call.Free?
    ensures SameUse(k, SystemCall(k, call).kernel) && SystemCall(k, call).kernel.active == k.active
    ensures call.Exit? || SystemCall(k, call).kernel.tasks[k.active].state != Zombie
  {
    hide Inv, SameUse, DoSend, DoReceive, DoReply;
    match call {
      case Send(to, _) => SendUse(k, to);
      case Receive => ReceiveUse(k);
      case Reply(to, m) => ReplyUse(k, to, m);
      case _ => PlainCallUse(k, call);
    }
  }

  lemma SendUse(k: State, to: nat)
    requires k.tasks[k.active].state == Ready && DoSend(k, to).Done?
    ensures var k1 := DoSend(k, to).kernel; SameUse(k, k1) && k1.active == k.active && k1.tasks[k.active].state != Zombie
  {
  }

  lemma ReceiveUse(k: State)
    requires k.tasks[k.active].state == Ready && DoReceive(k).Done?
    ensures var k1 := DoReceive(k).kernel; SameUse(k, k1) && k1.active == k.active && k1.tasks[k.active].state != Zombie
  {
  }

  lemma ReplyUse(k: State, to: nat, m: Envelope)
    requires k.tasks[k.active].state == Ready && DoReply(k, to, m).Done?
    ensures var k1 := DoReply(k, to, m).kernel; SameUse(k, k1) && k1.active == k.active && k1.tasks[k.active].state != Zombie
  {
  }

  lemma PlainCallUse(k: State, call: Call)
    requires k.tasks[k.active].state == Ready && SystemCall(k, call).Done?
    requires !call.Create? && !call.Alloc? && !call.Free? && !call.Send? && !call.Receive? && !call.Reply?
    ensures SameUse(k, SystemCall(k, call).kernel) && SystemCall(k, call).kernel.active == k.active
    ensures call.Exit? || SystemCall(k, call).kernel.tasks[k.active].state != Zombie
  {
    hide DoCreate, DoSend, DoReceive, DoReply;
  }

  lemma CreateUse(k: State, priority: nat, entry: int)
    requires Running(k) && k.pool != [] && DoCreate(k, priority, entry).Done?
    ensures var k1 := DoCreate(k, priority, entry).kernel;
      Moved(k, Syscall(Create(priority, entry)), k1) && k1.tasks[k.active].state == Ready
  {
    CreateShape(k, priority, entry);
    hide Inv, DoCreate;
    var i, k1 := k.pool[0], DoCreate(k, priority, entry).kernel;
    forall b ensures b in Stacks(k1) <==> b in Stacks(k) + {k.blocks[0]} {
      if b in Stacks(k) {
        var j :| 0 <= j < TASK_COUNT && HasStack(k.tasks, j, k.active) && k.tasks[j].stackBlock == b;
        assert j != i && k1.tasks[j] == k.tasks[j] && HasStack(k1.tasks, j, k1.active);
      }
      if b == k.blocks[0] {
        assert HasStack(k1.tasks, i, k1.active) && k1.tasks[i].stackBlock == b;
      }
    }
  }

  lemma CallUse(k: State, call: Call)
    requires Running(k) && Trusted(k, Syscall(call)) && SystemCall(k, call).Done?
    ensures SystemCall(k, call).kernel.active == k.active
    ensures var k1 := SystemCall(k, call).kernel;
      if call.Exit? then SameUse(k, k1) && k1.tasks == k.tasks[k.active := k.tasks[k.active].(state := Zombie)]
      else Moved(k, Syscall(call), k1) && k1.tasks[k.active].state != Zombie
  {
    hide Inv, SameUse;
    match call {
      case Create(p, entry) =>
        CreateUse(k, p, entry);
      case Alloc =>
        AllocKeeps(k);
        hide Stacks;
        StacksOfTasks(k, SystemCall(k, call).kernel);
      case Free(a) =>
        var b :| HandedOut(k, b) && a == Address(b);
        FreeKeeps(k, b);
        StacksOfTasks(k, SystemCall(k, call).kernel);
      case _ =>
        OrdinaryCallUse(k, call);
        SameStacks(k, SystemCall(k, call).kernel);
        SameBlocks(k, SystemCall(k, call).kernel);
    }
  }

  lemma SameBlocks(k: State, k1: State)
    requires SameUse(k, k1)
    ensures k1.blocks == k.blocks
  {
  }

  lemma StacksOfTasks(k: State, k1: State)
    requires k1.tasks == k.tasks && k1.active == k.active
    ensures Stacks(k1) == Stacks(k)
  {
  }

  lemma InterruptUse(k: State, irq: Irq)
    requires Running(k) && Interrupt(k, irq).Done?
    ensures SameUse(k, Interrupt(k, irq).kernel)
  {
    hide Running, Wake, WakeReader, Interrupt, SameUse;
    var p := (k1: State) => SameUse(k, k1);
    forall k1: State, e: nat | e < EVENT_TABLE_SIZE && Running(k1) && p(k1) && Wake(k1, e).Done?
      ensures p(Wake(k1, e).kernel)
    {
      WakeUse(k, k1, e, 0);
    }
    forall k1: State, e: nat, b: nat | e < EVENT_TABLE_SIZE && Running(k1) && p(k1) && WakeReader(k1, e, b).Done?
      ensures p(WakeReader(k1, e, b).kernel)
    {
      WakeUse(k, k1, e, b);
    }
    forall k1: State, c, w | p(k1) ensures p(Rewired1(k1, c, w)) {
      RewiredUse(k, k1, c, w);
    }
    forall k1: State, w | p(k1) ensures p(Rewired2(k1, w)) {
      RewiredUse(k, k1, 0, w);
    }
    RewiredUse(k, k, 0, []);
    RunningSteps(k, irq, p);
  }

  lemma RewiredUse(k: State, k1: State, cts: nat, wire: seq<Wire>)
    ensures SameUse(k, k)
    ensures SameUse(k, k1) ==> SameUse(k, Rewired1(k1, cts, wire)) && SameUse(k, Rewired2(k1, wire))
  {
  }

  lemma WakeUse(k: State, k1: State, event: nat, byte: nat)
    requires event < EVENT_TABLE_SIZE && Running(k1) && SameUse(k, k1)
    ensures Wake(k1, event).Done? ==> SameUse(k, Wake(k1, event).kernel)
    ensures WakeReader(k1, event, byte).Done? ==> SameUse(k, WakeReader(k1, event, byte).kernel)
  {
    if k1.events[event] != 0 {
      SlotNamesSleeper(k1, event);
    }
    hide Inv;
  }

  /** The scheduler only gives back the block of a task that has ended. */
  lemma ScheduleUse(k: State)
    requires Inv(k) && Schedule(k).Enter?
    ensures var k1, me := Schedule(k).kernel, k.tasks[k.active];
      if me.state == Zombie then k1.blocks == k.blocks + [me.stackBlock] && Stacks(k1) == Stacks(k) - {me.stackBlock}
      else SameUse(k, k1)
  {
    ScheduleKeeps(k);
    var k1, me := Schedule(k).kernel, k.tasks[k.active];
    if me.state == Zombie {
      ZombieKeeps(k);
      StacksReclaimed(k, k1);
    } else {
      SwitchUse(k);
    }
  }

  lemma SwitchUse(k: State)
    requires Schedule(k).Enter? && k.tasks[k.active].state != Zombie
    requires Schedule(k).kernel.tasks[Schedule(k).kernel.active].state != Zombie
    ensures SameUse(k, Schedule(k).kernel)
  {
  }

  lemma StacksReclaimed(k: State, k1: State)
    requires Inv(k) && k.tasks[k.active].state == Zombie && k1.tasks == ReclaimedTasks(k.tasks, k.active)
    requires k1.tasks[k1.active].state != Zombie
    ensures Stacks(k1) == Stacks(k) - {k.tasks[k.active].stackBlock}
  {
    var me := k.active;
    assert HasStack(k.tasks, me, me);
    forall b ensures b in Stacks(k1) <==> b in Stacks(k) - {k.tasks[me].stackBlock} {
      if b in Stacks(k1) {
        var j :| 0 <= j < TASK_COUNT && (k1.tasks[j].state != Zombie || j == k1.active) && k1.tasks[j].stackBlock == b;
        assert j != me && k.tasks[j] == k1.tasks[j] && HasStack(k.tasks, j, me);
      }
      if b in Stacks(k) && b != k.tasks[me].stackBlock {
        var j: nat :| j < TASK_COUNT && HasStack(k.tasks, j, me) && k.tasks[j].stackBlock == b;
        assert j != me && HasStack(k1.tasks, j, k1.active);
      }
    }
  }

  /** Every step moves exactly the blocks its call is for, and every other step none. */
  lemma StepMovesBlocks(k: State, input: Input)
    requires Running(k) && Trusted(k, input) && Step(k, input).Enter?
    ensures Moved(k, input, Step(k, input).kernel)
  {
    hide Inv, SystemCall, Interrupt, Schedule, Stacks, SameUse, HandedOut;
    match input {
      case Syscall(call) =>
        var k0 := Trap(k, call);
        TrapKeeps(k, call);
        TrappedTrust(k, call);
        var h := SystemCall(k0, call);
        SystemCallKeeps(k0, call);
        CallUse(k0, call);
        ReturnedKeeps(h.kernel, h.ret);
        ScheduleUse(Returned(h.kernel, h.ret));
        RegistersUse(k, k0);
        RegistersUse(h.kernel, Returned(h.kernel, h.ret));
        if call.Exit? {
          SameStacks(k0, h.kernel);
          SameBlocks(k0, h.kernel);
        } else {
          SameStacks(Returned(h.kernel, h.ret), Step(k, input).kernel);
          SameBlocks(Returned(h.kernel, h.ret), Step(k, input).kernel);
        }
        if call.Free? {
          var b :| HandedOut(k0, b) && call.address == Address(b) && h.kernel.blocks == k0.blocks + [b];
          HandedOutIs(k0, b);
          HandedOutIs(k, b);
        }
      case Hardware(irq) =>
        InterruptKeeps(k, irq);
        InterruptUse(k, irq);
        ScheduleUse(Interrupt(k, irq).kernel);
        SameStacks(k, Interrupt(k, irq).kernel);
        SameBlocks(k, Interrupt(k, irq).kernel);
        SameStacks(Interrupt(k, irq).kernel, Step(k, input).kernel);
        SameBlocks(Interrupt(k, irq).kernel, Step(k, input).kernel);
    }
  }

  /** Saving arguments and results touches no stack. */
  lemma RegistersUse(k: State, k1: State)
    requires SameControl(k.tasks, k1.tasks) && k1.blocks == k.blocks && k1.active == k.active
    ensures Stacks(k1) == Stacks(k)
  {
  }

  // ---------------------------------------------------------------- what callers hold

  /** Watch one handler run from k to k1: ALLOC notes the address its caller finds in its result
      register, FREE strikes out the address it is given. */
  ghost function Note(k: State, input: Input, k1: State, held: set<int>): set<int> {
    match input
    case Syscall(Alloc) => if k1.tasks[k.active].ret == 0 then held else held + {k1.tasks[k.active].ret}
    case Syscall(Free(a)) => held - {a}
    case _ => held
  }

  /** A caller creates a task only while a descriptor is free, and frees only what ALLOC has
      returned and nobody has freed since. */
  predicate Honest(k: State, input: Input, held: set<int>) {
    match input
    case Syscall(Create(_, _)) => k.pool != []
    case Syscall(Free(a)) => a in held
    case _ => true
  }

  lemma HonestIsTrusted(k: State, input: Input, held: set<int>)
    requires held == HeldNow(k) && Honest(k, input, held)
    ensures Trusted(k, input)
  {
  }

  lemma AllocReturns(k: State)
    requires Running(k)
    ensures AfterHandler(k, Syscall(Alloc)).Done?
    ensures AfterHandler(k, Syscall(Alloc)).kernel.tasks[k.active].ret == if k.blocks == [] then 0 else Address(k.blocks[0])
    ensures k.blocks != [] ==> 1 <= k.blocks[0] <= BLOCK_COUNT && Address(k.blocks[0]) != 0
    ensures k.blocks != [] ==> k.blocks[0] in k.blocks && k.blocks[0] !in k.blocks[1..] && k.blocks[0] !in Stacks(k)
  {
    if k.blocks != [] {
      assert k.blocks[0] in k.blocks;
      assert k.blocks == [k.blocks[0]] + k.blocks[1..];
    }
    hide ReadyExact, SendersWait, EventsName, PoolExact, IdsMatch;
  }

  /** Free or under a stack. */
  ghost predicate Used(k: State, b: nat) {
    b in k.blocks || b in Stacks(k)
  }

  lemma HeldSame(k: State, k1: State)
    requires forall b: nat {:trigger Used(k, b)} :: Used(k, b) <==> Used(k1, b)
    ensures HeldNow(k1) == HeldNow(k)
  {
    hide HandedOut, Stacks;
    forall b: nat ensures HandedOut(k1, b) <==> HandedOut(k, b) {
      HandedOutIs(k, b);
      HandedOutIs(k1, b);
      assert Used(k, b) <==> Used(k1, b);
    }
  }

  lemma HeldMore(k: State, k1: State, b: nat)
    requires 1 <= b <= BLOCK_COUNT && !Used(k1, b)
    requires forall c: nat {:trigger Used(k, c)} :: Used(k, c) <==> Used(k1, c) || c == b
    ensures HeldNow(k1) == HeldNow(k) + {Address(b)}
  {
    hide HandedOut, Stacks;
    forall c: nat ensures HandedOut(k1, c) <==> HandedOut(k, c) || c == b {
      HandedOutIs(k, c);
      HandedOutIs(k1, c);
      assert Used(k, c) <==> Used(k1, c) || c == b;
    }
  }

  lemma StepUsed(k: State, input: Input, k1: State)
    requires Running(k) && Moved(k, input, k1)
    requires !(input.Syscall? && (input.call.Alloc? || input.call.Free?))
    ensures forall b: nat {:trigger Used(k, b)} :: Used(k, b) <==> Used(k1, b)
  {
    if k.blocks != [] { FirstBlock(k); }
    if input == Syscall(Exit) { UnderMe(k); }
    hide Running, HandedOut, Stacks;
  }

  lemma UnderMe(k: State)
    ensures k.tasks[k.active].stackBlock in Stacks(k)
  {
  }

  /** What a step moves changes the addresses held by those of ALLOC and FREE only. */
  lemma HeldMoves(k: State, input: Input, k1: State)
    requires Running(k) && Moved(k, input, k1)
    ensures HeldNow(k1) ==
      if input == Syscall(Alloc) && k.blocks != [] then HeldNow(k) + {Address(k.blocks[0])}
      else if input.Syscall? && input.call.Free? then HeldNow(k) - {input.call.address}
      else HeldNow(k)
  {
    if k.blocks != [] { FirstBlock(k); }
    hide Running, HandedOut, Stacks, HeldNow;
    if input == Syscall(Alloc) {
      if k.blocks == [] { HeldSame(k, k1); } else { HeldMore(k, k1, k.blocks[0]); }
    } else if input.Syscall? && input.call.Free? {
      var b :| HandedOut(k, b) && input.call.address == Address(b) && k1.blocks == k.blocks + [b];
      HandedOutIs(k, b);
      HeldMore(k1, k, b);
      HeldIs(k1, b);
      HandedOutIs(k1, b);
    } else {
      StepUsed(k, input, k1);
      HeldSame(k, k1);
    }
  }

  /** Blocks and the addresses held move together. */
  lemma StepHeld(k: State, input: Input, held: set<int>)
    requires Running(k) && held == HeldNow(k) && Honest(k, input, held) && Step(k, input).Enter?
    ensures AfterHandler(k, input).Done?
    ensures Note(k, input, AfterHandler(k, input).kernel, held) == HeldNow(Step(k, input).kernel)
  {
    HonestIsTrusted(k, input, held);
    hide Inv, HeldNow, Trusted, Step, Moved, AfterHandler;
    StepMovesBlocks(k, input);
    HandlerDone(k, input);
    HeldMoves(k, input, Step(k, input).kernel);
    if input == Syscall(Alloc) {
      AllocReturns(k);
    }
  }

  // ---------------------------------------------------------------- runs

  /** The addresses held after a run. */
  ghost function NoteRun(k: State, inputs: seq<Input>, held: set<int>): set<int>
    decreases |inputs|
  {
    if inputs == [] || !Step(k, inputs[0]).Enter? || !AfterHandler(k, inputs[0]).Done? then held
    else NoteRun(Step(k, inputs[0]).kernel, inputs[1..], Note(k, inputs[0], AfterHandler(k, inputs[0]).kernel, held))
  }

  ghost predicate HonestRun(k: State, inputs: seq<Input>, held: set<int>)
    decreases |inputs|
  {
    inputs == [] ||
    (&& Honest(k, inputs[0], held)
     && (Step(k, inputs[0]).Enter? && AfterHandler(k, inputs[0]).Done? ==>
           HonestRun(Step(k, inputs[0]).kernel, inputs[1..], Note(k, inputs[0], AfterHandler(k, inputs[0]).kernel, held))))
  }

  /** Over every run of honest callers the addresses ALLOC returned and nobody has freed are
      exactly those of the blocks that are neither free nor under a stack: no block is lost and
      none is held twice. Such a run is trusted, so all that holds of trusted runs holds of it. */
  lemma {:induction false} RunHeld(k: State, inputs: seq<Input>, held: set<int>)
    requires Running(k) && held == HeldNow(k) && HonestRun(k, inputs, held)
    ensures TrustedRun(k, inputs)
    ensures Run(k, inputs).Enter? ==> NoteRun(k, inputs, held) == HeldNow(Run(k, inputs).kernel)
    decreases |inputs|
  {
    hide Running, HeldNow, Honest, Trusted, Step, AfterHandler, Note;
    if inputs != [] {
      HonestIsTrusted(k, inputs[0], held);
      StepGood(k, inputs[0]);
      if Step(k, inputs[0]).Enter? {
        StepHeld(k, inputs[0], held);
        RunHeld(Step(k, inputs[0]).kernel, inputs[1..], Note(k, inputs[0], AfterHandler(k, inputs[0]).kernel, held));
      }
    }
  }

  /** From boot, when nothing is held. */
  lemma BootRunHeld(cts: nat, entry: int, inputs: seq<Input>)
    requires HonestRun(Boot(cts, entry).kernel, inputs, {})
    ensures TrustedRun(Boot(cts, entry).kernel, inputs)
    ensures var k := Boot(cts, entry).kernel; Run(k, inputs).Enter? ==> NoteRun(k, inputs, {}) == HeldNow(Run(k, inputs).kernel)
  {
    BootHolds(cts, entry);
    BootIsRunning(cts, entry);
    hide HeldNow, HonestRun, TrustedRun, NoteRun, Run;
    RunHeld(Boot(cts, entry).kernel, inputs, {});
  }

  lemma BootHolds(cts: nat, entry: int)
    ensures Boot(cts, entry).Done? && HeldNow(Boot(cts, entry).kernel) == {}
  {
    BootShape(cts, entry);
    hide Boot;
    var k := Boot(cts, entry).kernel;
    forall b: nat | 1 <= b <= BLOCK_COUNT ensures !HandedOut(k, b) {
      if b == 1 {
        assert HasStack(k.tasks, 0, k.active);
      } else {
        assert k.blocks[b - 2] == b;
      }
    }
  }

  /** The first free block is not free once it is taken, nor under a stack before. */
  lemma FirstBlock(k: State)
    requires Running(k) && k.blocks != []
    ensures 1 <= k.blocks[0] <= BLOCK_COUNT && k.blocks[0] !in Stacks(k)
    ensures forall b :: b in k.blocks <==> b == k.blocks[0] || b in k.blocks[1..]
    ensures k.blocks[0] !in k.blocks[1..]
  {
    assert k.blocks[0] in k.blocks && k.blocks == [k.blocks[0]] + k.blocks[1..];
    forall i: nat | HasStack(k.tasks, i, k.active) ensures k.tasks[i].stackBlock != k.blocks[0] {
    }
  }
}
