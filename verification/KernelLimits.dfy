/** How much room there is: blocks are conserved with descriptors, sixteen live tasks at each
    priority fit the ready queue, and a run within these limits fails no assertion. */
module KernelLimits {
  import opened Chains
  import opened PriorityQueues
  import opened Kernel
  import opened KernelInterrupts
  import opened KernelInvariant
  import opened KernelResources
  import opened KernelSchedule
  import opened KernelRuns
  import opened KernelProgress
  import opened KernelMemory

  // ---------------------------------------------------------------- counting

  /** The numbers from lo up to hi. */
  ghost function Numbers(lo: nat, hi: nat): (all: set<nat>)
    ensures forall i: nat :: i in all <==> lo <= i < hi
    ensures |all| == if lo < hi then hi - lo else 0
    decreases hi
  {
    if lo < hi then Numbers(lo, hi - 1) + {hi - 1} else {}
  }

  /** Distinct members of a set are no more than the set. */
  lemma {:induction false} FitsIn(xs: seq<nat>, all: set<nat>)
    requires Distinct(xs) && forall x :: x in xs ==> x in all
    ensures |xs| <= |all| && (|xs| == |all| <==> forall x :: x in all ==> x in xs)
    decreases xs
  {
    if xs == [] {
      assert |all| == 0 <==> all == {};
    } else {
      assert xs == [xs[0]] + xs[1..];
      assert xs[0] in xs && xs[0] !in xs[1..];
      var rest := all - {xs[0]};
      FitsIn(xs[1..], rest);
      assert (forall x :: x in all ==> x in xs) <==> (forall x :: x in rest ==> x in xs[1..]);
    }
  }

  lemma SizeOfSeq(xs: seq<nat>, all: set<nat>)
    requires Distinct(xs) && forall x :: x in all <==> x in xs
    ensures |all| == |xs|
  {
    FitsIn(xs, all);
  }

  lemma Complement(xs: seq<nat>, rest: set<nat>, lo: nat, hi: nat)
    requires Distinct(xs) && lo <= hi && forall x :: x in xs ==> lo <= x < hi
    requires forall x :: x in rest <==> lo <= x < hi && x !in xs
    ensures |rest| + |xs| == hi - lo
  {
    var members := set x | x in xs;
    SizeOfSeq(xs, members);
    assert Numbers(lo, hi) == rest + members && rest !! members;
  }

  /** A map that never sends two members to one keeps the size. */
  lemma {:induction false} SizeOfImage<A, B>(from: set<A>, f: A -> B, to: set<B>)
    requires forall a, b :: a in from && b in from && f(a) == f(b) ==> a == b
    requires to == set a | a in from :: f(a)
    ensures |to| == |from|
    decreases |from|
  {
    if from != {} {
      var a :| a in from;
      var less := set b | b in from - {a} :: f(b);
      assert to == less + {f(a)} && f(a) !in less;
      SizeOfImage(from - {a}, f, less);
    }
  }

  // ---------------------------------------------------------------- blocks and descriptors

  ghost function WithStack(k: State): set<nat> {
    set i: nat | i < TASK_COUNT && k.tasks[i].state != Zombie
  }

  ghost function HeldBlocks(k: State): set<nat> {
    set b: nat | 1 <= b <= BLOCK_COUNT && HandedOut(k, b)
  }

  lemma PoolOrStack(k: State)
    requires Running(k)
    ensures Distinct(k.pool) && forall i :: i in k.pool ==> i < TASK_COUNT
    ensures forall i: nat {:trigger i in WithStack(k)} :: i in WithStack(k) <==> i < TASK_COUNT && i !in k.pool
  {
    hide ReadyExact, SendersWait, EventsName, BlocksPartitioned, IdsMatch;
    forall i: nat | i < TASK_COUNT ensures i in WithStack(k) <==> i !in k.pool {
      assert i in k.pool <==> k.tasks[i].state == Zombie && i != k.active;
    }
  }

  lemma DescriptorsAdd(k: State)
    requires Running(k)
    ensures |WithStack(k)| + |k.pool| == TASK_COUNT
  {
    PoolOrStack(k);
    hide Inv, WithStack;
    Complement(k.pool, WithStack(k), 0, TASK_COUNT);
  }

  lemma StacksAreTasks(k: State)
    requires Running(k)
    ensures |Stacks(k)| == |WithStack(k)|
  {
    var block := (i: nat) => if i < TASK_COUNT then k.tasks[i].stackBlock else 0;
    assert k.tasks[k.active].state != Zombie;
    forall i, j | i in WithStack(k) && j in WithStack(k) && block(i) == block(j) ensures i == j {
      assert HasStack(k.tasks, i, k.active) && HasStack(k.tasks, j, k.active);
    }
    hide Inv;
    forall b ensures b in Stacks(k) <==> b in (set i | i in WithStack(k) :: block(i)) {
      if b in Stacks(k) {
        var i: nat :| i < TASK_COUNT && (k.tasks[i].state != Zombie || i == k.active) && k.tasks[i].stackBlock == b;
        assert i in WithStack(k) && block(i) == b;
      }
    }
    SizeOfImage(WithStack(k), block, Stacks(k));
  }

  lemma BlocksAdd(k: State)
    requires Running(k)
    ensures |Stacks(k)| + |k.blocks| + |HeldBlocks(k)| == BLOCK_COUNT
  {
    var all, free := Numbers(1, BLOCK_COUNT + 1), set b: nat | 1 <= b <= BLOCK_COUNT && b in k.blocks;
    SizeOfSeq(k.blocks, free);
    StacksInRange(k);
    hide Running, HandedOut, Stacks;
    forall b: nat ensures b in HeldBlocks(k) <==> 1 <= b <= BLOCK_COUNT && b !in k.blocks && b !in Stacks(k) {
      HandedOutIs(k, b);
    }
    assert all == Stacks(k) + free + HeldBlocks(k);
    assert Stacks(k) !! free && (Stacks(k) + free) !! HeldBlocks(k);
  }

  lemma StacksInRange(k: State)
    requires Running(k)
    ensures forall b :: b in Stacks(k) ==> 1 <= b <= BLOCK_COUNT && b !in k.blocks
  {
    forall b | b in Stacks(k) ensures 1 <= b <= BLOCK_COUNT && b !in k.blocks {
      var i: nat :| i < TASK_COUNT && (k.tasks[i].state != Zombie || i == k.active) && k.tasks[i].stackBlock == b;
      assert HasStack(k.tasks, i, k.active);
    }
  }

  /** While user code runs there is one block for each free descriptor, in the queue or held by
      callers of ALLOC. */
  lemma BlocksMatchDescriptors(k: State)
    requires Running(k)
    ensures |k.blocks| + |HeldNow(k)| == |k.pool|
  {
    DescriptorsAdd(k);
    StacksAreTasks(k);
    BlocksAdd(k);
    hide Running, HandedOut, Stacks;
    SizeOfImage(HeldBlocks(k), Address, HeldNow(k));
  }

  /** So CREATE with a free descriptor runs out of memory exactly when callers of ALLOC hold as
      many blocks as there are free descriptors. */
  lemma NoMemoryExactly(k: State, priority: nat, entry: int)
    requires Running(k) && k.pool != []
    ensures DoCreate(k, priority, entry) == Halt(NoMemory) <==> |HeldNow(k)| == |k.pool|
  {
    BlocksMatchDescriptors(k);
    CreateRuns(k, priority, entry);
    hide Running, HeldNow;
  }

  /** What CREATE with a free descriptor comes to. */
  lemma CreateRuns(k: State, priority: nat, entry: int)
    requires Running(k) && k.pool != []
    ensures match DoCreate(k, priority, entry)
            case Done(_, _) => k.blocks != [] && priority % 256 < LEVELS && |k.ready[priority % 256]| < DEPTH
            case Halt(f) =>
              if k.blocks == [] then f == NoMemory
              else f == ReadyQueueFull && (priority % 256 >= LEVELS || |k.ready[priority % 256]| >= DEPTH)
  {
    assert k.pool[0] in k.pool;
    if k.blocks != [] { assert k.blocks[0] in k.blocks; }
    hide ReadyExact, SendersWait, EventsName, BlocksPartitioned, IdsMatch;
  }

  // ---------------------------------------------------------------- sixteen tasks at each priority

  /** The live tasks at priority p. */
  ghost function AtPriority(ts: Tasks, p: nat): set<nat> {
    set i: nat | i < TASK_COUNT && ts[i].state != Zombie && ts[i].priority == p
  }

  /** No more live tasks at any priority than its level can queue. */
  ghost predicate Sparse(ts: Tasks) {
    && (forall i {:trigger ts[i]} :: 0 <= i < TASK_COUNT && ts[i].state != Zombie ==> ts[i].priority < LEVELS)
    && (forall p: nat {:trigger AtPriority(ts, p)} :: |AtPriority(ts, p)| <= DEPTH)
  }

  /** A CREATE names one of the priorities, and fewer live tasks have it than its level can queue. */
  ghost predicate Roomy(k: State, input: Input) {
    match input
    case Syscall(Create(p, _)) => p % 256 < LEVELS && |AtPriority(k.tasks, p % 256)| < DEPTH
    case _ => true
  }

  /** No task comes to life and none changes its priority. */
  ghost predicate SameOrFewer(ts: Tasks, us: Tasks) {
    forall i {:trigger ts[i]} {:trigger us[i]} :: 0 <= i < TASK_COUNT && us[i].state != Zombie ==>
      ts[i].state != Zombie && us[i].priority == ts[i].priority
  }

  lemma SparseFrame(ts: Tasks, us: Tasks)
    requires Sparse(ts) && SameOrFewer(ts, us)
    ensures Sparse(us)
  {
    forall p: nat ensures |AtPriority(us, p)| <= DEPTH {
      SubsetSize(AtPriority(us, p), AtPriority(ts, p));
      assert |AtPriority(ts, p)| <= DEPTH;
    }
  }

  lemma LevelIs(k: State, p: nat)
    requires Inv(k) && p < LEVELS
    ensures var level := k.ready[p];
      && (forall m, n :: 0 <= m < n < |level| ==> Id(level[m]) != Id(level[n]))
      && (forall n {:trigger level[n]} :: 0 <= n < |level| ==>
            Id(level[n]) in AtPriority(k.tasks, p) && Id(level[n]) != k.active && k.tasks[Id(level[n])].state == Ready)
  {
    var level := k.ready[p];
    assert ReadyExact(k.tasks, k.ready, k.active);
    hide Inv;
    forall n | 0 <= n < |level| ensures Names(k.tasks, level[n], Ready) && k.tasks[Id(level[n])].priority == p && Id(level[n]) != k.active {
      assert level[n] in level;
    }
    assert Distinct(level);
  }

  /** A level of the ready queue holds at most the live tasks of its priority, without the active
      one and without those that are not ready. */
  lemma LevelFits(k: State, p: nat, without: set<nat>)
    requires Inv(k) && p < LEVELS && without <= AtPriority(k.tasks, p)
    requires forall i :: i in without ==> i == k.active || k.tasks[i].state != Ready
    ensures |k.ready[p]| + |without| <= |AtPriority(k.tasks, p)|
  {
    LevelIs(k, p);
    hide Inv;
    var level, all := k.ready[p], AtPriority(k.tasks, p);
    var ids := seq(|level|, n requires 0 <= n < |level| => Id(level[n]));
    FitsIn(ids, all - without);
    assert all == (all - without) + without;
  }

  /** There is room to queue a live task that is not queued. */
  lemma LevelHasRoom(k: State, i: nat)
    requires Inv(k) && Sparse(k.tasks) && i < TASK_COUNT && k.tasks[i].state != Zombie
    requires i == k.active || k.tasks[i].state != Ready
    ensures k.tasks[i].priority < LEVELS && |k.ready[k.tasks[i].priority]| < DEPTH
  {
    var p := k.tasks[i].priority;
    LevelFits(k, p, {i});
    assert |AtPriority(k.tasks, p)| <= DEPTH;
  }

  // ---------------------------------------------------------------- one entry

  lemma WakeRuns(k: State, event: nat)
    requires Running(k) && Sparse(k.tasks) && event < EVENT_TABLE_SIZE
    ensures Wake(k, event).Done? && Sparse(Wake(k, event).kernel.tasks)
  {
    if k.events[event] != 0 {
      SlotNamesSleeper(k, event);
      LevelHasRoom(k, Id(k.events[event]));
    }
    hide Inv, Sparse;
    SparseFrame(k.tasks, Wake(k, event).kernel.tasks);
  }

  lemma WakeReaderRuns(k: State, event: nat, byte: nat)
    requires Running(k) && Sparse(k.tasks) && event < EVENT_TABLE_SIZE
    ensures WakeReader(k, event, byte).Done? && Sparse(WakeReader(k, event, byte).kernel.tasks)
  {
    var i := Id(k.events[event]);
    if k.events[event] == 0 || i >= TASK_COUNT {
      WakeRuns(k, event);
    } else {
      var k1 := With(k, i, k.tasks[i].(ret := byte));
      SameControlKeeps(k, k1.tasks);
      hide Inv, Sparse, Wake;
      SparseFrame(k.tasks, k1.tasks);
      WakeRuns(k1, event);
    }
  }

  lemma InterruptRuns(k: State, irq: Irq)
    requires Running(k) && Sparse(k.tasks)
    ensures Interrupt(k, irq).Done? && Sparse(Interrupt(k, irq).kernel.tasks)
  {
    hide Running, Wake, WakeReader, Interrupt, Sparse;
    var p := (k1: State) => Running(k1) && Sparse(k1.tasks);
    forall k1: State, e: nat | e < EVENT_TABLE_SIZE && p(k1) ensures Wake(k1, e).Done? && p(Wake(k1, e).kernel) {
      WakeSlotKeeps(k1, e);
      WakeRuns(k1, e);
    }
    forall k1: State, e: nat, b: nat | e < EVENT_TABLE_SIZE && p(k1)
      ensures WakeReader(k1, e, b).Done? && p(WakeReader(k1, e, b).kernel)
    {
      WakeReaderKeeps(k1, e, b);
      WakeReaderRuns(k1, e, b);
    }
    forall k1: State, c, w | p(k1) ensures p(Rewired1(k1, c, w)) {
      RewiredRuns(k1, c, w);
    }
    forall k1: State, w | p(k1) ensures p(Rewired2(k1, w)) {
      RewiredRuns(k1, 0, w);
    }
    InterruptSucceeds(k, irq, p);
    InterruptSteps(k, irq, p);
  }

  /** A CREATE that has a block succeeds and leaves no more live tasks at a priority than its level
      can queue exactly when there was room. */
  lemma CreateRoomExactly(k: State, priority: nat, entry: int)
    requires Running(k) && Sparse(k.tasks) && k.pool != [] && k.blocks != []
    ensures (DoCreate(k, priority, entry).Done? && Sparse(DoCreate(k, priority, entry).kernel.tasks)) <==>
            Roomy(k, Syscall(Create(priority, entry)))
  {
    hide Inv, DoCreate, AtPriority, Sparse;
    var p, made := priority % 256, DoCreate(k, priority, entry);
    CreateRuns(k, priority, entry);
    if p < LEVELS { LevelFits(k, p, {}); }
    if made.Done? {
      CreateShape(k, priority, entry);
      OneMoreExactly(k.tasks, k.pool[0], NewTask(k, p));
    }
  }

  lemma OneMoreExactly(ts: Tasks, i: nat, t: Task)
    requires i < TASK_COUNT && Sparse(ts) && ts[i].state == Zombie && t.state != Zombie && t.priority < LEVELS
    ensures Sparse(ts[i := t]) <==> |AtPriority(ts, t.priority)| < DEPTH
  {
    var us, p := ts[i := t], t.priority;
    assert AtPriority(us, p) == AtPriority(ts, p) + {i} && i !in AtPriority(ts, p);
    assert |AtPriority(us, p)| == |AtPriority(ts, p)| + 1;
    forall q: nat | q != p ensures |AtPriority(us, q)| <= DEPTH {
      assert |AtPriority(ts, q)| <= DEPTH;
      SubsetSize(AtPriority(us, q), AtPriority(ts, q));
    }
  }

  lemma CallSparse(k: State, call: Call)
    requires Running(k) && SystemCall(k, call).Done? && Sparse(k.tasks) && !call.Create?
    ensures Sparse(SystemCall(k, call).kernel.tasks)
  {
    hide Inv, Sparse, SameOrFewer, DoSend, DoReceive, DoReply;
    match call {
      case Send(to, _) => SendFewer(k, to);
      case Receive => ReceiveFewer(k);
      case Reply(to, m) => ReplyFewer(k, to, m);
      case _ => PlainFewer(k, call);
    }
    SparseFrame(k.tasks, SystemCall(k, call).kernel.tasks);
  }

  lemma SendFewer(k: State, to: nat)
    requires k.tasks[k.active].state == Ready && DoSend(k, to).Done?
    ensures SameOrFewer(k.tasks, DoSend(k, to).kernel.tasks)
  {
  }

  lemma ReceiveFewer(k: State)
    requires k.tasks[k.active].state == Ready && DoReceive(k).Done?
    ensures SameOrFewer(k.tasks, DoReceive(k).kernel.tasks)
  {
  }

  lemma ReplyFewer(k: State, to: nat, m: Envelope)
    requires DoReply(k, to, m).Done?
    ensures SameOrFewer(k.tasks, DoReply(k, to, m).kernel.tasks)
  {
  }

  lemma PlainFewer(k: State, call: Call)
    requires k.tasks[k.active].state == Ready && SystemCall(k, call).Done?
    requires !call.Create? && !call.Send? && !call.Receive? && !call.Reply?
    ensures SameOrFewer(k.tasks, SystemCall(k, call).kernel.tasks)
  {
    hide DoCreate, DoSend, DoReceive, DoReply;
  }

  lemma CallHasRoom(k: State, call: Call)
    requires Running(k) && Sparse(k.tasks) && !call.Create?
    ensures SystemCall(k, call) != Halt(ReadyQueueFull)
  {
    match call {
      case Send(to, _) =>
        if Id(to) < TASK_COUNT && k.tasks[Id(to)].state == SendBlocked { LevelHasRoom(k, Id(to)); }
        hide Inv, Sparse;
      case Reply(to, _) =>
        if Id(to) < TASK_COUNT && k.tasks[Id(to)].state == ReplyBlocked { LevelHasRoom(k, Id(to)); }
        hide Inv, Sparse;
      case _ => hide Inv, Sparse;
    }
  }

  lemma SystemCallHasRoom(k: State, call: Call)
    requires Running(k) && Trusted(k, Syscall(call)) && Sparse(k.tasks) && Roomy(k, Syscall(call))
    ensures SystemCall(k, call) != Halt(ReadyQueueFull)
    ensures SystemCall(k, call).Done? ==> Sparse(SystemCall(k, call).kernel.tasks)
  {
    if call.Create? {
      CreateRuns(k, call.priority, call.entry);
      if k.blocks != [] { CreateRoomExactly(k, call.priority, call.entry); }
      hide Running, Sparse, DoCreate;
    } else {
      hide Running, Sparse, SystemCall;
      CallHasRoom(k, call);
      if SystemCall(k, call).Done? { CallSparse(k, call); }
    }
  }

  lemma RegistersSparse(k: State, k1: State, call: Call)
    requires SameControl(k.tasks, k1.tasks)
    ensures Sparse(k.tasks) ==> Sparse(k1.tasks)
    ensures Roomy(k, Syscall(call)) <==> Roomy(k1, Syscall(call))
  {
    assert forall p: nat :: AtPriority(k.tasks, p) == AtPriority(k1.tasks, p);
    if Sparse(k.tasks) { SparseFrame(k.tasks, k1.tasks); }
  }

  lemma HandlerHasRoom(k: State, input: Input)
    requires Running(k) && Trusted(k, input) && Sparse(k.tasks) && Roomy(k, input)
    ensures AfterHandler(k, input) != Halt(ReadyQueueFull)
    ensures AfterHandler(k, input).Done? ==> Sparse(AfterHandler(k, input).kernel.tasks)
  {
    hide Running, Sparse, Roomy, Trusted, SystemCall, Interrupt;
    match input {
      case Syscall(call) =>
        var k0 := Trap(k, call);
        TrapKeeps(k, call);
        TrappedTrust(k, call);
        RegistersSparse(k, k0, call);
        SystemCallHasRoom(k0, call);
        var h := SystemCall(k0, call);
        if h.Done? { RegistersSparse(h.kernel, Returned(h.kernel, h.ret), call); }
      case Hardware(irq) =>
        InterruptRuns(k, irq);
    }
  }

  lemma ScheduleHasRoom(k: State)
    requires Inv(k) && Sparse(k.tasks)
    ensures Schedule(k) != Crash(ReadyQueueFull)
    ensures Schedule(k).Enter? ==> Sparse(Schedule(k).kernel.tasks)
  {
    hide Inv, Sparse, Yield, SameOrFewer;
    ScheduleKeeps(k);
    if k.tasks[k.active].state == Ready {
      LevelHasRoom(k, k.active);
      YieldRuns(k);
    }
    if Schedule(k).Enter? {
      ScheduleFewer(k);
      SparseFrame(k.tasks, Schedule(k).kernel.tasks);
    }
  }

  lemma YieldRuns(k: State)
    requires k.tasks[k.active].priority < LEVELS && |k.ready[k.tasks[k.active].priority]| < DEPTH
    ensures Yield(k) != Crash(ReadyQueueFull)
  {
  }

  lemma ScheduleFewer(k: State)
    requires Inv(k) && Schedule(k).Enter?
    ensures SameOrFewer(k.tasks, Schedule(k).kernel.tasks)
  {
    hide Inv, Schedule;
    ScheduleTasks(k);
  }

  /** With room at every priority no entry finds the ready queue full. */
  lemma StepHasRoom(k: State, input: Input)
    requires Running(k) && Trusted(k, input) && Sparse(k.tasks) && Roomy(k, input)
    ensures Step(k, input) != Crash(ReadyQueueFull)
    ensures Step(k, input).Enter? ==> Sparse(Step(k, input).kernel.tasks)
  {
    hide Running, Inv, Sparse, Roomy, Trusted, Schedule, Step, AfterHandler;
    HandlerHasRoom(k, input);
    if AfterHandler(k, input).Done? {
      HandlerGentle(k, input);
      ScheduleHasRoom(AfterHandler(k, input).kernel);
    } else {
      HandlerFaults(k, input);
    }
  }

  // ---------------------------------------------------------------- runs

  /** Every CREATE of the run finds room at its priority. */
  ghost predicate RoomyRun(k: State, inputs: seq<Input>)
    decreases |inputs|
  {
    inputs == [] ||
    (Roomy(k, inputs[0]) && (Step(k, inputs[0]).Enter? ==> RoomyRun(Step(k, inputs[0]).kernel, inputs[1..])))
  }

  /** With at most sixteen live tasks at each priority the ready queue is never full. */
  lemma {:induction false} NeverFull(k: State, inputs: seq<Input>)
    requires Running(k) && TrustedRun(k, inputs) && Sparse(k.tasks) && RoomyRun(k, inputs)
    ensures Run(k, inputs) != Crash(ReadyQueueFull)
    decreases |inputs|
  {
    hide Running, Step, Trusted, Sparse, Roomy;
    if inputs != [] {
      StepGood(k, inputs[0]);
      StepHasRoom(k, inputs[0]);
      if Step(k, inputs[0]).Enter? {
        NeverFull(Step(k, inputs[0]).kernel, inputs[1..]);
      }
    }
  }

  // ---------------------------------------------------------------- memory

  /** When a task is created, callers of ALLOC hold fewer blocks than there are free descriptors. */
  ghost predicate Provided(k: State, input: Input) {
    match input
    case Syscall(Create(_, _)) => |HeldNow(k)| < |k.pool|
    case _ => true
  }

  lemma StepHasMemory(k: State, input: Input)
    requires Running(k) && Trusted(k, input) && Provided(k, input)
    ensures Step(k, input) != Crash(NoMemory)
  {
    StepKeeps(k, input);
    BlocksMatchDescriptors(k);
    hide Running, Step, Trusted, HeldNow;
  }

  ghost predicate ProvidedRun(k: State, inputs: seq<Input>)
    decreases |inputs|
  {
    inputs == [] ||
    (Provided(k, inputs[0]) && (Step(k, inputs[0]).Enter? ==> ProvidedRun(Step(k, inputs[0]).kernel, inputs[1..])))
  }

  lemma {:induction false} NeverShort(k: State, inputs: seq<Input>)
    requires Running(k) && TrustedRun(k, inputs) && ProvidedRun(k, inputs)
    ensures Run(k, inputs) != Crash(NoMemory)
    decreases |inputs|
  {
    hide Running, Step, Trusted, Provided;
    if inputs != [] {
      StepGood(k, inputs[0]);
      StepHasMemory(k, inputs[0]);
      if Step(k, inputs[0]).Enter? {
        NeverShort(Step(k, inputs[0]).kernel, inputs[1..]);
      }
    }
  }

  /** If nobody calls ALLOC, every task finds a block for its stack. */
  lemma {:induction false} ProvidedWithoutAlloc(k: State, inputs: seq<Input>)
    requires Running(k) && TrustedRun(k, inputs) && HeldNow(k) == {} && Syscall(Alloc) !in inputs
    ensures ProvidedRun(k, inputs)
    decreases |inputs|
  {
    hide Running, Step, HeldNow, Moved;
    if inputs != [] {
      StepGood(k, inputs[0]);
      if Step(k, inputs[0]).Enter? {
        StepMovesBlocks(k, inputs[0]);
        HeldMoves(k, inputs[0], Step(k, inputs[0]).kernel);
        ProvidedWithoutAlloc(Step(k, inputs[0]).kernel, inputs[1..]);
      }
    }
  }

  // ---------------------------------------------------------------- no failed assertion

  /** Arguments are in range, a SEND finds its target waiting or room in its queue, and a REPLY
      finds its target waiting for one. */
  predicate Guarded(k: State, input: Input) {
    InRange(input) &&
    match input
    case Syscall(Send(to, _)) =>
      var r := k.tasks[Id(to)]; r.state == SendBlocked || |r.sendQueue| != r.sendLength
    case Syscall(Reply(to, _)) => k.tasks[Id(to)].state == ReplyBlocked
    case _ => true
  }

  predicate CallerFault(f: Fault) {
    f == SendQueueFull || f == NotReplyBlocked || f == WildIndex
  }

  /** A full send queue, a reply nobody waits for and a wild index are met exactly by the inputs
      without these guards. */
  lemma GuardsExactly(k: State, input: Input)
    requires Running(k) && Trusted(k, input)
    ensures (Step(k, input).Crash? && CallerFault(Step(k, input).fault)) <==> !Guarded(k, input)
  {
    hide Running, Inv, Schedule, Trusted, AfterHandler, Step, Guarded;
    StepKeeps(k, input);
    GuardedHandler(k, input);
    if AfterHandler(k, input).Done? {
      HandlerGentle(k, input);
      ScheduleKeeps(AfterHandler(k, input).kernel);
    } else {
      HandlerFaults(k, input);
    }
  }

  lemma GuardedHandler(k: State, input: Input)
    requires Running(k) && Trusted(k, input)
    ensures var h := AfterHandler(k, input);
      (h.Halt? && CanHappen(k, input, h.fault) && CallerFault(h.fault)) <==> !Guarded(k, input)
  {
    hide Running, Trusted, SystemCall;
    match input {
      case Syscall(call) => GuardedCall(k, call);
      case Hardware(irq) =>
    }
  }

  lemma GuardedCall(k: State, call: Call)
    ensures var h := SystemCall(Trap(k, call), call);
      (h.Halt? && CanHappen(k, Syscall(call), h.fault) && CallerFault(h.fault)) <==> !Guarded(k, Syscall(call))
  {
    hide DoCreate, Pushed;
  }

  /** The limits and guards above, and an idle task that stays in its loop. */
  ghost predicate WellBehaved(k: State, input: Input) {
    Roomy(k, input) && Provided(k, input) && Guarded(k, input) && IdleObeys(k, input)
  }

  lemma StepNeverCrashes(k: State, input: Input)
    requires Running(k) && Trusted(k, input) && Sparse(k.tasks) && IdleAlive(k) && WellBehaved(k, input)
    ensures !Step(k, input).Crash?
    ensures Step(k, input).Enter? ==> Sparse(Step(k, input).kernel.tasks) && IdleAlive(Step(k, input).kernel)
  {
    hide Running, Trusted, Sparse, Roomy, Provided, Guarded, IdleObeys, IdleAlive, Step, AfterHandler;
    StepGood(k, input);
    StepHasRoom(k, input);
    StepHasMemory(k, input);
    GuardsExactly(k, input);
    IdleIsAlwaysThere(k, input);
  }

  ghost predicate WellBehavedRun(k: State, inputs: seq<Input>)
    decreases |inputs|
  {
    inputs == [] ||
    (WellBehaved(k, inputs[0]) && (Step(k, inputs[0]).Enter? ==> WellBehavedRun(Step(k, inputs[0]).kernel, inputs[1..])))
  }

  /** A run of well-behaved callers fails no assertion: it goes on or comes to an orderly stop. */
  lemma {:induction false} NeverCrashes(k: State, inputs: seq<Input>)
    requires Running(k) && TrustedRun(k, inputs) && Sparse(k.tasks) && IdleAlive(k) && WellBehavedRun(k, inputs)
    ensures !Run(k, inputs).Crash?
    decreases |inputs|
  {
    hide Running, Step, Trusted, Sparse, IdleAlive, WellBehaved;
    if inputs != [] {
      StepGood(k, inputs[0]);
      StepNeverCrashes(k, inputs[0]);
      if Step(k, inputs[0]).Enter? {
        NeverCrashes(Step(k, inputs[0]).kernel, inputs[1..]);
      }
    }
  }

  lemma BootIsSparse(cts: nat, entry: int)
    ensures Boot(cts, entry).Done? && Sparse(Boot(cts, entry).kernel.tasks)
  {
    BootShape(cts, entry);
    hide Boot;
    var ts := Boot(cts, entry).kernel.tasks;
    forall p: nat ensures |AtPriority(ts, p)| <= DEPTH {
      SubsetSize(AtPriority(ts, p), {0});
    }
  }

  /** From boot. */
  lemma BootNeverCrashes(cts: nat, entry: int, inputs: seq<Input>)
    requires TrustedRun(Boot(cts, entry).kernel, inputs) && WellBehavedRun(Boot(cts, entry).kernel, inputs)
    ensures !Run(Boot(cts, entry).kernel, inputs).Crash?
  {
    hide TrustedRun, WellBehavedRun, Run, Sparse;
    BootIsRunning(cts, entry);
    BootShape(cts, entry);
    BootRuns(cts, entry);
    BootIsSparse(cts, entry);
    NeverCrashes(Boot(cts, entry).kernel, inputs);
  }

  /** From boot: sixteen tasks at each priority, and nobody calling ALLOC. */
  lemma BootLimits(cts: nat, entry: int, inputs: seq<Input>)
    requires TrustedRun(Boot(cts, entry).kernel, inputs)
    ensures RoomyRun(Boot(cts, entry).kernel, inputs) ==> Run(Boot(cts, entry).kernel, inputs) != Crash(ReadyQueueFull)
    ensures Syscall(Alloc) !in inputs ==> Run(Boot(cts, entry).kernel, inputs) != Crash(NoMemory)
  {
    hide TrustedRun, RoomyRun, ProvidedRun, Run, Sparse, HeldNow;
    var k := Boot(cts, entry).kernel;
    BootIsRunning(cts, entry);
    BootIsSparse(cts, entry);
    BootHolds(cts, entry);
    hide Running, Boot;
    if RoomyRun(k, inputs) { NeverFull(k, inputs); }
    if Syscall(Alloc) !in inputs {
      ProvidedWithoutAlloc(k, inputs);
      NeverShort(k, inputs);
    }
  }
}
