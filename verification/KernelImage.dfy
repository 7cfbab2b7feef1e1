/** The kernel as the source has it: one structure, updated in place by the handlers and
    the scheduler. Each method is proved to do what the function of the same name in
    module Kernel says, so what is proved of those functions holds of these methods. */
module KernelImage {
  import opened Bits
  import opened RingBuffer
  import opened PriorityQueues
  import opened Kernel

  /** A handler's result, or the assertion that halted it. */
  datatype Outcome = Result(ret: int) | Failed(fault: Fault)

  function Told(h: Handled): Outcome {
    match h
    case Done(_, r) => Result(r)
    case Halt(f) => Failed(f)
  }

  /** A pool filled with consecutive numbers, as the two initialisers build theirs. */
  method FullPool(length: nat, first: nat) returns (pool: Queue<nat>)
    requires PowerOfTwo(length)
    ensures pool.Valid() && fresh(pool) && fresh(pool.data) && pool.length == length
    ensures pool.items == seq(length, j requires 0 <= j => j + first)
  {
    hide Represents, PowerOfTwo;
    var table := new nat[length];
    pool := new Queue(table, length);
    var i := 0;
    while i < length
      invariant 0 <= i <= length && pool.Valid() && pool.items == seq(i, j requires 0 <= j => j + first)
      modifies pool, pool.data
    {
      var rc := pool.Push(i + first);
      i := i + 1;
    }
  }

  class Image {
    const queue: PriorityQueue
    const tasks: array<Task>
    const allocationQueue: Queue<nat>
    const blockQueue: Queue<nat>
    const eventTable: array<nat>
    var activeTask: nat
    var systemRunning: nat
    var cts: nat
    var memory: map<int, int>
    var uart1: seq<Wire>
    var uart2: seq<Wire>

    ghost function Repr(): set<object>
      reads this
    {
      {this, queue, queue.data, queue.head, queue.tail, tasks, allocationQueue, allocationQueue.data,
       blockQueue, blockQueue.data, eventTable}
    }

    ghost predicate Valid()
      reads this, Repr()
    {
      && queue.Valid() && allocationQueue.Valid() && blockQueue.Valid()
      && allocationQueue.length == TASK_COUNT && blockQueue.length == BLOCK_COUNT
      && tasks.Length == TASK_COUNT && eventTable.Length == EVENT_TABLE_SIZE && activeTask < TASK_COUNT
      && allocationQueue != blockQueue && allocationQueue.data != blockQueue.data
      && eventTable !in {allocationQueue.data, blockQueue.data, queue.data, queue.head, queue.tail}
      && {allocationQueue.data, blockQueue.data} !! {queue.data, queue.head, queue.tail}
    }

    /** The value this object stands for. */
    ghost function View(): State
      requires Valid()
      reads this, Repr()
    {
      KernelData(activeTask, queue.levels, tasks[..], allocationQueue.items, blockQueue.items,
        memory, eventTable[..], systemRunning, cts, uart1, uart2)
    }

    /** The object has done what the function says. */
    ghost predicate Did(h: Handled, o: Outcome)
      reads this, Repr()
    {
      o == Told(h) && Valid() && (h.Done? ==> View() == h.kernel)
    }

    /** kernelDataInit and taskTableInit. */
    constructor (cts: nat)
      ensures Valid() && fresh(Repr()) && View() == Initial(cts)
    {
      hide Holds, Represents, PowerOfTwo, UnusedTask;
      PowerOf64();
      queue := new PriorityQueue();
      tasks := new Task[TASK_COUNT](i requires 0 <= i => UnusedTask(i));
      var descriptors := FullPool(TASK_COUNT, 0);
      var blocks := FullPool(BLOCK_COUNT, 1);
      allocationQueue, blockQueue := descriptors, blocks;
      eventTable := new nat[EVENT_TABLE_SIZE](_ => 0);
      activeTask, systemRunning, this.cts, memory := 0, 1, cts, map[];
      uart1, uart2 := [CtsRead(cts != 0)], [];
    }

    /** bootstrap: initialise, create the idle task, and make it the active one. */
    static method Bootstrap(cts: nat, entry: int) returns (image: Image, o: Outcome)
      ensures fresh(image) && fresh(image.Repr()) && image.Did(Boot(cts, entry), o)
      ensures o == Result(0)
    {
      hide Holds, Represents;
      image := new Image(cts);
      BootCreatesTask0(cts, entry);
      o := image.AllocTask(LEVELS - 1, entry, 0);
      image.activeTask := Id(o.ret);
    }

    /** assertOk(priorityQueuePush(...)) on a task just marked ready. */
    method MakeReady(i: nat) returns (o: Outcome)
      requires Valid() && i < TASK_COUNT
      modifies Repr()
      ensures Did(Kernel.MakeReady(old(View()), i), o)
    {
      hide Holds, Represents;
      tasks[i] := tasks[i].(state := Ready);
      var rc := queue.Push(tasks[i].priority, tasks[i].tid);
      if rc < 0 {
        return Failed(ReadyQueueFull);
      }
      o := Result(0);
    }

    /** memoryAllocatorAlloc. */
    method AllocBlock() returns (address: int)
      requires Valid()
      modifies Repr()
      ensures Valid() && (View(), address) == Kernel.AllocBlock(old(View()))
    {
      hide Holds, Represents;
      var rc, block := blockQueue.Pop(0);
      if rc == OK {
        address := BASE + (block * BLOCK_WORDS - 1);
        memory := memory[address := block];
        address := address - 1;
        return;
      }
      address := 0;
    }

    /** memoryAllocatorFree. */
    method FreeBlock(stack: int) returns (o: Outcome)
      requires Valid()
      modifies Repr()
      ensures Did(Kernel.FreeBlock(old(View()), stack), o)
    {
      hide Holds, Represents;
      if stack == 0 {
        return Failed(NullFree);
      }
      var id := Read(memory, stack + 1);
      var rc := blockQueue.Push(id % 0x1_0000);
      if rc < 0 {
        return Failed(BlockQueueFull);
      }
      o := Result(0);
    }

    /** taskTableAlloc. */
    method AllocTask(priority: nat, entry: int, pid: nat) returns (o: Outcome)
      requires Valid()
      modifies Repr()
      ensures Did(Kernel.AllocTask(old(View()), priority, entry, pid), o)
    {
      hide Holds, Represents;
      if allocationQueue.count == 0 {
        return Result(-1);
      }
      var rc, index := allocationQueue.Pop(0);
      if index >= TASK_COUNT {
        return Failed(WildIndex);
      }
      var stack := AllocBlock();
      if stack == 0 {
        return Failed(NoMemory);
      }
      tasks[index] := tasks[index].(
        stackBase := stack, stackBlock := Read(memory, stack + 1) % 0x1_0000, state := Ready, pid := pid,
        priority := priority, sendQueue := [], sendLength := SEND_QUEUE_LENGTH);
      memory := memory[stack := entry][stack - 14 := TASK_EXIT][stack - 15 := 0x10];
      o := Result(tasks[index].tid);
    }

    /** taskTableFree of the active task. */
    method FreeTask() returns (o: Outcome)
      requires Valid()
      modifies Repr()
      ensures Did(Kernel.FreeTask(old(View())), o)
    {
      hide Holds, Represents;
      var t := tasks[activeTask];
      var rc := allocationQueue.Push(activeTask);
      tasks[activeTask] := t.(stackBlock := 0, tid := Tid(Id(t.tid), (t.tid / 256 + 1) % 256), pid := 0, stackBase := 0);
      o := FreeBlock(t.stackBase);
    }

    /** The CREATE case. */
    method DoCreate(priority: nat, entry: int) returns (o: Outcome)
      requires Valid()
      modifies Repr()
      ensures Did(Kernel.DoCreate(old(View()), priority, entry), o)
    {
      hide Holds, Represents, Kernel.AllocTask;
      o := AllocTask(priority % 256, entry, tasks[activeTask].tid);
      if o.Failed? {
        return;
      }
      var id := o.ret % 0x1_0000;
      var rc := queue.Push(priority % 256, id);
      if rc < 0 {
        return Failed(ReadyQueueFull);
      }
      o := Result(id);
    }

    /** The SEND case. */
    method DoSend(to: nat) returns (o: Outcome)
      requires Valid()
      modifies Repr()
      ensures Did(Kernel.DoSend(old(View()), to), o)
    {
      hide Holds, Represents, Kernel.MakeReady;
      var r, me := Id(to), tasks[activeTask];
      if r >= TASK_COUNT {
        return Failed(WildIndex);
      }
      if tasks[r].state == SendBlocked {
        tasks[r] := tasks[r].(inbox := me.message, sender := me.tid, ret := 0);
        tasks[activeTask] := tasks[activeTask].(state := ReplyBlocked);
        o := MakeReady(r);
      } else {
        if |tasks[r].sendQueue| == tasks[r].sendLength {
          return Failed(SendQueueFull);
        }
        tasks[r] := tasks[r].(sendQueue := tasks[r].sendQueue + [me.tid]);
        tasks[activeTask] := tasks[activeTask].(state := ReceiveBlocked);
        o := Result(0);
      }
    }

    /** The RECEIVE case. */
    method DoReceive() returns (o: Outcome)
      requires Valid()
      modifies Repr()
      ensures Did(Kernel.DoReceive(old(View())), o)
    {
      hide Holds, Represents;
      var me := tasks[activeTask];
      if me.sendQueue == [] {
        tasks[activeTask] := me.(state := SendBlocked);
        return Result(0);
      }
      var id := me.sendQueue[0];
      var s := Id(id);
      if s >= TASK_COUNT {
        return Failed(WildIndex);
      }
      tasks[activeTask] := me.(sendQueue := me.sendQueue[1..], sender := id, inbox := tasks[s].message);
      if tasks[s].state != ReceiveBlocked {
        return Failed(SenderNotWaiting);
      }
      tasks[s] := tasks[s].(state := ReplyBlocked);
      tasks[activeTask] := tasks[activeTask].(state := Ready);
      o := Result(0);
    }

    /** The REPLY case. */
    method DoReply(to: nat, m: Envelope) returns (o: Outcome)
      requires Valid()
      modifies Repr()
      ensures Did(Kernel.DoReply(old(View()), to, m), o)
    {
      hide Holds, Represents, Kernel.MakeReady;
      var r := Id(to);
      if r >= TASK_COUNT {
        return Failed(WildIndex);
      }
      tasks[r] := tasks[r].(reply := m, ret := 0);
      if tasks[r].state != ReplyBlocked {
        return Failed(NotReplyBlocked);
      }
      o := MakeReady(r);
    }

    /** The AWAIT and READ cases, and the end of WRITE. */
    method DoAwait(event: nat) returns (o: Outcome)
      requires Valid()
      modifies Repr()
      ensures Did(Kernel.DoAwait(old(View()), event), o)
    {
      hide Holds, Represents;
      if event >= EVENT_TABLE_SIZE {
        return Failed(WildIndex);
      }
      eventTable[event] := tasks[activeTask].tid;
      tasks[activeTask] := tasks[activeTask].(state := EventBlocked);
      o := Result(0);
    }

    /** systemCallHandler. */
    method SystemCallHandler(call: Call) returns (o: Outcome)
      requires Valid()
      modifies Repr()
      ensures Did(SystemCall(old(View()), call), o)
    {
      hide Holds, Represents, Kernel.DoCreate, Kernel.DoSend, Kernel.DoReceive, Kernel.DoReply, Kernel.DoAwait,
        Kernel.AllocBlock, Kernel.FreeBlock;
      o := Result(0);
      match call {
        case Exit => tasks[activeTask] := tasks[activeTask].(state := Zombie);
        case Pass =>
        case IsRunning => o := Result(systemRunning);
        case Shutdown => systemRunning := 0;
        case Kill => systemRunning := 2;
        case Create(priority, entry) => o := DoCreate(priority, entry);
        case GetTid => o := Result(tasks[activeTask].tid);
        case GetPid => o := Result(tasks[activeTask].pid);
        case GetPriority(t) =>
          o := if Id(t) >= TASK_COUNT then Failed(WildIndex) else Result(tasks[Id(t)].priority);
        case GetState(t) =>
          o := if Id(t) >= TASK_COUNT then Failed(WildIndex) else Result(StateNumber(tasks[Id(t)].state));
        case Send(to, _) => o := DoSend(to);
        case Receive => o := DoReceive();
        case Reply(to, m) => o := DoReply(to, m);
        case Write(port, _) =>
          if port == EVENT_TERMINAL_WRITE || port == EVENT_TRAIN_WRITE {
            o := DoAwait(port);
          } else {
            o := Result(-1);
          }
        case Await(event, _) => o := DoAwait(event);
        case Alloc =>
          var address := AllocBlock();
          o := Result(address);
        case Free(address) => o := FreeBlock(address);
        case Unknown =>
      }
    }

    // ---------------------------------------------------------------- interrupts

    /** Ready the task in an event slot, if any, and empty the slot. */
    method Wake(event: nat) returns (o: Outcome)
      requires Valid() && event < EVENT_TABLE_SIZE
      modifies Repr()
      ensures Did(Kernel.Wake(old(View()), event), o)
    {
      hide Holds, Represents, Kernel.MakeReady;
      var tid := eventTable[event];
      if tid == 0 {
        return Result(0);
      }
      if Id(tid) >= TASK_COUNT {
        return Failed(WildIndex);
      }
      o := MakeReady(Id(tid));
      if o.Failed? {
        return;
      }
      eventTable[event] := 0;
      o := Result(0);
    }

    /** As Wake, returning a byte to the reader. */
    method WakeReader(event: nat, byte: nat) returns (o: Outcome)
      requires Valid() && event < EVENT_TABLE_SIZE
      modifies Repr()
      ensures Did(Kernel.WakeReader(old(View()), event, byte), o)
    {
      hide Holds, Represents, Kernel.Wake;
      var tid := eventTable[event];
      if tid != 0 && Id(tid) < TASK_COUNT {
        tasks[Id(tid)] := tasks[Id(tid)].(ret := byte);
      }
      o := Wake(event);
    }

    /** The transmit part of the UART 1 interrupt. */
    method Transmit1(irq: Irq) returns (o: Outcome)
      requires Valid() && irq.tx1
      modifies Repr()
      ensures Did(Kernel.Transmit1(old(View()), irq), o)
    {
      hide Holds, Represents, Kernel.Wake;
      var tid := eventTable[EVENT_TRAIN_WRITE];
      if tid != 0 && cts != 0 {
        if Kernel.Wake(View(), EVENT_TRAIN_WRITE).Done? { WakeFacts(View(), EVENT_TRAIN_WRITE); }
        o := Wake(EVENT_TRAIN_WRITE);
        if o.Failed? {
          return;
        }
        uart1 := uart1 + [Wrote(tasks[Id(tid)].byte % 256, Id(tid))];
        cts := 0;
      }
      o := Result(0);
    }

    /** The transmit part of the UART 2 interrupt. */
    method Transmit2(irq: Irq) returns (o: Outcome)
      requires Valid() && irq.tx2
      modifies Repr()
      ensures Did(Kernel.Transmit2(old(View()), irq), o)
    {
      hide Holds, Represents, Kernel.Wake;
      var tid := eventTable[EVENT_TERMINAL_WRITE];
      if tid != 0 {
        if Kernel.Wake(View(), EVENT_TERMINAL_WRITE).Done? { WakeFacts(View(), EVENT_TERMINAL_WRITE); }
        o := Wake(EVENT_TERMINAL_WRITE);
        if o.Failed? {
          return;
        }
        uart2 := uart2 + [Wrote(tasks[Id(tid)].byte % 256, Id(tid))];
      }
      o := Result(0);
    }

    /** The UART 1 part of eventHandler. */
    method Uart1Handler(irq: Irq) returns (o: Outcome)
      requires Valid()
      modifies Repr()
      ensures Did(Uart1(old(View()), irq), o)
    {
      hide Holds, Represents, Kernel.Transmit1, Kernel.WakeReader;
      o := Result(0);
      if !irq.uart1 {
        return;
      }
      if irq.modem {
        cts := irq.cts;
        uart1 := uart1 + [CtsRead(cts != 0)];
      }
      assert View() == Modem(old(View()), irq);
      if irq.tx1 {
        o := Transmit1(irq);
        if o.Failed? {
          return;
        }
      } else {
        NoTransmit1(View(), irq);
      }
      if irq.rx1 {
        o := WakeReader(EVENT_TRAIN_READ, irq.byte1 % 256);
      } else {
        o := Result(0);
      }
    }

    /** eventHandler. */
    method EventHandler(irq: Irq) returns (o: Outcome)
      requires Valid()
      modifies Repr()
      ensures Did(Interrupt(old(View()), irq), o)
    {
      hide Holds, Represents, Uart1, Kernel.Wake, Kernel.WakeReader, Kernel.Transmit2;
      o := Uart1Handler(irq);
      if o.Failed? {
        return;
      }
      if irq.tick10 {
        o := Wake(EVENT_10MS_TICK);
        if o.Failed? {
          return;
        }
      }
      if irq.tick150 {
        o := Wake(EVENT_150MS_TICK);
        if o.Failed? {
          return;
        }
      }
      if irq.rx2 {
        o := WakeReader(EVENT_TERMINAL_READ, irq.byte2 % 256);
        if o.Failed? {
          return;
        }
      }
      if irq.tx2 {
        o := Transmit2(irq);
      } else {
        NoTransmit2(View(), irq);
        o := Result(0);
      }
    }

    // ---------------------------------------------------------------- the scheduler

    ghost predicate Scheduled(s: Kernel.Scheduled, end: Next)
      reads this, Repr()
    {
      && Valid()
      && match s {
           case Enter(k) => end == Entered && View() == k
           case Stop => end == Stopped
           case Crash(f) => end == Crashed(f)
         }
    }

    method Activate(tid: nat) returns (end: Next)
      requires Valid()
      modifies Repr()
      ensures Scheduled(Kernel.Activate(old(View()), tid), end)
    {
      hide Holds, Represents;
      var i := Id(tid);
      if i >= TASK_COUNT {
        return Crashed(WildIndex);
      }
      activeTask := i;
      if tasks[i].stackBlock != Read(memory, tasks[i].stackBase + 1) {
        return Crashed(StackOverwritten);
      }
      end := Entered;
    }

    /** The branch for a running task that is still ready. */
    method Yield() returns (end: Next)
      requires Valid()
      modifies Repr()
      ensures Scheduled(Kernel.Yield(old(View())), end)
    {
      hide Holds, Represents, Kernel.Activate, PushPopped;
      var rc, tid := queue.PushPop(tasks[activeTask].priority, tasks[activeTask].tid);
      if rc < 0 {
        return Crashed(ReadyQueueFull);
      }
      if rc == 1 {
        EarlyReturn(old(View()));
        return Entered;
      }
      end := Activate(tid);
    }

    /** The branch that takes the next ready task. */
    method RunNext() returns (end: Next)
      requires Valid()
      modifies Repr()
      ensures Scheduled(Kernel.RunNext(old(View())), end)
    {
      hide Holds, Represents, Kernel.Activate;
      var empty := queue.Empty();
      if empty {
        return if systemRunning != 0 then Crashed(IdleMissing) else Stopped;
      }
      var rc, tid := queue.Pop(tasks[activeTask].tid);
      end := Activate(tid);
    }

    /** scheduler. */
    method Scheduler() returns (end: Next)
      requires Valid()
      modifies Repr()
      ensures Scheduled(Schedule(old(View())), end)
    {
      hide Holds, Represents, Kernel.Yield, Kernel.RunNext, Kernel.FreeTask;
      if systemRunning == 2 {
        return Stopped;
      }
      if tasks[activeTask].state == Ready {
        end := Yield();
        return;
      }
      if tasks[activeTask].state == Zombie {
        var o := FreeTask();
        if o.Failed? {
          return Crashed(o.fault);
        }
      }
      end := RunNext();
    }

    // ---------------------------------------------------------------- entries into the kernel

    /** A software interrupt: save the arguments, handle, store the result, schedule. */
    method Syscall(call: Call) returns (end: Next)
      requires Valid()
      modifies Repr()
      ensures Scheduled(Step(old(View()), Input.Syscall(call)), end)
    {
      hide Holds, Represents, SystemCall, Schedule;
      if call.Send? {
        tasks[activeTask] := tasks[activeTask].(message := call.message);
      } else if call.Write? || call.Await? {
        tasks[activeTask] := tasks[activeTask].(byte := call.byte);
      }
      assert View() == Trap(old(View()), call);
      var o := SystemCallHandler(call);
      if o.Failed? {
        return Crashed(o.fault);
      }
      tasks[activeTask] := tasks[activeTask].(ret := o.ret);
      end := Scheduler();
    }

    /** A hardware interrupt. */
    method Hardware(irq: Irq) returns (end: Next)
      requires Valid()
      modifies Repr()
      ensures Scheduled(Step(old(View()), Input.Hardware(irq)), end)
    {
      hide Holds, Represents, Interrupt, Schedule;
      var o := EventHandler(irq);
      if o.Failed? {
        return Crashed(o.fault);
      }
      end := Scheduler();
    }
  }

  datatype Next = Entered | Stopped | Crashed(fault: Fault)

  lemma BootCreatesTask0(cts: nat, entry: int)
    ensures Boot(cts, entry).Done? && Boot(cts, entry).ret == 0 && Boot(cts, entry).kernel.active == 0
  {
    var k := Initial(cts);
    assert k.pool[0] == 0 && k.blocks[0] == 1;
  }

  lemma WakeFacts(k: State, event: nat)
    requires event < EVENT_TABLE_SIZE && k.events[event] != 0 && Kernel.Wake(k, event).Done?
    ensures var i := Id(k.events[event]);
      i < TASK_COUNT && Kernel.Wake(k, event).kernel.tasks[i].byte == k.tasks[i].byte
  {
  }

  lemma NoTransmit1(k: State, irq: Irq)
    requires !irq.tx1
    ensures Kernel.Transmit1(k, irq) == Done(k, 0)
  {
  }

  lemma NoTransmit2(k: State, irq: Irq)
    requires !irq.tx2
    ensures Kernel.Transmit2(k, irq) == Done(k, 0)
  {
  }

  lemma EarlyReturn(k: State)
    requires var t := k.tasks[k.active]; PushPopped(k.ready, t.priority, t.tid).rc == 1
    ensures var t := k.tasks[k.active]; PushPopped(k.ready, t.priority, t.tid).levels == k.ready
  {
  }

  lemma PowerOf64()
    ensures PowerOfTwo(TASK_COUNT) && PowerOfTwo(BLOCK_COUNT)
  {
    assert Pow2(6) == 64;
  }
}
