/** The UARTs: the CTS handshake of kernel/event.c, and the bytes that reach the wires. */
module KernelDevices {
  import opened Kernel
  import opened KernelAccounting
  import opened KernelInterrupts
  import opened KernelInvariant
  import opened KernelRuns
  import opened KernelSignals

  /** Each byte written directly follows a reading of CTS as set, and the kernel's flag
      says whether such a reading is still unused. */
  ghost predicate Paced(wire: seq<Wire>, cts: nat) {
    && (forall j :: 0 <= j < |wire| && wire[j].Wrote? ==> j > 0 && wire[j - 1] == CtsRead(true))
    && (cts != 0 <==> wire != [] && wire[|wire| - 1] == CtsRead(true))
  }

  /** Between two writes there is a reading of CTS as set. */
  lemma WritesAreSeparated(wire: seq<Wire>, cts: nat, i: nat, j: nat)
    requires Paced(wire, cts) && i < j < |wire| && wire[i].Wrote? && wire[j].Wrote?
    ensures exists m :: i < m < j && wire[m] == CtsRead(true)
  {
    assert wire[j - 1] == CtsRead(true);
  }

  /** Work that does not concern UART 1. */
  lemma ElsewhereUntouched(k: State, event: nat, byte: nat)
    requires event < EVENT_TABLE_SIZE
    ensures Wake(k, event).Done? ==> Wake(k, event).kernel.uart1 == k.uart1 && Wake(k, event).kernel.cts == k.cts
    ensures WakeReader(k, event, byte).Done? ==>
      WakeReader(k, event, byte).kernel.uart1 == k.uart1 && WakeReader(k, event, byte).kernel.cts == k.cts
  {
  }

  lemma Uart1Paced(k: State, irq: Irq)
    requires Uart1(k, irq).Done? && Paced(k.uart1, k.cts)
    ensures Paced(Uart1(k, irq).kernel.uart1, Uart1(k, irq).kernel.cts)
  {
    hide Wake, WakeReader;
    if irq.uart1 {
      var k1 := Modem(k, irq);
      ElsewhereUntouched(k1, EVENT_TRAIN_WRITE, 0);
      var k2 := Transmit1(k1, irq).kernel;
      ElsewhereUntouched(k2, EVENT_TRAIN_READ, irq.byte1 % 256);
    }
  }

  lemma InterruptPaced(k: State, irq: Irq)
    requires Interrupt(k, irq).Done? && Paced(k.uart1, k.cts)
    ensures Paced(Interrupt(k, irq).kernel.uart1, Interrupt(k, irq).kernel.cts)
  {
    hide Wake, WakeReader, Paced;
    Uart1Paced(k, irq);
    InterruptElsewhere(k, irq);
  }

  /** After the UART 1 part, nothing touches UART 1. */
  lemma InterruptElsewhere(k: State, irq: Irq)
    requires Interrupt(k, irq).Done?
    ensures Uart1(k, irq).Done?
    ensures Interrupt(k, irq).kernel.uart1 == Uart1(k, irq).kernel.uart1
    ensures Interrupt(k, irq).kernel.cts == Uart1(k, irq).kernel.cts
  {
    hide Wake, WakeReader, Uart1, Interrupt;
    TailSteps(k, irq, _ => true);
    var done := Uart1(k, irq).kernel;
    var p := (k1: State) => k1.uart1 == done.uart1 && k1.cts == done.cts;
    forall k1: State, e: nat | e < EVENT_TABLE_SIZE && p(k1) && Wake(k1, e).Done? ensures p(Wake(k1, e).kernel) {
      ElsewhereUntouched(k1, e, 0);
    }
    forall k1: State, e: nat, b: nat | e < EVENT_TABLE_SIZE && p(k1) && WakeReader(k1, e, b).Done?
      ensures p(WakeReader(k1, e, b).kernel)
    {
      ElsewhereUntouched(k1, e, b);
    }
    TailSteps(k, irq, p);
  }

  lemma CallsLeaveWires(k: State, call: Call)
    requires SystemCall(k, call).Done?
    ensures var k1 := SystemCall(k, call).kernel; k1.uart1 == k.uart1 && k1.cts == k.cts && k1.uart2 == k.uart2
  {
  }

  lemma SchedulerLeavesWires(k: State)
    requires Schedule(k).Enter?
    ensures var k1 := Schedule(k).kernel;
      k1.uart1 == k.uart1 && k1.cts == k.cts && k1.uart2 == k.uart2 && k1.events == k.events
  {
  }

  lemma StepPaced(k: State, input: Input)
    requires Step(k, input).Enter? && Paced(k.uart1, k.cts)
    ensures Paced(Step(k, input).kernel.uart1, Step(k, input).kernel.cts)
  {
    hide SystemCall, Interrupt, Schedule, Paced;
    match input {
      case Syscall(call) =>
        var h := SystemCall(Trap(k, call), call);
        CallsLeaveWires(Trap(k, call), call);
        SchedulerLeavesWires(Returned(h.kernel, h.ret));
      case Hardware(irq) =>
        InterruptPaced(k, irq);
        SchedulerLeavesWires(Interrupt(k, irq).kernel);
    }
  }

  /** Over every run whatsoever, writes to UART 1 stay paced. */
  lemma {:induction false} RunPaced(k: State, inputs: seq<Input>)
    requires Run(k, inputs).Enter? && Paced(k.uart1, k.cts)
    ensures Paced(Run(k, inputs).kernel.uart1, Run(k, inputs).kernel.cts)
    decreases |inputs|
  {
    hide Step, Paced;
    if inputs != [] {
      StepPaced(k, inputs[0]);
      RunPaced(Step(k, inputs[0]).kernel, inputs[1..]);
    }
  }

  lemma BootRunPaced(cts: nat, entry: int, inputs: seq<Input>)
    requires Run(Boot(cts, entry).kernel, inputs).Enter?
    ensures Paced(Run(Boot(cts, entry).kernel, inputs).kernel.uart1, Run(Boot(cts, entry).kernel, inputs).kernel.cts)
  {
    assert Boot(cts, entry).kernel.uart1 == [CtsRead(cts != 0)] && Boot(cts, entry).kernel.cts == cts;
    hide Boot, Run;
    RunPaced(Boot(cts, entry).kernel, inputs);
  }

  // ---------------------------------------------------------------- each byte completes one write

  /** The events of tasks that write to UART 1 and UART 2. */
  predicate IsPort(port: nat) {
    port == EVENT_TRAIN_WRITE || port == EVENT_TERMINAL_WRITE
  }

  /** What the port's UART has seen. */
  function WireOf(k: State, port: nat): seq<Wire> {
    if port == EVENT_TRAIN_WRITE then k.uart1 else k.uart2
  }

  /** UART 1 also shows the readings of its CTS flag. */
  function ReadingOf(irq: Irq, port: nat): seq<Wire> {
    if port == EVENT_TRAIN_WRITE then Reading(irq) else []
  }

  /** The task waiting to write is readied by an interrupt exactly when its slot is signalled, and
      then its own byte goes out, once; otherwise it keeps waiting. */
  lemma WriteCompletes(k: State, irq: Irq, port: nat)
    requires Running(k) && Interrupt(k, irq).Done? && IsPort(port)
    ensures var k1, w := Interrupt(k, irq).kernel, k.events[port];
      if w != 0 && Signals(k, irq, port) then
        && Names(k.tasks, w, EventBlocked) && k1.tasks[Id(w)].state == Ready && k1.events[port] == 0
        && WireOf(k1, port) == WireOf(k, port) + ReadingOf(irq, port) + [Wrote(k.tasks[Id(w)].byte % 256, Id(w))]
      else
        && k1.events[port] == w && WireOf(k1, port) == WireOf(k, port) + ReadingOf(irq, port)
        && (w != 0 ==> Names(k1.tasks, w, EventBlocked))
  {
    hide Inv, Interrupt;
    PortAfter(k, irq, port);
    if k.events[port] != 0 { SlotNamesSleeper(k, port); }
  }

  lemma PortAfter(k: State, irq: Irq, port: nat)
    requires Running(k) && Interrupt(k, irq).Done? && IsPort(port)
    ensures var k1, w := Interrupt(k, irq).kernel, k.events[port];
      && k1.events[port] == (if Signals(k, irq, port) then 0 else w)
      && WireOf(k1, port) == WireOf(k, port) + ReadingOf(irq, port) + Writing(k, irq, port)
      && (w == 0 || Id(w) < TASK_COUNT)
      && (w != 0 ==> k1.tasks[Id(w)] == if Signals(k, irq, port) then k.tasks[Id(w)].(state := Ready) else k.tasks[Id(w)])
  {
    hide Running, Interrupt, Joining, Signals, Writing, Reading;
    InterruptExactly(k, irq);
    SlotsAreApart(k);
    assert k.uart2 + [] + Writing(k, irq, port) == k.uart2 + Writing(k, irq, port);
  }

  ghost predicate SameBytes(ts: Tasks, us: Tasks) {
    forall i {:trigger ts[i]} {:trigger us[i]} :: 0 <= i < TASK_COUNT ==> us[i].byte == ts[i].byte
  }

  lemma CallBytes(k: State, call: Call)
    requires SystemCall(k, call).Done?
    ensures SameBytes(k.tasks, SystemCall(k, call).kernel.tasks)
  {
  }

  lemma WakeBytes(k: State, event: nat, byte: nat)
    requires event < EVENT_TABLE_SIZE
    ensures Wake(k, event).Done? ==> SameBytes(k.tasks, Wake(k, event).kernel.tasks)
    ensures WakeReader(k, event, byte).Done? ==> SameBytes(k.tasks, WakeReader(k, event, byte).kernel.tasks)
  {
  }

  lemma InterruptBytes(k: State, irq: Irq)
    requires Interrupt(k, irq).Done?
    ensures SameBytes(k.tasks, Interrupt(k, irq).kernel.tasks)
  {
    hide Wake, WakeReader, Interrupt;
    var p := (k1: State) => SameBytes(k.tasks, k1.tasks);
    forall k1: State, e: nat | e < EVENT_TABLE_SIZE && p(k1) && Wake(k1, e).Done? ensures p(Wake(k1, e).kernel) {
      WakeBytes(k1, e, 0);
    }
    forall k1: State, e: nat, b: nat | e < EVENT_TABLE_SIZE && p(k1) && WakeReader(k1, e, b).Done?
      ensures p(WakeReader(k1, e, b).kernel)
    {
      WakeBytes(k1, e, b);
    }
    InterruptSteps(k, irq, p);
  }

  lemma ScheduleBytes(k: State)
    requires Schedule(k).Enter?
    ensures SameBytes(k.tasks, Schedule(k).kernel.tasks)
  {
  }

  /** A call leaves its byte with its caller, and no step changes a byte otherwise: what goes out
      when the write completes is the argument it was given. */
  lemma BytesStay(k: State, input: Input, i: nat)
    requires Step(k, input).Enter? && i < TASK_COUNT
    ensures Step(k, input).kernel.tasks[i].byte ==
      if input.Syscall? && (input.call.Write? || input.call.Await?) && i == k.active then input.call.byte
      else k.tasks[i].byte
  {
    hide SystemCall, Interrupt, Schedule;
    match input {
      case Syscall(call) =>
        var h := SystemCall(Trap(k, call), call);
        CallBytes(Trap(k, call), call);
        ScheduleBytes(Returned(h.kernel, h.ret));
      case Hardware(irq) =>
        InterruptBytes(k, irq);
        ScheduleBytes(Interrupt(k, irq).kernel);
    }
  }

  // ---------------------------------------------------------------- the stream of bytes

  /** The bytes written, and by whom. */
  function Sent(wire: seq<Wire>): seq<Wire> {
    if wire == [] then []
    else Sent(wire[..|wire| - 1]) + (if wire[|wire| - 1].Wrote? then [wire[|wire| - 1]] else [])
  }

  /** The byte of the task waiting to write, if any. */
  function Pending(k: State, port: nat): seq<Wire>
    requires IsPort(port)
  {
    var w := k.events[port];
    if w == 0 || Id(w) >= TASK_COUNT then [] else [Wrote(k.tasks[Id(w)].byte % 256, Id(w))]
  }

  /** A call that waits in the slot of the port's writer. */
  predicate Requests(input: Input, port: nat) {
    input.Syscall? &&
    ((input.call.Write? && input.call.port == port) || (input.call.Await? && input.call.event == port))
  }

  /** The byte it asks to have written. */
  function Requested(k: State, input: Input, port: nat): seq<Wire> {
    if Requests(input, port) then [Wrote(input.call.byte % 256, k.active)] else []
  }

  /** Such a call comes only while the slot is free, from a task whose id is not 0. */
  predicate SlotFree(k: State, input: Input, port: nat)
    requires IsPort(port)
  {
    Requests(input, port) ==> k.events[port] == 0 && k.tasks[k.active].tid != 0
  }

  /** Considerate callers find it so. */
  lemma ConsiderateFindsFree(k: State, input: Input, waits: Waits, port: nat)
    requires Considerate(k, input, waits) && IsPort(port)
    ensures SlotFree(k, input, port)
  {
  }

  lemma SentMore(wire: seq<Wire>, x: Wire)
    ensures Sent(wire + [x]) == Sent(wire) + (if x.Wrote? then [x] else [])
  {
    assert (wire + [x])[..|wire|] == wire;
  }

  /** Nothing the pending byte depends on has changed. */
  lemma PendingFrame(k: State, k1: State, port: nat)
    requires IsPort(port) && SameBytes(k.tasks, k1.tasks) && k1.events[port] == k.events[port]
    ensures Pending(k1, port) == Pending(k, port)
  {
  }

  lemma CallSlot(k: State, call: Call, port: nat)
    requires IsPort(port) && SystemCall(k, call).Done?
    ensures SystemCall(k, call).kernel.events[port] ==
      if Requests(Syscall(call), port) then k.tasks[k.active].tid else k.events[port]
  {
  }

  lemma TrapPending(k: State, call: Call, port: nat)
    requires Running(k) && IsPort(port)
    ensures Pending(Trap(k, call), port) == Pending(k, port)
  {
    if k.events[port] != 0 {
      SlotNamesSleeper(k, port);
    }
    hide Inv;
  }

  /** A call adds its byte to the stream exactly when the slot is free for it. */
  lemma CallStream(k: State, call: Call, port: nat)
    requires Running(k) && SystemCall(k, call).Done? && IsPort(port)
    requires Requests(Syscall(call), port) ==> k.tasks[k.active].byte == call.byte
    ensures var k1 := SystemCall(k, call).kernel;
      && WireOf(k1, port) == WireOf(k, port)
      && (Pending(k1, port) == Pending(k, port) + Requested(k, Syscall(call), port) <==> SlotFree(k, Syscall(call), port))
  {
    CallsLeaveWires(k, call);
    CallBytes(k, call);
    CallSlot(k, call, port);
    assert IdsMatch(k.tasks);
    if k.events[port] != 0 { SlotNamesSleeper(k, port); }
    hide Inv, SystemCall;
  }

  lemma SentReading(wire: seq<Wire>, reading: seq<Wire>)
    requires |reading| <= 1 && (reading != [] ==> !reading[0].Wrote?)
    ensures Sent(wire + reading) == Sent(wire)
  {
    if reading == [] {
      assert wire + reading == wire;
    } else {
      SentMore(wire, reading[0]);
      assert reading == [reading[0]];
    }
  }

  lemma PendingIs(k: State, port: nat)
    requires IsPort(port)
    ensures k.events[port] == 0 ==> Pending(k, port) == []
    ensures k.events[port] != 0 && Id(k.events[port]) < TASK_COUNT ==>
      Pending(k, port) == [Wrote(k.tasks[Id(k.events[port])].byte % 256, Id(k.events[port]))]
  {
  }

  /** An interrupt moves bytes from the one waiting to the wire. */
  lemma InterruptStream(k: State, irq: Irq, port: nat)
    requires Running(k) && Interrupt(k, irq).Done? && IsPort(port)
    ensures var k1 := Interrupt(k, irq).kernel;
      Sent(WireOf(k1, port)) + Pending(k1, port) == Sent(WireOf(k, port)) + Pending(k, port)
  {
    hide Running, Interrupt, Sent, SameBytes, Pending, Signals;
    var k1, w := Interrupt(k, irq).kernel, k.events[port];
    InterruptBytes(k, irq);
    WriteCompletes(k, irq, port);
    SentReading(WireOf(k, port), ReadingOf(irq, port));
    if w != 0 && Signals(k, irq, port) {
      SentMore(WireOf(k, port) + ReadingOf(irq, port), Wrote(k.tasks[Id(w)].byte % 256, Id(w)));
      PendingIs(k, port);
      PendingIs(k1, port);
    } else {
      PendingFrame(k, k1, port);
    }
  }

  /** One step: the bytes written followed by the one waiting grow by what is requested, exactly
      when the slot was free for the request. */
  lemma StepStreamExactly(k: State, input: Input, port: nat)
    requires Running(k) && Step(k, input).Enter? && IsPort(port)
    ensures var k1 := Step(k, input).kernel;
      Sent(WireOf(k1, port)) + Pending(k1, port) == Sent(WireOf(k, port)) + Pending(k, port) + Requested(k, input, port)
      <==> SlotFree(k, input, port)
  {
    hide Inv, SystemCall, Interrupt, Schedule, Pending, WireOf;
    match input {
      case Syscall(call) =>
        var k0 := Trap(k, call);
        TrapKeeps(k, call);
        TrapPending(k, call, port);
        TrapWires(k, call, port);
        var h := SystemCall(k0, call);
        CallStream(k0, call, port);
        AfterwardsStream(h.kernel, Returned(h.kernel, h.ret), port);
        Cancel(Sent(WireOf(k, port)), Pending(h.kernel, port), Pending(k, port) + Requested(k, input, port));
        assert Sent(WireOf(k, port)) + Pending(k, port) + Requested(k, input, port)
          == Sent(WireOf(k, port)) + (Pending(k, port) + Requested(k, input, port));
      case Hardware(irq) =>
        InterruptStream(k, irq, port);
        AfterwardsStream(Interrupt(k, irq).kernel, Interrupt(k, irq).kernel, port);
        assert Sent(WireOf(k, port)) + Pending(k, port) + [] == Sent(WireOf(k, port)) + Pending(k, port);
    }
  }

  lemma TrapWires(k: State, call: Call, port: nat)
    ensures WireOf(Trap(k, call), port) == WireOf(k, port)
    ensures Requests(Syscall(call), port) ==> Trap(k, call).tasks[k.active].byte == call.byte
  {
  }

  lemma Cancel<T>(a: seq<T>, b: seq<T>, c: seq<T>)
    ensures a + b == a + c <==> b == c
  {
    if a + b == a + c {
      assert b == (a + b)[|a|..] == (a + c)[|a|..] == c;
    }
  }

  lemma AfterwardsStream(k: State, k1: State, port: nat)
    requires SameBytes(k.tasks, k1.tasks) && k1.events == k.events && k1.uart1 == k.uart1 && k1.uart2 == k.uart2
    requires IsPort(port) && Schedule(k1).Enter?
    ensures var k2 := Schedule(k1).kernel; WireOf(k2, port) == WireOf(k, port) && Pending(k2, port) == Pending(k, port)
  {
    ScheduleBytes(k1);
    SchedulerLeavesWires(k1);
    hide Schedule, Pending;
    PendingFrame(k1, Schedule(k1).kernel, port);
    PendingFrame(k, k1, port);
  }

  /** What a run requests, in order. */
  function RequestedBy(k: State, inputs: seq<Input>, port: nat): seq<Wire>
    decreases |inputs|
  {
    if inputs == [] || !Step(k, inputs[0]).Enter? then []
    else Requested(k, inputs[0], port) + RequestedBy(Step(k, inputs[0]).kernel, inputs[1..], port)
  }

  ghost predicate SlotFreeRun(k: State, inputs: seq<Input>, port: nat)
    requires IsPort(port)
    decreases |inputs|
  {
    inputs == [] ||
    (SlotFree(k, inputs[0], port) && (Step(k, inputs[0]).Enter? ==> SlotFreeRun(Step(k, inputs[0]).kernel, inputs[1..], port)))
  }

  /** Over every trusted run whose writers find the slot free, the bytes on either UART followed by the
      one still waiting are the arguments of the write calls, in order and once each, under the
      names of their callers. */
  lemma {:induction false} WritesArrive(k: State, inputs: seq<Input>, port: nat)
    requires Running(k) && TrustedRun(k, inputs) && IsPort(port) && SlotFreeRun(k, inputs, port) && Run(k, inputs).Enter?
    ensures var k1 := Run(k, inputs).kernel;
      Sent(WireOf(k1, port)) + Pending(k1, port) == Sent(WireOf(k, port)) + Pending(k, port) + RequestedBy(k, inputs, port)
    decreases |inputs|
  {
    hide Running, Trusted, Step, Sent, Pending, Requested, SlotFree, WireOf;
    if inputs != [] {
      StepGood(k, inputs[0]);
      StepStreamExactly(k, inputs[0], port);
      var k1 := Step(k, inputs[0]).kernel;
      WritesArrive(k1, inputs[1..], port);
      var a, b, c := Sent(WireOf(k, port)) + Pending(k, port), Requested(k, inputs[0], port), RequestedBy(k1, inputs[1..], port);
      assert (a + b) + c == a + (b + c);
    }
  }

  /** From boot, when nothing has been written and nobody waits. */
  lemma BootWritesArrive(cts: nat, entry: int, inputs: seq<Input>, port: nat)
    requires var k := Boot(cts, entry).kernel;
      TrustedRun(k, inputs) && IsPort(port) && SlotFreeRun(k, inputs, port) && Run(k, inputs).Enter?
    ensures var k := Boot(cts, entry).kernel; var k1 := Run(k, inputs).kernel;
      Sent(WireOf(k1, port)) + Pending(k1, port) == RequestedBy(k, inputs, port)
  {
    hide Boot, Run, TrustedRun, SlotFreeRun, RequestedBy, Running, Sent, Pending, WireOf;
    BootIsRunning(cts, entry);
    BootWire(cts, entry, port);
    var k := Boot(cts, entry).kernel;
    WritesArrive(k, inputs, port);
    assert [] + [] + RequestedBy(k, inputs, port) == RequestedBy(k, inputs, port);
  }

  lemma BootWire(cts: nat, entry: int, port: nat)
    requires IsPort(port)
    ensures Boot(cts, entry).Done?
    ensures Sent(WireOf(Boot(cts, entry).kernel, port)) == [] && Pending(Boot(cts, entry).kernel, port) == []
  {
    hide Boot;
    BootShape(cts, entry);
    BootWires(cts, entry);
    SentMore([], CtsRead(cts != 0));
    assert [] + [CtsRead(cts != 0)] == [CtsRead(cts != 0)];
    PendingIs(Boot(cts, entry).kernel, port);
  }

  lemma BootWires(cts: nat, entry: int)
    ensures Boot(cts, entry).Done? ==> Boot(cts, entry).kernel.uart1 == [CtsRead(cts != 0)] && Boot(cts, entry).kernel.uart2 == []
  {
  }
}
