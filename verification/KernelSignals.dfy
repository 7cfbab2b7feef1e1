/** What an interrupt does, told from its status bits alone: which event slots they signal, who
    is woken and in what order, which byte a reader gets and which bytes go out. */
module KernelSignals {
  import opened PriorityQueues
  import opened Kernel
  import opened KernelInterrupts
  import opened KernelInvariant

  // ---------------------------------------------------------------- the table of signals

  /** The CTS flag once the modem part has run. */
  function CtsSeen(k: State, irq: Irq): nat {
    if irq.uart1 && irq.modem then irq.cts else k.cts
  }

  /** The status bits that signal each event. */
  predicate Signals(k: State, irq: Irq, e: nat) {
    || (e == EVENT_10MS_TICK && irq.tick10)
    || (e == EVENT_150MS_TICK && irq.tick150)
    || (e == EVENT_TERMINAL_READ && irq.rx2)
    || (e == EVENT_TERMINAL_WRITE && irq.tx2)
    || (e == EVENT_TRAIN_READ && irq.uart1 && irq.rx1)
    || (e == EVENT_TRAIN_WRITE && irq.uart1 && irq.tx1 && CtsSeen(k, irq) != 0)
  }

  /** The event is signalled and a task waits for it. */
  predicate Fires(k: State, irq: Irq, e: nat) {
    e < EVENT_TABLE_SIZE && Signals(k, irq, e) && k.events[e] != 0
  }

  /** The slots in the order in which they are looked at. */
  const ORDER: seq<nat> := [
    EVENT_TRAIN_WRITE, EVENT_TRAIN_READ, EVENT_10MS_TICK, EVENT_150MS_TICK, EVENT_TERMINAL_READ, EVENT_TERMINAL_WRITE]

  const ALL := 6

  /** Where a slot stands in that order. */
  function Turn(e: nat): nat {
    if e == EVENT_TRAIN_WRITE then 0
    else if e == EVENT_TRAIN_READ then 1
    else if e == EVENT_10MS_TICK then 2
    else if e == EVENT_150MS_TICK then 3
    else if e == EVENT_TERMINAL_READ then 4
    else if e == EVENT_TERMINAL_WRITE then 5
    else ALL
  }

  predicate IsRead(e: nat) { e == EVENT_TRAIN_READ || e == EVENT_TERMINAL_READ }

  /** The byte received by the UART that the event belongs to. */
  function ByteRead(irq: Irq, e: nat): nat {
    if e == EVENT_TRAIN_READ then irq.byte1 % 256 else irq.byte2 % 256
  }

  /** A task woken from slot e is ready, and if it waited for a byte its call returns that byte. */
  function WokenBy(t: Task, irq: Irq, e: nat): Task {
    if IsRead(e) then t.(state := Ready, ret := ByteRead(irq, e)) else t.(state := Ready)
  }

  /** The ids that join level p of the ready queue from the first n slots. */
  function Joining(k: State, irq: Irq, n: nat, p: nat): seq<nat>
    requires n <= ALL
  {
    if n == 0 then []
    else
      var e := ORDER[n - 1];
      var i := Id(k.events[e]);
      Joining(k, irq, n - 1, p) +
      (if Fires(k, irq, e) && i < TASK_COUNT && k.tasks[i].priority == p then [k.events[e]] else [])
  }

  // ---------------------------------------------------------------- one slot at a time

  /** The first n slots have been looked at: those signalled are empty, */
  ghost predicate SlotsAfter(k: State, irq: Irq, n: nat, k1: State) {
    forall e {:trigger k1.events[e]} :: 0 <= e < EVENT_TABLE_SIZE ==>
      k1.events[e] == if Signals(k, irq, e) && Turn(e) < n then 0 else k.events[e]
  }

  /** the tasks in them are woken, and no other task has changed, */
  ghost predicate TasksAfter(k: State, irq: Irq, n: nat, k1: State) {
    && (forall e {:trigger k.events[e]} :: 0 <= e < EVENT_TABLE_SIZE && Fires(k, irq, e) && Turn(e) < n ==>
          Id(k.events[e]) < TASK_COUNT && k1.tasks[Id(k.events[e])] == WokenBy(k.tasks[Id(k.events[e])], irq, e))
    && (forall i {:trigger k1.tasks[i]} :: 0 <= i < TASK_COUNT && k1.tasks[i] != k.tasks[i] ==>
          exists e {:trigger k.events[e]} :: 0 <= e < EVENT_TABLE_SIZE && Fires(k, irq, e) && Turn(e) < n && Id(k.events[e]) == i)
  }

  /** and their ids stand at the back of their levels. */
  ghost predicate ReadyAfter(k: State, irq: Irq, n: nat, k1: State)
    requires n <= ALL
  {
    forall p {:trigger k1.ready[p]} :: 0 <= p < LEVELS ==> k1.ready[p] == k.ready[p] + Joining(k, irq, n, p)
  }

  ghost predicate Answered(k: State, irq: Irq, n: nat, k1: State)
    requires n <= ALL
  {
    && SlotsAfter(k, irq, n, k1) && TasksAfter(k, irq, n, k1) && ReadyAfter(k, irq, n, k1)
    && k1.active == k.active && k1.pool == k.pool && k1.blocks == k.blocks && k1.memory == k.memory && k1.running == k.running
  }

  /** The task woken from the n-th slot, if any, finds room at its level. */
  predicate FitsAt(k: State, irq: Irq, n: nat)
    requires n < ALL
  {
    var e := ORDER[n];
    Fires(k, irq, e) ==>
      && Id(k.events[e]) < TASK_COUNT
      && var p := k.tasks[Id(k.events[e])].priority;
         p < LEVELS && |k.ready[p]| + |Joining(k, irq, n, p)| < DEPTH
  }

  /** What the handler does about a slot. */
  function Turned(k: State, irq: Irq, e: nat, signalled: bool): Handled
    requires e < EVENT_TABLE_SIZE
  {
    if !signalled then Done(k, 0)
    else if IsRead(e) then WakeReader(k, e, ByteRead(irq, e))
    else Wake(k, e)
  }

  /** Occupied slots name different tasks, each under its own id. */
  ghost predicate SlotsApart(k: State) {
    && (forall e {:trigger k.events[e]} :: 0 <= e < EVENT_TABLE_SIZE && k.events[e] != 0 ==>
          Id(k.events[e]) < TASK_COUNT && k.tasks[Id(k.events[e])].tid == k.events[e])
    && (forall e, f {:trigger k.events[e], k.events[f]} ::
          0 <= e < f < EVENT_TABLE_SIZE && k.events[e] != 0 && k.events[f] != 0 ==> Id(k.events[e]) != Id(k.events[f]))
  }

  lemma SlotsAreApart(k: State)
    requires Running(k)
    ensures SlotsApart(k)
  {
    forall e, f {:trigger k.events[e], k.events[f]} | 0 <= e < f < EVENT_TABLE_SIZE && k.events[e] != 0 && k.events[f] != 0
      ensures Id(k.events[e]) != Id(k.events[f])
    {
      assert Names(k.tasks, k.events[e], EventBlocked) && Names(k.tasks, k.events[f], EventBlocked);
    }
  }

  lemma NotYet(k: State, irq: Irq, n: nat, k1: State)
    requires n < ALL && SlotsApart(k) && Answered(k, irq, n, k1)
    ensures k1.events[ORDER[n]] == k.events[ORDER[n]]
    ensures k.events[ORDER[n]] != 0 ==> k1.tasks[Id(k.events[ORDER[n]])] == k.tasks[Id(k.events[ORDER[n]])]
  {
  }

  /** The task in slot e woken. */
  function Woken(k: State, irq: Irq, e: nat): State
    requires e < EVENT_TABLE_SIZE && Id(k.events[e]) < TASK_COUNT && k.tasks[Id(k.events[e])].priority < LEVELS
  {
    var i := Id(k.events[e]);
    var p := k.tasks[i].priority;
    k.(tasks := k.tasks[i := WokenBy(k.tasks[i], irq, e)], events := k.events[e := 0],
       ready := k.ready[p := k.ready[p] + [k.tasks[i].tid]])
  }

  lemma TurnedIs(k: State, irq: Irq, e: nat, signalled: bool)
    requires e < EVENT_TABLE_SIZE && (k.events[e] != 0 ==> Id(k.events[e]) < TASK_COUNT)
    ensures var h := Turned(k, irq, e, signalled);
      if !signalled || k.events[e] == 0 then h == Done(k, 0)
      else
        var p := k.tasks[Id(k.events[e])].priority;
        && (h.Done? <==> p < LEVELS && |k.ready[p]| < DEPTH)
        && (h.Done? ==> h.kernel == Woken(k, irq, e))
  {
  }

  lemma NobodyThere(k: State, irq: Irq, n: nat, k1: State)
    requires n < ALL && Answered(k, irq, n, k1) && !Fires(k, irq, ORDER[n])
    ensures Answered(k, irq, n + 1, k1)
  {
  }

  lemma TurnIs(n: nat, e: nat)
    requires n < ALL
    ensures ORDER[n] < EVENT_TABLE_SIZE && (Turn(e) == n <==> e == ORDER[n])
  {
  }

  lemma SlotEmptied(k: State, irq: Irq, n: nat, k1: State, e: nat)
    requires n < ALL && SlotsAfter(k, irq, n, k1) && e == ORDER[n] && Signals(k, irq, e)
    requires Id(k1.events[e]) < TASK_COUNT && k1.tasks[Id(k1.events[e])].priority < LEVELS
    ensures SlotsAfter(k, irq, n + 1, Woken(k1, irq, e))
  {
    hide WokenBy, Signals, Turn;
    forall f: nat ensures Turn(f) == n <==> f == e {
      TurnIs(n, f);
    }
  }

  lemma TaskWoken(k: State, irq: Irq, n: nat, k1: State, e: nat)
    requires n < ALL && SlotsApart(k) && TasksAfter(k, irq, n, k1) && e == ORDER[n] && Fires(k, irq, e)
    requires Id(k.events[e]) < TASK_COUNT && k.tasks[Id(k.events[e])].priority < LEVELS
    requires k1.events[e] == k.events[e] && k1.tasks[Id(k.events[e])] == k.tasks[Id(k.events[e])]
    ensures TasksAfter(k, irq, n + 1, Woken(k1, irq, e))
  {
    hide WokenBy, Signals, Turn;
    var i, k2 := Id(k.events[e]), Woken(k1, irq, e);
    forall f: nat ensures Turn(f) == n <==> f == e {
      TurnIs(n, f);
    }
    forall j | 0 <= j < TASK_COUNT && k2.tasks[j] != k.tasks[j]
      ensures exists f {:trigger k.events[f]} :: 0 <= f < EVENT_TABLE_SIZE && Fires(k, irq, f) && Turn(f) < n + 1 && Id(k.events[f]) == j
    {
      if j == i {
        assert Turn(e) < n + 1 && Id(k.events[e]) == j;
      } else {
        assert k1.tasks[j] != k.tasks[j];
      }
    }
  }

  lemma LevelJoined(k: State, irq: Irq, n: nat, k1: State, e: nat)
    requires n < ALL && SlotsApart(k) && ReadyAfter(k, irq, n, k1) && e == ORDER[n] && Fires(k, irq, e)
    requires Id(k.events[e]) < TASK_COUNT && k.tasks[Id(k.events[e])].priority < LEVELS
    requires k1.events[e] == k.events[e] && k1.tasks[Id(k.events[e])] == k.tasks[Id(k.events[e])]
    ensures ReadyAfter(k, irq, n + 1, Woken(k1, irq, e))
  {
    hide WokenBy, Signals, Turn;
    var i, k2 := Id(k.events[e]), Woken(k1, irq, e);
    assert k.tasks[i].tid == k.events[e];
    forall p | 0 <= p < LEVELS ensures k2.ready[p] == k.ready[p] + Joining(k, irq, n + 1, p) {
      assert k1.ready[p] == k.ready[p] + Joining(k, irq, n, p);
    }
  }

  lemma SomebodyThere(k: State, irq: Irq, n: nat, k1: State)
    requires n < ALL && SlotsApart(k) && Answered(k, irq, n, k1) && Fires(k, irq, ORDER[n])
    requires Id(k.events[ORDER[n]]) < TASK_COUNT && k.tasks[Id(k.events[ORDER[n]])].priority < LEVELS
    requires k1.events[ORDER[n]] == k.events[ORDER[n]]
    requires k1.tasks[Id(k.events[ORDER[n]])] == k.tasks[Id(k.events[ORDER[n]])]
    ensures Answered(k, irq, n + 1, Woken(k1, irq, ORDER[n]))
  {
    hide SlotsAfter, TasksAfter, ReadyAfter, SlotsApart, WokenBy;
    SlotEmptied(k, irq, n, k1, ORDER[n]);
    TaskWoken(k, irq, n, k1, ORDER[n]);
    LevelJoined(k, irq, n, k1, ORDER[n]);
  }

  /** One slot, from what the slots before it have left. */
  lemma OneSlot(k: State, irq: Irq, n: nat, k1: State)
    requires n < ALL && SlotsApart(k) && Answered(k, irq, n, k1)
    ensures Turned(k1, irq, ORDER[n], Signals(k, irq, ORDER[n])).Done? <==> FitsAt(k, irq, n)
    ensures var h := Turned(k1, irq, ORDER[n], Signals(k, irq, ORDER[n]));
      h.Done? ==> Answered(k, irq, n + 1, h.kernel) && SameWires(k1, h.kernel)
  {
    var e := ORDER[n];
    NotYet(k, irq, n, k1);
    TurnedIs(k1, irq, e, Signals(k, irq, e));
    hide Turned, Signals, Joining;
    if Fires(k, irq, e) {
      if FitsAt(k, irq, n) {
        SomebodyThere(k, irq, n, k1);
      }
    } else {
      NobodyThere(k, irq, n, k1);
    }
  }

  predicate SameWires(k: State, k1: State) {
    k1.uart1 == k.uart1 && k1.uart2 == k.uart2 && k1.cts == k.cts
  }

  // ---------------------------------------------------------------- the whole interrupt

  /** The reading of CTS that the modem part takes. */
  function Reading(irq: Irq): seq<Wire> {
    if irq.uart1 && irq.modem then [CtsRead(irq.cts != 0)] else []
  }

  /** The byte that goes out for the task in slot e. */
  function Writing(k: State, irq: Irq, e: nat): seq<Wire> {
    if Fires(k, irq, e) && Id(k.events[e]) < TASK_COUNT
    then [Wrote(k.tasks[Id(k.events[e])].byte % 256, Id(k.events[e]))]
    else []
  }

  /** The UART 1 part looks at the first two slots. */
  lemma Uart1Exactly(k: State, irq: Irq)
    requires SlotsApart(k)
    ensures Uart1(k, irq).Done? <==> FitsAt(k, irq, 0) && FitsAt(k, irq, 1)
    ensures var h := Uart1(k, irq);
      h.Done? ==>
        && Answered(k, irq, 2, h.kernel)
        && h.kernel.uart1 == k.uart1 + Reading(irq) + Writing(k, irq, EVENT_TRAIN_WRITE)
        && h.kernel.cts == (if Fires(k, irq, EVENT_TRAIN_WRITE) then 0 else CtsSeen(k, irq))
        && h.kernel.uart2 == k.uart2
  {
    var k0 := if irq.uart1 then Modem(k, irq) else k;
    assert Answered(k, irq, 0, k0) && k0.uart1 == k.uart1 + Reading(irq) && k0.cts == CtsSeen(k, irq);
    OneSlot(k, irq, 0, k0);
    Transmit1Is(k, irq, k0);
    hide Answered, Transmit1, FitsAt;
    var t := if irq.uart1 then Transmit1(k0, irq) else Done(k0, 0);
    if t.Done? {
      OneSlot(k, irq, 1, t.kernel);
    }
  }

  /** The transmit part: slot 6 as any other, and its byte on the wire. */
  lemma Transmit1Is(k: State, irq: Irq, k0: State)
    requires SlotsApart(k) && Answered(k, irq, 0, k0) && k0.cts == CtsSeen(k, irq) && k0.uart2 == k.uart2
    requires k0.uart1 == k.uart1 + Reading(irq)
    ensures var t := if irq.uart1 then Transmit1(k0, irq) else Done(k0, 0);
      && (t.Done? <==> FitsAt(k, irq, 0))
      && (t.Done? ==>
           && Answered(k, irq, 1, t.kernel)
           && t.kernel.uart1 == k.uart1 + Reading(irq) + Writing(k, irq, EVENT_TRAIN_WRITE)
           && t.kernel.cts == (if Fires(k, irq, EVENT_TRAIN_WRITE) then 0 else CtsSeen(k, irq))
           && t.kernel.uart2 == k.uart2)
  {
    OneSlot(k, irq, 0, k0);
    NotYet(k, irq, 0, k0);
    hide FitsAt, SlotsApart, Reading, CtsSeen;
    var e := EVENT_TRAIN_WRITE;
    if Fires(k, irq, e) {
      hide Wake;
      assert Turned(k0, irq, e, true) == Wake(k0, e);
      if Wake(k0, e).Done? {
        assert Transmit1(k0, irq).kernel == Rewired1(Wake(k0, e).kernel, 0, Transmit1(k0, irq).kernel.uart1);
        RewiredAnswers(k, irq, 1, Wake(k0, e).kernel, 0, Transmit1(k0, irq).kernel.uart1);
      }
    } else {
      NobodyThere(k, irq, 0, k0);
    }
  }

  lemma RewiredAnswers(k: State, irq: Irq, n: nat, k1: State, cts: nat, wire: seq<Wire>)
    requires n <= ALL && Answered(k, irq, n, k1)
    ensures Answered(k, irq, n, Rewired1(k1, cts, wire)) && Answered(k, irq, n, Rewired2(k1, wire))
  {
  }

  /** The other part looks at the last four. */
  lemma TailExactly(k: State, irq: Irq)
    requires SlotsApart(k) && Uart1(k, irq).Done? && Answered(k, irq, 2, Uart1(k, irq).kernel)
    ensures Interrupt(k, irq).Done? <==> FitsAt(k, irq, 2) && FitsAt(k, irq, 3) && FitsAt(k, irq, 4) && FitsAt(k, irq, 5)
    ensures var k1, h := Uart1(k, irq).kernel, Interrupt(k, irq);
      h.Done? ==>
        && Answered(k, irq, ALL, h.kernel) && h.kernel.uart1 == k1.uart1 && h.kernel.cts == k1.cts
        && h.kernel.uart2 == k1.uart2 + Writing(k, irq, EVENT_TERMINAL_WRITE)
  {
    hide Answered, Uart1, FitsAt, SlotsApart, Wake, WakeReader, Writing, Transmit2;
    var k1 := Uart1(k, irq).kernel;
    OneSlot(k, irq, 2, k1);
    var h2 := if irq.tick10 then Wake(k1, EVENT_10MS_TICK) else Done(k1, 0);
    if h2.Done? {
      OneSlot(k, irq, 3, h2.kernel);
      var h3 := if irq.tick150 then Wake(h2.kernel, EVENT_150MS_TICK) else h2;
      if h3.Done? {
        OneSlot(k, irq, 4, h3.kernel);
        var h4 := if irq.rx2 then WakeReader(h3.kernel, EVENT_TERMINAL_READ, irq.byte2 % 256) else h3;
        if h4.Done? {
          Transmit2Is(k, irq, h4.kernel);
        }
      }
    }
  }

  lemma Transmit2Is(k: State, irq: Irq, k1: State)
    requires SlotsApart(k) && Answered(k, irq, 5, k1)
    ensures Transmit2(k1, irq).Done? <==> FitsAt(k, irq, 5)
    ensures var h := Transmit2(k1, irq);
      h.Done? ==>
        && Answered(k, irq, ALL, h.kernel) && h.kernel.uart1 == k1.uart1 && h.kernel.cts == k1.cts
        && h.kernel.uart2 == k1.uart2 + Writing(k, irq, EVENT_TERMINAL_WRITE)
  {
    OneSlot(k, irq, 5, k1);
    NotYet(k, irq, 5, k1);
    hide FitsAt, SlotsApart;
    var e := EVENT_TERMINAL_WRITE;
    if Fires(k, irq, e) {
      hide Wake;
      assert Turned(k1, irq, e, true) == Wake(k1, e);
      if Wake(k1, e).Done? {
        assert Transmit2(k1, irq).kernel == Rewired2(Wake(k1, e).kernel, Transmit2(k1, irq).kernel.uart2);
        RewiredAnswers(k, irq, ALL, Wake(k1, e).kernel, 0, Transmit2(k1, irq).kernel.uart2);
      }
    } else {
      NobodyThere(k, irq, 5, k1);
    }
  }

  lemma InterruptAnswers(k: State, irq: Irq)
    requires Running(k)
    ensures Interrupt(k, irq).Done? <==> forall n :: 0 <= n < ALL ==> FitsAt(k, irq, n)
    ensures var h := Interrupt(k, irq);
      h.Done? ==>
        && Answered(k, irq, ALL, h.kernel)
        && h.kernel.uart1 == k.uart1 + Reading(irq) + Writing(k, irq, EVENT_TRAIN_WRITE)
        && h.kernel.cts == (if Fires(k, irq, EVENT_TRAIN_WRITE) then 0 else CtsSeen(k, irq))
        && h.kernel.uart2 == k.uart2 + Writing(k, irq, EVENT_TERMINAL_WRITE)
  {
    SlotsAreApart(k);
    hide Running, Answered, FitsAt, SlotsApart, Writing, Interrupt, Uart1;
    Uart1Exactly(k, irq);
    HaltsEarly(k, irq);
    if Uart1(k, irq).Done? {
      TailExactly(k, irq);
    }
  }

  lemma HaltsEarly(k: State, irq: Irq)
    ensures Interrupt(k, irq).Done? ==> Uart1(k, irq).Done?
  {
    hide Uart1, Wake, WakeReader, Transmit2;
  }

  /** An interrupt that does not halt empties exactly the slots signalled. The task in each is then
      ready, and if it waited for a byte its call returns the byte its own UART received; no other
      task changes. Their ids stand at the back of their levels in the order of the slots. The byte
      of each waiting writer, and a reading of CTS, are all that reach the wires. */
  lemma InterruptExactly(k: State, irq: Irq)
    requires Running(k) && Interrupt(k, irq).Done?
    ensures var k1 := Interrupt(k, irq).kernel;
      && (forall e: nat :: e < EVENT_TABLE_SIZE ==> k1.events[e] == if Signals(k, irq, e) then 0 else k.events[e])
      && (forall e: nat :: e < EVENT_TABLE_SIZE && Fires(k, irq, e) ==>
            Id(k.events[e]) < TASK_COUNT && k1.tasks[Id(k.events[e])] == WokenBy(k.tasks[Id(k.events[e])], irq, e))
      && (forall i: nat :: i < TASK_COUNT && (forall e: nat :: e < EVENT_TABLE_SIZE && Fires(k, irq, e) ==> Id(k.events[e]) != i) ==>
            k1.tasks[i] == k.tasks[i])
      && (forall p: nat :: p < LEVELS ==> k1.ready[p] == k.ready[p] + Joining(k, irq, ALL, p))
      && k1.uart1 == k.uart1 + Reading(irq) + Writing(k, irq, EVENT_TRAIN_WRITE)
      && k1.uart2 == k.uart2 + Writing(k, irq, EVENT_TERMINAL_WRITE)
      && k1.cts == (if Fires(k, irq, EVENT_TRAIN_WRITE) then 0 else CtsSeen(k, irq))
      && k1.active == k.active && k1.pool == k.pool && k1.blocks == k.blocks && k1.memory == k.memory && k1.running == k.running
  {
    InterruptAnswers(k, irq);
    hide Running, Interrupt, FitsAt, Writing, Reading, WokenBy, Joining;
  }

  /** It halts, on a full level, exactly when some task woken finds no room behind those before it. */
  lemma InterruptHaltsExactly(k: State, irq: Irq)
    requires Running(k)
    ensures Interrupt(k, irq) == Halt(ReadyQueueFull) <==> exists n :: 0 <= n < ALL && !FitsAt(k, irq, n)
  {
    InterruptAnswers(k, irq);
    InterruptKeeps(k, irq);
    hide Running, Interrupt, FitsAt;
  }
}
