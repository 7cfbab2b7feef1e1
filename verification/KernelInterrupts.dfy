/** What survives an interrupt: whatever waking a task and talking to the UARTs keep. */
module KernelInterrupts {
  import opened Kernel
  import opened KernelInvariant

  function Rewired1(k: State, cts: nat, wire: seq<Wire>): State { k.(cts := cts, uart1 := wire) }

  function Rewired2(k: State, wire: seq<Wire>): State { k.(uart2 := wire) }

  predicate Concerns1(event: nat) { event == EVENT_TRAIN_READ || event == EVENT_TRAIN_WRITE }

  /** Kept by everything an interrupt does that does not concern UART 1. */
  ghost predicate KeptElsewhere(p: State -> bool) {
    && (forall k: State, e: nat {:trigger p(k), Wake(k, e)} ::
          e < EVENT_TABLE_SIZE && !Concerns1(e) && p(k) && Wake(k, e).Done? ==> p(Wake(k, e).kernel))
    && (forall k: State, e: nat, b: nat {:trigger p(k), WakeReader(k, e, b)} ::
          e < EVENT_TABLE_SIZE && !Concerns1(e) && p(k) && WakeReader(k, e, b).Done? ==> p(WakeReader(k, e, b).kernel))
    && (forall k: State, w {:trigger p(k), Rewired2(k, w)} :: p(k) ==> p(Rewired2(k, w)))
  }

  ghost predicate KeptByUart1(p: State -> bool) {
    && (forall k: State, e: nat {:trigger p(k), Wake(k, e)} ::
          Concerns1(e) && p(k) && Wake(k, e).Done? ==> p(Wake(k, e).kernel))
    && (forall k: State, e: nat, b: nat {:trigger p(k), WakeReader(k, e, b)} ::
          Concerns1(e) && p(k) && WakeReader(k, e, b).Done? ==> p(WakeReader(k, e, b).kernel))
    && (forall k: State, c, w {:trigger p(k), Rewired1(k, c, w)} :: p(k) ==> p(Rewired1(k, c, w)))
  }

  lemma Uart1Steps(k: State, irq: Irq, p: State -> bool)
    requires Uart1(k, irq).Done? && KeptByUart1(p) && p(k)
    ensures p(Uart1(k, irq).kernel)
  {
    hide Wake, WakeReader;
    if irq.uart1 {
      var k1 := Modem(k, irq);
      assert k1 == k || k1 == Rewired1(k, irq.cts, k.uart1 + [CtsRead(irq.cts != 0)]);
      var k2 := Transmit1(k1, irq).kernel;
      if k2 != k1 {
        var woken := Wake(k1, EVENT_TRAIN_WRITE).kernel;
        assert p(woken) && k2 == Rewired1(woken, 0, k2.uart1);
      }
      assert p(k2);
    }
  }

  lemma TailSteps(k: State, irq: Irq, p: State -> bool)
    requires Interrupt(k, irq).Done? && KeptElsewhere(p)
    ensures Uart1(k, irq).Done? && (p(Uart1(k, irq).kernel) ==> p(Interrupt(k, irq).kernel))
  {
    hide Wake, WakeReader, Uart1;
    if p(Uart1(k, irq).kernel) {
      var k1 := Uart1(k, irq).kernel;
      var k2 := if irq.tick10 then Wake(k1, EVENT_10MS_TICK).kernel else k1;
      var k3 := if irq.tick150 then Wake(k2, EVENT_150MS_TICK).kernel else k2;
      var k4 := if irq.rx2 then WakeReader(k3, EVENT_TERMINAL_READ, irq.byte2 % 256).kernel else k3;
      var k5 := Transmit2(k4, irq).kernel;
      if k5 != k4 {
        var woken := Wake(k4, EVENT_TERMINAL_WRITE).kernel;
        assert p(woken) && k5 == Rewired2(woken, k5.uart2);
      }
    }
  }

  /** What waking tasks and talking to the UARTs keep, an interrupt keeps. */
  lemma InterruptSteps(k: State, irq: Irq, p: State -> bool)
    requires Interrupt(k, irq).Done? && KeptElsewhere(p) && KeptByUart1(p) && p(k)
    ensures p(Interrupt(k, irq).kernel)
  {
    hide KeptElsewhere, KeptByUart1;
    TailSteps(k, irq, p);
    Uart1Steps(k, irq, p);
  }

  /** Waking tasks cannot fail. */
  ghost predicate NeverFails(p: State -> bool) {
    && (forall k: State, e: nat {:trigger p(k), Wake(k, e)} :: e < EVENT_TABLE_SIZE && p(k) ==> Wake(k, e).Done?)
    && (forall k: State, e: nat, b: nat {:trigger p(k), WakeReader(k, e, b)} ::
          e < EVENT_TABLE_SIZE && p(k) ==> WakeReader(k, e, b).Done?)
  }

  lemma Uart1Succeeds(k: State, irq: Irq, p: State -> bool)
    requires KeptByUart1(p) && NeverFails(p) && p(k)
    ensures Uart1(k, irq).Done?
  {
    hide Wake, WakeReader;
    if irq.uart1 {
      var k1 := Modem(k, irq);
      assert k1 == k || k1 == Rewired1(k, irq.cts, k.uart1 + [CtsRead(irq.cts != 0)]);
      assert p(k1) && Transmit1(k1, irq).Done?;
      var k2 := Transmit1(k1, irq).kernel;
      if k2 != k1 {
        var woken := Wake(k1, EVENT_TRAIN_WRITE).kernel;
        assert p(woken) && k2 == Rewired1(woken, 0, k2.uart1);
      }
      assert p(k2) && WakeReader(k2, EVENT_TRAIN_READ, irq.byte1 % 256).Done?;
    }
  }

  /** Then an interrupt cannot fail either. */
  lemma InterruptSucceeds(k: State, irq: Irq, p: State -> bool)
    requires KeptElsewhere(p) && KeptByUart1(p) && NeverFails(p) && p(k)
    ensures Interrupt(k, irq).Done?
  {
    hide Wake, WakeReader, Uart1, KeptByUart1;
    Uart1Succeeds(k, irq, p);
    Uart1Steps(k, irq, p);
    var k1 := Uart1(k, irq).kernel;
    var h2 := if irq.tick10 then Wake(k1, EVENT_10MS_TICK) else Done(k1, 0);
    assert h2.Done? && p(h2.kernel);
    var h3 := if irq.tick150 then Wake(h2.kernel, EVENT_150MS_TICK) else h2;
    assert h3.Done? && p(h3.kernel);
    var h4 := if irq.rx2 then WakeReader(h3.kernel, EVENT_TERMINAL_READ, irq.byte2 % 256) else h3;
    assert h4.Done? && p(h4.kernel);
    assert Wake(h4.kernel, EVENT_TERMINAL_WRITE).Done?;
  }

  // ---------------------------------------------------------------- under the invariant

  /** Kept by waking tasks and by talking to the UARTs while the invariant holds. */
  ghost predicate KeptWhileRunning(p: State -> bool) {
    && (forall k: State, e: nat {:trigger p(k), Wake(k, e)} ::
          e < EVENT_TABLE_SIZE && Running(k) && p(k) && Wake(k, e).Done? ==> p(Wake(k, e).kernel))
    && (forall k: State, e: nat, b: nat {:trigger p(k), WakeReader(k, e, b)} ::
          e < EVENT_TABLE_SIZE && Running(k) && p(k) && WakeReader(k, e, b).Done? ==> p(WakeReader(k, e, b).kernel))
    && (forall k: State, c, w {:trigger p(k), Rewired1(k, c, w)} :: p(k) ==> p(Rewired1(k, c, w)))
    && (forall k: State, w {:trigger p(k), Rewired2(k, w)} :: p(k) ==> p(Rewired2(k, w)))
  }

  lemma RewiredRuns(k: State, cts: nat, wire: seq<Wire>)
    requires Running(k)
    ensures Running(Rewired1(k, cts, wire)) && Running(Rewired2(k, wire))
  {
    hide IdsMatch, ReadyExact, SendersWait, EventsName, PoolExact, BlocksPartitioned;
  }

  lemma RunningSteps(k: State, irq: Irq, p: State -> bool)
    requires Running(k) && Interrupt(k, irq).Done? && KeptWhileRunning(p) && p(k)
    ensures p(Interrupt(k, irq).kernel)
  {
    hide Running, Wake, WakeReader, Interrupt;
    var q := (k1: State) => Running(k1) && p(k1);
    forall k1: State, e: nat | e < EVENT_TABLE_SIZE && q(k1) && Wake(k1, e).Done? ensures q(Wake(k1, e).kernel) {
      WakeSlotKeeps(k1, e);
    }
    forall k1: State, e: nat, b: nat | e < EVENT_TABLE_SIZE && q(k1) && WakeReader(k1, e, b).Done?
      ensures q(WakeReader(k1, e, b).kernel)
    {
      WakeReaderKeeps(k1, e, b);
    }
    forall k1: State, c, w | q(k1) ensures q(Rewired1(k1, c, w)) {
      RewiredRuns(k1, c, w);
    }
    forall k1: State, w | q(k1) ensures q(Rewired2(k1, w)) {
      RewiredRuns(k1, 0, w);
    }
    InterruptSteps(k, irq, q);
  }
}
