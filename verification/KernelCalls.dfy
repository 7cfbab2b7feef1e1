/** What the small calls tell their callers and do to the system: ids, parents, priorities and
    states, SHUTDOWN and KILL; and whose registers an entry into the kernel touches. */
module KernelCalls {
  import opened PriorityQueues
  import opened Kernel
  import opened KernelInvariant
  import opened KernelResources
  import opened KernelSchedule
  import opened KernelRuns
  import opened KernelProgress
  import opened KernelLimits
  import opened KernelAccounting
  import opened KernelSignals

  /** What the caller finds in its result register once the call has been handled. */
  function Result(k: State, call: Call): int
    requires AfterHandler(k, Syscall(call)).Done?
  {
    AfterHandler(k, Syscall(call)).kernel.tasks[k.active].ret
  }

  lemma ResultIs(k: State, call: Call)
    requires AfterHandler(k, Syscall(call)).Done?
    ensures SystemCall(Trap(k, call), call).Done? && Result(k, call) == SystemCall(Trap(k, call), call).ret
  {
    hide SystemCall;
    ActiveStays(Trap(k, call), call);
  }

  lemma ActiveStays(k: State, call: Call)
    requires SystemCall(k, call).Done?
    ensures SystemCall(k, call).kernel.active == k.active
  {
  }

  // ---------------------------------------------------------------- results

  /** sysTid: the id is the caller's own. */
  lemma TidIsOwn(k: State)
    requires Running(k)
    ensures AfterHandler(k, Syscall(GetTid)).Done?
    ensures Names(k.tasks, Result(k, GetTid), Ready) && Id(Result(k, GetTid)) == k.active
  {
    ResultIs(k, GetTid);
    assert IdsMatch(k.tasks);
    hide Inv;
  }

  /** sysCreate: the id is that of a task that was free before, is ready now, and has the
      caller for its parent. */
  lemma CreateReturnsChild(k: State, priority: nat, entry: int)
    requires Running(k) && k.pool != [] && AfterHandler(k, Syscall(Create(priority, entry))).Done?
    ensures var v, k1 := Result(k, Create(priority, entry)), AfterHandler(k, Syscall(Create(priority, entry))).kernel;
      && 0 <= v && Names(k1.tasks, v, Ready) && k.tasks[Id(v)].state == Zombie && k1.tasks[Id(v)].priority == priority % 256
      && k1.tasks[Id(v)].pid == k.tasks[k.active].tid
  {
    ResultIs(k, Create(priority, entry));
    CreateShape(k, priority, entry);
    assert IdsMatch(k.tasks);
    hide Inv, DoCreate;
  }

  lemma StateResult(k: State, t: nat)
    requires Id(t) < TASK_COUNT
    ensures AfterHandler(k, Syscall(GetState(t))).Done?
    ensures Result(k, GetState(t)) == StateNumber(k.tasks[Id(t)].state)
  {
    ResultIs(k, GetState(t));
  }

  /** The state of a task, from where its id stands. */
  lemma StateFromQueues(k: State, t: nat)
    requires Running(k) && Id(t) < TASK_COUNT && k.tasks[Id(t)].tid == t
    ensures var st := k.tasks[Id(t)].state;
      && (st == Zombie <==> Id(t) in k.pool)
      && (st == Ready <==> Id(t) == k.active || exists p :: 0 <= p < LEVELS && t in k.ready[p])
      && ((exists q {:trigger k.tasks[q]} :: 0 <= q < TASK_COUNT && k.tasks[q].state != Zombie && t in k.tasks[q].sendQueue) ==>
            st == ReceiveBlocked)
      && (t != 0 && t in k.events ==> st == EventBlocked)
  {
  }

  /** What a SEND to it and a REPLY to it would do. */
  lemma StateFromCalls(k: State, t: nat, m: Envelope)
    requires k.tasks[k.active].state == Ready && Id(t) < TASK_COUNT
    ensures AfterHandler(k, Syscall(Send(t, m))).Done? ==>
      (k.tasks[Id(t)].state == SendBlocked <==> AfterHandler(k, Syscall(Send(t, m))).kernel.tasks[k.active].state == ReplyBlocked)
    ensures k.tasks[Id(t)].state == ReplyBlocked <==> Guarded(k, Syscall(Reply(t, m)))
  {
  }

  /** sysState: the number says where the task's id stands, and which calls it can take part in. */
  lemma StateTells(k: State, t: nat, m: Envelope)
    requires Running(k) && Id(t) < TASK_COUNT && k.tasks[Id(t)].tid == t
    ensures AfterHandler(k, Syscall(GetState(t))).Done?
    ensures var r := Result(k, GetState(t));
      && (r == 0 <==> Id(t) in k.pool)
      && (r == 1 <==> Id(t) == k.active || exists p :: 0 <= p < LEVELS && t in k.ready[p])
      && (AfterHandler(k, Syscall(Send(t, m))).Done? ==>
            (r == 3 <==> AfterHandler(k, Syscall(Send(t, m))).kernel.tasks[k.active].state == ReplyBlocked))
      && ((exists q {:trigger k.tasks[q]} :: 0 <= q < TASK_COUNT && k.tasks[q].state != Zombie && t in k.tasks[q].sendQueue) ==> r == 4)
      && (r == 5 <==> Guarded(k, Syscall(Reply(t, m))))
      && (t != 0 && t in k.events ==> r == 6)
  {
    assert k.tasks[k.active].state == Ready;
    hide Running, AfterHandler, Result, Guarded;
    StateResult(k, t);
    StateFromQueues(k, t);
    StateFromCalls(k, t, m);
  }

  /** The results that carry no information: WRITE to anything but the two ports fails, every
      other call returns 0. */
  lemma PlainResults(k: State, call: Call)
    requires AfterHandler(k, Syscall(call)).Done?
    requires !call.Create? && !call.GetTid? && !call.GetPid? && !call.GetPriority? && !call.GetState? && !call.Alloc? && !call.IsRunning?
    ensures Result(k, call) == if call.Write? && call.port != EVENT_TERMINAL_WRITE && call.port != EVENT_TRAIN_WRITE then -1 else 0
  {
    ResultIs(k, call);
    hide AfterHandler, Result;
  }

  // ---------------------------------------------------------------- parents and priorities

  /** Who created a task, and the priority it was created with. */
  datatype Birth = Birth(parent: nat, priority: nat)

  type Births = b: seq<Birth> | |b| == TASK_COUNT witness seq(TASK_COUNT, _ => Birth(0, 0))

  /** Watch one handler run from k to k1: note a CREATE under the descriptor of the id it returned. */
  function Register(k: State, input: Input, k1: State, births: Births): Births {
    match input
    case Syscall(Create(p, _)) =>
      var v := k1.tasks[k.active].ret;
      if 0 <= v && Id(v) < TASK_COUNT then births[Id(v) := Birth(k.tasks[k.active].tid, p % 256)] else births
    case _ => births
  }

  ghost predicate Registered(ts: Tasks, births: Births) {
    forall i {:trigger ts[i]} :: 0 <= i < TASK_COUNT && ts[i].state != Zombie ==>
      ts[i].pid == births[i].parent && ts[i].priority == births[i].priority
  }

  /** No task comes to life and none changes its parent or priority. */
  ghost predicate SameFamily(ts: Tasks, us: Tasks) {
    forall i {:trigger ts[i]} {:trigger us[i]} :: 0 <= i < TASK_COUNT && us[i].state != Zombie ==>
      ts[i].state != Zombie && us[i].pid == ts[i].pid && us[i].priority == ts[i].priority
  }

  lemma FamilyFrame(ts: Tasks, us: Tasks, births: Births)
    requires Registered(ts, births) && SameFamily(ts, us)
    ensures Registered(us, births)
  {
  }

  lemma CallFamily(k: State, call: Call)
    requires Running(k) && SystemCall(k, call).Done? && !call.Create?
    ensures SameFamily(k.tasks, SystemCall(k, call).kernel.tasks)
  {
    assert k.tasks[k.active].state == Ready;
    hide Inv, DoCreate, DoSend, DoReceive, DoReply, SameFamily;
    match call {
      case Send(to, _) => SendFamily(k, to);
      case Receive => ReceiveFamily(k);
      case Reply(to, m) => ReplyFamily(k, to, m);
      case _ => PlainFamily(k, call);
    }
  }

  lemma SendFamily(k: State, to: nat)
    requires k.tasks[k.active].state == Ready && DoSend(k, to).Done?
    ensures SameFamily(k.tasks, DoSend(k, to).kernel.tasks)
  {
  }

  lemma ReceiveFamily(k: State)
    requires k.tasks[k.active].state == Ready && DoReceive(k).Done?
    ensures SameFamily(k.tasks, DoReceive(k).kernel.tasks)
  {
  }

  lemma ReplyFamily(k: State, to: nat, m: Envelope)
    requires DoReply(k, to, m).Done?
    ensures SameFamily(k.tasks, DoReply(k, to, m).kernel.tasks)
  {
  }

  lemma PlainFamily(k: State, call: Call)
    requires k.tasks[k.active].state == Ready && SystemCall(k, call).Done?
    requires !call.Create? && !call.Send? && !call.Receive? && !call.Reply?
    ensures SameFamily(k.tasks, SystemCall(k, call).kernel.tasks)
  {
    hide DoCreate, DoSend, DoReceive, DoReply;
  }

  lemma InterruptFamily(k: State, irq: Irq)
    requires Running(k) && Interrupt(k, irq).Done?
    ensures SameFamily(k.tasks, Interrupt(k, irq).kernel.tasks)
  {
    InterruptWakes(k, irq);
    hide Running, Interrupt;
  }

  /** An interrupt only readies tasks that await an event, and hands readers their byte. */
  lemma InterruptWakes(k: State, irq: Irq)
    requires Running(k) && Interrupt(k, irq).Done?
    ensures forall i {:trigger k.tasks[i]} {:trigger Interrupt(k, irq).kernel.tasks[i]} :: 0 <= i < TASK_COUNT ==>
      var t, u := k.tasks[i], Interrupt(k, irq).kernel.tasks[i];
      u == t || (t.state == EventBlocked && u.state == Ready && u == t.(state := Ready, ret := u.ret))
  {
    InterruptExactly(k, irq);
    SlotsSleep(k);
    hide Running, Interrupt, Joining, Signals;
    forall i: nat | i < TASK_COUNT
      ensures var t, u := k.tasks[i], Interrupt(k, irq).kernel.tasks[i];
        u == t || (t.state == EventBlocked && u.state == Ready && u == t.(state := Ready, ret := u.ret))
    {
      if e: nat :| e < EVENT_TABLE_SIZE && Fires(k, irq, e) && Id(k.events[e]) == i {
        assert Interrupt(k, irq).kernel.tasks[i] == WokenBy(k.tasks[i], irq, e);
      }
    }
  }

  lemma SlotsSleep(k: State)
    requires Running(k)
    ensures forall e {:trigger k.events[e]} :: 0 <= e < EVENT_TABLE_SIZE && k.events[e] != 0 ==>
      Id(k.events[e]) < TASK_COUNT && k.tasks[Id(k.events[e])].state == EventBlocked
  {
    assert EventsName(k.tasks, k.events);
    hide Inv;
  }

  lemma CreateRegisters(k: State, p: nat, entry: int, births: Births)
    requires Running(k) && k.pool != [] && AfterHandler(k, Syscall(Create(p, entry))).Done? && Registered(k.tasks, births)
    ensures var k1 := AfterHandler(k, Syscall(Create(p, entry))).kernel;
      Registered(k1.tasks, Register(k, Syscall(Create(p, entry)), k1, births))
  {
    ResultIs(k, Create(p, entry));
    CreateShape(k, p, entry);
    assert IdsMatch(k.tasks);
    hide Inv, DoCreate;
  }

  lemma HandlerRegisters(k: State, input: Input, births: Births)
    requires Running(k) && Trusted(k, input) && AfterHandler(k, input).Done? && Registered(k.tasks, births)
    ensures Registered(AfterHandler(k, input).kernel.tasks, Register(k, input, AfterHandler(k, input).kernel, births))
  {
    hide Running, Registered, SameFamily, SystemCall, Interrupt;
    match input {
      case Syscall(call) =>
        if call.Create? {
          CreateRegisters(k, call.priority, call.entry, births);
        } else {
          var k0 := Trap(k, call);
          TrapKeeps(k, call);
          ControlFamily(k, k0, call);
          FamilyFrame(k.tasks, k0.tasks, births);
          var h := SystemCall(k0, call);
          CallFamily(k0, call);
          FamilyFrame(k0.tasks, h.kernel.tasks, births);
          ReturnFamily(h.kernel, h.ret);
          FamilyFrame(h.kernel.tasks, Returned(h.kernel, h.ret).tasks, births);
        }
      case Hardware(irq) =>
        InterruptFamily(k, irq);
        FamilyFrame(k.tasks, Interrupt(k, irq).kernel.tasks, births);
    }
  }

  lemma ControlFamily(k: State, k0: State, call: Call)
    requires k0 == Trap(k, call)
    ensures SameFamily(k.tasks, k0.tasks)
  {
  }

  lemma ReturnFamily(k: State, ret: int)
    ensures SameFamily(k.tasks, Returned(k, ret).tasks)
  {
  }

  lemma ScheduleRegisters(k: State, births: Births)
    requires Inv(k) && Schedule(k).Enter? && Registered(k.tasks, births)
    ensures Registered(Schedule(k).kernel.tasks, births)
  {
    hide Inv, Schedule;
    ScheduleTasks(k);
    FamilyFrame(k.tasks, Schedule(k).kernel.tasks, births);
  }

  function RegisterRun(k: State, inputs: seq<Input>, births: Births): Births
    decreases |inputs|
  {
    if inputs == [] || !Step(k, inputs[0]).Enter? || !AfterHandler(k, inputs[0]).Done? then births
    else RegisterRun(Step(k, inputs[0]).kernel, inputs[1..], Register(k, inputs[0], AfterHandler(k, inputs[0]).kernel, births))
  }

  lemma {:induction false} RunRegisters(k: State, inputs: seq<Input>, births: Births)
    requires Running(k) && TrustedRun(k, inputs) && Run(k, inputs).Enter? && Registered(k.tasks, births)
    ensures Registered(Run(k, inputs).kernel.tasks, RegisterRun(k, inputs, births)) && Running(Run(k, inputs).kernel)
    decreases |inputs|
  {
    hide Running, Registered, Trusted, Step, AfterHandler, Register;
    if inputs != [] {
      StepGood(k, inputs[0]);
      HandlerDone(k, inputs[0]);
      var h, k1 := AfterHandler(k, inputs[0]).kernel, Step(k, inputs[0]).kernel;
      HandlerRegisters(k, inputs[0], births);
      HandlerGentle(k, inputs[0]);
      ScheduleRegisters(h, Register(k, inputs[0], h, births));
      RunRegisters(k1, inputs[1..], Register(k, inputs[0], h, births));
    }
  }

  /** From boot, over every trusted run: sysPid tells a task the id of the task whose CREATE made it,
      and sysPriority the priority a live task was created with. The idle task counts as its own
      parent. */
  lemma FamilyFromBoot(cts: nat, entry: int, inputs: seq<Input>, births: Births, t: nat)
    requires var k := Boot(cts, entry).kernel; TrustedRun(k, inputs) && Run(k, inputs).Enter?
    requires births[0] == Birth(0, LEVELS - 1)
    ensures var k := Boot(cts, entry).kernel; var k1, b := Run(k, inputs).kernel, RegisterRun(k, inputs, births);
      && AfterHandler(k1, Syscall(GetPid)).Done? && Result(k1, GetPid) == b[k1.active].parent
      && (IsLive(k1.tasks, t) ==> AfterHandler(k1, Syscall(GetPriority(t))).Done? && Result(k1, GetPriority(t)) == b[Id(t)].priority)
  {
    BootIsRunning(cts, entry);
    BootRegistered(cts, entry, births);
    hide Boot, Run, TrustedRun, RegisterRun, Registered, Running;
    var k := Boot(cts, entry).kernel;
    RunRegisters(k, inputs, births);
    FamilyTold(Run(k, inputs).kernel, RegisterRun(k, inputs, births), t);
  }

  lemma BootRegistered(cts: nat, entry: int, births: Births)
    requires births[0] == Birth(0, LEVELS - 1)
    ensures Boot(cts, entry).Done? && Registered(Boot(cts, entry).kernel.tasks, births)
  {
    BootShape(cts, entry);
    BootPid(cts, entry);
    hide Boot;
  }

  lemma BootPid(cts: nat, entry: int)
    ensures Boot(cts, entry).Done? ==> Boot(cts, entry).kernel.tasks[0].pid == 0
  {
  }

  lemma FamilyTold(k: State, births: Births, t: nat)
    requires Running(k) && Registered(k.tasks, births)
    ensures AfterHandler(k, Syscall(GetPid)).Done? && Result(k, GetPid) == births[k.active].parent
    ensures IsLive(k.tasks, t) ==>
      AfterHandler(k, Syscall(GetPriority(t))).Done? && Result(k, GetPriority(t)) == births[Id(t)].priority
  {
    assert k.tasks[k.active].state == Ready;
    hide Running;
    if IsLive(k.tasks, t) { ResultIs(k, GetPriority(t)); }
    ResultIs(k, GetPid);
  }

  // ---------------------------------------------------------------- going on and coming to an end

  lemma CallRunning(k: State, call: Call)
    requires SystemCall(k, call).Done?
    ensures SystemCall(k, call).kernel.running ==
      match call
      case Shutdown => 0
      case Kill => 2
      case _ => k.running
  {
  }

  lemma ScheduleRunning(k: State)
    requires Schedule(k).Enter?
    ensures Schedule(k).kernel.running == k.running != 2
  {
  }

  /** Only SHUTDOWN and KILL move the flag that says whether the system runs. */
  lemma HandlerRunning(k: State, input: Input)
    requires Running(k) && AfterHandler(k, input).Done?
    ensures AfterHandler(k, input).kernel.running ==
      if input == Syscall(Shutdown) then 0 else if input == Syscall(Kill) then 2 else k.running
  {
    hide Running, Interrupt, SystemCall;
    match input {
      case Syscall(call) => CallRunning(Trap(k, call), call);
      case Hardware(irq) => InterruptExactly(k, irq);
    }
  }

  /** sysKill ends the system at once, whoever is ready. */
  lemma KillStops(k: State)
    ensures Step(k, Syscall(Kill)) == Stop
  {
  }

  ghost predicate NoneReady(ts: Tasks) {
    forall i {:trigger ts[i]} :: 0 <= i < TASK_COUNT ==> ts[i].state != Ready
  }

  lemma EmptyIsNoneReady(k: State)
    requires Inv(k) && k.tasks[k.active].state != Ready
    ensures Lowest(k.ready) == LEVELS <==> NoneReady(k.tasks)
  {
    if Lowest(k.ready) < LEVELS {
      assert k.ready[Lowest(k.ready)][0] in k.ready[Lowest(k.ready)];
    }
  }

  /** The scheduler comes to an orderly stop after KILL, and after SHUTDOWN once no task is ready. */
  lemma ScheduleStops(k: State)
    requires Inv(k) && k.running <= 2
    ensures Schedule(k) == Stop <==> k.running == 2 || (k.running == 0 && NoneReady(k.tasks))
  {
    ScheduleKeeps(k);
    hide Yield, RunNext, NoneReady;
    if k.running != 2 {
      if k.tasks[k.active].state == Ready {
        YieldKeeps(k);
        SomebodyReady(k);
      } else {
        EmptyIsNoneReady(k);
        if k.tasks[k.active].state == Zombie { ZombieKeeps(k); } else { RunNextKeeps(k); }
      }
    }
    hide Inv;
  }

  lemma SomebodyReady(k: State)
    requires k.tasks[k.active].state == Ready
    ensures !NoneReady(k.tasks)
  {
  }

  /** This input ends the run: KILL, or, once SHUTDOWN has been called, any that leaves no task ready. */
  ghost predicate Ends(k: State, input: Input, down: bool) {
    || input == Syscall(Kill)
    || (down && AfterHandler(k, input).Done? && NoneReady(AfterHandler(k, input).kernel.tasks))
  }

  lemma StepStopsExactly(k: State, input: Input)
    requires Running(k) && Trusted(k, input) && k.running <= 1
    ensures Step(k, input) == Stop <==> Ends(k, input, k.running == 0 || input == Syscall(Shutdown))
    ensures Step(k, input).Enter? ==> Step(k, input).kernel.running == (if input == Syscall(Shutdown) then 0 else k.running)
  {
    hide Running, Trusted, Schedule, NoneReady;
    KillStops(k);
    hide Step, AfterHandler;
    if AfterHandler(k, input).Done? {
      HandlerGentle(k, input);
      HandlerRunning(k, input);
      var h := AfterHandler(k, input).kernel;
      ScheduleStops(h);
      if Step(k, input).Enter? { ScheduleRunning(h); }
    } else {
      HandlerFaults(k, input);
    }
  }

  predicate IsDown(inputs: seq<Input>) {
    Syscall(Shutdown) in inputs
  }

  /** The input after the first n ends the run. */
  ghost predicate EndsAt(k: State, inputs: seq<Input>, n: nat)
    requires n < |inputs|
  {
    Run(k, inputs[..n]).Enter? &&
    Ends(Run(k, inputs[..n]).kernel, inputs[n], k.running == 0 || IsDown(inputs[..n + 1]))
  }

  lemma EndsLater(k: State, inputs: seq<Input>, n: nat)
    requires 0 < n < |inputs| && Step(k, inputs[0]).Enter?
    requires Step(k, inputs[0]).kernel.running == (if inputs[0] == Syscall(Shutdown) then 0 else k.running)
    ensures EndsAt(k, inputs, n) <==> EndsAt(Step(k, inputs[0]).kernel, inputs[1..], n - 1)
  {
    hide Step, Ends;
    var rest := inputs[1..];
    assert inputs[..n][1..] == rest[..n - 1] && inputs[..n][0] == inputs[0];
    assert inputs[..n + 1] == [inputs[0]] + rest[..n];
  }

  /** A trusted run ends by an orderly stop if and only if KILL is called, or SHUTDOWN has been
      called and no task is left ready; until then it goes on, or fails an assertion. */
  lemma {:induction false} RunStopsExactly(k: State, inputs: seq<Input>)
    requires Running(k) && TrustedRun(k, inputs) && k.running <= 1
    ensures Run(k, inputs) == Stop <==> exists n: nat :: n < |inputs| && EndsAt(k, inputs, n)
    decreases |inputs|
  {
    hide Running, Trusted, Step, AfterHandler, Ends;
    if inputs != [] {
      var rest := inputs[1..];
      StepGood(k, inputs[0]);
      StepStopsExactly(k, inputs[0]);
      assert inputs[..0] == [] && inputs[..1] == [inputs[0]];
      FirstEnds(k, inputs);
      if Step(k, inputs[0]).Enter? {
        var k1 := Step(k, inputs[0]).kernel;
        RunStopsExactly(k1, rest);
        forall n: nat | 0 < n < |inputs| ensures EndsAt(k, inputs, n) <==> EndsAt(k1, rest, n - 1) {
          EndsLater(k, inputs, n);
        }
        if n: nat :| n < |rest| && EndsAt(k1, rest, n) {
          assert EndsAt(k, inputs, n + 1);
        }
      } else {
        forall n: nat | 0 < n < |inputs| ensures !EndsAt(k, inputs, n) {
          NeverReached(k, inputs, n);
        }
      }
    }
  }

  lemma FirstEnds(k: State, inputs: seq<Input>)
    requires inputs != []
    ensures EndsAt(k, inputs, 0) <==> Ends(k, inputs[0], k.running == 0 || inputs[0] == Syscall(Shutdown))
  {
    hide Ends;
    assert inputs[..0] == [] && inputs[..1] == [inputs[0]];
  }

  lemma NeverReached(k: State, inputs: seq<Input>, n: nat)
    requires 0 < n < |inputs| && !Step(k, inputs[0]).Enter?
    ensures !EndsAt(k, inputs, n)
  {
    hide Step, Ends;
    assert inputs[..n][0] == inputs[0];
  }

  /** While a run goes on, the system is up exactly as long as SHUTDOWN has not been called. */
  lemma {:induction false} RunIsUp(k: State, inputs: seq<Input>)
    requires Running(k) && TrustedRun(k, inputs) && Run(k, inputs).Enter? && k.running <= 1
    ensures Run(k, inputs).kernel.running == if IsDown(inputs) then 0 else k.running
    decreases |inputs|
  {
    hide Running, Trusted, Step, Ends;
    if inputs != [] {
      StepGood(k, inputs[0]);
      StepStopsExactly(k, inputs[0]);
      RunIsUp(Step(k, inputs[0]).kernel, inputs[1..]);
      assert inputs == [inputs[0]] + inputs[1..];
    }
  }

  /** From boot: sysRunning answers 0 exactly after a SHUTDOWN, and the run ends exactly as RunStopsExactly says. */
  lemma UpFromBoot(cts: nat, entry: int, inputs: seq<Input>)
    requires TrustedRun(Boot(cts, entry).kernel, inputs)
    ensures var k := Boot(cts, entry).kernel;
      && (Run(k, inputs) == Stop <==> exists n: nat :: n < |inputs| && EndsAt(k, inputs, n))
      && (Run(k, inputs).Enter? ==>
            && AfterHandler(Run(k, inputs).kernel, Syscall(IsRunning)).Done?
            && (Result(Run(k, inputs).kernel, IsRunning) == 0 <==> IsDown(inputs)))
  {
    BootIsRunning(cts, entry);
    BootRuns(cts, entry);
    hide Boot, Running, Run, TrustedRun, EndsAt;
    var k := Boot(cts, entry).kernel;
    RunStopsExactly(k, inputs);
    if Run(k, inputs).Enter? {
      RunIsUp(k, inputs);
      ResultIs(Run(k, inputs).kernel, IsRunning);
    }
  }

  // ---------------------------------------------------------------- whose registers an entry touches

  /** The tasks an input is about: the caller, the task a message or a reply is delivered to, the
      new task, and the tasks in the slots that an interrupt fires. */
  ghost predicate Concerned(k: State, input: Input, i: nat) {
    match input
    case Hardware(irq) => exists e: nat {:trigger k.events[e]} :: e < EVENT_TABLE_SIZE && Fires(k, irq, e) && Id(k.events[e]) == i
    case Syscall(call) =>
      i == k.active ||
      match call
      case Send(to, _) => i == Id(to) && i < TASK_COUNT && k.tasks[i].state == SendBlocked
      case Reply(to, _) => i == Id(to)
      case Create(_, _) => k.pool != [] && i == k.pool[0]
      case _ => false
  }

  /** Nothing but its state and its queue has changed. */
  predicate SameRegisters(t: Task, u: Task) {
    u == t.(state := u.state, sendQueue := u.sendQueue)
  }

  lemma CallSpares(k: State, call: Call, i: nat)
    requires Running(k) && Trusted(k, Syscall(call)) && SystemCall(k, call).Done? && i < TASK_COUNT
    requires !Concerned(k, Syscall(call), i)
    ensures SameRegisters(k.tasks[i], SystemCall(k, call).kernel.tasks[i])
  {
    hide Inv, DoCreate, DoSend, DoReceive, DoReply;
    match call {
      case Create(p, entry) => CreateShape(k, p, entry);
      case Send(to, _) => SendSpares(k, to, i);
      case Receive => ReceiveSpares(k, i);
      case Reply(to, m) => ReplySpares(k, to, m, i);
      case _ =>
    }
  }

  lemma SendSpares(k: State, to: nat, i: nat)
    requires DoSend(k, to).Done? && i < TASK_COUNT && i != k.active && !(i == Id(to) && k.tasks[i].state == SendBlocked)
    ensures SameRegisters(k.tasks[i], DoSend(k, to).kernel.tasks[i])
  {
  }

  lemma ReceiveSpares(k: State, i: nat)
    requires DoReceive(k).Done? && i < TASK_COUNT && i != k.active
    ensures SameRegisters(k.tasks[i], DoReceive(k).kernel.tasks[i])
  {
  }

  lemma ReplySpares(k: State, to: nat, m: Envelope, i: nat)
    requires DoReply(k, to, m).Done? && i < TASK_COUNT && i != Id(to)
    ensures SameRegisters(k.tasks[i], DoReply(k, to, m).kernel.tasks[i])
  {
  }

  /** An entry into the kernel leaves every other task's registers as they were: messages, replies,
      results and arguments wait untouched until their task runs. */
  lemma BystandersKeep(k: State, input: Input, i: nat)
    requires Running(k) && Trusted(k, input) && Step(k, input).Enter? && i < TASK_COUNT && !Concerned(k, input, i)
    ensures SameRegisters(k.tasks[i], Step(k, input).kernel.tasks[i])
  {
    HandlerDone(k, input);
    HandlerGentle(k, input);
    HandlerSpares(k, input, i);
    hide Running, Inv, Step, AfterHandler, Schedule, Trusted;
    ScheduleTasks(AfterHandler(k, input).kernel);
    EndsOnlyCaller(k, input);
  }

  lemma HandlerSpares(k: State, input: Input, i: nat)
    requires Running(k) && Trusted(k, input) && AfterHandler(k, input).Done? && i < TASK_COUNT && !Concerned(k, input, i)
    ensures SameRegisters(k.tasks[i], AfterHandler(k, input).kernel.tasks[i])
  {
    hide Running, SystemCall, Interrupt, Trusted;
    match input {
      case Syscall(call) =>
        var k0 := Trap(k, call);
        TrapKeeps(k, call);
        TrappedTrust(k, call);
        CallSpares(k0, call, i);
        ActiveStays(k0, call);
      case Hardware(irq) =>
        InterruptExactly(k, irq);
    }
  }

  /** The active task is the only one that can have ended. */
  lemma EndsOnlyCaller(k: State, input: Input)
    requires Running(k) && Trusted(k, input) && AfterHandler(k, input).Done?
    ensures var h := AfterHandler(k, input).kernel;
      h.tasks[h.active].state == Zombie ==> input == Syscall(Exit) && h.active == k.active
  {
    hide SystemCall, Interrupt, Trusted;
    match input {
      case Syscall(call) =>
        var k0 := Trap(k, call);
        TrapKeeps(k, call);
        TrappedTrust(k, call);
        CallEnds(k0, call);
        ActiveStays(k0, call);
      case Hardware(irq) =>
        assert k.tasks[k.active].state == Ready;
        hide Inv;
        InterruptWakes(k, irq);
        InterruptExactly(k, irq);
    }
  }

  lemma CallEnds(k: State, call: Call)
    requires Running(k) && Trusted(k, Syscall(call)) && SystemCall(k, call).Done?
    ensures SystemCall(k, call).kernel.tasks[k.active].state == Zombie ==> call == Exit
  {
    assert k.tasks[k.active].state == Ready;
    if call.Create? {
      CreateShape(k, call.priority, call.entry);
    }
    hide Inv, DoCreate;
  }

  /** A task that SEND or REPLY readies finds 0 in its result register. */
  lemma ReadiedFindsZero(k: State, input: Input, i: nat)
    requires Running(k) && Trusted(k, input) && AfterHandler(k, input).Done? && i < TASK_COUNT
    requires k.tasks[i].state == SendBlocked || k.tasks[i].state == ReplyBlocked
    ensures var u := AfterHandler(k, input).kernel.tasks[i];
      u.state == Ready ==> u.ret == 0 && input.Syscall? && (input.call.Send? || input.call.Reply?)
  {
    hide SystemCall, Interrupt;
    match input {
      case Syscall(call) =>
        TrapKeeps(k, call);
        TrappedTrust(k, call);
        CallReadies(Trap(k, call), call, i);
        ActiveStays(Trap(k, call), call);
      case Hardware(irq) =>
        hide Running;
        InterruptWakes(k, irq);
    }
  }

  lemma CallReadies(k: State, call: Call, i: nat)
    requires Running(k) && Trusted(k, Syscall(call)) && SystemCall(k, call).Done? && i < TASK_COUNT
    requires k.tasks[i].state == SendBlocked || k.tasks[i].state == ReplyBlocked
    ensures i != k.active
    ensures var u := SystemCall(k, call).kernel.tasks[i];
      u.state == Ready ==> u.ret == 0 && (call.Send? || call.Reply?)
  {
    if call.Create? {
      CreateShape(k, call.priority, call.entry);
    }
    if call.Receive? && k.tasks[k.active].sendQueue != [] {
      FirstSenderWaits(k);
    }
    hide Inv, DoCreate;
  }
}
