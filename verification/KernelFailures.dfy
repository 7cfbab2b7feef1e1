/** Runs from boot on which the kernel's conditions fail: what the code trusts its callers with
    can be received, and what then goes wrong. */
module KernelFailures {
  import opened PriorityQueues
  import opened Circles
  import opened Kernel
  import opened KernelInvariant
  import opened KernelResources
  import opened KernelSchedule
  import opened KernelRuns
  import opened KernelProgress
  import opened KernelLimits
  import opened KernelAccounting

  // ---------------------------------------------------------------- going through the scheduler

  /** A ready task more urgent than all that wait goes on. */
  lemma Continues(k: State)
    requires k.running == 1 && k.tasks[k.active].state == Ready && k.tasks[k.active].priority < Lowest(k.ready)
    ensures Schedule(k) == Enter(k)
  {
  }

  /** Otherwise the head of the lowest level is entered. */
  lemma HandsOver(k: State)
    requires Inv(k) && k.running == 1 && k.tasks[k.active].state != Zombie
    requires Lowest(k.ready) < LEVELS
    requires k.tasks[k.active].state == Ready ==>
      Lowest(k.ready) <= k.tasks[k.active].priority < LEVELS && |k.ready[k.tasks[k.active].priority]| < DEPTH
    ensures var s := Lowest(k.ready);
      Id(k.ready[s][0]) < TASK_COUNT &&
      Schedule(k) == Enter(k.(active := Id(k.ready[s][0]), ready := Joined(k)[s := Joined(k)[s][1..]]))
  {
    var me, s := k.tasks[k.active], Lowest(k.ready);
    if me.state == Ready {
      YieldReady(k.tasks, k.ready, k.active);
    } else {
      PopReady(k.tasks, k.ready, k.active);
    }
    ActivateSucceeds(k.(ready := Joined(k)[s := Joined(k)[s][1..]]), k.ready[s][0]);
    hide Inv;
  }

  lemma AfterCreate(k: State, p: nat, entry: int)
    ensures var made := DoCreate(k, p, entry);
      AfterHandler(k, Syscall(Create(p, entry))) == if made.Halt? then made else Done(Returned(made.kernel, made.ret), 0)
  {
    hide DoCreate;
  }

  /** CREATE with a free descriptor, a free block and room at its level. */
  lemma Creates(k: State, p: nat, entry: int)
    requires Running(k) && k.pool != [] && k.blocks != [] && p < LEVELS && |k.ready[p]| < DEPTH
    ensures Trusted(k, Syscall(Create(p, entry))) && DoCreate(k, p, entry).Done?
    ensures k.pool[0] < TASK_COUNT && k.pool[0] != k.active
    ensures var h := AfterHandler(k, Syscall(Create(p, entry)));
      h.Done? && h.kernel == Returned(DoCreate(k, p, entry).kernel, k.tasks[k.pool[0]].tid)
  {
    CreateRuns(k, p, entry);
    CreateShape(k, p, entry);
    hide Running, DoCreate, NewTask;
    AfterCreate(k, p, entry);
  }

  lemma CreatedShape(k: State, p: nat, entry: int)
    requires Running(k) && k.pool != [] && DoCreate(k, p, entry).Done? && p < LEVELS
    ensures k.blocks != [] && k.pool[0] < TASK_COUNT
    ensures var made := DoCreate(k, p, entry).kernel;
      && made.active == k.active && made.running == k.running && made.events == k.events
      && made.pool == k.pool[1..] && made.blocks == k.blocks[1..]
      && made.ready == k.ready[p := k.ready[p] + [k.tasks[k.pool[0]].tid]]
      && made.tasks == k.tasks[k.pool[0] := NewTask(k, p)]
  {
    hide Running, DoCreate;
    CreateShape(k, p, entry);
  }

  /** A task more urgent than its creator and than all that wait is entered at once. */
  lemma NewestEnters(k: State, h: State, p: nat, v: nat)
    requires Inv(h) && h.running == 1 && h.tasks[h.active].state == Ready && p < LEVELS && k.ready[p] == []
    requires h.tasks[h.active].priority < LEVELS && |k.ready[h.tasks[h.active].priority]| < DEPTH
    requires p < Lowest(k.ready) && p < h.tasks[h.active].priority && h.ready == k.ready[p := [v]] && Id(v) < TASK_COUNT
    ensures var me := h.tasks[h.active];
      Schedule(h) == Enter(h.(active := Id(v), ready := k.ready[me.priority := k.ready[me.priority] + [me.tid]]))
  {
    var me := h.tasks[h.active];
    hide Inv, Schedule;
    LowestIs(h.ready, p);
    HandsOver(h);
    var m := Joined(h);
    assert m == h.ready[me.priority := k.ready[me.priority] + [me.tid]] && m[p] == [v];
    assert m[p][1..] == [] == k.ready[p];
    assert m[p := m[p][1..]] == k.ready[me.priority := k.ready[me.priority] + [me.tid]];
  }

  lemma CreateEnters(k: State, p: nat, entry: int)
    requires Running(k) && k.running == 1 && k.pool != [] && k.blocks != [] && p < LEVELS && |k.ready[p]| < DEPTH
    requires p < Lowest(k.ready) && p < k.tasks[k.active].priority && |k.ready[k.tasks[k.active].priority]| < DEPTH
    ensures k.pool[0] < TASK_COUNT && k.pool[0] != k.active
    ensures var input, me := Syscall(Create(p, entry)), k.tasks[k.active];
      && Trusted(k, input) && Step(k, input).Enter? && Running(Step(k, input).kernel)
      && var k1 := Step(k, input).kernel;
         && k1.active == k.pool[0] && k1.running == 1 && k1.events == k.events
         && k1.pool == k.pool[1..] && k1.blocks == k.blocks[1..]
         && k1.ready == k.ready[me.priority := k.ready[me.priority] + [me.tid]]
         && k1.tasks == k.tasks[k.pool[0] := NewTask(k, p)][k.active := me.(ret := k1.tasks[k.active].ret)]
  {
    NewIds(k);
    var input, v := Syscall(Create(p, entry)), k.tasks[k.pool[0]].tid;
    Creates(k, p, entry);
    CreatedShape(k, p, entry);
    HandlerGentle(k, input);
    StepGood(k, input);
    hide Running, Inv, AfterHandler, Step, Schedule, DoCreate, Gentle, Joined;
    assert k.ready[p] == [] && k.ready[p] + [v] == [v];
    NewestEnters(k, AfterHandler(k, input).kernel, p, v);
  }

  lemma NewIds(k: State)
    requires Running(k) && k.pool != []
    ensures k.pool[0] < TASK_COUNT && Id(k.tasks[k.pool[0]].tid) == k.pool[0]
    ensures k.tasks[k.active].state == Ready && k.tasks[k.active].priority < LEVELS
  {
    assert k.pool[0] in k.pool;
    hide ReadyExact, SendersWait, EventsName, BlocksPartitioned;
  }

  // ---------------------------------------------------------------- one or two tasks beside the idle task

  /** Only the idle task waits in the ready queue. */
  function IdleWaits(): Levels { seq(LEVELS, _ => [])[LEVELS - 1 := [0]] }

  ghost predicate Fresh(t: Task, tid: nat, priority: nat) {
    t.tid == tid && t.priority == priority && t.state == Ready && t.sendQueue == [] && t.sendLength == SEND_QUEUE_LENGTH
  }

  /** The first n tasks have been created, the `active` one is entered, and nobody awaits an event. */
  ghost predicate Stage(k: State, active: nat, ready: Levels, n: nat) {
    && Running(k) && k.running == 1 && k.active == active && k.ready == ready
    && k.events == seq(EVENT_TABLE_SIZE, _ => 0) && n < TASK_COUNT
    && k.pool == seq(TASK_COUNT, i => i)[n + 1..] && k.blocks == seq(BLOCK_COUNT, i => i + 1)[n + 1..]
    && (forall i {:trigger k.tasks[i]} :: n < i < TASK_COUNT ==> k.tasks[i] == UnusedTask(i))
    && Fresh(k.tasks[0], 0, LEVELS - 1)
  }

  lemma AtBoot(cts: nat, entry: int)
    ensures Boot(cts, entry).Done? && Stage(Boot(cts, entry).kernel, 0, seq(LEVELS, _ => []), 0)
  {
    BootShape(cts, entry);
    BootRuns(cts, entry);
    hide Boot, Running;
    BootIsRunning(cts, entry);
  }

  /** The first free descriptor and block are those after the ones in use. */
  lemma NextFree(k: State, active: nat, ready: Levels, n: nat)
    requires Stage(k, active, ready, n) && n + 1 < TASK_COUNT
    ensures k.pool != [] && k.pool[0] == n + 1 && k.pool[1..] == seq(TASK_COUNT, i => i)[n + 2..]
    ensures k.blocks != [] && k.blocks[0] == n + 2 && k.blocks[1..] == seq(BLOCK_COUNT, i => i + 1)[n + 2..]
    ensures k.tasks[n + 1] == UnusedTask(n + 1)
  {
    hide Running;
  }

  lemma StageNext(k: State, k1: State, n: nat, p: nat)
    requires Stage(k, k.active, k.ready, n) && n + 1 < TASK_COUNT && k.active <= n && p < LEVELS
    requires Running(k1) && k1.active == n + 1 && k1.running == 1 && k1.events == k.events
    requires k1.pool == seq(TASK_COUNT, i => i)[n + 2..] && k1.blocks == seq(BLOCK_COUNT, i => i + 1)[n + 2..]
    requires Fresh(k1.tasks[n + 1], n + 1, p)
    requires k1.tasks == k.tasks[n + 1 := k1.tasks[n + 1]][k.active := k.tasks[k.active].(ret := k1.tasks[k.active].ret)]
    ensures Stage(k1, n + 1, k1.ready, n + 1)
  {
    hide Running;
  }

  /** From a stage to the next: the creator joins its own level. */
  lemma Enters(k: State, active: nat, ready: Levels, n: nat, p: nat, entry: int, from: nat, next: Levels)
    requires Stage(k, active, ready, n) && n + 1 < TASK_COUNT && active <= n && p < from < LEVELS && p < Lowest(ready)
    requires k.tasks[active].priority == from && |ready[p]| < DEPTH && |ready[from]| < DEPTH
    requires next == ready[from := ready[from] + [k.tasks[active].tid]]
    ensures var input := Syscall(Create(p, entry));
      && Trusted(k, input) && Step(k, input).Enter? && Stage(Step(k, input).kernel, n + 1, next, n + 1)
      && Fresh(Step(k, input).kernel.tasks[n + 1], n + 1, p)
      && Step(k, input).kernel.tasks[active] == k.tasks[active].(ret := Step(k, input).kernel.tasks[active].ret)
  {
    NextFree(k, active, ready, n);
    hide Running, Step, Trusted;
    CreateEnters(k, p, entry);
    var k1 := Step(k, Syscall(Create(p, entry))).kernel;
    assert Fresh(k1.tasks[n + 1], n + 1, p);
    StageNext(k, k1, n, p);
  }

  /** The idle task creates task 1, which is entered. */
  lemma FirstTask(k: State, entry: int)
    requires Stage(k, 0, seq(LEVELS, _ => []), 0)
    ensures var input := Syscall(Create(2, entry));
      Trusted(k, input) && Step(k, input).Enter? && Stage(Step(k, input).kernel, 1, IdleWaits(), 1)
      && Fresh(Step(k, input).kernel.tasks[1], 1, 2)
  {
    assert LowestFrom(k.ready, 0) == LEVELS;
    assert k.ready[LEVELS - 1] + [0] == [0];
    Enters(k, 0, k.ready, 0, 2, entry, LEVELS - 1, IdleWaits());
  }

  /** Task 1 creates task 2, which is more urgent and entered. */
  lemma SecondTask(k: State, entry: int)
    requires Stage(k, 1, IdleWaits(), 1) && Fresh(k.tasks[1], 1, 2)
    ensures var input := Syscall(Create(1, entry));
      && Trusted(k, input) && Step(k, input).Enter? && Stage(Step(k, input).kernel, 2, IdleWaits()[2 := [1]], 2)
      && Fresh(Step(k, input).kernel.tasks[1], 1, 2) && Fresh(Step(k, input).kernel.tasks[2], 2, 1)
  {
    hide Running, Step, Trusted;
    LowestIs(k.ready, LEVELS - 1);
    assert k.ready[2] + [1] == [1];
    Enters(k, 1, k.ready, 1, 1, entry, 2, IdleWaits()[2 := [1]]);
  }

  // ---------------------------------------------------------------- lost tasks

  /** The run is trusted and goes on, and at its end some task is lost. */
  ghost predicate Loses(k: State, inputs: seq<Input>, waits: Waits) {
    TrustedRun(k, inputs) && Run(k, inputs).Enter? && !Accounted(Run(k, inputs).kernel, WatchRun(k, inputs, waits))
  }

  lemma LosesAfter(k: State, inputs: seq<Input>, waits: Waits)
    requires inputs != [] && Trusted(k, inputs[0]) && Step(k, inputs[0]).Enter?
    requires Loses(Step(k, inputs[0]).kernel, inputs[1..], Watch(k, inputs[0], waits))
    ensures Loses(k, inputs, waits)
  {
    hide Trusted, Step, Accounted, Watch;
  }

  lemma LosesNow(k: State, input: Input, waits: Waits)
    requires Running(k) && Accounted(k, waits)
    requires Trusted(k, input) && Step(k, input).Enter? && !Considerate(k, input, waits)
    ensures Loses(k, [input], waits)
  {
    hide Running, Trusted, Step, Accounted, Watch, Considerate;
    StepAccountsExactly(k, input, waits);
    assert [input][1..] == [];
    LosesAfter(k, [input], waits);
  }

  /** The idle task and task 1, which is entered. */
  ghost predicate OneTask(k: State, waits: Waits) {
    Stage(k, 1, IdleWaits(), 1) && Fresh(k.tasks[1], 1, 2) && Accounted(k, waits)
  }

  /** Two tasks beside the idle task, of which task 2 is entered. */
  ghost predicate TwoTasks(k: State, waits: Waits) {
    Stage(k, 2, IdleWaits()[2 := [1]], 2) && Fresh(k.tasks[1], 1, 2) && Fresh(k.tasks[2], 2, 1) && Accounted(k, waits)
  }

  lemma FromOneTask(cts: nat, entry: int, waits: Waits, rest: seq<Input>)
    requires forall k :: OneTask(k, waits) ==> Loses(k, rest, waits)
    ensures Boot(cts, entry).Done? && Loses(Boot(cts, entry).kernel, [Syscall(Create(2, entry))] + rest, waits)
  {
    AtBoot(cts, entry);
    BootAccounted(cts, entry, waits);
    var k, input := Boot(cts, entry).kernel, Syscall(Create(2, entry));
    hide Boot, Accounted, Loses;
    FirstTask(k, entry);
    hide Step;
    StepAccountsExactly(k, input, waits);
    assert OneTask(Step(k, input).kernel, waits);
    assert ([input] + rest)[1..] == rest;
    LosesAfter(k, [input] + rest, waits);
  }

  lemma FromTwoTasks(cts: nat, entry: int, waits: Waits, rest: seq<Input>)
    requires forall k :: TwoTasks(k, waits) ==> Loses(k, rest, waits)
    ensures Boot(cts, entry).Done?
    ensures Loses(Boot(cts, entry).kernel, [Syscall(Create(2, entry))] + ([Syscall(Create(1, entry))] + rest), waits)
  {
    var input := Syscall(Create(1, entry));
    forall k | OneTask(k, waits) ensures Loses(k, [input] + rest, waits) {
      hide Accounted, Loses;
      SecondTask(k, entry);
      hide Step;
      StepAccountsExactly(k, input, waits);
      assert TwoTasks(Step(k, input).kernel, waits);
      assert ([input] + rest)[1..] == rest;
    LosesAfter(k, [input] + rest, waits);
    }
    FromOneTask(cts, entry, waits, [input] + rest);
  }

  /** A caller that blocks hands over to the head of the lowest level. */
  lemma BlocksNow(k: State, input: Input)
    requires Running(k) && k.running == 1 && Trusted(k, input) && AfterHandler(k, input).Done?
    requires var h := AfterHandler(k, input).kernel;
      h.running == 1 && h.active == k.active && Lowest(h.ready) < LEVELS &&
      h.tasks[h.active].state != Zombie && h.tasks[h.active].state != Ready
    ensures var h := AfterHandler(k, input).kernel; var s := Lowest(h.ready);
      && Id(h.ready[s][0]) < TASK_COUNT && Step(k, input).Enter? && Running(Step(k, input).kernel)
      && Step(k, input).kernel == h.(active := Id(h.ready[s][0]), ready := h.ready[s := h.ready[s][1..]])
  {
    HandlerGentle(k, input);
    StepGood(k, input);
    hide Inv, AfterHandler, Step, Schedule, Gentle;
    HandsOver(AfterHandler(k, input).kernel);
  }

  /** Nothing wakes a task from slot 0. */
  lemma AwaitNothingFromBoot(cts: nat, entry: int, waits: Waits)
    ensures Boot(cts, entry).Done?
    ensures Loses(Boot(cts, entry).kernel, [Syscall(Create(2, entry))] + [Syscall(Await(0, 0))], waits)
  {
    var input := Syscall(Await(0, 0));
    forall k | OneTask(k, waits) ensures Loses(k, [input], waits) {
      hide Accounted, Running;
      LowestIs(k.ready, LEVELS - 1);
      BlocksNow(k, input);
      LosesNow(k, input, waits);
    }
    FromOneTask(cts, entry, waits, [input]);
  }

  /** A considerate step on the way. */
  lemma LosesLater(k: State, input: Input, rest: seq<Input>, waits: Waits)
    requires Running(k) && Accounted(k, waits) && Trusted(k, input) && Step(k, input).Enter? && Considerate(k, input, waits)
    requires Accounted(Step(k, input).kernel, Watch(k, input, waits)) ==> Loses(Step(k, input).kernel, rest, Watch(k, input, waits))
    ensures Loses(k, [input] + rest, waits)
  {
    hide Running, Trusted, Step, Accounted, Watch, Considerate, Loses;
    StepAccountsExactly(k, input, waits);
    assert ([input] + rest)[1..] == rest;
    LosesAfter(k, [input] + rest, waits);
  }

  /** A task that sends to itself waits for itself. */
  lemma SelfSendFromBoot(cts: nat, entry: int, m: Envelope, waits: Waits)
    ensures Boot(cts, entry).Done?
    ensures Loses(Boot(cts, entry).kernel, [Syscall(Create(2, entry))] + [Syscall(Send(1, m))], waits)
  {
    var input := Syscall(Send(1, m));
    forall k | OneTask(k, waits) ensures Loses(k, [input], waits) {
      hide Accounted, Running;
      LowestIs(k.ready, LEVELS - 1);
      BlocksNow(k, input);
      FreeEnds(k, 1, waits);
      LosesNow(k, input, waits);
    }
    FromOneTask(cts, entry, waits, [input]);
  }

  /** A task that waits for no other ends its own chain. */
  lemma FreeEnds(k: State, i: nat, waits: Waits)
    requires i < TASK_COUNT && !OnTask(k.tasks[i])
    ensures End(LinksOf(k.tasks, waits), i) == i
  {
    Stuck(LinksOf(k.tasks, waits), i, TASK_COUNT);
  }

  /** Task 2 is in the queue of task 1, which has been entered. */
  ghost predicate SecondSent(k: State, waits: Waits) {
    && Running(k) && k.running == 1 && k.active == 1 && k.ready == IdleWaits() && waits[2] == 1
    && k.tasks[1].tid == 1 && k.tasks[1].state == Ready && k.tasks[1].sendQueue == [2]
    && k.tasks[2].tid == 2 && k.tasks[2].state == ReceiveBlocked && k.tasks[2].sendQueue == []
    && k.tasks[2].sendLength == SEND_QUEUE_LENGTH && Accounted(k, waits)
  }

  lemma FromSecondSent(cts: nat, entry: int, m: Envelope, waits: Waits, rest: seq<Input>)
    requires forall k, later :: SecondSent(k, later) ==> Loses(k, rest, later)
    ensures Boot(cts, entry).Done?
    ensures Loses(Boot(cts, entry).kernel,
      [Syscall(Create(2, entry))] + ([Syscall(Create(1, entry))] + ([Syscall(Send(1, m))] + rest)), waits)
  {
    var input := Syscall(Send(1, m));
    forall k | TwoTasks(k, waits) ensures Loses(k, [input] + rest, waits) {
      hide Accounted, Running, Loses, Step;
      SecondSends(k, m, waits);
      LosesLater(k, input, rest, waits);
    }
    FromTwoTasks(cts, entry, waits, [input] + rest);
  }

  lemma SecondSends(k: State, m: Envelope, waits: Waits)
    requires TwoTasks(k, waits)
    ensures var input := Syscall(Send(1, m));
      && Trusted(k, input) && Step(k, input).Enter? && Considerate(k, input, waits)
      && (Accounted(Step(k, input).kernel, Watch(k, input, waits)) ==>
            SecondSent(Step(k, input).kernel, Watch(k, input, waits)))
  {
    hide Accounted, Running;
    LowestIs(k.ready, 2);
    BlocksNow(k, Syscall(Send(1, m)));
    FreeEnds(k, 1, waits);
    hide Step;
    assert k.ready[2][1..] == [] && k.ready[2 := []] == IdleWaits();
  }

  /** Two tasks that send to each other wait for each other. */
  lemma DeadlockFromBoot(cts: nat, entry: int, m: Envelope, n: Envelope, waits: Waits)
    ensures Boot(cts, entry).Done?
    ensures Loses(Boot(cts, entry).kernel,
      [Syscall(Create(2, entry))] + ([Syscall(Create(1, entry))] + ([Syscall(Send(1, m))] + [Syscall(Send(2, n))])), waits)
  {
    var input := Syscall(Send(2, n));
    forall k, later | SecondSent(k, later) ensures Loses(k, [input], later) {
      hide Accounted, Running, Loses, Considerate, Step;
      FirstSendsBack(k, n, later);
      LosesNow(k, input, later);
    }
    FromSecondSent(cts, entry, m, waits, [input]);
  }

  lemma FirstSendsBack(k: State, m: Envelope, waits: Waits)
    requires SecondSent(k, waits)
    ensures var input := Syscall(Send(2, m)); Trusted(k, input) && Step(k, input).Enter? && !Considerate(k, input, waits)
  {
    hide Accounted, Running, LinksOf, End;
    LowestIs(k.ready, LEVELS - 1);
    BlocksNow(k, Syscall(Send(2, m)));
    hide Step, AfterHandler, Stage;
    BackToFirst(k.tasks, waits);
  }

  lemma BackToFirst(ts: Tasks, waits: Waits)
    requires ts[2].state == ReceiveBlocked && waits[2] == 1 && !OnTask(ts[1])
    ensures End(LinksOf(ts, waits), 2) == 1
  {
    var next := LinksOf(ts, waits);
    assert next[2] == 1 && next[1] == -1;
    Stuck(next, 1, TASK_COUNT - 1);
  }

  /** An exit with a sender in the queue strands it. */
  lemma QueuedExitFromBoot(cts: nat, entry: int, m: Envelope, waits: Waits)
    ensures Boot(cts, entry).Done?
    ensures Loses(Boot(cts, entry).kernel,
      [Syscall(Create(2, entry))] + ([Syscall(Create(1, entry))] + ([Syscall(Send(1, m))] + [Syscall(Exit)])), waits)
  {
    var input := Syscall(Exit);
    forall k, later | SecondSent(k, later) ensures Loses(k, [input], later) {
      hide Accounted, Running;
      LowestIs(k.ready, LEVELS - 1);
      ExitsNow(k);
      LosesNow(k, input, later);
    }
    FromSecondSent(cts, entry, m, waits, [input]);
  }

  /** A task that exits hands over to the head of the lowest level. */
  lemma ExitsNow(k: State)
    requires Running(k) && k.running == 1 && Lowest(k.ready) < LEVELS
    ensures Trusted(k, Syscall(Exit)) && Step(k, Syscall(Exit)).Enter? && Running(Step(k, Syscall(Exit)).kernel)
    ensures var k1 := Step(k, Syscall(Exit)).kernel; var s := Lowest(k.ready);
      && k1.active == Id(k.ready[s][0]) && k1.running == 1 && k1.ready == k.ready[s := k.ready[s][1..]]
      && k1.tasks == k.tasks[k.active := k1.tasks[k.active]] && k1.tasks[k.active].state == Zombie
      && k1.tasks[k.active].sendQueue == k.tasks[k.active].sendQueue
      && k1.tasks[k.active].sendLength == k.tasks[k.active].sendLength
  {
    var h := AfterHandler(k, Syscall(Exit)).kernel;
    assert h == Returned(With(k, k.active, k.tasks[k.active].(state := Zombie)), 0);
    hide Running, Inv, AfterHandler, Schedule, Step, Gentle;
    HandlerGentle(k, Syscall(Exit));
    ReclaimsNow(h);
    StepGood(k, Syscall(Exit));
  }

  lemma ReclaimsNow(k: State)
    requires Inv(k) && k.running == 1 && Lowest(k.ready) < LEVELS && k.tasks[k.active].state == Zombie
    ensures Schedule(k).Enter?
    ensures var k1 := Schedule(k).kernel; var s := Lowest(k.ready);
      && k1.active == Id(k.ready[s][0]) && k1.running == 1 && k1.ready == k.ready[s := k.ready[s][1..]]
      && k1.tasks == ReclaimedTasks(k.tasks, k.active)
  {
    ZombieKeeps(k);
    ScheduleMoves(k);
    FreeTaskShape(k);
    hide Inv;
  }

  /** A wait for an event that another task awaits evicts that task. */
  lemma TwoAwaitFromBoot(cts: nat, entry: int, waits: Waits)
    ensures Boot(cts, entry).Done?
    ensures Loses(Boot(cts, entry).kernel,
      [Syscall(Create(2, entry))] + ([Syscall(Create(1, entry))] + ([Syscall(Await(1, 0))] + [Syscall(Await(1, 0))])), waits)
  {
    var input := Syscall(Await(1, 0));
    forall k | TwoTasks(k, waits) ensures Loses(k, [input] + [input], waits) {
      hide Accounted, Running, Loses, Step, Considerate;
      SecondListens(k, waits);
      var k1 := Step(k, input).kernel;
      if Accounted(k1, waits) {
        FirstListens(k1, waits);
        LosesNow(k1, input, waits);
      }
      LosesLater(k, input, [input], waits);
    }
    FromTwoTasks(cts, entry, waits, [input] + [input]);
  }

  /** Task 2 awaits event 1, and task 1 has been entered. */
  ghost predicate SecondListening(k: State) {
    && Running(k) && k.running == 1 && k.active == 1 && k.ready == IdleWaits() && k.tasks[1].state == Ready && k.events[1] == 2
  }

  lemma SecondListens(k: State, waits: Waits)
    requires TwoTasks(k, waits)
    ensures var input := Syscall(Await(1, 0));
      && Trusted(k, input) && Step(k, input).Enter? && Considerate(k, input, waits)
      && SecondListening(Step(k, input).kernel)
  {
    hide Accounted, Running;
    LowestIs(k.ready, 2);
    BlocksNow(k, Syscall(Await(1, 0)));
    hide Step;
    assert k.ready[2][1..] == [] && k.ready[2 := []] == IdleWaits();
  }

  lemma FirstListens(k: State, waits: Waits)
    requires SecondListening(k)
    ensures var input := Syscall(Await(1, 0)); Trusted(k, input) && Step(k, input).Enter? && !Considerate(k, input, waits)
  {
    hide Running;
    LowestIs(k.ready, LEVELS - 1);
    BlocksNow(k, Syscall(Await(1, 0)));
  }

  /** A message sent to a task that has ended is never received. */
  lemma SendToTheDeadFromBoot(cts: nat, entry: int, m: Envelope, waits: Waits)
    ensures Boot(cts, entry).Done?
    ensures Loses(Boot(cts, entry).kernel,
      [Syscall(Create(2, entry))] + ([Syscall(Create(1, entry))] + ([Syscall(Exit)] + [Syscall(Send(2, m))])), waits)
  {
    var first, input := Syscall(Exit), Syscall(Send(2, m));
    forall k | TwoTasks(k, waits) ensures Loses(k, [first] + [input], waits) {
      hide Accounted, Running, Loses, Step, AfterHandler, Considerate;
      SecondExits(k, waits);
      var k1 := Step(k, first).kernel;
      if Accounted(k1, waits) {
        SendsToTheDead(k1, m, waits);
        LosesNow(k1, input, waits);
      }
      LosesLater(k, first, [input], waits);
    }
    FromTwoTasks(cts, entry, waits, [first] + [input]);
  }

  /** Task 2 has ended and task 1 has been entered. */
  ghost predicate SecondEnded(k: State) {
    && Running(k) && k.running == 1 && k.active == 1 && k.ready == IdleWaits() && k.tasks[1].state == Ready
    && k.tasks[2].state == Zombie && k.tasks[2].sendQueue == [] && k.tasks[2].sendLength == SEND_QUEUE_LENGTH
  }

  lemma SecondExits(k: State, waits: Waits)
    requires TwoTasks(k, waits)
    ensures Trusted(k, Syscall(Exit)) && Step(k, Syscall(Exit)).Enter? && Considerate(k, Syscall(Exit), waits)
    ensures SecondEnded(Step(k, Syscall(Exit)).kernel)
  {
    hide Accounted, Running;
    LowestIs(k.ready, 2);
    NobodyAwaits(k, waits);
    ExitsNow(k);
    hide Step;
    assert k.ready[2][1..] == [] && k.ready[2 := []] == IdleWaits();
  }

  lemma SendsToTheDead(k: State, m: Envelope, waits: Waits)
    requires SecondEnded(k)
    ensures var input := Syscall(Send(2, m)); Trusted(k, input) && Step(k, input).Enter? && !Considerate(k, input, waits)
  {
    hide Running;
    LowestIs(k.ready, LEVELS - 1);
    BlocksNow(k, Syscall(Send(2, m)));
  }

  lemma NobodyAwaits(k: State, waits: Waits)
    requires TwoTasks(k, waits)
    ensures OwesNothing(k, waits)
  {
    hide Running, Accounted;
    forall i | 0 <= i < TASK_COUNT ensures k.tasks[i].state != ReplyBlocked {
      if i > 2 { assert k.tasks[i] == UnusedTask(i); }
    }
  }

  // ---------------------------------------------------------------- received and never replied to

  /** Task 2 waits for a message, and task 1 has been entered. */
  ghost predicate SecondWaits(k: State, waits: Waits) {
    && Running(k) && k.running == 1 && k.active == 1 && k.ready == IdleWaits()
    && Fresh(k.tasks[1], 1, 2) && k.tasks[2].tid == 2 && k.tasks[2].priority == 1 && k.tasks[2].state == SendBlocked
    && k.tasks[2].sendQueue == [] && Accounted(k, waits)
  }

  /** Task 2 has received the message of task 1, which awaits the reply. */
  ghost predicate FirstAwaits(k: State, waits: Waits) {
    && Running(k) && k.running == 1 && k.active == 2 && k.ready == IdleWaits() && Accounted(k, waits)
    && k.tasks[1].tid == 1 && k.tasks[1].state == ReplyBlocked && waits[1] == 2
    && k.tasks[2].tid == 2 && k.tasks[2].sendQueue == []
  }

  lemma SecondReceives(k: State, waits: Waits)
    requires TwoTasks(k, waits)
    ensures Trusted(k, Syscall(Receive)) && Step(k, Syscall(Receive)).Enter? && Considerate(k, Syscall(Receive), waits)
    ensures Accounted(Step(k, Syscall(Receive)).kernel, waits) ==> SecondWaits(Step(k, Syscall(Receive)).kernel, waits)
  {
    hide Accounted, Running;
    LowestIs(k.ready, 2);
    BlocksNow(k, Syscall(Receive));
    hide Step;
    assert k.ready[2][1..] == [] && k.ready[2 := []] == IdleWaits();
  }

  lemma FirstSends(k: State, m: Envelope, waits: Waits)
    requires SecondWaits(k, waits)
    ensures var input := Syscall(Send(2, m));
      && Trusted(k, input) && Step(k, input).Enter? && Considerate(k, input, waits)
      && (Accounted(Step(k, input).kernel, Watch(k, input, waits)) ==>
            FirstAwaits(Step(k, input).kernel, Watch(k, input, waits)))
  {
    hide Accounted, Running;
    var input := Syscall(Send(2, m));
    assert k.ready[1] + [2] == [2];
    var h := AfterHandler(k, input).kernel;
    assert AfterHandler(k, input).Done? && h.ready == k.ready[1 := [2]];
    assert h.ready[0] == [] && h.ready[1] == [2];
    LowestIs(h.ready, 1);
    BlocksNow(k, input);
    FreeEnds(k, 2, waits);
    hide Step, AfterHandler;
    assert h.ready[1][1..] == [] && h.ready[1 := []] == IdleWaits();
  }

  /** Receiving and exiting without a reply strands the sender, although the queue is empty. */
  lemma UnpaidFromBoot(cts: nat, entry: int, m: Envelope, waits: Waits)
    ensures Boot(cts, entry).Done?
    ensures Loses(Boot(cts, entry).kernel,
      [Syscall(Create(2, entry))] + ([Syscall(Create(1, entry))] +
      ([Syscall(Receive)] + ([Syscall(Send(2, m))] + [Syscall(Exit)]))), waits)
  {
    var send, rest := Syscall(Send(2, m)), [Syscall(Send(2, m))] + [Syscall(Exit)];
    forall k | TwoTasks(k, waits) ensures Loses(k, [Syscall(Receive)] + rest, waits) {
      hide Accounted, Running, Loses, Step, Considerate;
      SecondReceives(k, waits);
      var k1 := Step(k, Syscall(Receive)).kernel;
      if Accounted(k1, waits) {
        FirstSends(k1, m, waits);
        var k2, later := Step(k1, send).kernel, Watch(k1, send, waits);
        if Accounted(k2, later) {
          ExitUnpaid(k2, later);
        }
        LosesLater(k1, send, [Syscall(Exit)], waits);
      }
      LosesLater(k, Syscall(Receive), rest, waits);
    }
    FromTwoTasks(cts, entry, waits, [Syscall(Receive)] + rest);
  }

  lemma ExitUnpaid(k: State, waits: Waits)
    requires FirstAwaits(k, waits)
    ensures Loses(k, [Syscall(Exit)], waits)
  {
    hide Accounted, Running, Loses;
    LowestIs(k.ready, LEVELS - 1);
    ExitsNow(k);
    assert !OwesNothing(k, waits);
    LosesNow(k, Syscall(Exit), waits);
  }

  // ---------------------------------------------------------------- id 0, and a block nobody was given

  /** The idle task's id marks an empty slot, so its own wait is not seen. */
  lemma IdleAwaitLost(cts: nat, entry: int, e: nat, byte: nat, waits: Waits)
    requires e < EVENT_TABLE_SIZE
    ensures Boot(cts, entry).Done?
    ensures var k, input := Boot(cts, entry).kernel, Syscall(Await(e, byte));
      Accounted(k, waits) && AfterHandler(k, input).Done? && !Accounted(AfterHandler(k, input).kernel, Watch(k, input, waits))
  {
    AtBoot(cts, entry);
    BootAccounted(cts, entry, waits);
    hide Boot, Accounted, Running;
    HandlerAccountsExactly(Boot(cts, entry).kernel, Syscall(Await(e, byte)), waits);
  }

  /** FREE of the block under the idle task's own stack succeeds and breaks the invariant. */
  lemma StackFreedFromBoot(cts: nat, entry: int)
    ensures Boot(cts, entry).Done?
    ensures var k := Boot(cts, entry).kernel;
      && Running(k) && FreeBlock(k, Address(1)).Done? && !Inv(FreeBlock(k, Address(1)).kernel)
  {
    BootShape(cts, entry);
    BootIsRunning(cts, entry);
    hide Boot, Inv;
    var k := Boot(cts, entry).kernel;
    assert k.tasks[0].stackBlock == 1 && HasStack(k.tasks, 0, k.active);
    FreeExactly(k, Address(1));
  }

  // ---------------------------------------------------------------- one task too many

  const SPARE := TASK_COUNT - 2

  /** Priorities 1 to 4, sixteen tasks at each. */
  function FillPriority(j: nat): nat { 1 + j / DEPTH }

  /** The calls that take up the descriptors from the j-th on. */
  function FillFrom(j: nat, entry: int): seq<Input>
    decreases SPARE - j
  {
    if j >= SPARE then [] else [Syscall(Create(FillPriority(j), entry))] + FillFrom(j + 1, entry)
  }

  /** A task of priority 0 runs and has created j others. */
  ghost predicate Filling(k: State, j: nat) {
    && Running(k) && k.running == 1 && k.tasks[k.active].priority == 0 && j <= SPARE
    && |k.pool| == SPARE - j && |k.blocks| == SPARE - j && k.ready[0] == []
    && |k.ready[FillPriority(j)]| == j % DEPTH
    && (forall p :: FillPriority(j) < p < LEVELS - 1 ==> k.ready[p] == [])
  }

  lemma FillStep(k: State, j: nat, entry: int)
    requires Filling(k, j) && j < SPARE
    ensures var input := Syscall(Create(FillPriority(j), entry));
      Trusted(k, input) && Step(k, input).Enter? && Filling(Step(k, input).kernel, j + 1)
  {
    var p := FillPriority(j);
    var input := Syscall(Create(p, entry));
    Creates(k, p, entry);
    CreatedShape(k, p, entry);
    assert k.tasks[k.active].state == Ready;
    HandlerGentle(k, input);
    StepGood(k, input);
    hide Running, Inv, AfterHandler, Step, Schedule, DoCreate, Gentle, Trusted;
    Continues(AfterHandler(k, input).kernel);
  }

  lemma FillUnfold(j: nat, entry: int)
    requires j < SPARE
    ensures FillFrom(j, entry) != [] && FillFrom(j, entry)[0] == Syscall(Create(FillPriority(j), entry))
    ensures FillFrom(j, entry)[1..] == FillFrom(j + 1, entry)
  {
  }

  lemma RunOn(k: State, inputs: seq<Input>)
    requires inputs != [] && Trusted(k, inputs[0]) && Step(k, inputs[0]).Enter?
    requires TrustedRun(Step(k, inputs[0]).kernel, inputs[1..])
    ensures TrustedRun(k, inputs) && Run(k, inputs) == Run(Step(k, inputs[0]).kernel, inputs[1..])
  {
    hide Trusted, Step;
  }

  lemma FillsNothing(k: State, j: nat, entry: int)
    requires Filling(k, j) && j >= SPARE
    ensures j == SPARE && TrustedRun(k, FillFrom(j, entry)) && Run(k, FillFrom(j, entry)) == Enter(k)
  {
    hide Running;
  }

  lemma {:induction false} Fills(k: State, j: nat, entry: int)
    requires Filling(k, j)
    ensures TrustedRun(k, FillFrom(j, entry)) && Run(k, FillFrom(j, entry)).Enter?
    ensures Filling(Run(k, FillFrom(j, entry)).kernel, SPARE)
    decreases SPARE - j
  {
    hide Filling, Step, Trusted, FillPriority, Running, FillFrom, Run, TrustedRun;
    if j < SPARE {
      FillStep(k, j, entry);
      Fills(Step(k, Syscall(Create(FillPriority(j), entry))).kernel, j + 1, entry);
      FillUnfold(j, entry);
      RunOn(k, FillFrom(j, entry));
    } else {
      FillsNothing(k, j, entry);
    }
  }

  /** A CREATE on the full table queues the truncated -1, which no descriptor has, and the
      scheduler indexes the table with it. */
  lemma OneTooMany(k: State, entry: int)
    requires Filling(k, SPARE)
    ensures k.pool == [] && DoCreate(k, 0, entry).Done? && !Inv(DoCreate(k, 0, entry).kernel)
    ensures Step(k, Syscall(Create(0, entry))) == Crash(WildIndex)
  {
    assert k.pool == [] && k.tasks[k.active].state == Ready;
    hide Inv, Schedule, DoCreate;
    QueuesNobody(k, entry);
    CreateExactly(k, 0, entry);
    AfterCreate(k, 0, entry);
    EntersNobody(AfterHandler(k, Syscall(Create(0, entry))).kernel);
    StepOf(k, Syscall(Create(0, entry)));
  }

  lemma StepOf(k: State, input: Input)
    requires AfterHandler(k, input).Done?
    ensures Step(k, input) == Schedule(AfterHandler(k, input).kernel)
  {
    hide SystemCall, Interrupt, Schedule;
  }

  lemma QueuesNobody(k: State, entry: int)
    requires k.pool == [] && k.ready[0] == []
    ensures DoCreate(k, 0, entry) == Done(k.(ready := k.ready[0 := [0xFFFF]]), 0xFFFF)
  {
    assert k.ready[0] + [0xFFFF] == [0xFFFF];
  }

  lemma EntersNobody(k: State)
    requires k.running == 1 && k.tasks[k.active].state == Ready && k.tasks[k.active].priority == 0 && k.ready[0] == [0xFFFF]
    ensures Schedule(k) == Crash(WildIndex)
  {
    LowestIs(k.ready, 0);
    assert k.ready[0] + [k.tasks[k.active].tid] == [0xFFFF, k.tasks[k.active].tid];
  }

  /** Such a run from boot. */
  lemma TableFullFromBoot(cts: nat, entry: int)
    ensures Boot(cts, entry).Done?
    ensures var k, inputs := Boot(cts, entry).kernel, [Syscall(Create(0, entry))] + FillFrom(0, entry);
      && TrustedRun(k, inputs) && Run(k, inputs).Enter? && Run(k, inputs).kernel.pool == []
      && DoCreate(Run(k, inputs).kernel, 0, entry).Done? && !Inv(DoCreate(Run(k, inputs).kernel, 0, entry).kernel)
      && Step(Run(k, inputs).kernel, Syscall(Create(0, entry))) == Crash(WildIndex)
  {
    AtBoot(cts, entry);
    hide Boot, Inv, DoCreate;
    var k, first := Boot(cts, entry).kernel, Syscall(Create(0, entry));
    assert LowestFrom(k.ready, 0) > 0;
    CreateEnters(k, 0, entry);
    var k1 := Step(k, first).kernel;
    hide Step;
    assert Filling(k1, 0);
    Fills(k1, 0, entry);
    var inputs := [first] + FillFrom(0, entry);
    assert inputs[0] == first && inputs[1..] == FillFrom(0, entry);
    hide Filling, Run, TrustedRun, Trusted;
    RunOn(k, inputs);
    OneTooMany(Run(k, inputs).kernel, entry);
  }
}
