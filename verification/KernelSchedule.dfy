/** The scheduler keeps the invariant, picks a most urgent task, and reclaims zombies. */
module KernelSchedule {
  import opened Chains
  import opened RingBuffer
  import opened PriorityQueues
  import opened Kernel
  import opened KernelInvariant
  import opened KernelResources

  // ---------------------------------------------------------------- handing over the processor

  /** The levels after popping the head of the most urgent one. */
  lemma PopReady(ts: Tasks, l: Levels, me: nat)
    requires IdsMatch(ts) && ReadyExact(ts, l, me) && me < TASK_COUNT && ts[me].state != Ready && Lowest(l) < LEVELS
    ensures var v := l[Lowest(l)][0];
      Names(ts, v, Ready) && Id(v) != me && ReadyExact(ts, l[Lowest(l) := l[Lowest(l)][1..]], Id(v))
  {
    var p := Lowest(l);
    var v, m := l[p][0], l[p := l[p][1..]];
    assert v in l[p] && l[p] == [v] + m[p];
    forall q, w | 0 <= q < LEVELS && w in m[q] ensures w in l[q] && w != v {
    }
    forall i | 0 <= i < TASK_COUNT && ts[i].state == Ready && i != Id(v)
      ensures ts[i].priority < LEVELS && ts[i].tid in m[ts[i].priority]
    {
      assert ts[i].tid in l[ts[i].priority];
    }
  }

  /** Queueing the running task behind its peers and popping: never the task itself. */
  lemma YieldReady(ts: Tasks, l: Levels, me: nat)
    requires IdsMatch(ts) && ReadyExact(ts, l, me) && me < TASK_COUNT && ts[me].state == Ready
    requires Lowest(l) <= ts[me].priority < LEVELS
    ensures var p, free := ts[me].priority, Lowest(l);
      var m, v := l[p := l[p] + [ts[me].tid]], l[free][0];
      && m[free] != [] && m[free][0] == v && Names(ts, v, Ready) && Id(v) != me
      && ReadyExact(ts, m[free := m[free][1..]], Id(v))
  {
    var p, free, mine := ts[me].priority, Lowest(l), ts[me].tid;
    var m, v := l[p := l[p] + [mine]], l[free][0];
    var n := m[free := m[free][1..]];
    assert v in l[free] && l[free] == [v] + l[free][1..];
    assert mine !in l[p];
    assert n[p] == if p == free then l[p][1..] + [mine] else l[p] + [mine];
    forall q, w | 0 <= q < LEVELS && w in n[q] ensures (w in l[q] || (q == p && w == mine)) && w != v {
    }
    forall i | 0 <= i < TASK_COUNT && ts[i].state == Ready && i != Id(v)
      ensures ts[i].priority < LEVELS && ts[i].tid in n[ts[i].priority]
    {
      if i != me {
        assert ts[i].tid in l[ts[i].priority];
      }
    }
  }

  lemma SwitchPool(ts: Tasks, pool: seq<nat>, me: nat, next: nat)
    requires me < TASK_COUNT && next < TASK_COUNT && PoolExact(ts, pool, me)
    requires ts[me].state != Zombie && ts[next].state != Zombie
    ensures PoolExact(ts, pool, next)
  {
  }

  lemma SwitchBlocks(ts: Tasks, blocks: seq<nat>, memory: map<int, int>, me: nat, next: nat)
    requires me < TASK_COUNT && next < TASK_COUNT && BlocksPartitioned(ts, blocks, memory, me)
    requires ts[me].state != Zombie && ts[next].state != Zombie
    ensures BlocksPartitioned(ts, blocks, memory, next)
  {
  }

  /** Activating a ready task cannot go wrong: its descriptor exists and its stack is intact. */
  lemma ActivateSucceeds(k: State, tid: nat)
    requires BlocksPartitioned(k.tasks, k.blocks, k.memory, k.active) && Names(k.tasks, tid, Ready)
    ensures Activate(k, tid) == Enter(k.(active := Id(tid)))
  {
    assert HasStack(k.tasks, Id(tid), k.active);
    var b := k.tasks[Id(tid)].stackBlock;
    assert Read(k.memory, Address(b) + 1) == b;
  }

  lemma YieldKeeps(k: State)
    requires Running(k)
    ensures match Yield(k)
            case Enter(k1) => Running(k1)
            case Stop => false
            case Crash(f) => f == ReadyQueueFull
  {
    var me := k.tasks[k.active];
    var next := PushPopped(k.ready, me.priority, me.tid);
    if next.rc == OK {
      YieldReady(k.tasks, k.ready, k.active);
      var k1 := k.(ready := next.levels);
      ActivateSucceeds(k1, next.value);
      SwitchPool(k.tasks, k.pool, k.active, Id(next.value));
      SwitchBlocks(k.tasks, k.blocks, k.memory, k.active, Id(next.value));
      ReadyPriority(k.tasks, k.ready, k.active, Id(next.value));
      hide ReadyExact, SendersWait, EventsName, PoolExact, BlocksPartitioned;
    }
  }

  lemma ReadyPriority(ts: Tasks, l: Levels, me: nat, i: nat)
    requires ReadyExact(ts, l, me) && i < TASK_COUNT && i != me && ts[i].state == Ready
    ensures ts[i].priority < LEVELS
  {
  }

  /** Running the next task when the active one is blocked. */
  lemma RunNextKeeps(k: State)
    requires Inv(k) && k.tasks[k.active].state != Ready && k.tasks[k.active].state != Zombie
    ensures match RunNext(k)
            case Enter(k1) => Running(k1)
            case Stop => k.running == 0
            case Crash(f) => f == IdleMissing && k.running != 0
    ensures (RunNext(k) == Stop || RunNext(k) == Crash(IdleMissing)) <==> Lowest(k.ready) == LEVELS
  {
    if Lowest(k.ready) < LEVELS {
      PopReady(k.tasks, k.ready, k.active);
      var next := Popped(k.ready, k.tasks[k.active].tid);
      var k1 := k.(ready := next.levels);
      ActivateSucceeds(k1, next.value);
      SwitchPool(k.tasks, k.pool, k.active, Id(next.value));
      SwitchBlocks(k.tasks, k.blocks, k.memory, k.active, Id(next.value));
      ReadyPriority(k.tasks, k.ready, k.active, Id(next.value));
      hide ReadyExact, SendersWait, EventsName, PoolExact, BlocksPartitioned;
    }
  }

  // ---------------------------------------------------------------- reclaiming a zombie

  /** The descriptor after taskTableFree: a new generation, no stack. */
  function Reclaimed(t: Task): Task {
    t.(stackBlock := 0, tid := Tid(Id(t.tid), (t.tid / 256 + 1) % 256), pid := 0, stackBase := 0)
  }

  function ReclaimedTasks(ts: Tasks, me: nat): Tasks
    requires me < TASK_COUNT
  {
    ts[me := Reclaimed(ts[me])]
  }

  lemma ReclaimIds(ts: Tasks, me: nat)
    requires me < TASK_COUNT && IdsMatch(ts)
    ensures IdsMatch(ReclaimedTasks(ts, me))
    ensures ts[me].tid < 0xFF00 ==> Reclaimed(ts[me]).tid == ts[me].tid + 256
  {
  }

  lemma ReclaimReady(ts: Tasks, l: Levels, me: nat)
    requires me < TASK_COUNT && ReadyExact(ts, l, me) && ts[me].state == Zombie
    ensures ReadyExact(ReclaimedTasks(ts, me), l, me)
  {
  }

  lemma ReclaimSenders(ts: Tasks, me: nat)
    requires me < TASK_COUNT && SendersWait(ts) && ts[me].state == Zombie
    ensures SendersWait(ReclaimedTasks(ts, me))
  {
    var us := ReclaimedTasks(ts, me);
    forall q: nat | Live(us, q) ensures QueueGood(us, us[q]) {
      assert Live(ts, q) && QueueGood(ts, ts[q]);
    }
    forall q: nat, o: nat | Live(us, q) && Live(us, o) && q != o ensures Apart(us[q].sendQueue, us[o].sendQueue) {
      assert Live(ts, q) && Live(ts, o) && Apart(ts[q].sendQueue, ts[o].sendQueue);
    }
  }

  lemma ReclaimEvents(ts: Tasks, events: seq<nat>, me: nat)
    requires me < TASK_COUNT && |events| == EVENT_TABLE_SIZE && EventsName(ts, events) && ts[me].state == Zombie
    ensures EventsName(ReclaimedTasks(ts, me), events)
  {
  }

  lemma ReclaimPool(ts: Tasks, pool: seq<nat>, me: nat, next: nat)
    requires me < TASK_COUNT && next < TASK_COUNT && PoolExact(ts, pool, me)
    requires ts[me].state == Zombie && ts[next].state != Zombie
    ensures PoolExact(ReclaimedTasks(ts, me), pool + [me], next) && |pool| < TASK_COUNT
  {
    RoomInPool(ts, pool, me);
    assert me !in pool;
    var us, all := ReclaimedTasks(ts, me), pool + [me];
    forall i: nat | i < TASK_COUNT ensures i in all <==> us[i].state == Zombie && i != next {
      assert i in pool <==> ts[i].state == Zombie && i != me;
    }
    forall i | i in all ensures i < TASK_COUNT {
      assert i in pool || i == me;
    }
  }

  lemma RoomInPool(ts: Tasks, pool: seq<nat>, me: nat)
    requires me < TASK_COUNT && PoolExact(ts, pool, me)
    ensures |pool| < TASK_COUNT
  {
    assert me !in pool;
    var all := pool + [me];
    forall x | x in all ensures 0 <= x < TASK_COUNT {
      assert x in pool || x == me;
    }
    Pigeonhole(all, 0, TASK_COUNT);
  }

  lemma ReclaimBlocks(ts: Tasks, blocks: seq<nat>, memory: map<int, int>, me: nat, next: nat)
    requires me < TASK_COUNT && next < TASK_COUNT && BlocksPartitioned(ts, blocks, memory, me)
    requires ts[me].state == Zombie && ts[next].state != Zombie
    ensures 1 <= ts[me].stackBlock <= BLOCK_COUNT && |blocks| < BLOCK_COUNT
    ensures ts[me].stackBase == Address(ts[me].stackBlock) != 0 && Read(memory, ts[me].stackBase + 1) == ts[me].stackBlock
    ensures BlocksPartitioned(ReclaimedTasks(ts, me), blocks + [ts[me].stackBlock], memory, next)
  {
    var b, us := ts[me].stackBlock, ReclaimedTasks(ts, me);
    assert HasStack(ts, me, me);
    RoomForBlock(blocks, b);
    assert Read(memory, Address(b) + 1) == b;
    forall i: nat | HasStack(us, i, next)
      ensures HasStack(ts, i, me) && us[i] == ts[i] && ts[i].stackBlock != b
    {
    }
  }

  /** Reclaiming a zombie and running the next task. */
  lemma ZombieKeeps(k: State)
    requires Inv(k) && k.tasks[k.active].state == Zombie && k.running != 2
    ensures match Schedule(k)
            case Enter(k1) => Running(k1) && k1.pool == k.pool + [k.active]
                              && k1.blocks == k.blocks + [k.tasks[k.active].stackBlock]
                              && k1.tasks == ReclaimedTasks(k.tasks, k.active)
            case Stop => k.running == 0
            case Crash(f) => f == IdleMissing && k.running != 0
    ensures (Schedule(k) == Stop || Schedule(k) == Crash(IdleMissing)) <==> Lowest(k.ready) == LEVELS
  {
    var me, ts := k.active, k.tasks;
    var us, b := ReclaimedTasks(ts, me), ts[me].stackBlock;
    FreeTaskShape(k);
    if Lowest(k.ready) < LEVELS {
      PopReady(ts, k.ready, me);
      var v := k.ready[Lowest(k.ready)][0];
      var next := Id(v);
      ReadyPriority(ts, k.ready, me, next);
      ReclaimIds(ts, me);
      ReclaimReady(ts, k.ready, me);
      PopReady(us, k.ready, me);
      ReclaimSenders(ts, me);
      ReclaimEvents(ts, k.events, me);
      ReclaimPool(ts, k.pool, me, next);
      ReclaimBlocks(ts, k.blocks, k.memory, me, next);
      assert HasStack(us, next, next);
      hide ReadyExact, SendersWait, EventsName, PoolExact;
      var l := k.ready[Lowest(k.ready) := k.ready[Lowest(k.ready)][1..]];
      var k1 := FreeTask(k).kernel.(ready := l);
      ActivateReclaimed(k1, v, next);
    }
  }

  lemma RoomToFree(k: State)
    requires Inv(k) && k.tasks[k.active].state == Zombie
    ensures |k.pool| < TASK_COUNT && |k.blocks| < BLOCK_COUNT
    ensures var t := k.tasks[k.active];
      && 1 <= t.stackBlock <= BLOCK_COUNT && t.stackBase == Address(t.stackBlock) && t.stackBase != 0
      && Read(k.memory, t.stackBase + 1) == t.stackBlock
  {
    var me := k.active;
    var b := k.tasks[me].stackBlock;
    assert HasStack(k.tasks, me, me);
    hide ReadyExact, SendersWait, EventsName, IdsMatch;
    RoomInPool(k.tasks, k.pool, me);
    RoomForBlock(k.blocks, b);
    assert Read(k.memory, Address(b) + 1) == b;
  }

  lemma FreeTaskShape(k: State)
    requires Inv(k) && k.tasks[k.active].state == Zombie
    ensures FreeTask(k) == Done(k.(
      tasks := ReclaimedTasks(k.tasks, k.active), pool := k.pool + [k.active],
      blocks := k.blocks + [k.tasks[k.active].stackBlock]), 0)
  {
    hide Inv, Address;
    RoomToFree(k);
  }

  lemma ActivateReclaimed(k: State, tid: nat, next: nat)
    requires next < TASK_COUNT && BlocksPartitioned(k.tasks, k.blocks, k.memory, next) && Names(k.tasks, tid, Ready) && Id(tid) == next
    ensures Activate(k, tid) == Enter(k.(active := next))
  {
    ActivateSucceeds(k.(active := next), tid);
  }

  // ---------------------------------------------------------------- the scheduler

  /** The scheduler, run after a handler: the invariant holds again with a ready active task. */
  lemma ScheduleKeeps(k: State)
    requires Inv(k)
    ensures match Schedule(k)
            case Enter(k1) => Running(k1)
            case Stop => k.running != 1
            case Crash(f) => (f == ReadyQueueFull && k.tasks[k.active].state == Ready) || (f == IdleMissing && Lowest(k.ready) == LEVELS)
  {
    if k.running != 2 {
      if k.tasks[k.active].state == Ready {
        YieldKeeps(k);
      } else if k.tasks[k.active].state == Zombie {
        ZombieKeeps(k);
      } else {
        RunNextKeeps(k);
      }
    }
  }

  /** The scheduler touches no task but a zombie it reclaims, and no event slot. */
  lemma ScheduleTasks(k: State)
    requires Inv(k) && Schedule(k).Enter?
    ensures Schedule(k).kernel.events == k.events
    ensures Schedule(k).kernel.tasks == if k.tasks[k.active].state == Zombie then ReclaimedTasks(k.tasks, k.active) else k.tasks
  {
    if k.tasks[k.active].state == Zombie {
      FreeTaskShape(k);
    }
    hide Inv, FreeTask;
  }
}
