/** What every entry into the kernel keeps true of its data. */
module KernelInvariant {
  import opened Chains
  import opened PriorityQueues
  import opened Kernel

  // ---------------------------------------------------------------- the parts

  type Tasks = ts: seq<Task> | |ts| == TASK_COUNT witness Initial(0).tasks

  /** A stored id is the current id, generation included, of a task in state `st`. */
  ghost predicate Names(ts: Tasks, tid: nat, st: TaskState) {
    Id(tid) < TASK_COUNT && ts[Id(tid)].tid == tid && ts[Id(tid)].state == st
  }

  ghost predicate IdsMatch(ts: Tasks) {
    forall i {:trigger ts[i]} :: 0 <= i < TASK_COUNT ==> Id(ts[i].tid) == i && ts[i].tid < 0x1_0000
  }

  /** The ready queue holds the ready tasks other than the active one, each once, at its own priority. */
  ghost predicate ReadyExact(ts: Tasks, l: Levels, active: nat) {
    && (forall p, v {:trigger v in l[p]} :: 0 <= p < LEVELS && v in l[p] ==>
          Names(ts, v, Ready) && ts[Id(v)].priority == p && Id(v) != active)
    && (forall p {:trigger l[p]} :: 0 <= p < LEVELS ==> Distinct(l[p]))
    && (forall i {:trigger ts[i]} :: 0 <= i < TASK_COUNT && ts[i].state == Ready && i != active ==>
          ts[i].priority < LEVELS && ts[i].tid in l[ts[i].priority])
  }

  ghost predicate Live(ts: Tasks, i: nat) {
    i < TASK_COUNT && ts[i].state != Zombie
  }

  /** Ids in live tasks' send queues name receive-blocked tasks, each queued once in all. */
  ghost predicate SendersWait(ts: Tasks) {
    && (forall r: nat {:trigger ts[r]} :: Live(ts, r) ==> QueueGood(ts, ts[r]))
    && (forall r: nat, q: nat {:trigger ts[r], ts[q]} ::
          Live(ts, r) && Live(ts, q) && r != q ==> Apart(ts[r].sendQueue, ts[q].sendQueue))
  }

  ghost predicate QueueGood(ts: Tasks, t: Task) {
    && (forall v :: v in t.sendQueue ==> Names(ts, v, ReceiveBlocked))
    && Distinct(t.sendQueue) && t.sendLength == SEND_QUEUE_LENGTH
    && (t.state == SendBlocked ==> t.sendQueue == [])
  }

  /** Every occupied event slot names its own event-blocked task. */
  ghost predicate EventsName(ts: Tasks, events: seq<nat>)
    requires |events| == EVENT_TABLE_SIZE
  {
    && (forall e {:trigger events[e]} :: 0 <= e < EVENT_TABLE_SIZE && events[e] != 0 ==> Names(ts, events[e], EventBlocked))
    && (forall e, f {:trigger events[e], events[f]} :: 0 <= e < f < EVENT_TABLE_SIZE && events[e] != 0 ==> events[e] != events[f])
  }

  /** The free descriptors are the zombies, except one that is still the active task. */
  ghost predicate PoolExact(ts: Tasks, pool: seq<nat>, active: nat) {
    && Distinct(pool)
    && (forall i {:trigger i in pool} :: i in pool ==> i < TASK_COUNT)
    && (forall i: nat {:trigger ts[i]} {:trigger i in pool} :: i < TASK_COUNT ==>
          (i in pool <==> ts[i].state == Zombie && i != active))
  }

  ghost predicate HasStack(ts: Tasks, i: nat, active: nat) {
    i < TASK_COUNT && (ts[i].state != Zombie || i == active)
  }

  /** Blocks are in the free queue, under one task's stack, or handed out; only blocks in
      the queue may have a header that does not carry their number. */
  ghost predicate BlocksPartitioned(ts: Tasks, blocks: seq<nat>, memory: map<int, int>, active: nat) {
    && Distinct(blocks)
    && (forall b {:trigger b in blocks} :: b in blocks ==> 1 <= b <= BLOCK_COUNT)
    && (forall i: nat {:trigger ts[i]} :: HasStack(ts, i, active) ==>
          1 <= ts[i].stackBlock <= BLOCK_COUNT && ts[i].stackBlock !in blocks && ts[i].stackBase == Address(ts[i].stackBlock))
    && (forall i: nat, j: nat {:trigger ts[i], ts[j]} ::
          HasStack(ts, i, active) && HasStack(ts, j, active) && i != j ==> ts[i].stackBlock != ts[j].stackBlock)
    && (forall b {:trigger Address(b)} :: 1 <= b <= BLOCK_COUNT && b !in blocks ==> Read(memory, Address(b) + 1) == b)
  }

  /** The invariant inside the kernel, where the active task may be in any state. */
  ghost predicate Inv(k: State) {
    && IdsMatch(k.tasks)
    && ReadyExact(k.tasks, k.ready, k.active)
    && SendersWait(k.tasks)
    && EventsName(k.tasks, k.events)
    && PoolExact(k.tasks, k.pool, k.active)
    && BlocksPartitioned(k.tasks, k.blocks, k.memory, k.active)
    && k.tasks[k.active].priority < LEVELS
  }

  /** The invariant while user code runs: the active task is ready. */
  ghost predicate Running(k: State) {
    Inv(k) && k.tasks[k.active].state == Ready
  }

  // ---------------------------------------------------------------- updates that touch no control state

  /** The tasks agree on everything the invariant speaks of. */
  ghost predicate SameControl(ts: Tasks, us: Tasks) {
    forall i {:trigger ts[i]} {:trigger us[i]} :: 0 <= i < TASK_COUNT ==>
      && ts[i].state == us[i].state && ts[i].tid == us[i].tid && ts[i].priority == us[i].priority
      && ts[i].sendQueue == us[i].sendQueue && ts[i].sendLength == us[i].sendLength
      && ts[i].stackBase == us[i].stackBase && ts[i].stackBlock == us[i].stackBlock
  }

  lemma SameControlKeeps(k: State, us: Tasks)
    requires Inv(k) && SameControl(k.tasks, us)
    ensures Inv(k.(tasks := us))
  {
    SameReady(k.tasks, us, k.ready, k.active);
    SameSenders(k.tasks, us);
    SameEvents(k.tasks, us, k.events);
    SamePool(k.tasks, us, k.pool, k.active);
    SameBlocks(k.tasks, us, k.blocks, k.memory, k.active);
    hide ReadyExact, SendersWait, EventsName, PoolExact, BlocksPartitioned;
  }

  lemma SameReady(ts: Tasks, us: Tasks, l: Levels, active: nat)
    requires SameControl(ts, us) && ReadyExact(ts, l, active)
    ensures ReadyExact(us, l, active)
  {
  }

  lemma SameSenders(ts: Tasks, us: Tasks)
    requires SameControl(ts, us) && SendersWait(ts)
    ensures SendersWait(us)
  {
  }

  lemma SameEvents(ts: Tasks, us: Tasks, events: seq<nat>)
    requires SameControl(ts, us) && |events| == EVENT_TABLE_SIZE && EventsName(ts, events)
    ensures EventsName(us, events)
  {
  }

  lemma SamePool(ts: Tasks, us: Tasks, pool: seq<nat>, active: nat)
    requires SameControl(ts, us) && PoolExact(ts, pool, active)
    ensures PoolExact(us, pool, active)
  {
  }

  lemma SameBlocks(ts: Tasks, us: Tasks, blocks: seq<nat>, memory: map<int, int>, active: nat)
    requires SameControl(ts, us) && BlocksPartitioned(ts, blocks, memory, active)
    ensures BlocksPartitioned(us, blocks, memory, active)
  {
  }

  /** The tasks differ at most in the state of task i. */
  ghost predicate SameButState(ts: Tasks, us: Tasks, i: nat) {
    forall r {:trigger ts[r]} {:trigger us[r]} :: 0 <= r < TASK_COUNT ==>
      us[r].(state := ts[r].state) == ts[r] && (r != i ==> us[r] == ts[r])
  }

  // ---------------------------------------------------------------- blocking the active task

  /** The active task is named by no queue and no event slot. */
  lemma ActiveIsUnnamed(k: State)
    requires Running(k)
    ensures forall p: nat, v :: p < LEVELS && v in k.ready[p] ==> Id(v) != k.active
    ensures forall r: nat, v :: Live(k.tasks, r) && v in k.tasks[r].sendQueue ==> Id(v) != k.active
    ensures forall e: nat :: e < EVENT_TABLE_SIZE && k.events[e] != 0 ==> Id(k.events[e]) != k.active
  {
  }

  /** Putting the active task into any other state, or ending it, disturbs nobody else. */
  lemma BlockKeeps(k: State, st: TaskState)
    requires Running(k) && (st == SendBlocked ==> k.tasks[k.active].sendQueue == [])
    ensures Inv(With(k, k.active, k.tasks[k.active].(state := st)))
  {
    var me, us := k.active, k.tasks[k.active := k.tasks[k.active].(state := st)];
    BlockReady(k.tasks, k.ready, me, st);
    BlockSenders(k.tasks, me, st);
    BlockEvents(k.tasks, k.events, me, st);
    BlockPool(k.tasks, k.pool, me, st);
    BlockBlocks(k.tasks, k.blocks, k.memory, me, st);
    hide ReadyExact, SendersWait, EventsName, PoolExact, BlocksPartitioned;
  }

  lemma BlockReady(ts: Tasks, l: Levels, me: nat, st: TaskState)
    requires me < TASK_COUNT && ReadyExact(ts, l, me)
    ensures ReadyExact(ts[me := ts[me].(state := st)], l, me)
  {
    assert SameButState(ts, ts[me := ts[me].(state := st)], me);
  }

  lemma BlockSenders(ts: Tasks, me: nat, st: TaskState)
    requires me < TASK_COUNT && ts[me].state == Ready && SendersWait(ts)
    requires st == SendBlocked ==> ts[me].sendQueue == []
    ensures SendersWait(ts[me := ts[me].(state := st)])
  {
    assert SameButState(ts, ts[me := ts[me].(state := st)], me);
  }

  lemma BlockEvents(ts: Tasks, events: seq<nat>, me: nat, st: TaskState)
    requires me < TASK_COUNT && ts[me].state == Ready && |events| == EVENT_TABLE_SIZE && EventsName(ts, events)
    ensures EventsName(ts[me := ts[me].(state := st)], events)
  {
    assert SameButState(ts, ts[me := ts[me].(state := st)], me);
  }

  lemma BlockPool(ts: Tasks, pool: seq<nat>, me: nat, st: TaskState)
    requires me < TASK_COUNT && ts[me].state == Ready && PoolExact(ts, pool, me)
    ensures PoolExact(ts[me := ts[me].(state := st)], pool, me)
  {
    assert SameButState(ts, ts[me := ts[me].(state := st)], me);
  }

  lemma BlockBlocks(ts: Tasks, blocks: seq<nat>, memory: map<int, int>, me: nat, st: TaskState)
    requires me < TASK_COUNT && ts[me].state == Ready && BlocksPartitioned(ts, blocks, memory, me)
    ensures BlocksPartitioned(ts[me := ts[me].(state := st)], blocks, memory, me)
  {
    assert SameButState(ts, ts[me := ts[me].(state := st)], me);
  }

  // ---------------------------------------------------------------- waking a blocked task

  ghost predicate Sleeping(t: Task) {
    t.state == SendBlocked || t.state == ReplyBlocked || t.state == EventBlocked
  }

  ghost predicate NoSlotNames(events: seq<nat>, i: nat) {
    forall e {:trigger events[e]} :: 0 <= e < |events| && events[e] != 0 ==> Id(events[e]) != i
  }

  /** Waking a task that no event slot names any more. */
  lemma WakeKeeps(k: State, i: nat, events: seq<nat>)
    requires Inv(k) && i < TASK_COUNT && i != k.active && Sleeping(k.tasks[i]) && MakeReady(k, i).Done?
    requires |events| == EVENT_TABLE_SIZE && NoSlotNames(events, i)
    requires forall e :: 0 <= e < EVENT_TABLE_SIZE ==> events[e] == 0 || events[e] == k.events[e]
    ensures Inv(MakeReady(k, i).kernel.(events := events))
  {
    WakeReady(k.tasks, k.ready, k.active, i);
    WakeSenders(k.tasks, i);
    WakeEvents(k.tasks, k.events, events, i);
    WakePool(k.tasks, k.pool, k.active, i);
    WakeBlocks(k.tasks, k.blocks, k.memory, k.active, i);
    hide ReadyExact, SendersWait, EventsName, PoolExact, BlocksPartitioned;
  }

  lemma WakeReady(ts: Tasks, l: Levels, me: nat, i: nat)
    requires ReadyExact(ts, l, me) && IdsMatch(ts)
    requires i < TASK_COUNT && i != me && ts[i].state != Ready && ts[i].priority < LEVELS
    ensures ReadyExact(ts[i := ts[i].(state := Ready)], l[ts[i].priority := l[ts[i].priority] + [ts[i].tid]], me)
  {
    var p, v := ts[i].priority, ts[i].tid;
    var us, m := ts[i := ts[i].(state := Ready)], l[p := l[p] + [v]];
    assert v !in l[p];
    forall q, w | 0 <= q < LEVELS && w in m[q] ensures Names(us, w, Ready) && us[Id(w)].priority == q && Id(w) != me {
      assert w in l[q] || (q == p && w == v);
    }
    forall j | 0 <= j < TASK_COUNT && us[j].state == Ready && j != me
      ensures us[j].priority < LEVELS && us[j].tid in m[us[j].priority]
    {
      assert j != i ==> us[j] == ts[j];
    }
  }

  lemma WakeSenders(ts: Tasks, i: nat)
    requires i < TASK_COUNT && Sleeping(ts[i]) && SendersWait(ts)
    ensures SendersWait(ts[i := ts[i].(state := Ready)])
  {
    assert SameButState(ts, ts[i := ts[i].(state := Ready)], i);
  }

  lemma WakeEvents(ts: Tasks, events: seq<nat>, left: seq<nat>, i: nat)
    requires i < TASK_COUNT && |events| == |left| == EVENT_TABLE_SIZE && EventsName(ts, events)
    requires forall e :: 0 <= e < EVENT_TABLE_SIZE ==> left[e] == 0 || left[e] == events[e]
    requires NoSlotNames(left, i)
    ensures EventsName(ts[i := ts[i].(state := Ready)], left)
  {
    assert SameButState(ts, ts[i := ts[i].(state := Ready)], i);
  }

  lemma WakePool(ts: Tasks, pool: seq<nat>, me: nat, i: nat)
    requires i < TASK_COUNT && ts[i].state != Zombie && PoolExact(ts, pool, me)
    ensures PoolExact(ts[i := ts[i].(state := Ready)], pool, me)
  {
    assert SameButState(ts, ts[i := ts[i].(state := Ready)], i);
  }

  lemma WakeBlocks(ts: Tasks, blocks: seq<nat>, memory: map<int, int>, me: nat, i: nat)
    requires i < TASK_COUNT && ts[i].state != Zombie && BlocksPartitioned(ts, blocks, memory, me)
    ensures BlocksPartitioned(ts[i := ts[i].(state := Ready)], blocks, memory, me)
  {
    assert SameButState(ts, ts[i := ts[i].(state := Ready)], i);
  }

  lemma SlotsOfOthers(k: State, i: nat)
    requires Inv(k) && i < TASK_COUNT && k.tasks[i].state != EventBlocked
    ensures NoSlotNames(k.events, i)
  {
  }

  /** Readying a send- or reply-blocked task, the last act of SEND and REPLY. */
  lemma MakeReadyKeeps(k: State, i: nat)
    requires Inv(k) && i < TASK_COUNT && i != k.active && MakeReady(k, i).Done?
    requires k.tasks[i].state == SendBlocked || k.tasks[i].state == ReplyBlocked
    ensures Inv(MakeReady(k, i).kernel)
  {
    SlotsOfOthers(k, i);
    WakeKeeps(k, i, k.events);
  }

  // ---------------------------------------------------------------- messages

  lemma SendKeeps(k: State, to: nat)
    requires Running(k) && DoSend(k, to).Done?
    ensures Inv(DoSend(k, to).kernel)
  {
    var r, me := Id(to), k.tasks[k.active];
    if k.tasks[r].state == SendBlocked {
      var k1 := With(k, r, k.tasks[r].(inbox := me.message, sender := me.tid, ret := 0));
      SameControlKeeps(k, k1.tasks);
      BlockKeeps(k1, ReplyBlocked);
      MakeReadyKeeps(With(k1, k.active, k1.tasks[k.active].(state := ReplyBlocked)), r);
    } else {
      QueueKeeps(k, r);
    }
  }

  /** Queueing the active task behind task r blocks it there. */
  lemma QueueKeeps(k: State, r: nat)
    requires Running(k) && r < TASK_COUNT && k.tasks[r].state != SendBlocked
    ensures Inv(Queued(k, r))
  {
    var ts, us, me := k.tasks, Queued(k, r).tasks, k.active;
    QueueReady(ts, k.ready, me, r);
    QueueSenders(ts, me, r);
    QueueEvents(ts, k.events, me, r);
    QueuePool(ts, k.pool, me, r);
    QueueBlocks(ts, k.blocks, k.memory, me, r);
    hide ReadyExact, SendersWait, EventsName, PoolExact, BlocksPartitioned;
  }

  function QueuedTasks(ts: Tasks, me: nat, r: nat): Tasks
    requires me < TASK_COUNT && r < TASK_COUNT
  {
    var us := ts[r := ts[r].(sendQueue := ts[r].sendQueue + [ts[me].tid])];
    us[me := us[me].(state := ReceiveBlocked)]
  }

  function Queued(k: State, r: nat): State
    requires r < TASK_COUNT
  {
    k.(tasks := QueuedTasks(k.tasks, k.active, r))
  }

  lemma QueueReady(ts: Tasks, l: Levels, me: nat, r: nat)
    requires me < TASK_COUNT && r < TASK_COUNT && ReadyExact(ts, l, me)
    ensures ReadyExact(QueuedTasks(ts, me, r), l, me)
  {
  }

  lemma QueueSenders(ts: Tasks, me: nat, r: nat)
    requires me < TASK_COUNT && r < TASK_COUNT && SendersWait(ts) && IdsMatch(ts)
    requires ts[me].state == Ready && ts[r].state != SendBlocked
    ensures SendersWait(QueuedTasks(ts, me, r))
  {
    var us, v := QueuedTasks(ts, me, r), ts[me].tid;
    forall q: nat | Live(ts, q) ensures v !in ts[q].sendQueue {
    }
    forall q: nat | Live(us, q) ensures QueueGood(us, us[q]) {
      assert Live(ts, q) && QueueGood(ts, ts[q]);
    }
    forall q: nat, o: nat | Live(us, q) && Live(us, o) && q != o ensures Apart(us[q].sendQueue, us[o].sendQueue) {
      assert Live(ts, q) && Live(ts, o) && Apart(ts[q].sendQueue, ts[o].sendQueue);
    }
  }

  lemma QueueEvents(ts: Tasks, events: seq<nat>, me: nat, r: nat)
    requires me < TASK_COUNT && r < TASK_COUNT && |events| == EVENT_TABLE_SIZE && EventsName(ts, events)
    requires ts[me].state == Ready
    ensures EventsName(QueuedTasks(ts, me, r), events)
  {
  }

  lemma QueuePool(ts: Tasks, pool: seq<nat>, me: nat, r: nat)
    requires me < TASK_COUNT && r < TASK_COUNT && PoolExact(ts, pool, me) && ts[me].state == Ready
    ensures PoolExact(QueuedTasks(ts, me, r), pool, me)
  {
  }

  lemma QueueBlocks(ts: Tasks, blocks: seq<nat>, memory: map<int, int>, me: nat, r: nat)
    requires me < TASK_COUNT && r < TASK_COUNT && BlocksPartitioned(ts, blocks, memory, me) && ts[me].state == Ready
    ensures BlocksPartitioned(QueuedTasks(ts, me, r), blocks, memory, me)
  {
  }

  /** Receiving cannot halt: it takes the first sender off the active task's queue, which now
      awaits a reply, or blocks. */
  lemma ReceiveKeeps(k: State)
    requires Running(k)
    ensures DoReceive(k).Done? && Inv(DoReceive(k).kernel)
  {
    var me := k.tasks[k.active];
    if me.sendQueue == [] {
      BlockKeeps(k, SendBlocked);
    } else {
      FirstSenderWaits(k);
      var id := me.sendQueue[0];
      var k1 := With(k, k.active, me.(sender := id, inbox := k.tasks[Id(id)].message));
      SameControlKeeps(k, k1.tasks);
      UnqueueKeeps(k1);
      assert DoReceive(k).kernel == Unqueued(k1);
    }
  }

  /** The assertion in RECEIVE cannot fail. */
  lemma FirstSenderWaits(k: State)
    requires Running(k) && k.tasks[k.active].sendQueue != []
    ensures Names(k.tasks, k.tasks[k.active].sendQueue[0], ReceiveBlocked)
    ensures Id(k.tasks[k.active].sendQueue[0]) != k.active
    ensures DoReceive(k).Done?
  {
    assert k.tasks[k.active].sendQueue[0] in k.tasks[k.active].sendQueue;
  }

  function UnqueuedTasks(ts: Tasks, me: nat): Tasks
    requires me < TASK_COUNT && ts[me].sendQueue != [] && Id(ts[me].sendQueue[0]) < TASK_COUNT
  {
    var s := Id(ts[me].sendQueue[0]);
    var us := ts[me := ts[me].(sendQueue := ts[me].sendQueue[1..])];
    us[s := us[s].(state := ReplyBlocked)]
  }

  function Unqueued(k: State): State
    requires k.tasks[k.active].sendQueue != [] && Id(k.tasks[k.active].sendQueue[0]) < TASK_COUNT
  {
    k.(tasks := UnqueuedTasks(k.tasks, k.active))
  }

  lemma UnqueueKeeps(k: State)
    requires Running(k) && k.tasks[k.active].sendQueue != []
    requires Names(k.tasks, k.tasks[k.active].sendQueue[0], ReceiveBlocked)
    ensures Inv(Unqueued(k))
  {
    var ts, me := k.tasks, k.active;
    UnqueueReady(ts, k.ready, me);
    UnqueueSenders(ts, me);
    UnqueueEvents(ts, k.events, me);
    UnqueuePool(ts, k.pool, me);
    UnqueueBlocks(ts, k.blocks, k.memory, me);
    hide ReadyExact, SendersWait, EventsName, PoolExact, BlocksPartitioned;
  }

  ghost predicate CanUnqueue(ts: Tasks, me: nat) {
    me < TASK_COUNT && ts[me].state == Ready && ts[me].sendQueue != [] && Names(ts, ts[me].sendQueue[0], ReceiveBlocked)
  }

  lemma UnqueueReady(ts: Tasks, l: Levels, me: nat)
    requires CanUnqueue(ts, me) && ReadyExact(ts, l, me)
    ensures ReadyExact(UnqueuedTasks(ts, me), l, me)
  {
  }

  lemma UnqueueSenders(ts: Tasks, me: nat)
    requires CanUnqueue(ts, me) && SendersWait(ts) && IdsMatch(ts)
    ensures SendersWait(UnqueuedTasks(ts, me))
  {
    hide QueueGood;
    var us := UnqueuedTasks(ts, me);
    assert ts[me].sendQueue == [ts[me].sendQueue[0]] + ts[me].sendQueue[1..];
    forall r: nat | Live(us, r) ensures QueueGood(us, us[r]) {
      assert Live(ts, r) && Live(ts, me);
      UnqueueOne(ts, me, r);
    }
    forall r: nat, q: nat | Live(us, r) && Live(us, q) && r != q ensures Apart(us[r].sendQueue, us[q].sendQueue) {
      assert Live(ts, r) && Live(ts, q) && Apart(ts[r].sendQueue, ts[q].sendQueue);
    }
  }

  lemma UnqueueOne(ts: Tasks, me: nat, r: nat)
    requires CanUnqueue(ts, me) && IdsMatch(ts) && r < TASK_COUNT && QueueGood(ts, ts[me]) && QueueGood(ts, ts[r])
    requires r != me ==> Apart(ts[me].sendQueue, ts[r].sendQueue)
    ensures QueueGood(UnqueuedTasks(ts, me), UnqueuedTasks(ts, me)[r])
  {
    var us, first, rest := UnqueuedTasks(ts, me), ts[me].sendQueue[0], ts[me].sendQueue[1..];
    assert ts[me].sendQueue == [first] + rest;
    forall v | v in us[r].sendQueue ensures Names(us, v, ReceiveBlocked) {
      assert v in ts[r].sendQueue && Names(ts, v, ReceiveBlocked);
      assert v != first;
    }
  }

  lemma UnqueueEvents(ts: Tasks, events: seq<nat>, me: nat)
    requires CanUnqueue(ts, me) && |events| == EVENT_TABLE_SIZE && EventsName(ts, events)
    ensures EventsName(UnqueuedTasks(ts, me), events)
  {
  }

  lemma UnqueuePool(ts: Tasks, pool: seq<nat>, me: nat)
    requires CanUnqueue(ts, me) && PoolExact(ts, pool, me)
    ensures PoolExact(UnqueuedTasks(ts, me), pool, me)
  {
  }

  lemma UnqueueBlocks(ts: Tasks, blocks: seq<nat>, memory: map<int, int>, me: nat)
    requires CanUnqueue(ts, me) && BlocksPartitioned(ts, blocks, memory, me)
    ensures BlocksPartitioned(UnqueuedTasks(ts, me), blocks, memory, me)
  {
  }

  lemma ReplyKeeps(k: State, to: nat, m: Envelope)
    requires Running(k) && DoReply(k, to, m).Done?
    ensures Inv(DoReply(k, to, m).kernel)
  {
    var r := Id(to);
    var k1 := With(k, r, k.tasks[r].(reply := m, ret := 0));
    SameControlKeeps(k, k1.tasks);
    MakeReadyKeeps(k1, r);
  }

  // ---------------------------------------------------------------- events

  lemma AwaitKeeps(k: State, event: nat)
    requires Running(k) && DoAwait(k, event).Done?
    ensures Inv(DoAwait(k, event).kernel)
  {
    var me := k.active;
    BlockReady(k.tasks, k.ready, me, EventBlocked);
    BlockSenders(k.tasks, me, EventBlocked);
    AwaitEvents(k.tasks, k.events, me, event);
    BlockPool(k.tasks, k.pool, me, EventBlocked);
    BlockBlocks(k.tasks, k.blocks, k.memory, me, EventBlocked);
    hide ReadyExact, SendersWait, EventsName, PoolExact, BlocksPartitioned;
  }

  lemma AwaitEvents(ts: Tasks, events: seq<nat>, me: nat, event: nat)
    requires me < TASK_COUNT && ts[me].state == Ready && |events| == EVENT_TABLE_SIZE && EventsName(ts, events)
    requires event < EVENT_TABLE_SIZE && IdsMatch(ts)
    ensures EventsName(ts[me := ts[me].(state := EventBlocked)], events[event := ts[me].tid])
  {
    assert SameButState(ts, ts[me := ts[me].(state := EventBlocked)], me);
    assert Id(ts[me].tid) == me;
  }

  /** Waking from a slot keeps the invariant, and can only fail on a full ready level. */
  lemma WakeSlotKeeps(k: State, event: nat)
    requires Running(k) && event < EVENT_TABLE_SIZE
    ensures match Wake(k, event)
            case Done(k1, _) => Running(k1)
            case Halt(f) => f == ReadyQueueFull
  {
    var i := Id(k.events[event]);
    if k.events[event] != 0 {
      SlotNamesSleeper(k, event);
      if MakeReady(k, i).Done? {
        WakeKeeps(k, i, k.events[event := 0]);
      }
    }
  }

  lemma SlotNamesSleeper(k: State, event: nat)
    requires Running(k) && event < EVENT_TABLE_SIZE && k.events[event] != 0
    ensures Names(k.tasks, k.events[event], EventBlocked) && Id(k.events[event]) != k.active
    ensures NoSlotNames(k.events[event := 0], Id(k.events[event]))
  {
    assert Names(k.tasks, k.events[event], EventBlocked);
    var left := k.events[event := 0];
    forall e | 0 <= e < EVENT_TABLE_SIZE && left[e] != 0 ensures Id(left[e]) != Id(k.events[event]) {
      assert Names(k.tasks, k.events[e], EventBlocked) && k.events[e] != k.events[event];
    }
  }

  lemma WakeReaderKeeps(k: State, event: nat, byte: nat)
    requires Running(k) && event < EVENT_TABLE_SIZE
    ensures match WakeReader(k, event, byte)
            case Done(k1, _) => Running(k1)
            case Halt(f) => f == ReadyQueueFull
  {
    var i := Id(k.events[event]);
    if k.events[event] == 0 || i >= TASK_COUNT {
      WakeSlotKeeps(k, event);
    } else {
      var k1 := With(k, i, k.tasks[i].(ret := byte));
      SameControlKeeps(k, k1.tasks);
      WakeSlotKeeps(k1, event);
    }
  }

  /** An interrupt keeps the invariant, and can only halt on a full ready level. */
  lemma InterruptKeeps(k: State, irq: Irq)
    requires Running(k)
    ensures match Interrupt(k, irq)
            case Done(k1, _) => Running(k1)
            case Halt(f) => f == ReadyQueueFull
  {
    hide Wake, WakeReader, Inv, MakeReady;
    Uart1Keeps(k, irq);
    var h1 := Uart1(k, irq);
    if h1.Halt? { return; }
    WakeSlotKeeps(h1.kernel, EVENT_10MS_TICK);
    var h2 := if irq.tick10 then Wake(h1.kernel, EVENT_10MS_TICK) else Done(h1.kernel, 0);
    if h2.Halt? { return; }
    WakeSlotKeeps(h2.kernel, EVENT_150MS_TICK);
    var h3 := if irq.tick150 then Wake(h2.kernel, EVENT_150MS_TICK) else Done(h2.kernel, 0);
    if h3.Halt? { return; }
    WakeReaderKeeps(h3.kernel, EVENT_TERMINAL_READ, irq.byte2 % 256);
    var h4 := if irq.rx2 then WakeReader(h3.kernel, EVENT_TERMINAL_READ, irq.byte2 % 256) else Done(h3.kernel, 0);
    if h4.Halt? { return; }
    hide Uart1;
    Transmit2Keeps(h4.kernel, irq);
  }

  lemma Transmit2Keeps(k: State, irq: Irq)
    requires Running(k)
    ensures match Transmit2(k, irq)
            case Done(k1, _) => Running(k1)
            case Halt(f) => f == ReadyQueueFull
  {
    WakeSlotKeeps(k, EVENT_TERMINAL_WRITE);
    hide IdsMatch, ReadyExact, SendersWait, EventsName, PoolExact, BlocksPartitioned;
  }

  lemma Uart1Keeps(k: State, irq: Irq)
    requires Running(k)
    ensures match Uart1(k, irq)
            case Done(k1, _) => Running(k1)
            case Halt(f) => f == ReadyQueueFull
  {
    hide IdsMatch, ReadyExact, SendersWait, EventsName, PoolExact, BlocksPartitioned, Wake, WakeReader;
    var k1 := Modem(k, irq);
    assert Running(k1);
    WakeSlotKeeps(k1, EVENT_TRAIN_WRITE);
    var h := Transmit1(k1, irq);
    if h.Done? {
      assert Running(h.kernel);
      WakeReaderKeeps(h.kernel, EVENT_TRAIN_READ, irq.byte1 % 256);
    }
  }
}
