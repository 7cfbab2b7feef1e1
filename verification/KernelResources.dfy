/** Stack blocks and descriptors are conserved by CREATE, ALLOC, FREE and the reclaim of a zombie. */
module KernelResources {
  import opened Chains
  import opened PriorityQueues
  import opened Kernel
  import opened KernelInvariant

  // ---------------------------------------------------------------- blocks

  /** A block handed out by ALLOC: neither free nor under a stack. */
  ghost predicate HandedOut(k: State, b: nat) {
    1 <= b <= BLOCK_COUNT && b !in k.blocks
    && forall i: nat {:trigger k.tasks[i]} :: HasStack(k.tasks, i, k.active) ==> k.tasks[i].stackBlock != b
  }

  /** The block queue always has room for a block that is not in it. */
  lemma RoomForBlock(blocks: seq<nat>, b: nat)
    requires Distinct(blocks) && b !in blocks && 1 <= b <= BLOCK_COUNT
    requires forall x :: x in blocks ==> 1 <= x <= BLOCK_COUNT
    ensures |blocks| < BLOCK_COUNT
  {
    Pigeonhole(blocks + [b], 1, BLOCK_COUNT + 1);
  }

  /** The words of a block, its header the last of them. */
  predicate InBlock(b: nat, word: int) {
    BASE + (b - 1) * BLOCK_WORDS <= word < BASE + b * BLOCK_WORDS
  }

  /** The words of different blocks are different; a block's header, the address handed out and
      the words that creating a task writes are the block's own. */
  lemma BlocksAreApart(a: nat, b: nat, word: int)
    ensures InBlock(a, word) && InBlock(b, word) ==> a == b
    ensures InBlock(b, Address(b) + 1) && InBlock(b, Address(b)) && InBlock(b, Address(b) - 14) && InBlock(b, Address(b) - 15)
    ensures !InBlock(b, Address(b) + 2)
  {
  }

  lemma AddressesDiffer(a: nat, b: nat)
    ensures a != b ==> Address(a) != Address(b)
    ensures Address(a) + 1 != Address(b) && Address(a) + 1 != Address(b) - 14 && Address(a) + 1 != Address(b) - 15
  {
  }

  lemma AllocBlocks(ts: Tasks, blocks: seq<nat>, memory: map<int, int>, me: nat)
    requires BlocksPartitioned(ts, blocks, memory, me) && blocks != []
    ensures 1 <= blocks[0] <= BLOCK_COUNT
    ensures BlocksPartitioned(ts, blocks[1..], memory[Address(blocks[0]) + 1 := blocks[0]], me)
    ensures forall i: nat {:trigger ts[i]} :: HasStack(ts, i, me) ==> ts[i].stackBlock != blocks[0]
  {
    var b, rest := blocks[0], blocks[1..];
    assert b in blocks && blocks == [b] + rest;
    forall c | c in rest ensures c in blocks && c != b {
    }
    forall c {:trigger Address(c)} | 1 <= c <= BLOCK_COUNT && c !in rest
      ensures Read(memory[Address(b) + 1 := b], Address(c) + 1) == c
    {
      AddressesDiffer(c, b);
    }
  }

  /** ALLOC hands out a block that nobody holds and keeps the partition. */
  lemma AllocKeeps(k: State)
    requires Running(k)
    ensures Running(AllocBlock(k).0)
    ensures k.blocks != [] ==>
      HandedOut(AllocBlock(k).0, k.blocks[0]) && AllocBlock(k).1 == Address(k.blocks[0]) != 0 && !HandedOut(k, k.blocks[0])
    ensures k.blocks == [] ==> AllocBlock(k) == (k, 0)
  {
    if k.blocks != [] {
      AllocBlocks(k.tasks, k.blocks, k.memory, k.active);
      assert k.blocks == [k.blocks[0]] + k.blocks[1..];
      hide ReadyExact, SendersWait, EventsName, PoolExact;
    }
  }

  lemma FreeBlocks(ts: Tasks, blocks: seq<nat>, memory: map<int, int>, me: nat, b: nat)
    requires BlocksPartitioned(ts, blocks, memory, me) && 1 <= b <= BLOCK_COUNT && b !in blocks
    requires forall i: nat {:trigger ts[i]} :: HasStack(ts, i, me) ==> ts[i].stackBlock != b
    ensures BlocksPartitioned(ts, blocks + [b], memory, me)
  {
  }

  /** FREE of a block obtained from ALLOC always succeeds and keeps the partition. */
  lemma FreeKeeps(k: State, b: nat)
    requires Running(k) && HandedOut(k, b)
    ensures FreeBlock(k, Address(b)).Done? && Running(FreeBlock(k, Address(b)).kernel)
    ensures FreeBlock(k, Address(b)).kernel == k.(blocks := k.blocks + [b])
  {
    RoomForBlock(k.blocks, b);
    assert Read(k.memory, Address(b) + 1) == b;
    FreeBlocks(k.tasks, k.blocks, k.memory, k.active, b);
    hide ReadyExact, SendersWait, EventsName, PoolExact;
  }

  /** FREE of any address that does not halt keeps the invariant exactly when the word above the
      address is the number of a block that is neither free nor under a stack. */
  lemma FreeExactly(k: State, address: int)
    requires Running(k) && FreeBlock(k, address).Done?
    ensures Inv(FreeBlock(k, address).kernel) <==> HandedOut(k, Read(k.memory, address + 1) % 0x1_0000)
  {
    var b, k1 := Read(k.memory, address + 1) % 0x1_0000, FreeBlock(k, address).kernel;
    if HandedOut(k, b) {
      FreeBlocks(k.tasks, k.blocks, k.memory, k.active, b);
      hide ReadyExact, SendersWait, EventsName, PoolExact;
    }
    if Inv(k1) {
      BackIsFree(k.tasks, k.blocks, k.memory, k.active, b);
      hide Inv;
    }
  }

  lemma BackIsFree(ts: Tasks, blocks: seq<nat>, memory: map<int, int>, me: nat, b: nat)
    requires BlocksPartitioned(ts, blocks + [b], memory, me)
    ensures 1 <= b <= BLOCK_COUNT && b !in blocks
    ensures forall i: nat {:trigger ts[i]} :: HasStack(ts, i, me) ==> ts[i].stackBlock != b
  {
    var all := blocks + [b];
    assert all[|blocks|] == b && b in all;
    forall j | 0 <= j < |blocks| ensures blocks[j] != b {
      assert all[j] == blocks[j];
    }
  }

  // ---------------------------------------------------------------- creating a task

  lemma CreateReady(ts: Tasks, l: Levels, me: nat, i: nat, t: Task)
    requires ReadyExact(ts, l, me) && IdsMatch(ts)
    requires i < TASK_COUNT && i != me && ts[i].state == Zombie
    requires t.tid == ts[i].tid && t.state == Ready && t.priority < LEVELS
    ensures ReadyExact(ts[i := t], l[t.priority := l[t.priority] + [t.tid]], me)
  {
    var p, v := t.priority, t.tid;
    var us, m := ts[i := t], l[p := l[p] + [v]];
    assert v !in l[p];
    forall q, w | 0 <= q < LEVELS && w in m[q] ensures Names(us, w, Ready) && us[Id(w)].priority == q && Id(w) != me {
      assert w in l[q] || (q == p && w == v);
    }
    forall j | 0 <= j < TASK_COUNT && us[j].state == Ready && j != me
      ensures us[j].priority < LEVELS && us[j].tid in m[us[j].priority]
    {
      assert j != i ==> us[j] == ts[j];
    }
  }

  lemma CreateSenders(ts: Tasks, i: nat, t: Task)
    requires SendersWait(ts) && i < TASK_COUNT && ts[i].state == Zombie
    requires t.state == Ready && t.sendQueue == [] && t.sendLength == SEND_QUEUE_LENGTH
    ensures SendersWait(ts[i := t])
  {
    var us := ts[i := t];
    forall q: nat | Live(us, q) ensures QueueGood(us, us[q]) {
      if q != i {
        assert Live(ts, q) && QueueGood(ts, ts[q]);
      }
    }
    forall q: nat, o: nat | Live(us, q) && Live(us, o) && q != o ensures Apart(us[q].sendQueue, us[o].sendQueue) {
      if q != i && o != i {
        assert Live(ts, q) && Live(ts, o) && Apart(ts[q].sendQueue, ts[o].sendQueue);
      }
    }
  }

  lemma CreateEvents(ts: Tasks, events: seq<nat>, i: nat, t: Task)
    requires |events| == EVENT_TABLE_SIZE && EventsName(ts, events) && i < TASK_COUNT && ts[i].state == Zombie
    ensures EventsName(ts[i := t], events)
  {
  }

  lemma CreatePool(ts: Tasks, pool: seq<nat>, me: nat, t: Task)
    requires pool != [] && PoolExact(ts, pool, me) && t.state == Ready
    ensures pool[0] < TASK_COUNT && PoolExact(ts[pool[0] := t], pool[1..], me)
  {
    var i, rest := pool[0], pool[1..];
    assert i in pool && pool == [i] + rest;
    var us := ts[i := t];
    forall j: nat | j < TASK_COUNT ensures j in rest <==> us[j].state == Zombie && j != me {
      assert j in pool <==> ts[j].state == Zombie && j != me;
    }
    forall j | j in rest ensures j < TASK_COUNT {
      assert j in pool;
    }
  }

  lemma CreateBlocks(ts: Tasks, blocks: seq<nat>, memory: map<int, int>, me: nat, i: nat, t: Task, entry: int)
    requires BlocksPartitioned(ts, blocks, memory, me) && blocks != [] && i < TASK_COUNT && i != me
    requires t.stackBlock == blocks[0] && t.stackBase == Address(blocks[0])
    ensures var a := Address(blocks[0]);
      BlocksPartitioned(ts[i := t], blocks[1..], memory[a + 1 := blocks[0]][a := entry][a - 14 := TASK_EXIT][a - 15 := 0x10], me)
  {
    var b, a, us := blocks[0], Address(blocks[0]), ts[i := t];
    AllocBlocks(ts, blocks, memory, me);
    assert blocks == [b] + blocks[1..];
    var m1 := memory[a + 1 := b];
    var m := m1[a := entry][a - 14 := TASK_EXIT][a - 15 := 0x10];
    forall c {:trigger Address(c)} | 1 <= c <= BLOCK_COUNT && c !in blocks[1..] ensures Read(m, Address(c) + 1) == c {
      AddressesDiffer(c, b);
      assert Read(m, Address(c) + 1) == Read(m1, Address(c) + 1);
    }
    forall j: nat | HasStack(us, j, me) && j != i
      ensures ts[j].stackBlock != b && HasStack(ts, j, me) && us[j] == ts[j]
    {
    }
  }

  /** The descriptor CREATE fills in. */
  function NewTask(k: State, priority: nat): Task
    requires k.pool != [] && k.pool[0] < TASK_COUNT && k.blocks != []
  {
    k.tasks[k.pool[0]].(
      stackBase := Address(k.blocks[0]), stackBlock := k.blocks[0], state := Ready, pid := k.tasks[k.active].tid,
      priority := priority, sendQueue := [], sendLength := SEND_QUEUE_LENGTH)
  }

  /** What a CREATE that does not halt leaves behind. */
  lemma CreateShape(k: State, priority: nat, entry: int)
    requires Running(k) && k.pool != [] && DoCreate(k, priority, entry).Done?
    ensures k.pool[0] < TASK_COUNT && k.blocks != [] && priority % 256 < LEVELS
    ensures k.pool[0] != k.active && k.tasks[k.pool[0]].state == Zombie
    ensures var a, t := Address(k.blocks[0]), NewTask(k, priority % 256);
      DoCreate(k, priority, entry).kernel == k.(
        tasks := k.tasks[k.pool[0] := t], pool := k.pool[1..], blocks := k.blocks[1..],
        memory := k.memory[a + 1 := k.blocks[0]][a := entry][a - 14 := TASK_EXIT][a - 15 := 0x10],
        ready := k.ready[t.priority := k.ready[t.priority] + [t.tid]])
    ensures DoCreate(k, priority, entry).ret == k.tasks[k.pool[0]].tid
  {
    assert k.pool[0] in k.pool;
    assert k.blocks != [];
    assert k.blocks[0] in k.blocks && Address(k.blocks[0]) != 0;
    hide ReadyExact, SendersWait, EventsName, PoolExact, BlocksPartitioned;
  }

  /** With a free descriptor CREATE keeps the invariant. */
  lemma CreateKeeps(k: State, priority: nat, entry: int)
    requires Running(k) && k.pool != [] && DoCreate(k, priority, entry).Done?
    ensures Inv(DoCreate(k, priority, entry).kernel)
  {
    CreateShape(k, priority, entry);
    hide ReadyExact, SendersWait, EventsName, PoolExact, BlocksPartitioned, DoCreate;
    var i, t := k.pool[0], NewTask(k, priority % 256);
    CreateReady(k.tasks, k.ready, k.active, i, t);
    CreateSenders(k.tasks, i, t);
    CreateEvents(k.tasks, k.events, i, t);
    CreatePool(k.tasks, k.pool, k.active, t);
    CreateBlocks(k.tasks, k.blocks, k.memory, k.active, i, t, entry);
  }

  /** Without one it queues an id that names no task. */
  lemma CreateOnFullTableBreaks(k: State, priority: nat, entry: int)
    requires Running(k) && k.pool == [] && DoCreate(k, priority, entry).Done?
    ensures !Inv(DoCreate(k, priority, entry).kernel)
  {
    var p, k1 := priority % 256, DoCreate(k, priority, entry).kernel;
    assert k1.ready[p] == k.ready[p] + [0xFFFF];
    assert 0xFFFF in k1.ready[p] && Id(0xFFFF) >= TASK_COUNT;
  }

  /** CREATE keeps the invariant exactly when a descriptor is free. */
  lemma CreateExactly(k: State, priority: nat, entry: int)
    requires Running(k) && DoCreate(k, priority, entry).Done?
    ensures Inv(DoCreate(k, priority, entry).kernel) <==> k.pool != []
  {
    if k.pool != [] { CreateKeeps(k, priority, entry); } else { CreateOnFullTableBreaks(k, priority, entry); }
  }

  /** The faults CREATE can run into. */
  lemma CreateFaults(k: State, priority: nat, entry: int)
    requires Running(k) && DoCreate(k, priority, entry).Halt?
    ensures DoCreate(k, priority, entry).fault == NoMemory ==> k.blocks == []
    ensures DoCreate(k, priority, entry).fault == NoMemory || DoCreate(k, priority, entry).fault == ReadyQueueFull
  {
    if k.pool != [] {
      assert k.pool[0] in k.pool;
    }
    if k.blocks != [] {
      assert k.blocks[0] in k.blocks;
    }
  }
}
