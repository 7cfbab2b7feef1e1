/** When no task is ever lost: the calls that keep every blocked task findable, exactly. */
module KernelAccounting {
  import opened Chains
  import opened Circles
  import opened Kernel
  import opened KernelInterrupts
  import opened KernelInvariant
  import opened KernelResources
  import opened KernelSchedule
  import opened KernelRuns
  import opened KernelProgress

  // ---------------------------------------------------------------- who waits for whom

  /** For every descriptor, the id of the task it last sent a message to. */
  type Waits = w: seq<nat> | |w| == TASK_COUNT witness seq(TASK_COUNT, _ => 0)

  /** Watch one handler: a SEND waits for its target. */
  function Watch(k: State, input: Input, waits: Waits): Waits {
    match input
    case Syscall(Send(to, _)) => if Id(to) < TASK_COUNT then waits[k.active := k.tasks[Id(to)].tid] else waits
    case _ => waits
  }

  /** The task waits for another to receive its message or to reply to it. */
  predicate OnTask(t: Task) {
    t.state == ReceiveBlocked || t.state == ReplyBlocked
  }

  function LinkOf(t: Task, v: nat): (j: int)
    ensures NULL <= j < TASK_COUNT
  {
    if OnTask(t) && Id(v) < TASK_COUNT then Id(v) else NULL
  }

  /** The links from each task to the one it waits for. */
  function LinksOf(ts: Tasks, waits: Waits): (next: Links)
    ensures |next| == TASK_COUNT
    ensures forall i {:trigger next[i]} :: 0 <= i < TASK_COUNT ==> next[i] == LinkOf(ts[i], waits[i])
  {
    seq(TASK_COUNT, i requires 0 <= i < TASK_COUNT => LinkOf(ts[i], waits[i]))
  }

  ghost predicate IsLive(ts: Tasks, v: nat) {
    Id(v) < TASK_COUNT && ts[Id(v)].tid == v && ts[Id(v)].state != Zombie
  }

  /** Every task that waits for another waits for a live one, and until its message is received
      it is in that one's queue. */
  ghost predicate Placed(ts: Tasks, waits: Waits) {
    forall i {:trigger waits[i]} :: 0 <= i < TASK_COUNT && (ts[i].state == ReceiveBlocked || ts[i].state == ReplyBlocked) ==>
      IsLive(ts, waits[i]) && (ts[i].state == ReceiveBlocked ==> ts[i].tid in ts[Id(waits[i])].sendQueue)
  }

  ghost predicate IsAwaiting(events: seq<nat>, v: nat) {
    v != 0 && exists e {:trigger events[e]} :: 1 <= e < |events| && events[e] == v
  }

  /** Every task blocked on an event is in a slot of the event table that a handler reads. */
  ghost predicate Listed(ts: Tasks, events: seq<nat>) {
    forall i {:trigger ts[i]} :: 0 <= i < TASK_COUNT && ts[i].state == EventBlocked ==> IsAwaiting(events, ts[i].tid)
  }

  /** Every blocked task can still be let go: it waits for a live task that has its message or its
      place in the queue, no task in the end waits for itself, and who awaits an event is in a
      slot of the table. */
  ghost predicate Accounted(k: State, waits: Waits) {
    Placed(k.tasks, waits) && NoCircle(LinksOf(k.tasks, waits)) && Listed(k.tasks, k.events)
  }

  predicate OwesNothing(k: State, waits: Waits) {
    forall i {:trigger k.tasks[i]} :: 0 <= i < TASK_COUNT && k.tasks[i].state == ReplyBlocked ==>
      waits[i] != k.tasks[k.active].tid
  }

  /** A slot that can take the caller: one that a handler reads, empty, and the caller's id is not 0. */
  predicate SlotTakes(k: State, e: nat) {
    1 <= e < EVENT_TABLE_SIZE && k.events[e] == 0 && k.tasks[k.active].tid != 0
  }

  /** The caller exits with no sender in its queue and owing no reply, sends only to a live task
      that does not, itself or through others, wait for the caller, and awaits only an event whose
      slot can take it. */
  predicate Considerate(k: State, input: Input, waits: Waits) {
    match input
    case Syscall(Exit) => k.tasks[k.active].sendQueue == [] && OwesNothing(k, waits)
    case Syscall(Send(to, _)) =>
      && Id(to) < TASK_COUNT && k.tasks[Id(to)].state != Zombie
      && End(LinksOf(k.tasks, waits), Id(to)) != k.active
    case Syscall(Await(e, _)) => SlotTakes(k, e)
    case Syscall(Write(port, _)) =>
      port == EVENT_TERMINAL_WRITE || port == EVENT_TRAIN_WRITE ==> SlotTakes(k, port)
    case _ => true
  }

  // ---------------------------------------------------------------- frames

  /** Live tasks stay alive with their queues, and no task newly waits for another. */
  ghost predicate KeepsWaits(ts: Tasks, us: Tasks) {
    forall i {:trigger ts[i]} {:trigger us[i]} :: 0 <= i < TASK_COUNT ==>
      && (ts[i].state != Zombie ==>
            us[i].state != Zombie && us[i].tid == ts[i].tid && us[i].sendQueue == ts[i].sendQueue)
      && (us[i].state == ReceiveBlocked || us[i].state == ReplyBlocked ==> us[i].state == ts[i].state)
  }

  /** No task newly awaits an event. */
  ghost predicate KeepsSleepers(ts: Tasks, us: Tasks) {
    forall i {:trigger ts[i]} {:trigger us[i]} :: 0 <= i < TASK_COUNT && us[i].state == EventBlocked ==>
      ts[i].state == EventBlocked && us[i].tid == ts[i].tid
  }

  lemma PlacedFrame(ts: Tasks, us: Tasks, waits: Waits)
    requires KeepsWaits(ts, us) && Placed(ts, waits)
    ensures Placed(us, waits)
  {
    forall i | 0 <= i < TASK_COUNT && (us[i].state == ReceiveBlocked || us[i].state == ReplyBlocked)
      ensures IsLive(us, waits[i]) && (us[i].state == ReceiveBlocked ==> us[i].tid in us[Id(waits[i])].sendQueue)
    {
      assert IsLive(ts, waits[i]);
      assert us[Id(waits[i])].tid == waits[i];
    }
  }

  lemma CirclesFrame(ts: Tasks, us: Tasks, waits: Waits)
    requires KeepsWaits(ts, us) && NoCircle(LinksOf(ts, waits))
    ensures NoCircle(LinksOf(us, waits))
  {
    hide LinksOf;
    var next, fewer := LinksOf(ts, waits), LinksOf(us, waits);
    forall i | 0 <= i < |next| ensures fewer[i] == next[i] || fewer[i] == NULL {
      assert us[i].state == ReceiveBlocked || us[i].state == ReplyBlocked ==> us[i].state == ts[i].state;
    }
    FewerLinks(next, fewer);
  }

  lemma ListedFrame(ts: Tasks, us: Tasks, events: seq<nat>)
    requires KeepsSleepers(ts, us) && Listed(ts, events)
    ensures Listed(us, events)
  {
  }

  /** Nothing new to account for. */
  lemma AccountedFrame(k: State, k1: State, waits: Waits)
    requires KeepsWaits(k.tasks, k1.tasks) && KeepsSleepers(k.tasks, k1.tasks) && k1.events == k.events
    requires Accounted(k, waits)
    ensures Accounted(k1, waits)
  {
    hide KeepsWaits, KeepsSleepers, Placed, Listed, LinksOf, NoCircle;
    PlacedFrame(k.tasks, k1.tasks, waits);
    CirclesFrame(k.tasks, k1.tasks, waits);
    ListedFrame(k.tasks, k1.tasks, k.events);
  }

  // ---------------------------------------------------------------- EXIT

  lemma ExitPlaced(k: State, waits: Waits)
    requires Running(k) && Placed(k.tasks, waits) && k.tasks[k.active].sendQueue == [] && OwesNothing(k, waits)
    ensures Placed(k.tasks[k.active := k.tasks[k.active].(state := Zombie)], waits)
  {
    hide Inv;
    var ts, me := k.tasks, k.active;
    var us := ts[me := ts[me].(state := Zombie)];
    forall i | 0 <= i < TASK_COUNT && (us[i].state == ReceiveBlocked || us[i].state == ReplyBlocked)
      ensures IsLive(us, waits[i]) && (us[i].state == ReceiveBlocked ==> us[i].tid in us[Id(waits[i])].sendQueue)
    {
      assert us[i] == ts[i] && IsLive(ts, waits[i]);
      assert Id(waits[i]) != me;
    }
  }

  lemma ExitStrands(k: State, waits: Waits) returns (i: nat)
    requires Running(k) && Placed(k.tasks, waits)
    requires k.tasks[k.active].sendQueue != [] || !OwesNothing(k, waits)
    ensures i < TASK_COUNT && i != k.active && OnTask(k.tasks[i]) && waits[i] == k.tasks[k.active].tid
    ensures Id(waits[i]) == k.active
  {
    var ts, me := k.tasks, k.active;
    assert IdsMatch(ts);
    if !OwesNothing(k, waits) {
      i :| 0 <= i < TASK_COUNT && ts[i].state == ReplyBlocked && waits[i] == ts[me].tid;
    } else {
      FirstSenderWaits(k);
      var v := ts[me].sendQueue[0];
      i := Id(v);
      assert IsLive(ts, waits[i]);
      assert Live(ts, me) && v in ts[me].sendQueue;
      assert SendersWait(ts);
      hide Inv;
      SenderIsNowhereElse(ts, me, v);
    }
  }

  lemma SenderIsNowhereElse(ts: Tasks, me: nat, v: nat)
    requires SendersWait(ts) && Live(ts, me) && v in ts[me].sendQueue
    ensures forall r: nat {:trigger ts[r]} :: r < TASK_COUNT && r != me && ts[r].state != Zombie ==> v !in ts[r].sendQueue
  {
    forall r: nat | r < TASK_COUNT && r != me && ts[r].state != Zombie ensures v !in ts[r].sendQueue {
      assert Live(ts, r) && Apart(ts[me].sendQueue, ts[r].sendQueue);
    }
  }

  lemma ExitExactly(k: State, waits: Waits)
    requires Running(k) && Accounted(k, waits)
    ensures Accounted(SystemCall(k, Exit).kernel, waits) <==> k.tasks[k.active].sendQueue == [] && OwesNothing(k, waits)
  {
    var ts, me := k.tasks, k.active;
    var us := ts[me := ts[me].(state := Zombie)];
    assert ts[me].state == Ready;
    assert SystemCall(k, Exit).kernel == k.(tasks := us);
    assert LinksOf(us, waits) == LinksOf(ts, waits);
    ListedFrame(ts, us, k.events);
    if ts[me].sendQueue == [] && OwesNothing(k, waits) {
      ExitPlaced(k, waits);
    } else {
      var i := ExitStrands(k, waits);
      assert us[i] == ts[i] && !IsLive(us, waits[i]);
    }
  }

  // ---------------------------------------------------------------- SEND

  lemma SendLinks(ts: Tasks, us: Tasks, me: nat, v: nat, waits: Waits)
    requires me < TASK_COUNT && Id(v) < TASK_COUNT && !OnTask(ts[me]) && OnTask(us[me])
    requires forall i {:trigger us[i]} :: 0 <= i < TASK_COUNT && i != me ==> (OnTask(us[i]) <==> OnTask(ts[i]))
    requires NoCircle(LinksOf(ts, waits))
    ensures NoCircle(LinksOf(us, waits[me := v])) <==> End(LinksOf(ts, waits), Id(v)) != me
  {
    var next := LinksOf(ts, waits);
    assert LinksOf(us, waits[me := v]) == next[me := Id(v)];
    hide LinksOf;
    OneMoreLink(next, me, Id(v));
  }

  /** One task newly waits for another, which has its message or its place in the queue. */
  lemma SendPlaced(ts: Tasks, us: Tasks, me: nat, v: nat, waits: Waits)
    requires me < TASK_COUNT && Placed(ts, waits) && IsLive(us, v)
    requires us[me].state == ReceiveBlocked ==> us[me].tid in us[Id(v)].sendQueue
    requires forall i {:trigger ts[i]} {:trigger us[i]} :: 0 <= i < TASK_COUNT ==>
      && us[i].tid == ts[i].tid && (ts[i].state != Zombie ==> us[i].state != Zombie && ts[i].sendQueue <= us[i].sendQueue)
      && (i != me && (us[i].state == ReceiveBlocked || us[i].state == ReplyBlocked) ==> us[i].state == ts[i].state)
    ensures Placed(us, waits[me := v])
  {
    var later := waits[me := v];
    forall i | 0 <= i < TASK_COUNT && (us[i].state == ReceiveBlocked || us[i].state == ReplyBlocked)
      ensures IsLive(us, later[i]) && (us[i].state == ReceiveBlocked ==> us[i].tid in us[Id(later[i])].sendQueue)
    {
      if i != me {
        assert later[i] == waits[i] && IsLive(ts, waits[i]);
        assert us[Id(waits[i])].tid == waits[i];
      }
    }
  }

  lemma QueueExactly(k: State, r: nat, waits: Waits)
    requires Running(k) && Accounted(k, waits) && r < TASK_COUNT && k.tasks[r].state != SendBlocked
    ensures Accounted(Queued(k, r), waits[k.active := k.tasks[r].tid]) <==>
            k.tasks[r].state != Zombie && End(LinksOf(k.tasks, waits), r) != k.active
  {
    var ts, us, me, v := k.tasks, Queued(k, r).tasks, k.active, k.tasks[r].tid;
    assert Id(v) == r && ts[me].state == Ready;
    hide Inv, LinksOf, End, NoCircle, Placed, Listed;
    QueuedIs(ts, me, r);
    hide QueuedTasks;
    SendLinks(ts, us, me, v, waits);
    ListedFrame(ts, us, k.events);
    if ts[r].state != Zombie {
      SendPlaced(ts, us, me, v, waits);
    } else {
      NotPlaced(us, me, v, waits);
    }
  }

  lemma QueuedIs(ts: Tasks, me: nat, r: nat)
    requires me < TASK_COUNT && r < TASK_COUNT && ts[me].state == Ready
    ensures var us := QueuedTasks(ts, me, r);
      && us[me].state == ReceiveBlocked && us[me].tid in us[r].sendQueue
      && (forall i {:trigger ts[i]} {:trigger us[i]} :: 0 <= i < TASK_COUNT ==>
            && us[i].tid == ts[i].tid && ts[i].sendQueue <= us[i].sendQueue && (i != me ==> us[i].state == ts[i].state))
  {
  }

  /** A task cannot wait for one that has ended. */
  lemma NotPlaced(ts: Tasks, me: nat, v: nat, waits: Waits)
    requires me < TASK_COUNT && ts[me].state == ReceiveBlocked && Id(v) < TASK_COUNT && ts[Id(v)].state == Zombie
    ensures !Placed(ts, waits[me := v])
  {
    var later := waits[me := v];
    assert later[me] == v;
  }

  lemma DirectExactly(k: State, to: nat, waits: Waits)
    requires Running(k) && Accounted(k, waits) && DoSend(k, to).Done? && k.tasks[Id(to)].state == SendBlocked
    ensures Accounted(DoSend(k, to).kernel, waits[k.active := k.tasks[Id(to)].tid]) <==>
            End(LinksOf(k.tasks, waits), Id(to)) != k.active
  {
    var ts, us, me, r := k.tasks, DoSend(k, to).kernel.tasks, k.active, Id(to);
    assert Id(ts[r].tid) == r && ts[me].state == Ready;
    assert DoSend(k, to).kernel.events == k.events;
    hide Inv, LinksOf, End;
    SendLinks(ts, us, me, ts[r].tid, waits);
    ListedFrame(ts, us, k.events);
    SendPlaced(ts, us, me, ts[r].tid, waits);
  }

  // ---------------------------------------------------------------- RECEIVE

  lemma ReceiveTasks(k: State)
    requires Running(k) && k.tasks[k.active].sendQueue != [] && DoReceive(k).Done?
    ensures DoReceive(k).kernel.events == k.events
    ensures var ts, us, me := k.tasks, DoReceive(k).kernel.tasks, k.active; var v := ts[me].sendQueue[0];
      && Id(v) < TASK_COUNT && ts[Id(v)].tid == v && ts[Id(v)].state == ReceiveBlocked && us[Id(v)].state == ReplyBlocked
      && ts[me].sendQueue == [v] + us[me].sendQueue
      && (forall i {:trigger us[i]} {:trigger ts[i]} :: 0 <= i < TASK_COUNT ==>
            && us[i].tid == ts[i].tid && (i != Id(v) ==> us[i].state == ts[i].state)
            && (i != me ==> us[i].sendQueue == ts[i].sendQueue))
  {
    FirstSenderWaits(k);
    hide Inv;
  }

  lemma ReceiveAccounted(k: State, waits: Waits)
    requires Running(k) && DoReceive(k).Done? && Accounted(k, waits)
    ensures Accounted(DoReceive(k).kernel, waits)
  {
    var ts, us, me := k.tasks, DoReceive(k).kernel.tasks, k.active;
    if ts[me].sendQueue == [] {
      hide Inv, Accounted;
      AccountedFrame(k, DoReceive(k).kernel, waits);
    } else {
      ReceiveTasks(k);
      assert IdsMatch(ts);
      hide Inv, DoReceive;
      assert LinksOf(us, waits) == LinksOf(ts, waits);
      hide LinksOf;
      ListedFrame(ts, us, k.events);
      ReceivePlaced(ts, us, me, waits);
    }
  }

  lemma ReceivePlaced(ts: Tasks, us: Tasks, me: nat, waits: Waits)
    requires me < TASK_COUNT && Placed(ts, waits) && IdsMatch(ts) && ts[me].sendQueue != []
    requires var v := ts[me].sendQueue[0];
      && Id(v) < TASK_COUNT && ts[Id(v)].tid == v && ts[Id(v)].state == ReceiveBlocked && us[Id(v)].state == ReplyBlocked
      && ts[me].sendQueue == [v] + us[me].sendQueue
      && (forall i {:trigger us[i]} {:trigger ts[i]} :: 0 <= i < TASK_COUNT ==>
            && us[i].tid == ts[i].tid && (i != Id(v) ==> us[i].state == ts[i].state)
            && (i != me ==> us[i].sendQueue == ts[i].sendQueue))
    ensures Placed(us, waits)
  {
    var v := ts[me].sendQueue[0];
    forall i | 0 <= i < TASK_COUNT && (us[i].state == ReceiveBlocked || us[i].state == ReplyBlocked)
      ensures IsLive(us, waits[i]) && (us[i].state == ReceiveBlocked ==> us[i].tid in us[Id(waits[i])].sendQueue)
    {
      assert IsLive(ts, waits[i]);
      assert us[Id(waits[i])].tid == waits[i];
      assert i != Id(v) ==> ts[i].tid != v;
    }
  }

  // ---------------------------------------------------------------- AWAIT

  lemma AwaitExactly(k: State, e: nat, waits: Waits)
    requires Running(k) && Accounted(k, waits) && e < EVENT_TABLE_SIZE
    ensures Accounted(DoAwait(k, e).kernel, waits) <==> SlotTakes(k, e)
  {
    var ts, me, v := k.tasks, k.active, k.tasks[k.active].tid;
    var us, left := ts[me := ts[me].(state := EventBlocked)], k.events[e := v];
    assert ts[me].state == Ready;
    PlacedFrame(ts, us, waits);
    CirclesFrame(ts, us, waits);
    if SlotTakes(k, e) {
      hide Inv;
      AwaitListed(ts, us, me, k.events, left, e);
    } else if e == 0 || v == 0 {
      AwaitInVain(k, e);
    } else {
      AwaitEvicts(k, e);
    }
  }

  /** Nothing finds the caller in slot 0, nor under id 0 in any slot. */
  lemma AwaitInVain(k: State, e: nat)
    requires Running(k) && e < EVENT_TABLE_SIZE && (e == 0 || k.tasks[k.active].tid == 0)
    ensures !Listed(DoAwait(k, e).kernel.tasks, DoAwait(k, e).kernel.events)
  {
    var me, v := k.active, k.tasks[k.active].tid;
    var k1 := DoAwait(k, e).kernel;
    ActiveIsUnnamed(k);
    assert IdsMatch(k.tasks);
    hide Inv;
    assert k1.tasks[me].state == EventBlocked && k1.tasks[me].tid == v;
    assert !IsAwaiting(k1.events, v);
  }

  /** The task that was in the slot is in no other. */
  lemma AwaitEvicts(k: State, e: nat)
    requires Running(k) && e < EVENT_TABLE_SIZE && k.events[e] != 0
    ensures !Listed(DoAwait(k, e).kernel.tasks, DoAwait(k, e).kernel.events)
  {
    var w, k1 := k.events[e], DoAwait(k, e).kernel;
    assert Names(k.tasks, w, EventBlocked);
    assert k1.tasks[Id(w)] == k.tasks[Id(w)];
    ActiveIsUnnamed(k);
    assert forall f {:trigger k.events[f]} :: 0 <= f < EVENT_TABLE_SIZE && f != e ==> k.events[f] != w;
    hide Inv;
    assert !IsAwaiting(k1.events, w);
  }

  lemma AwaitListed(ts: Tasks, us: Tasks, me: nat, events: seq<nat>, left: seq<nat>, e: nat)
    requires me < TASK_COUNT && us == ts[me := ts[me].(state := EventBlocked)] && ts[me].tid != 0
    requires Listed(ts, events) && 1 <= e < |events| && events[e] == 0 && left == events[e := ts[me].tid]
    ensures Listed(us, left)
  {
    forall i | 0 <= i < TASK_COUNT && us[i].state == EventBlocked ensures IsAwaiting(left, us[i].tid) {
      if i == me {
        assert left[e] == ts[me].tid;
      } else {
        assert us[i] == ts[i];
        var f :| 1 <= f < |events| && events[f] == ts[i].tid;
        assert left[f] == ts[i].tid;
      }
    }
  }

  // ---------------------------------------------------------------- one call

  lemma ReplyAccounted(k: State, to: nat, m: Envelope, waits: Waits)
    requires Running(k) && DoReply(k, to, m).Done? && Accounted(k, waits)
    ensures Accounted(DoReply(k, to, m).kernel, waits)
  {
    hide Running, Accounted;
    AccountedFrame(k, DoReply(k, to, m).kernel, waits);
  }

  lemma CreateAccounted(k: State, priority: nat, entry: int, waits: Waits)
    requires Running(k) && k.pool != [] && DoCreate(k, priority, entry).Done? && Accounted(k, waits)
    ensures Accounted(DoCreate(k, priority, entry).kernel, waits)
  {
    CreateShape(k, priority, entry);
    hide Running, DoCreate, Accounted;
    AccountedFrame(k, DoCreate(k, priority, entry).kernel, waits);
  }

  /** A system call loses a task exactly when its caller was not considerate. */
  lemma CallAccountsExactly(k: State, call: Call, waits: Waits)
    requires Running(k) && Trusted(k, Syscall(call)) && Accounted(k, waits) && SystemCall(k, call).Done?
    ensures Accounted(SystemCall(k, call).kernel, Watch(k, Syscall(call), waits)) <==> Considerate(k, Syscall(call), waits)
  {
    hide Inv, Accounted, DoCreate, DoReceive, LinksOf, End, OwesNothing;
    match call {
      case Exit => ExitExactly(k, waits);
      case Create(p, entry) => CreateAccounted(k, p, entry, waits);
      case Send(to, _) =>
        if k.tasks[Id(to)].state == SendBlocked { DirectExactly(k, to, waits); } else { QueueExactly(k, Id(to), waits); }
      case Receive => ReceiveAccounted(k, waits);
      case Reply(to, m) => ReplyAccounted(k, to, m, waits);
      case Write(port, _) =>
        if port == EVENT_TERMINAL_WRITE || port == EVENT_TRAIN_WRITE { AwaitExactly(k, port, waits); }
      case Await(e, _) => AwaitExactly(k, e, waits);
      case _ => OtherAccounted(k, call, waits);
    }
  }

  lemma OtherAccounted(k: State, call: Call, waits: Waits)
    requires Accounted(k, waits) && SystemCall(k, call).Done?
    requires call.Pass? || call.IsRunning? || call.Shutdown? || call.Kill? || call.GetTid? || call.GetPid? ||
      call.GetPriority? || call.GetState? || call.Alloc? || call.Free? || call.Unknown? ||
      (call.Write? && call.port != EVENT_TERMINAL_WRITE && call.port != EVENT_TRAIN_WRITE)
    ensures Accounted(SystemCall(k, call).kernel, waits)
  {
    hide Accounted;
    AccountedFrame(k, SystemCall(k, call).kernel, waits);
  }

  // ---------------------------------------------------------------- interrupts and the scheduler

  lemma WokenListed(ts: Tasks, us: Tasks, i: nat, events: seq<nat>, event: nat)
    requires i < TASK_COUNT && us == ts[i := ts[i].(state := Ready)] && IdsMatch(ts)
    requires event < |events| && events[event] == ts[i].tid && Listed(ts, events)
    ensures Listed(us, events[event := 0])
  {
    var left := events[event := 0];
    forall j | 0 <= j < TASK_COUNT && us[j].state == EventBlocked ensures IsAwaiting(left, us[j].tid) {
      assert us[j] == ts[j];
      var f :| 1 <= f < |events| && events[f] == ts[j].tid;
      assert left[f] == ts[j].tid;
    }
  }

  lemma WakeAccounted(k: State, event: nat, waits: Waits)
    requires Running(k) && event < EVENT_TABLE_SIZE && Wake(k, event).Done? && Accounted(k, waits)
    ensures Accounted(Wake(k, event).kernel, waits)
  {
    if k.events[event] != 0 {
      SlotNamesSleeper(k, event);
      var i, k1 := Id(k.events[event]), Wake(k, event).kernel;
      assert IdsMatch(k.tasks);
      assert k1.tasks == k.tasks[i := k.tasks[i].(state := Ready)] && k1.events == k.events[event := 0];
      hide Inv, Wake, LinksOf, Placed, Listed, NoCircle;
      WokenListed(k.tasks, k1.tasks, i, k.events, event);
      PlacedFrame(k.tasks, k1.tasks, waits);
      CirclesFrame(k.tasks, k1.tasks, waits);
    }
  }

  lemma WakeReaderAccounted(k: State, event: nat, byte: nat, waits: Waits)
    requires Running(k) && event < EVENT_TABLE_SIZE && WakeReader(k, event, byte).Done? && Accounted(k, waits)
    ensures Accounted(WakeReader(k, event, byte).kernel, waits)
  {
    var i := Id(k.events[event]);
    if k.events[event] == 0 || i >= TASK_COUNT {
      WakeAccounted(k, event, waits);
    } else {
      var k1 := With(k, i, k.tasks[i].(ret := byte));
      SameControlKeeps(k, k1.tasks);
      hide Inv, Accounted, Wake;
      AccountedFrame(k, k1, waits);
      WakeAccounted(k1, event, waits);
    }
  }

  /** An interrupt loses nobody. */
  lemma InterruptAccounted(k: State, irq: Irq, waits: Waits)
    requires Running(k) && Interrupt(k, irq).Done? && Accounted(k, waits)
    ensures Accounted(Interrupt(k, irq).kernel, waits)
  {
    hide Running, Wake, WakeReader, Interrupt, Placed, Listed, NoCircle, LinksOf;
    var p := (k1: State) => Accounted(k1, waits);
    forall k1: State, e: nat | e < EVENT_TABLE_SIZE && Running(k1) && p(k1) && Wake(k1, e).Done?
      ensures p(Wake(k1, e).kernel)
    {
      WakeAccounted(k1, e, waits);
    }
    forall k1: State, e: nat, b: nat | e < EVENT_TABLE_SIZE && Running(k1) && p(k1) && WakeReader(k1, e, b).Done?
      ensures p(WakeReader(k1, e, b).kernel)
    {
      WakeReaderAccounted(k1, e, b, waits);
    }
    RunningSteps(k, irq, p);
  }

  /** Nor does the scheduler, and it finds nobody again. */
  lemma ScheduleAccounted(k: State, waits: Waits)
    requires Inv(k) && Schedule(k).Enter?
    ensures Accounted(Schedule(k).kernel, waits) <==> Accounted(k, waits)
  {
    ScheduleFrames(k);
    hide Inv, Schedule, Accounted, KeepsWaits, KeepsSleepers;
    if Accounted(k, waits) { AccountedFrame(k, Schedule(k).kernel, waits); }
    if Accounted(Schedule(k).kernel, waits) { AccountedFrame(Schedule(k).kernel, k, waits); }
  }

  lemma ScheduleFrames(k: State)
    requires Inv(k) && Schedule(k).Enter?
    ensures var ts, us := k.tasks, Schedule(k).kernel.tasks;
      KeepsWaits(ts, us) && KeepsWaits(us, ts) && KeepsSleepers(ts, us) && KeepsSleepers(us, ts)
    ensures Schedule(k).kernel.events == k.events
  {
    hide Inv, Schedule;
    ScheduleTasks(k);
  }

  // ---------------------------------------------------------------- one entry

  lemma TrapConsiderate(k: State, call: Call, waits: Waits)
    ensures Considerate(Trap(k, call), Syscall(call), waits) <==> Considerate(k, Syscall(call), waits)
    ensures Watch(Trap(k, call), Syscall(call), waits) == Watch(k, Syscall(call), waits)
  {
    var ts, us := k.tasks, Trap(k, call).tasks;
    assert forall i {:trigger us[i]} :: 0 <= i < TASK_COUNT ==>
      us[i].state == ts[i].state && us[i].tid == ts[i].tid && us[i].sendQueue == ts[i].sendQueue;
    assert LinksOf(us, waits) == LinksOf(ts, waits);
  }

  lemma ReturnAccounted(k: State, ret: int, waits: Waits)
    ensures Accounted(Returned(k, ret), waits) <==> Accounted(k, waits)
  {
    hide Accounted;
    if Accounted(k, waits) { AccountedFrame(k, Returned(k, ret), waits); }
    if Accounted(Returned(k, ret), waits) { AccountedFrame(Returned(k, ret), k, waits); }
  }

  /** A handler after which every task was accounted for keeps it so exactly when the input is
      considerate. */
  lemma HandlerAccountsExactly(k: State, input: Input, waits: Waits)
    requires Running(k) && Trusted(k, input) && Accounted(k, waits) && AfterHandler(k, input).Done?
    ensures Accounted(AfterHandler(k, input).kernel, Watch(k, input, waits)) <==> Considerate(k, input, waits)
  {
    hide Running, Accounted, SystemCall, Interrupt, Trusted, OwesNothing, LinksOf, End;
    match input {
      case Syscall(call) =>
        var k0 := Trap(k, call);
        TrapKeeps(k, call);
        TrappedTrust(k, call);
        AccountedFrame(k, k0, waits);
        CallAccountsExactly(k0, call, waits);
        var h := SystemCall(k0, call);
        ReturnAccounted(h.kernel, h.ret, Watch(k, input, waits));
        TrapConsiderate(k, call, waits);
      case Hardware(irq) =>
        InterruptAccounted(k, irq, waits);
    }
  }

  /** Receiving and exiting without a reply loses the sender, although the queue was empty. */
  lemma UnpaidIsLost(k: State, waits: Waits, i: nat)
    requires Running(k) && Accounted(k, waits) && i < TASK_COUNT
    requires k.tasks[i].state == ReplyBlocked && waits[i] == k.tasks[k.active].tid
    ensures !Accounted(SystemCall(k, Exit).kernel, Watch(k, Syscall(Exit), waits))
    ensures SystemCall(k, Exit).kernel.tasks[i].state == ReplyBlocked
  {
    assert !OwesNothing(k, waits);
    CallAccountsExactly(k, Exit, waits);
  }

  // ---------------------------------------------------------------- runs

  function WatchRun(k: State, inputs: seq<Input>, waits: Waits): Waits
    decreases |inputs|
  {
    if inputs == [] || !Step(k, inputs[0]).Enter? then waits
    else WatchRun(Step(k, inputs[0]).kernel, inputs[1..], Watch(k, inputs[0], waits))
  }

  ghost predicate ConsiderateRun(k: State, inputs: seq<Input>, waits: Waits)
    decreases |inputs|
  {
    inputs == [] ||
    (&& Considerate(k, inputs[0], waits)
     && (Step(k, inputs[0]).Enter? ==> ConsiderateRun(Step(k, inputs[0]).kernel, inputs[1..], Watch(k, inputs[0], waits))))
  }

  /** In a run of considerate calls no task is ever lost. */
  lemma {:induction false} NobodyIsLost(k: State, inputs: seq<Input>, waits: Waits)
    requires Running(k) && TrustedRun(k, inputs) && ConsiderateRun(k, inputs, waits) && Run(k, inputs).Enter?
    requires Accounted(k, waits)
    ensures Accounted(Run(k, inputs).kernel, WatchRun(k, inputs, waits))
    decreases |inputs|
  {
    hide Running, Accounted, Trusted, Step, AfterHandler, Considerate, Watch;
    if inputs != [] {
      StepGood(k, inputs[0]);
      StepAccountsExactly(k, inputs[0], waits);
      NobodyIsLost(Step(k, inputs[0]).kernel, inputs[1..], Watch(k, inputs[0], waits));
    }
  }

  /** One entry into the kernel loses a task exactly when the input is not considerate. */
  lemma StepAccountsExactly(k: State, input: Input, waits: Waits)
    requires Running(k) && Trusted(k, input) && Step(k, input).Enter? && Accounted(k, waits)
    ensures Accounted(Step(k, input).kernel, Watch(k, input, waits)) <==> Considerate(k, input, waits)
  {
    HandlerDone(k, input);
    hide Running, Inv, Accounted, Trusted, Schedule, AfterHandler, Considerate, Watch, Step;
    HandlerGentle(k, input);
    HandlerAccountsExactly(k, input, waits);
    ScheduleAccounted(AfterHandler(k, input).kernel, Watch(k, input, waits));
  }

  /** At every entry of the run every task is accounted for. */
  ghost predicate AccountedThroughout(k: State, inputs: seq<Input>, waits: Waits)
    decreases |inputs|
  {
    Accounted(k, waits) &&
    (inputs != [] && Step(k, inputs[0]).Enter? ==>
       AccountedThroughout(Step(k, inputs[0]).kernel, inputs[1..], Watch(k, inputs[0], waits)))
  }

  /** Over a whole run no task is ever lost if and only if every call was considerate. */
  lemma {:induction false} NobodyIsLostExactly(k: State, inputs: seq<Input>, waits: Waits)
    requires Running(k) && TrustedRun(k, inputs) && Run(k, inputs).Enter? && Accounted(k, waits)
    ensures AccountedThroughout(k, inputs, waits) <==> ConsiderateRun(k, inputs, waits)
    decreases |inputs|
  {
    hide Running, Accounted, Trusted, Step, AfterHandler, Considerate, Watch;
    if inputs != [] {
      StepGood(k, inputs[0]);
      StepAccountsExactly(k, inputs[0], waits);
      var k1, later := Step(k, inputs[0]).kernel, Watch(k, inputs[0], waits);
      if Considerate(k, inputs[0], waits) {
        NobodyIsLostExactly(k1, inputs[1..], later);
      } else {
        assert !AccountedThroughout(k1, inputs[1..], later);
      }
    }
  }

  /** From boot, whatever the ledger says. */
  lemma BootNobodyIsLost(cts: nat, entry: int, inputs: seq<Input>, waits: Waits)
    requires var k := Boot(cts, entry).kernel; TrustedRun(k, inputs) && ConsiderateRun(k, inputs, waits) && Run(k, inputs).Enter?
    ensures var k := Boot(cts, entry).kernel; Accounted(Run(k, inputs).kernel, WatchRun(k, inputs, waits))
  {
    hide TrustedRun, ConsiderateRun, Run, WatchRun;
    BootIsRunning(cts, entry);
    BootAccounted(cts, entry, waits);
    NobodyIsLost(Boot(cts, entry).kernel, inputs, waits);
  }

  lemma BootAccounted(cts: nat, entry: int, waits: Waits)
    ensures Boot(cts, entry).Done? && Accounted(Boot(cts, entry).kernel, waits)
  {
    BootShape(cts, entry);
    hide Boot;
  }

  // ---------------------------------------------------------------- what it means to be accounted for

  lemma {:induction false} ChainIsLive(ts: Tasks, waits: Waits, i: nat, n: nat)
    requires Placed(ts, waits) && IdsMatch(ts) && i < TASK_COUNT && ts[i].state != Zombie
    ensures ts[Follow(LinksOf(ts, waits), i, n)].state != Zombie
    decreases n
  {
    hide LinksOf;
    var next := LinksOf(ts, waits);
    if n > 0 && next[i] != NULL {
      assert IsLive(ts, waits[i]);
      ChainIsLive(ts, waits, next[i], n - 1);
    }
  }

  /** Whoever waits, waits in the end for a live task that is ready, awaits a message, or is in a
      slot of the event table. */
  lemma SomebodyMoves(k: State, waits: Waits, i: nat)
    requires Inv(k) && Accounted(k, waits) && i < TASK_COUNT && k.tasks[i].state != Zombie
    ensures var last := k.tasks[End(LinksOf(k.tasks, waits), i)];
      && last.state != Zombie && !OnTask(last)
      && (last.state == EventBlocked ==> IsAwaiting(k.events, last.tid))
  {
    assert IdsMatch(k.tasks);
    hide Inv, LinksOf, NoCircle;
    var next := LinksOf(k.tasks, waits);
    var last := End(next, i);
    EveryWaitEnds(next, i);
    ChainIsLive(k.tasks, waits, i, TASK_COUNT);
    assert waits[last] == waits[last];
  }
}
