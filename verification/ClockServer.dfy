/** The message loop of the clock server (user/servers/ClockServer.c): a tick counter and two
    delay queues, one driven by each notifier. */
module ClockServer {
  import opened Chains
  import opened DelayQueues
  import opened Streams

  const U32_RANGE := 0x1_0000_0000

  datatype Message =
    | DelayBy(tid: nat, ticks: U32)
    | LongDelayBy(tid: nat, ticks: U32)
    | GetTime(tid: nat)
    | NotifyTick(tid: nat)
    | NotifyLoRes(tid: nat)
    | OtherMessage(tid: nat)

  /** WAKE replies carry no time, TIME replies do, ECHO returns a notifier's own envelope. */
  datatype Reply = Wake(tid: nat) | Time(tid: nat, body: nat) | Echo(tid: nat)

  datatype State = State(time: nat, fine: seq<Delayed>, coarse: seq<Delayed>)
  datatype Outcome = Served(state: State, replies: seq<Reply>) | Asserted

  function Wakes(tids: seq<nat>): seq<Reply> {
    seq(|tids|, i requires 0 <= i < |tids| => Wake(tids[i]))
  }

  /** One turn of the loop. */
  function Handle(s: State, m: Message): Outcome {
    match m
    case DelayBy(tid, d) =>
      if |s.fine| == SLOTS then Asserted else Served(s.(fine := InsertWord(s.fine, tid, d)), [])
    case LongDelayBy(tid, d) =>
      if |s.coarse| == SLOTS then Asserted else Served(s.(coarse := InsertWord(s.coarse, tid, d)), [])
    case GetTime(tid) => Served(s, [Time(tid, s.time)])
    case NotifyTick(tid) =>
      Served(State((s.time + 1) % U32_RANGE, TickWord(s.fine).1, s.coarse), [Echo(tid)] + Wakes(TickWord(s.fine).0))
    case NotifyLoRes(tid) =>
      Served(s.(coarse := TickWord(s.coarse).1), [Echo(tid)] + Wakes(TickWord(s.coarse).0))
    case OtherMessage(_) => Served(s, [])
  }

  // ---------------------------------------------------------------- whole runs

  function Run(s: State, ms: seq<Message>): Outcome
    decreases |ms|
  {
    if ms == [] then Served(s, [])
    else
      match Handle(s, ms[0])
      case Asserted => Asserted
      case Served(t, replies) =>
        match Run(t, ms[1..])
        case Asserted => Asserted
        case Served(u, more) => Served(u, replies + more)
  }

  /** What a message means to the queue of single ticks. */
  function FineEvent(m: Message): seq<Event> {
    if m.DelayBy? then [Request(m.tid, m.ticks)]
    else if m.NotifyTick? then [TickEvent]
    else []
  }

  /** What it means to the queue of long ticks. */
  function CoarseEvent(m: Message): seq<Event> {
    if m.LongDelayBy? then [Request(m.tid, m.ticks)]
    else if m.NotifyLoRes? then [TickEvent]
    else []
  }

  function FineEvents(ms: seq<Message>): seq<Event> { Gather(FineEvent, ms) }

  function CoarseEvents(ms: seq<Message>): seq<Event> { Gather(CoarseEvent, ms) }

  /** The delay, if any, is one the clock service may send (user/services/clockService.c). */
  predicate PoliteMessage(m: Message) {
    m.DelayBy? || m.LongDelayBy? ==> 1 <= m.ticks <= MAX_DELAY
  }

  ghost predicate Polite(ms: seq<Message>) {
    forall i :: 0 <= i < |ms| ==> PoliteMessage(ms[i])
  }

  function IsWake(tid: nat): Reply -> bool { r => r == Wake(tid) }

  function IsDue(tid: nat): Due -> bool { (d: Due) => d.tid == tid }

  /** How often a task is woken by the replies. */
  function WakesOf(rs: seq<Reply>, tid: nat): nat { Tally(IsWake(tid), rs) }

  function TidTimes(ds: seq<Due>, tid: nat): nat { Tally(IsDue(tid), ds) }

  lemma {:induction false} WakesAreStamped(tids: seq<nat>, at: int, tid: nat)
    ensures WakesOf(Wakes(tids), tid) == TidTimes(StampedAt(tids, at), tid)
  {
    if tids != [] {
      WakesAreStamped(tids[1..], at, tid);
      assert Wakes(tids)[1..] == Wakes(tids[1..]) && StampedAt(tids, at)[1..] == StampedAt(tids[1..], at);
    }
  }

  lemma {:induction false} AfterAllJoined(c: Clock, a: seq<Event>, b: seq<Event>)
    ensures AfterAll(c, a + b) == AfterAll(AfterAll(c, a), b)
    decreases |a|
  {
    if a == [] {
      assert a + b == b;
    } else {
      AfterAllJoined(After(c, a[0]), a[1..], b);
      assert (a + b)[1..] == a[1..] + b;
    }
  }

  /** The two clocks of which a server state is the image. */
  datatype Clocks = Clocks(fine: Clock, coarse: Clock)

  ghost predicate Plain(q: seq<Delayed>) {
    Good(q) && Bounded(q)
  }

  ghost predicate Shows(s: State, c: Clocks) {
    && s.fine == c.fine.queue && s.coarse == c.coarse.queue && Plain(s.fine) && Plain(s.coarse)
    && c.fine.now >= 0 && s.time == c.fine.now % U32_RANGE
  }

  lemma PlainInsert(q: seq<Delayed>, tid: nat, d: U32)
    requires Plain(q) && 1 <= d <= MAX_DELAY
    ensures InsertWord(q, tid, d) == Insert(q, tid, d) && Plain(Insert(q, tid, d))
  {
    WordsAreNumbers(q, tid, d);
    InsertGoodExactly(q, tid, d);
    InsertBounded(q, tid, d);
  }

  lemma PlainTick(q: seq<Delayed>)
    requires Plain(q)
    ensures TickWord(q) == Tick(q) && Plain(Tick(q).1)
  {
    TickWordIsTick(q);
    TickWakesTheDue(q, 0, Due(0, 0));
  }

  function WokenTimes(c: Clocks, tid: nat): nat {
    TidTimes(c.fine.woken, tid) + TidTimes(c.coarse.woken, tid)
  }

  function StepClocks(c: Clocks, m: Message): Clocks {
    Clocks(AfterAll(c.fine, FineEvent(m)), AfterAll(c.coarse, CoarseEvent(m)))
  }

  /** At most one event comes of a message. */
  lemma AfterAtMostOne(c: Clock, es: seq<Event>)
    requires |es| <= 1
    ensures AfterAll(c, es) == if es == [] then c else After(c, es[0])
  {
    if es != [] {
      assert es[1..] == [];
    }
  }

  lemma EchoWakes(tid: nat, tids: seq<nat>, woken: seq<Due>, at: int, who: nat)
    ensures TidTimes(woken + StampedAt(tids, at), who) == TidTimes(woken, who) + WakesOf([Echo(tid)] + Wakes(tids), who)
  {
    WakesAreStamped(tids, at, who);
    TallyJoined(IsDue(who), woken, StampedAt(tids, at));
    TallyJoined(IsWake(who), [Echo(tid)], Wakes(tids));
  }

  /** One message moves the server as it moves the two clocks, and wakes whom they wake; asked
      for the time, it answers with that of the first. */
  lemma OneMessage(s: State, c: Clocks, m: Message, tid: nat)
    requires Shows(s, c) && PoliteMessage(m) && Handle(s, m).Served?
    ensures Shows(Handle(s, m).state, StepClocks(c, m))
    ensures WokenTimes(StepClocks(c, m), tid) == WokenTimes(c, tid) + WakesOf(Handle(s, m).replies, tid)
    ensures m.GetTime? ==> Handle(s, m).replies == [Time(m.tid, c.fine.now % U32_RANGE)]
  {
    hide Insert, InsertWord, Tick, TickWord, AfterAll, TidTimes, Plain;
    AfterAtMostOne(c.fine, FineEvent(m));
    AfterAtMostOne(c.coarse, CoarseEvent(m));
    NoWakes(m.tid, s.time, tid);
    if m.DelayBy? {
      PlainInsert(s.fine, m.tid, m.ticks);
    } else if m.LongDelayBy? {
      PlainInsert(s.coarse, m.tid, m.ticks);
    } else if m.NotifyTick? {
      PlainTick(s.fine);
      EchoWakes(m.tid, Tick(s.fine).0, c.fine.woken, c.fine.now + 1, tid);
    } else if m.NotifyLoRes? {
      PlainTick(s.coarse);
      EchoWakes(m.tid, Tick(s.coarse).0, c.coarse.woken, c.coarse.now + 1, tid);
    }
  }

  /** A run of the server is a run of two delay queues, one for each kind of tick: it wakes
      exactly the tasks they wake, and its time is the number of ticks taken, as a U32. */
  lemma {:induction false} RunIsTwoClocks(s: State, c: Clocks, ms: seq<Message>, tid: nat)
    requires Shows(s, c) && Polite(ms) && Run(s, ms).Served?
    ensures var d := Clocks(AfterAll(c.fine, FineEvents(ms)), AfterAll(c.coarse, CoarseEvents(ms)));
      Shows(Run(s, ms).state, d) && WokenTimes(d, tid) == WokenTimes(c, tid) + WakesOf(Run(s, ms).replies, tid)
    decreases |ms|
  {
    hide Shows, WokenTimes, Handle, PoliteMessage, AfterAll, FineEvent, CoarseEvent, Tally, IsWake;
    if ms == [] {
      AfterAtMostOne(c.fine, []);
      AfterAtMostOne(c.coarse, []);
      NoWakes(0, 0, tid);
    } else {
      var m, t := ms[0], Handle(s, ms[0]).state;
      OneMessage(s, c, m, tid);
      RunIsTwoClocks(t, StepClocks(c, m), ms[1..], tid);
      AfterAllJoined(c.fine, FineEvent(m), FineEvents(ms[1..]));
      AfterAllJoined(c.coarse, CoarseEvent(m), CoarseEvents(ms[1..]));
      TallyJoined(IsWake(tid), Handle(s, m).replies, Run(t, ms[1..]).replies);
    }
  }

  lemma NoWakes(to: nat, body: nat, tid: nat)
    ensures WakesOf([], tid) == 0 && WakesOf([Time(to, body)], tid) == 0
  {
    assert [Time(to, body)][1..] == [];
  }

  /** A served run never sent a queue a delay below one tick. */
  lemma {:induction false} PoliteEvents(ms: seq<Message>)
    requires Polite(ms)
    ensures AtLeastOneTick(FineEvents(ms)) && AtLeastOneTick(CoarseEvents(ms))
  {
    if ms != [] {
      PoliteEvents(ms[1..]);
    }
  }

  const BOOT := State(0, [], [])
  const START := Clock([], 0, [])

  /** From boot, over any run the server survives: a task is woken as often as the two clocks
      woke it, each clock woke it at tick t exactly as often as it asked that clock for t, and
      GET_TIME answers the number of ticks, as a U32. */
  lemma ServerWakesOnTime(ms: seq<Message>, e: Due)
    requires Polite(ms) && Run(BOOT, ms).Served?
    ensures var fine, coarse := AfterAll(START, FineEvents(ms)), AfterAll(START, CoarseEvents(ms));
      && WakesOf(Run(BOOT, ms).replies, e.tid) == TidTimes(fine.woken, e.tid) + TidTimes(coarse.woken, e.tid)
      && (e.at <= fine.now ==> Count(fine.woken, e) == Requested(0, FineEvents(ms), e))
      && (e.at <= coarse.now ==> Count(coarse.woken, e) == Requested(0, CoarseEvents(ms), e))
      && Run(BOOT, ms).state.time == fine.now % U32_RANGE
  {
    PoliteEvents(ms);
    RunIsTwoClocks(BOOT, Clocks(START, START), ms, e.tid);
    WokenExactlyOnTime(FineEvents(ms), e);
    WokenExactlyOnTime(CoarseEvents(ms), e);
  }

  // ---------------------------------------------------------------- who is answered

  function EchoBy(r: Reply): seq<nat> { if r.Echo? then [r.tid] else [] }

  function NotifiedBy(m: Message): seq<nat> { if m.NotifyTick? || m.NotifyLoRes? then [m.tid] else [] }

  function TimeBy(r: Reply): seq<(nat, nat)> { if r.Time? then [(r.tid, r.body)] else [] }

  /** Who asks for the time, and how many ticks have been taken by then, counting from `now`. */
  function Asked(now: nat, ms: seq<Message>): seq<(nat, nat)>
    decreases |ms|
  {
    if ms == [] then []
    else
      (if ms[0].GetTime? then [(ms[0].tid, now % U32_RANGE)] else []) +
      Asked(if ms[0].NotifyTick? then now + 1 else now, ms[1..])
  }

  lemma {:induction false} WakesAnswerNobody(tids: seq<nat>)
    ensures Gather(EchoBy, Wakes(tids)) == [] && Gather(TimeBy, Wakes(tids)) == []
  {
    if tids != [] {
      WakesAnswerNobody(tids[1..]);
      assert Wakes(tids)[1..] == Wakes(tids[1..]);
    }
  }

  lemma EchoFirst(tid: nat, tids: seq<nat>)
    ensures Gather(EchoBy, [Echo(tid)] + Wakes(tids)) == [tid]
    ensures Gather(TimeBy, [Echo(tid)] + Wakes(tids)) == []
  {
    WakesAnswerNobody(tids);
    GatherTwo(EchoBy, Echo(tid), Echo(tid));
    GatherTwo(TimeBy, Echo(tid), Echo(tid));
    GatherJoined(EchoBy, [Echo(tid)], Wakes(tids));
    GatherJoined(TimeBy, [Echo(tid)], Wakes(tids));
  }

  lemma OneAnswer(s: State, m: Message, now: nat)
    requires Handle(s, m).Served? && s.time == now % U32_RANGE
    ensures var o := Handle(s, m);
      && Gather(EchoBy, o.replies) == NotifiedBy(m)
      && Gather(TimeBy, o.replies) == (if m.GetTime? then [(m.tid, now % U32_RANGE)] else [])
      && o.state.time == (if m.NotifyTick? then now + 1 else now) % U32_RANGE
  {
    hide InsertWord, TickWord;
    match m {
      case GetTime(tid) =>
        GatherTwo(EchoBy, Time(tid, s.time), Echo(tid));
        GatherTwo(TimeBy, Time(tid, s.time), Echo(tid));
      case NotifyTick(tid) => EchoFirst(tid, TickWord(s.fine).0);
      case NotifyLoRes(tid) => EchoFirst(tid, TickWord(s.coarse).0);
      case _ =>
    }
  }

  /** Whoever sends a message that is answered is answered first. */
  lemma SenderFirst(s: State, m: Message)
    requires Handle(s, m).Served? && Handle(s, m).replies != []
    ensures Handle(s, m).replies[0].tid == m.tid
  {
    hide InsertWord, TickWord;
  }

  /** Over every run the server survives each notifier is answered once for every message it sends,
      and everyone who asks for the time is told it once: in order, and nobody else. */
  lemma {:induction false} EveryoneIsAnswered(s: State, ms: seq<Message>, now: nat)
    requires Run(s, ms).Served? && s.time == now % U32_RANGE
    ensures Gather(EchoBy, Run(s, ms).replies) == Gather(NotifiedBy, ms)
    ensures Gather(TimeBy, Run(s, ms).replies) == Asked(now, ms)
    decreases |ms|
  {
    hide Handle, EchoBy, TimeBy, NotifiedBy;
    if ms != [] {
      var o := Handle(s, ms[0]);
      OneAnswer(s, ms[0], now);
      EveryoneIsAnswered(o.state, ms[1..], if ms[0].NotifyTick? then now + 1 else now);
      GatherJoined(EchoBy, o.replies, Run(o.state, ms[1..]).replies);
      GatherJoined(TimeBy, o.replies, Run(o.state, ms[1..]).replies);
    }
  }

  // ---------------------------------------------------------------- when the server asserts

  predicate IsFineRequest(m: Message) { m.DelayBy? }

  predicate IsCoarseRequest(m: Message) { m.LongDelayBy? }

  predicate IsAnyWake(r: Reply) { r.Wake? }

  /** How many tasks a run has woken by single ticks, and how many by long ones. */
  function FineWakes(s: State, ms: seq<Message>): nat
    decreases |ms|
  {
    if ms == [] || Handle(s, ms[0]).Asserted? then 0
    else
      (if ms[0].NotifyTick? then Tally(IsAnyWake, Handle(s, ms[0]).replies) else 0) + FineWakes(Handle(s, ms[0]).state, ms[1..])
  }

  function CoarseWakes(s: State, ms: seq<Message>): nat
    decreases |ms|
  {
    if ms == [] || Handle(s, ms[0]).Asserted? then 0
    else
      (if ms[0].NotifyLoRes? then Tally(IsAnyWake, Handle(s, ms[0]).replies) else 0) + CoarseWakes(Handle(s, ms[0]).state, ms[1..])
  }

  lemma {:induction false} WakesTally(tids: seq<nat>)
    ensures Tally(IsAnyWake, Wakes(tids)) == |tids|
  {
    if tids != [] {
      WakesTally(tids[1..]);
      assert Wakes(tids)[1..] == Wakes(tids[1..]);
    }
  }

  lemma EchoTally(tid: nat, tids: seq<nat>)
    ensures Tally(IsAnyWake, [Echo(tid)] + Wakes(tids)) == |tids|
  {
    WakesTally(tids);
    TallyJoined(IsAnyWake, [Echo(tid)], Wakes(tids));
    assert [Echo(tid)][1..] == [];
  }

  lemma {:induction false} InsertLength(q: seq<Delayed>, tid: nat, d: U32)
    ensures |InsertWord(q, tid, d)| == |q| + 1
  {
    if q != [] && d > AsU32(q[0].delay) { InsertLength(q[1..], tid, d - AsU32(q[0].delay)); }
  }

  lemma {:induction false} RipeLength(q: seq<Delayed>)
    ensures |Ripe(q).0| + |Ripe(q).1| == |q|
  {
    if q != [] && q[0].delay <= 0 { RipeLength(q[1..]); }
  }

  lemma TickLength(q: seq<Delayed>)
    ensures |TickWord(q).0| + |TickWord(q).1| == |q|
  {
    if q != [] { RipeLength([Delayed(q[0].tid, Decremented(q[0].delay))] + q[1..]); }
  }

  lemma OneLength(s: State, m: Message)
    requires Handle(s, m).Served?
    ensures var o := Handle(s, m);
      && |o.state.fine| + (if m.NotifyTick? then Tally(IsAnyWake, o.replies) else 0) == |s.fine| + (if m.DelayBy? then 1 else 0)
      && |o.state.coarse| + (if m.NotifyLoRes? then Tally(IsAnyWake, o.replies) else 0) == |s.coarse| + (if m.LongDelayBy? then 1 else 0)
  {
    hide InsertWord, TickWord;
    match m {
      case DelayBy(tid, d) => InsertLength(s.fine, tid, d);
      case LongDelayBy(tid, d) => InsertLength(s.coarse, tid, d);
      case NotifyTick(tid) =>
        TickLength(s.fine);
        EchoTally(tid, TickWord(s.fine).0);
      case NotifyLoRes(tid) =>
        TickLength(s.coarse);
        EchoTally(tid, TickWord(s.coarse).0);
      case _ =>
    }
  }

  /** In either queue wait those who have asked and have not been woken. */
  lemma {:induction false} AskedAndNotWoken(s: State, ms: seq<Message>)
    requires Run(s, ms).Served?
    ensures |Run(s, ms).state.fine| + FineWakes(s, ms) == |s.fine| + Tally(IsFineRequest, ms)
    ensures |Run(s, ms).state.coarse| + CoarseWakes(s, ms) == |s.coarse| + Tally(IsCoarseRequest, ms)
    decreases |ms|
  {
    hide Handle;
    if ms != [] {
      OneLength(s, ms[0]);
      AskedAndNotWoken(Handle(s, ms[0]).state, ms[1..]);
    }
  }

  /** The message after the first n asks for a delay while 32 tasks wait for that kind of tick. */
  ghost predicate Overfills(ms: seq<Message>, n: nat)
    requires n < |ms|
  {
    && Run(BOOT, ms[..n]).Served?
    && ((ms[n].DelayBy? && Tally(IsFineRequest, ms[..n]) == FineWakes(BOOT, ms[..n]) + SLOTS)
        || (ms[n].LongDelayBy? && Tally(IsCoarseRequest, ms[..n]) == CoarseWakes(BOOT, ms[..n]) + SLOTS))
  }

  ghost predicate AssertsAt(s: State, ms: seq<Message>, n: nat)
    requires n < |ms|
  {
    Run(s, ms[..n]).Served? && Handle(Run(s, ms[..n]).state, ms[n]).Asserted?
  }

  lemma AssertsLater(s: State, ms: seq<Message>, n: nat)
    requires 0 < n < |ms|
    ensures AssertsAt(s, ms, n) <==> Handle(s, ms[0]).Served? && AssertsAt(Handle(s, ms[0]).state, ms[1..], n - 1)
  {
    hide Handle;
    assert ms[..n][1..] == ms[1..][..n - 1] && ms[..n][0] == ms[0];
  }

  lemma {:induction false} RunAsserts(s: State, ms: seq<Message>)
    ensures Run(s, ms).Asserted? <==> exists n: nat :: n < |ms| && AssertsAt(s, ms, n)
    decreases |ms|
  {
    hide Handle;
    if ms != [] {
      var h, rest := Handle(s, ms[0]), ms[1..];
      assert ms[..0] == [];
      assert AssertsAt(s, ms, 0) <==> h.Asserted?;
      forall n: nat | 0 < n < |ms| ensures AssertsAt(s, ms, n) <==> h.Served? && AssertsAt(h.state, rest, n - 1) {
        AssertsLater(s, ms, n);
      }
      if h.Served? {
        RunAsserts(h.state, rest);
        if n: nat :| n < |rest| && AssertsAt(h.state, rest, n) {
          assert AssertsAt(s, ms, n + 1);
        }
      }
    }
  }

  /** From boot the server asserts if and only if somebody asks for a delay while 32 others wait for
      the same kind of tick. */
  lemma AssertsExactly(ms: seq<Message>)
    ensures Run(BOOT, ms).Asserted? <==> exists n: nat :: n < |ms| && Overfills(ms, n)
  {
    hide Run, FineWakes, CoarseWakes, InsertWord, TickWord;
    RunAsserts(BOOT, ms);
    forall n: nat | n < |ms| ensures AssertsAt(BOOT, ms, n) <==> Overfills(ms, n) {
      if Run(BOOT, ms[..n]).Served? { AskedAndNotWoken(BOOT, ms[..n]); }
    }
  }

  // ---------------------------------------------------------------- the server object

  class Server {
    var absoluteTime: nat
    const dqueue: DelayQueue
    const dqueueLoRes: DelayQueue

    ghost predicate Valid()
      reads this, dqueue, dqueue.next, dqueue.tid, dqueue.delay
      reads dqueueLoRes, dqueueLoRes.next, dqueueLoRes.tid, dqueueLoRes.delay
    {
      && dqueue != dqueueLoRes
      && dqueue.next != dqueueLoRes.next && dqueue.tid != dqueueLoRes.tid && dqueue.delay != dqueueLoRes.delay
      && dqueue.Valid() && dqueueLoRes.Valid() && absoluteTime < U32_RANGE
    }

    ghost function View(): State
      requires Valid()
      reads this, dqueue, dqueue.next, dqueue.tid, dqueue.delay
      reads dqueueLoRes, dqueueLoRes.next, dqueueLoRes.tid, dqueueLoRes.delay
    {
      State(absoluteTime, dqueue.View(), dqueueLoRes.View())
    }

    constructor ()
      ensures Valid() && View() == BOOT
      ensures fresh(dqueue) && fresh(dqueue.next) && fresh(dqueue.tid) && fresh(dqueue.delay)
      ensures fresh(dqueueLoRes) && fresh(dqueueLoRes.next) && fresh(dqueueLoRes.tid) && fresh(dqueueLoRes.delay)
    {
      absoluteTime := 0;
      var fine := new DelayQueue();
      var coarse := new DelayQueue();
      dqueue, dqueueLoRes := fine, coarse;
    }

    /** One turn of the loop of ClockServer, whatever delay the message asks for. */
    method Serve(m: Message) returns (asserted: bool, replies: seq<Reply>)
      requires Valid()
      modifies this, dqueue, dqueue.next, dqueue.tid, dqueue.delay
      modifies dqueueLoRes, dqueueLoRes.next, dqueueLoRes.tid, dqueueLoRes.delay
      ensures Valid() && (if asserted then Handle(old(View()), m) == Asserted && View() == old(View())
                          else Handle(old(View()), m) == Served(View(), replies))
    {
      hide InsertWord, TickWord, Chain, Distinct, Apart, Entries;
      asserted, replies := false, [];
      match m {
        case DelayBy(tid, ticks) => asserted := dqueue.Push(tid, ticks);
        case LongDelayBy(tid, ticks) => asserted := dqueueLoRes.Push(tid, ticks);
        case GetTime(tid) => replies := [Time(tid, absoluteTime)];
        case NotifyTick(tid) =>
          absoluteTime := (absoluteTime + 1) % U32_RANGE;
          var woken := dqueue.CountDown();
          replies := [Echo(tid)] + Wakes(woken);
        case NotifyLoRes(tid) =>
          var woken := dqueueLoRes.CountDown();
          replies := [Echo(tid)] + Wakes(woken);
        case OtherMessage(tid) =>
      }
    }
  }
}
