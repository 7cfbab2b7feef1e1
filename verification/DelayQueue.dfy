/** The delay queue of the clock server (user/servers/ClockServer.c): waiting tasks in a
    linked list of relative delays, of which a tick touches only the first. */
module DelayQueues {
  import opened Chains

  const SLOTS := 32

  /** A waiting task and its delay relative to the entry before it. */
  datatype Delayed = Delayed(tid: nat, delay: int)

  /** The same entry with the tick at which it is due. */
  datatype Due = Due(tid: nat, at: int)

  // ---------------------------------------------------------------- what the list means

  /** How many entries of a list of relative delays stand for the deadline `e`. */
  ghost function Pending(q: seq<Delayed>, now: int, e: Due): nat {
    if q == [] then 0
    else (if e == Due(q[0].tid, now + q[0].delay) then 1 else 0) + Pending(q[1..], now + q[0].delay, e)
  }

  ghost predicate NonNegative(q: seq<Delayed>) {
    forall i :: 0 <= i < |q| ==> q[i].delay >= 0
  }

  /** The head is at least one tick away and nothing is due before what precedes it. */
  ghost predicate Good(q: seq<Delayed>) {
    NonNegative(q) && (q != [] ==> q[0].delay >= 1)
  }

  function Lessened(q: seq<Delayed>, d: int): seq<Delayed>
    requires q != []
  {
    [q[0].(delay := q[0].delay - d)] + q[1..]
  }

  /** Where delayQueuePush puts a task: before the first entry not due sooner. */
  function Insert(q: seq<Delayed>, tid: nat, d: int): seq<Delayed> {
    if q == [] then [Delayed(tid, d)]
    else if d <= q[0].delay then [Delayed(tid, d)] + Lessened(q, d)
    else [q[0]] + Insert(q[1..], tid, d - q[0].delay)
  }

  /** The longest prefix that is due, and what is left. */
  function Ripe(q: seq<Delayed>): (seq<nat>, seq<Delayed>) {
    if q == [] || q[0].delay > 0 then ([], q)
    else
      var (woken, rest) := Ripe(q[1..]);
      ([q[0].tid] + woken, rest)
  }

  /** A tick: the tasks woken, in order, and the list left. */
  function Tick(q: seq<Delayed>): (seq<nat>, seq<Delayed>) {
    if q == [] then ([], []) else Ripe(Lessened(q, 1))
  }

  // ---------------------------------------------------------------- pushing

  /** A push adds one deadline and changes no other. */
  lemma {:induction false} InsertAddsDeadline(q: seq<Delayed>, tid: nat, d: int, now: int, e: Due)
    ensures Pending(Insert(q, tid, d), now, e) == Pending(q, now, e) + (if e == Due(tid, now + d) then 1 else 0)
  {
    var r := Insert(q, tid, d);
    if q != [] {
      if d <= q[0].delay {
        assert r[1..] == Lessened(q, d) && Lessened(q, d)[1..] == q[1..];
      } else {
        assert r[1..] == Insert(q[1..], tid, d - q[0].delay);
        InsertAddsDeadline(q[1..], tid, d - q[0].delay, now + q[0].delay, e);
      }
    }
  }

  lemma {:induction false} InsertNonNegative(q: seq<Delayed>, tid: nat, d: int)
    requires NonNegative(q) && d >= 0
    ensures NonNegative(Insert(q, tid, d)) && |Insert(q, tid, d)| == |q| + 1
  {
    if q != [] && d > q[0].delay {
      InsertNonNegative(q[1..], tid, d - q[0].delay);
    }
  }

  /** A push keeps the list good exactly when the delay is at least one tick. */
  lemma InsertGoodExactly(q: seq<Delayed>, tid: nat, d: nat)
    requires Good(q)
    ensures Good(Insert(q, tid, d)) <==> d >= 1
  {
    InsertNonNegative(q, tid, d);
  }

  // ---------------------------------------------------------------- ticking

  /** How often a task is among those woken. */
  function Times(tids: seq<nat>, tid: nat): nat {
    if tids == [] then 0 else (if tids[0] == tid then 1 else 0) + Times(tids[1..], tid)
  }

  /** How often `e` occurs among tasks all woken at time `at`. */
  function Hits(tids: seq<nat>, at: int, e: Due): nat {
    if e.at == at then Times(tids, e.tid) else 0
  }

  lemma {:induction false} RipeDeadlines(q: seq<Delayed>, now: int, e: Due)
    requires NonNegative(q)
    ensures Pending(q, now, e) == Hits(Ripe(q).0, now, e) + Pending(Ripe(q).1, now, e)
    ensures Good(Ripe(q).1)
  {
    if q != [] && q[0].delay <= 0 {
      RipeDeadlines(q[1..], now, e);
      assert Ripe(q).0[1..] == Ripe(q[1..]).0;
    }
  }

  lemma {:induction false} NothingSooner(q: seq<Delayed>, now: int, e: Due)
    requires NonNegative(q) && (q == [] || e.at < now + q[0].delay)
    ensures Pending(q, now, e) == 0
  {
    if q != [] {
      NothingSooner(q[1..], now + q[0].delay, e);
    }
  }

  /** A tick wakes exactly the tasks due at that tick, each as often as it asked, and keeps
      every other deadline. */
  lemma TickWakesTheDue(q: seq<Delayed>, now: int, e: Due)
    requires Good(q)
    ensures Pending(q, now, e) == Hits(Tick(q).0, now + 1, e) + Pending(Tick(q).1, now + 1, e)
    ensures Good(Tick(q).1)
    ensures e.at <= now + 1 ==> Pending(Tick(q).1, now + 1, e) == 0
  {
    if q != [] {
      var l := Lessened(q, 1);
      assert l[1..] == q[1..] && l[0].delay >= 0;
      RipeDeadlines(l, now + 1, e);
    }
    if e.at <= now + 1 {
      NothingSooner(Tick(q).1, now + 1, e);
    }
  }

  /** The next tick wakes exactly what is due at it and keeps every other deadline. */
  ghost predicate TicksTrue(q: seq<Delayed>, now: int) {
    forall e :: Pending(q, now, e) == Hits(Tick(q).0, now + 1, e) + Pending(Tick(q).1, now + 1, e)
  }

  lemma {:induction false} NothingBefore(q: seq<Delayed>, now: int, e: Due)
    requires NonNegative(q) && e.at < now
    ensures Pending(Ripe(q).1, now, e) == 0
  {
    RipeDeadlines(q, now, e);
    NothingSooner(Ripe(q).1, now, e);
  }

  /** A delay of 0 stands first. */
  ghost predicate Stuck(q: seq<Delayed>) {
    NonNegative(q) && q != [] && q[0].delay == 0
  }

  /** The next tick then passes it over: its deadline is gone from the list without its task being
      woken at it. */
  lemma StuckIsLost(q: seq<Delayed>, now: int)
    requires Stuck(q)
    ensures var e := Due(q[0].tid, now);
      Pending(q, now, e) != Hits(Tick(q).0, now + 1, e) + Pending(Tick(q).1, now + 1, e)
  {
    var e, l := Due(q[0].tid, now), Lessened(q, 1);
    assert l[1..] == q[1..] && l[0].delay == -1;
    assert Tick(q).1 == Ripe(q[1..]).1;
    NothingBefore(q[1..], now + 1, e);
    hide Tick, Ripe;
    assert Pending(q, now, e) >= 1 && Hits(Tick(q).0, now + 1, e) == 0;
  }

  lemma StuckStays(q: seq<Delayed>, tid: nat, d: nat)
    requires Stuck(q) || (NonNegative(q) && d == 0)
    ensures Stuck(Insert(q, tid, d))
  {
    InsertNonNegative(q, tid, d);
  }

  /** After a push the next tick is true to every deadline exactly when the delay is at least one
      tick. A delay of 0 comes to stand first and takes the decrement meant for its successor. */
  lemma TickTrueExactly(q: seq<Delayed>, tid: nat, d: nat, now: int)
    requires Good(q)
    ensures TicksTrue(Insert(q, tid, d), now) <==> d >= 1
  {
    if d >= 1 {
      InsertGoodExactly(q, tid, d);
      forall e ensures Pending(Insert(q, tid, d), now, e)
        == Hits(Tick(Insert(q, tid, d)).0, now + 1, e) + Pending(Tick(Insert(q, tid, d)).1, now + 1, e) {
        TickWakesTheDue(Insert(q, tid, d), now, e);
      }
    } else {
      StuckStays(q, tid, 0);
      StuckIsLost(Insert(q, tid, 0), now);
    }
  }

  // ---------------------------------------------------------------- whole runs of one queue

  datatype Event = Request(tid: nat, delay: nat) | TickEvent

  /** A queue, the time, and everything woken so far with the time of waking. */
  datatype Clock = Clock(queue: seq<Delayed>, now: int, woken: seq<Due>)

  function StampedAt(tids: seq<nat>, at: int): seq<Due> {
    seq(|tids|, i requires 0 <= i < |tids| => Due(tids[i], at))
  }

  function After(c: Clock, e: Event): Clock {
    match e
    case Request(tid, d) => c.(queue := Insert(c.queue, tid, d))
    case TickEvent => Clock(Tick(c.queue).1, c.now + 1, c.woken + StampedAt(Tick(c.queue).0, c.now + 1))
  }

  function AfterAll(c: Clock, es: seq<Event>): Clock
    decreases |es|
  {
    if es == [] then c else AfterAll(After(c, es[0]), es[1..])
  }

  function Count(s: seq<Due>, e: Due): nat {
    if s == [] then 0 else Count(s[..|s| - 1], e) + (if s[|s| - 1] == e then 1 else 0)
  }

  /** How often a run asks for `e`, given the time at which it starts. */
  function Requested(now: int, es: seq<Event>, e: Due): nat
    decreases |es|
  {
    if es == [] then 0
    else
      match es[0]
      case Request(tid, d) => (if e == Due(tid, now + d) then 1 else 0) + Requested(now, es[1..], e)
      case TickEvent => Requested(now + 1, es[1..], e)
  }

  ghost predicate AtLeastOneTick(es: seq<Event>) {
    forall i :: 0 <= i < |es| && es[i].Request? ==> es[i].delay >= 1
  }

  lemma {:induction false} CountStamped(s: seq<Due>, tids: seq<nat>, at: int, e: Due)
    ensures Count(s + StampedAt(tids, at), e) == Count(s, e) + Hits(tids, at, e)
    decreases |tids|
  {
    var stamped := StampedAt(tids, at);
    if tids == [] {
      assert s + stamped == s;
    } else {
      var t := s + [stamped[0]];
      assert s + stamped == t + StampedAt(tids[1..], at);
      assert t[..|t| - 1] == s;
      CountStamped(t, tids[1..], at, e);
    }
  }

  /** Woken plus pending changes only by what is requested. */
  lemma OneEvent(c: Clock, v: Event, e: Due)
    requires Good(c.queue) && (v.Request? ==> v.delay >= 1)
    ensures Good(After(c, v).queue)
    ensures Count(After(c, v).woken, e) + Pending(After(c, v).queue, After(c, v).now, e)
      == Count(c.woken, e) + Pending(c.queue, c.now, e)
         + (if v.Request? && e == Due(v.tid, c.now + v.delay) then 1 else 0)
  {
    match v {
      case Request(tid, d) =>
        InsertAddsDeadline(c.queue, tid, d, c.now, e);
        InsertGoodExactly(c.queue, tid, d);
      case TickEvent =>
        TickWakesTheDue(c.queue, c.now, e);
        CountStamped(c.woken, Tick(c.queue).0, c.now + 1, e);
    }
  }

  /** Over any run, what has been woken, at the time it was, together with what is still
      pending, at the time it is due, is exactly what was requested. */
  lemma {:induction false} EveryRequestIsMetOnTime(c: Clock, es: seq<Event>, e: Due)
    requires Good(c.queue) && AtLeastOneTick(es)
    ensures Good(AfterAll(c, es).queue)
    ensures Count(AfterAll(c, es).woken, e) + Pending(AfterAll(c, es).queue, AfterAll(c, es).now, e)
      == Count(c.woken, e) + Pending(c.queue, c.now, e) + Requested(c.now, es, e)
    decreases |es|
  {
    if es != [] {
      OneEvent(c, es[0], e);
      EveryRequestIsMetOnTime(After(c, es[0]), es[1..], e);
    }
  }

  /** So by any time an initially empty queue has woken a task at tick t, up to that time,
      exactly as often as the task asked for t. */
  lemma WokenExactlyOnTime(es: seq<Event>, e: Due)
    requires AtLeastOneTick(es)
    ensures var c := AfterAll(Clock([], 0, []), es);
      e.at <= c.now ==> Count(c.woken, e) == Requested(0, es, e)
  {
    var c := AfterAll(Clock([], 0, []), es);
    EveryRequestIsMetOnTime(Clock([], 0, []), es, e);
    if e.at <= c.now {
      NothingSooner(c.queue, c.now, e);
    }
  }

  // ---------------------------------------------------------------- exactly when runs are on time

  /** After the run, woken and pending are what they were and what was requested. */
  ghost predicate OnTime(c: Clock, es: seq<Event>) {
    forall e :: Count(AfterAll(c, es).woken, e) + Pending(AfterAll(c, es).queue, AfterAll(c, es).now, e)
      == Count(c.woken, e) + Pending(c.queue, c.now, e) + Requested(c.now, es, e)
  }

  /** At every point of the run. */
  ghost predicate OnTimeThroughout(c: Clock, es: seq<Event>) {
    forall n :: 0 <= n <= |es| ==> OnTime(c, es[..n])
  }

  /** No tick comes after a request for 0 ticks. */
  predicate NoTickAfterZero(es: seq<Event>) {
    forall i, j :: 0 <= i < j < |es| && es[i].Request? && es[i].delay == 0 ==> !es[j].TickEvent?
  }

  predicate NoTick(es: seq<Event>) {
    forall i :: 0 <= i < |es| ==> !es[i].TickEvent?
  }

  lemma OneEventOnTime(c: Clock, v: Event, e: Due)
    requires OnTime(c, [v])
    ensures Count(After(c, v).woken, e) + Pending(After(c, v).queue, After(c, v).now, e)
      == Count(c.woken, e) + Pending(c.queue, c.now, e) + Requested(c.now, [v], e)
  {
    assert AfterAll(c, [v]) == After(c, v);
  }

  lemma OnTimeStep(c: Clock, v: Event, es: seq<Event>)
    requires OnTime(c, [v])
    ensures OnTime(c, [v] + es) <==> OnTime(After(c, v), es)
  {
    var all, c1 := [v] + es, After(c, v);
    assert all[1..] == es && AfterAll(c, all) == AfterAll(c1, es);
    forall e
      ensures Requested(c.now, all, e) == Requested(c.now, [v], e) + Requested(c1.now, es, e)
      ensures Count(c1.woken, e) + Pending(c1.queue, c1.now, e)
        == Count(c.woken, e) + Pending(c.queue, c.now, e) + Requested(c.now, [v], e)
    {
      OneEventOnTime(c, v, e);
    }
  }

  /** After an event that is on time the rest of the run decides. */
  lemma ThroughoutStep(c: Clock, es: seq<Event>)
    requires es != [] && OnTime(c, [es[0]])
    ensures OnTimeThroughout(c, es) <==> OnTimeThroughout(After(c, es[0]), es[1..])
  {
    hide OnTime;
    var v, rest := es[0], es[1..];
    NothingYet(c);
    forall n | 0 < n <= |es| ensures OnTime(c, es[..n]) <==> OnTime(After(c, v), rest[..n - 1]) {
      assert es[..n] == [v] + rest[..n - 1];
      OnTimeStep(c, v, rest[..n - 1]);
    }
    assert es[..0] == [];
    if OnTimeThroughout(c, es) {
      forall n | 0 <= n <= |rest| ensures OnTime(After(c, v), rest[..n]) {
        assert OnTime(c, es[..n + 1]);
      }
    }
  }

  lemma NothingYet(c: Clock)
    ensures OnTime(c, [])
  {
  }

  lemma RequestOnTime(c: Clock, v: Event)
    requires v.Request?
    ensures OnTime(c, [v])
  {
    forall e ensures Count(AfterAll(c, [v]).woken, e) + Pending(AfterAll(c, [v]).queue, AfterAll(c, [v]).now, e)
      == Count(c.woken, e) + Pending(c.queue, c.now, e) + Requested(c.now, [v], e)
    {
      assert AfterAll(c, [v]) == After(c, v);
      InsertAddsDeadline(c.queue, v.tid, v.delay, c.now, e);
    }
  }

  lemma TickOnTime(c: Clock)
    requires Good(c.queue)
    ensures OnTime(c, [TickEvent])
  {
    forall e ensures Count(AfterAll(c, [TickEvent]).woken, e) +
                     Pending(AfterAll(c, [TickEvent]).queue, AfterAll(c, [TickEvent]).now, e)
      == Count(c.woken, e) + Pending(c.queue, c.now, e) + Requested(c.now, [TickEvent], e)
    {
      assert AfterAll(c, [TickEvent]) == After(c, TickEvent);
      OneEvent(c, TickEvent, e);
    }
  }

  lemma StuckTickLate(c: Clock)
    requires Stuck(c.queue)
    ensures !OnTime(c, [TickEvent])
  {
    var e := Due(c.queue[0].tid, c.now);
    StuckIsLost(c.queue, c.now);
    CountStamped(c.woken, Tick(c.queue).0, c.now + 1, e);
    if OnTime(c, [TickEvent]) {
      OneEventOnTime(c, TickEvent, e);
    }
  }

  lemma {:induction false} StuckExactly(c: Clock, es: seq<Event>)
    requires Stuck(c.queue)
    ensures OnTimeThroughout(c, es) <==> NoTick(es)
    decreases |es|
  {
    hide OnTime, Stuck;
    if es == [] {
      NothingYet(c);
    } else if es[0].TickEvent? {
      StuckTickLate(c);
      assert es[..1] == [TickEvent];
    } else {
      RequestOnTime(c, es[0]);
      ThroughoutStep(c, es);
      StuckStays(c.queue, es[0].tid, es[0].delay);
      StuckExactly(After(c, es[0]), es[1..]);
      assert es == [es[0]] + es[1..];
    }
  }

  /** Over any run from a good queue, woken and pending agree with what was requested at every
      point and for every deadline if and only if no tick comes after a request for 0 ticks. */
  lemma {:induction false} OnTimeExactly(c: Clock, es: seq<Event>)
    requires Good(c.queue)
    ensures OnTimeThroughout(c, es) <==> NoTickAfterZero(es)
    decreases |es|
  {
    hide OnTime, Good, Stuck;
    if es == [] {
      NothingYet(c);
    } else {
      var v, rest := es[0], es[1..];
      assert es == [v] + rest;
      if v.TickEvent? {
        TickOnTime(c);
        TickWakesTheDue(c.queue, c.now, Due(0, 0));
      } else {
        RequestOnTime(c, v);
      }
      ThroughoutStep(c, es);
      if v.Request? && v.delay == 0 {
        GoodIsNonNegative(c.queue);
        StuckStays(c.queue, v.tid, 0);
        StuckExactly(After(c, v), rest);
        assert NoTickAfterZero(es) ==> forall j :: 0 <= j < |rest| ==> es[j + 1] == rest[j] && !rest[j].TickEvent?;
      } else {
        if v.Request? { InsertGoodExactly(c.queue, v.tid, v.delay); }
        OnTimeExactly(After(c, v), rest);
        TailNoTick(es);
      }
    }
  }

  lemma GoodIsNonNegative(q: seq<Delayed>)
    requires Good(q)
    ensures NonNegative(q)
  {
  }

  lemma TailNoTick(es: seq<Event>)
    requires es != [] && !(es[0].Request? && es[0].delay == 0)
    ensures NoTickAfterZero(es) <==> NoTickAfterZero(es[1..])
  {
    var rest := es[1..];
    assert es == [es[0]] + rest;
    if NoTickAfterZero(es) {
      forall i, j | 0 <= i < j < |rest| && rest[i].Request? && rest[i].delay == 0 ensures !rest[j].TickEvent? {
        assert es[i + 1] == rest[i] && es[j + 1] == rest[j];
      }
    }
  }

  // ---------------------------------------------------------------- 32-bit delays

  type S32 = x: int | -0x8000_0000 <= x < 0x8000_0000
  type U32 = x: int | 0 <= x < 0x1_0000_0000

  /** The largest delay the clock service can send, a positive S32. */
  const MAX_DELAY := 0x7FFF_FFFF

  /** A delay as the code compares and subtracts it, and as it stores it. */
  function AsU32(x: int): U32 { x % 0x1_0000_0000 }

  function AsS32(x: int): S32 {
    if AsU32(x) < 0x8000_0000 then AsU32(x) else AsU32(x) - 0x1_0000_0000
  }

  /** The decrement of a tick, wrapping below the least S32. */
  function Decremented(x: int): S32 { AsS32(x - 1) }

  /** What delayQueuePush computes for any U32: delays are compared unsigned and stored signed. */
  function InsertWord(q: seq<Delayed>, tid: nat, d: U32): seq<Delayed> {
    if q == [] then [Delayed(tid, AsS32(d))]
    else if d <= AsU32(q[0].delay) then
      [Delayed(tid, AsS32(d)), Delayed(q[0].tid, AsS32(AsU32(q[0].delay) - d))] + q[1..]
    else [q[0]] + InsertWord(q[1..], tid, d - AsU32(q[0].delay))
  }

  /** What a tick computes for any stored delays. */
  function TickWord(q: seq<Delayed>): (seq<nat>, seq<Delayed>) {
    if q == [] then ([], []) else Ripe([Delayed(q[0].tid, Decremented(q[0].delay))] + q[1..])
  }

  ghost predicate Bounded(q: seq<Delayed>) {
    forall i :: 0 <= i < |q| ==> q[i].delay <= MAX_DELAY
  }

  lemma {:induction false} InsertBounded(q: seq<Delayed>, tid: nat, d: int)
    requires Bounded(q) && NonNegative(q) && 0 <= d <= MAX_DELAY
    ensures Bounded(Insert(q, tid, d))
  {
    if q != [] && d > q[0].delay {
      InsertBounded(q[1..], tid, d - q[0].delay);
    }
  }

  lemma {:induction false} RipeBounded(q: seq<Delayed>)
    requires Bounded(q)
    ensures Bounded(Ripe(q).1)
  {
    if q != [] && q[0].delay <= 0 {
      RipeBounded(q[1..]);
    }
  }

  /** With delays the clock service sends, the mixed signed and unsigned arithmetic is exact. */
  lemma {:induction false} WordsAreNumbers(q: seq<Delayed>, tid: nat, d: int)
    requires NonNegative(q) && Bounded(q) && 0 <= d <= MAX_DELAY
    ensures InsertWord(q, tid, d) == Insert(q, tid, d)
  {
    if q != [] && d > q[0].delay {
      WordsAreNumbers(q[1..], tid, d - q[0].delay);
    }
  }

  lemma TickWordIsTick(q: seq<Delayed>)
    requires Good(q) && Bounded(q)
    ensures TickWord(q) == Tick(q) && Bounded(Tick(q).1)
  {
    if q != [] {
      RipeBounded(Lessened(q, 1));
    }
  }

  // ---------------------------------------------------------------- the linked list

  ghost function Entries(tids: seq<nat>, delays: seq<S32>, ids: seq<nat>): seq<Delayed>
    requires |tids| == |delays| && forall k :: 0 <= k < |ids| ==> ids[k] < |tids|
  {
    seq(|ids|, k requires 0 <= k < |ids| => Delayed(tids[ids[k]], delays[ids[k]]))
  }

  class DelayQueue {
    const next: array<int>
    const tid: array<nat>
    const delay: array<S32>
    var freeList: int
    var queue: int
    ghost var ids: seq<nat>
    ghost var free: seq<nat>

    ghost predicate Valid()
      reads this, next, tid, delay
    {
      && next.Length == tid.Length == delay.Length == SLOTS
      && (forall k :: 0 <= k < |ids| ==> ids[k] < SLOTS)
      && Chain(next[..], queue, ids) && Chain(next[..], freeList, free)
      && Distinct(ids) && Distinct(free) && Apart(ids, free)
      && |ids| + |free| == SLOTS
    }

    /** The list this object stands for. */
    ghost function View(): seq<Delayed>
      requires tid.Length == delay.Length == SLOTS && forall k :: 0 <= k < |ids| ==> ids[k] < SLOTS
      reads this, tid, delay
    {
      Entries(tid[..], delay[..], ids)
    }

    /** delayQueueInit. */
    constructor ()
      ensures Valid() && View() == [] && fresh(next) && fresh(tid) && fresh(delay)
    {
      next, tid, delay := new int[SLOTS], new nat[SLOTS], new S32[SLOTS];
      freeList, queue := 0, NULL;
      ids, free := [], seq(SLOTS, i => i);
      new;
      ghost var order := free;
      var i := 0;
      while i < SLOTS - 1
        invariant 0 <= i <= SLOTS - 1
        invariant forall j :: 0 <= j < i ==> next[j] == j + 1
        modifies next
      {
        next[i] := i + 1;
        i := i + 1;
      }
      next[SLOTS - 1] := NULL;
      FreshChain(next[..], order);
    }

    /** The parts of Valid that hold while a node is on neither chain. */
    ghost predicate Shaped()
      reads this, next, tid, delay
    {
      && next.Length == tid.Length == delay.Length == SLOTS
      && (forall k :: 0 <= k < |ids| ==> ids[k] < SLOTS)
      && Chain(next[..], queue, ids) && Chain(next[..], freeList, free)
      && Distinct(ids) && Distinct(free) && Apart(ids, free)
    }

    /** delayQueuePush, for every U32. The assertion on the free list fails exactly when 32 tasks wait. */
    method Push(id: nat, ticks: U32) returns (asserted: bool)
      requires Valid()
      modifies this, next, tid, delay
      ensures Valid() && (asserted <==> |old(View())| == SLOTS)
      ensures View() == if asserted then old(View()) else InsertWord(old(View()), id, ticks)
    {
      hide InsertWord, Placed, Spliced, Chain, Distinct, Apart, Entries;
      HeadIsFirst(next[..], freeList, free);
      EntriesAre(tid[..], delay[..], ids);
      asserted := freeList == NULL;
      if asserted {
        return;
      }
      ghost var q, order := View(), ids;
      var node := TakeNode(id);
      var left: U32, previous, current := ticks, NULL, queue;
      ghost var k, tids, delays := 0, tid[..], delay[..];
      HeadIsFirst(next[..], queue, order);
      assert q[..0] + InsertWord(q[0..], id, left) == InsertWord(q, id, ticks);
      while current != NULL && left > AsU32(delay[current])
        invariant Shaped() && ids == order && tid[..] == tids && delay[..] == delays
        invariant k <= |order| && current == (if k < |order| then order[k] else NULL)
        invariant previous == (if k > 0 then order[k - 1] else NULL)
        invariant InsertWord(q, id, ticks) == q[..k] + InsertWord(q[k..], id, left)
        decreases |order| - k
        modifies {}
      {
        LinkAt(next[..], queue, order, k);
        InsertPast(q, id, ticks, k, left);
        left := left - AsU32(delay[current]);
        previous := current;
        current := next[current];
        k := k + 1;
      }
      InsertHere(q, id, ticks, k, left);
      delay[node] := AsS32(left);
      if current != NULL {
        delay[current] := AsS32(AsU32(delay[current]) - left);
      }
      PlacedEntries(tids, delays, delay[..], order, node, k, left);
      Link(node, previous, current, k);
    }

    /** The tick cases of the server: count the head down, then wake what is due and give
        its nodes back. */
    method CountDown() returns (woken: seq<nat>)
      requires Valid()
      modifies this, next, delay
      ensures Valid() && woken == TickWord(old(View())).0 && View() == TickWord(old(View())).1
    {
      hide Ripe, Chain, Distinct, Apart, Entries;
      woken := [];
      HeadIsFirst(next[..], queue, ids);
      EntriesAre(tid[..], delay[..], ids);
      if queue == NULL {
        return;
      }
      ghost var q, delays := View(), delay[..];
      delay[queue] := Decremented(delay[queue]);
      CountedDown(tid[..], delays, ids);
      EntriesAre(tid[..], delay[..], ids);
      ghost var due := View();
      while queue != NULL && delay[queue] <= 0
        invariant Shaped() && |ids| + |free| == SLOTS
        invariant |View()| == |ids| && queue == HeadOf(ids)
        invariant ids != [] ==> View()[0] == Delayed(tid[ids[0]], delay[ids[0]])
        invariant Ripe(due).0 == woken + Ripe(View()).0 && Ripe(due).1 == Ripe(View()).1
        decreases |ids|
      {
        RipeFirst(View());
        woken := woken + [tid[queue]];
        Recycle();
        HeadIsFirst(next[..], queue, ids);
        EntriesAre(tid[..], delay[..], ids);
      }
      RipeDone(View());
    }

    /** Move the first node of the queue to the free list. */
    method Recycle()
      requires Shaped() && ids != []
      modifies this, next
      ensures Shaped() && ids == old(ids)[1..] && |free| == old(|free|) + 1
      ensures old(View()) != [] && View() == old(View())[1..]
    {
      hide Chain, Distinct, Apart;
      ghost var links := next[..];
      FirstLink(links, queue, ids);
      RestMembers(ids, free);
      var node := queue;
      queue := next[node];
      ChainFrame(links, queue, ids[1..], node, freeList);
      ChainCons(links, freeList, free, node);
      next[node] := freeList;
      freeList := node;
      assert next[..] == links[node := next[node]];
      free := [ids[0]] + free;
      ids := ids[1..];
    }

    /** Take the first free node and give it a task. */
    method TakeNode(id: nat) returns (node: nat)
      requires Valid() && free != []
      modifies this, next, tid
      ensures Shaped() && queue == old(queue) && ids == old(ids) && free == old(free)[1..]
      ensures node < SLOTS && node !in ids && node !in free && tid[node] == id && next[node] == NULL
      ensures View() == old(View()) && forall i :: 0 <= i < SLOTS && i != node ==> tid[i] == old(tid[i])
    {
      ghost var links := next[..];
      node := freeList;
      FirstLink(links, freeList, free);
      assert free[0] in free;
      freeList := next[node];
      tid[node] := id;
      next[node] := NULL;
      free := free[1..];
      assert next[..] == links[node := NULL];
      ChainFrame(links, queue, ids, node, NULL);
      ChainFrame(links, freeList, free, node, NULL);
      assert forall k :: 0 <= k < |ids| ==> ids[k] in ids;
    }

    /** Link a node in before `current`, the k-th entry, or at the end. */
    method Link(node: nat, previous: int, current: int, ghost k: nat)
      requires Shaped() && node < SLOTS && node !in ids && node !in free && k <= |ids|
      requires current == (if k < |ids| then ids[k] else NULL) && previous == (if k > 0 then ids[k - 1] else NULL)
      requires |ids| + 1 + |free| == SLOTS
      modifies this, next
      ensures Valid() && ids == Spliced(old(ids), node, k)
    {
      hide Chain, Distinct, Apart, Entries, Spliced;
      ghost var links, order := next[..], ids;
      SplicedMembers(order, free, node, k);
      assert forall j :: 0 <= j < |order| ==> order[j] < SLOTS;
      if previous == NULL {
        LinkFront(links, queue, freeList, order, free, node);
        queue := node;
        next[node] := current;
        assert next[..] == links[node := current];
      } else {
        LinkAfter(links, queue, freeList, order, free, node, k);
        next[node] := current;
        next[previous] := node;
        assert next[..] == links[node := current][previous := node];
      }
      ids := Spliced(order, node, k);
    }
  }

  lemma CountedDown(tids: seq<nat>, delays: seq<S32>, ids: seq<nat>)
    requires |tids| == |delays| && ids != [] && Distinct(ids) && forall k :: 0 <= k < |ids| ==> ids[k] < |tids|
    ensures var q := Entries(tids, delays, ids);
      && q != []
      && Entries(tids, delays[ids[0] := Decremented(delays[ids[0]])], ids) == [Delayed(q[0].tid, Decremented(q[0].delay))] + q[1..]
  {
    hide Decremented;
  }

  /** Waking the first entry of a list that is due. */
  lemma RipeFirst(q: seq<Delayed>)
    requires q != [] && q[0].delay <= 0
    ensures Ripe(q).0 == [q[0].tid] + Ripe(q[1..]).0 && Ripe(q).1 == Ripe(q[1..]).1
  {
  }

  lemma RipeDone(q: seq<Delayed>)
    requires q == [] || q[0].delay > 0
    ensures Ripe(q).0 == [] && Ripe(q).1 == q
  {
  }

  lemma EntriesAre(tids: seq<nat>, delays: seq<S32>, ids: seq<nat>)
    requires |tids| == |delays| && forall k :: 0 <= k < |ids| ==> ids[k] < |tids|
    ensures |Entries(tids, delays, ids)| == |ids|
    ensures forall k {:trigger ids[k]} :: 0 <= k < |ids| ==>
      Entries(tids, delays, ids)[k] == Delayed(tids[ids[k]], delays[ids[k]])
  {
  }

  /** The list with a task before the k-th, what follows brought closer to it. */
  ghost function Placed(q: seq<Delayed>, k: nat, tid: nat, left: U32): seq<Delayed>
    requires k <= |q|
  {
    q[..k] + [Delayed(tid, AsS32(left))] +
    (if k < |q| then [Delayed(q[k].tid, AsS32(AsU32(q[k].delay) - left))] + q[k + 1..] else [])
  }

  /** The insertion point reached. */
  lemma InsertHere(q: seq<Delayed>, tid: nat, d: U32, k: nat, left: U32)
    requires k <= |q| && (k < |q| ==> left <= AsU32(q[k].delay))
    requires InsertWord(q, tid, d) == q[..k] + InsertWord(q[k..], tid, left)
    ensures InsertWord(q, tid, d) == Placed(q, k, tid, left)
  {
    hide AsS32, AsU32;
    if k < |q| {
      assert q[k..][1..] == q[k + 1..];
    }
  }

  /** What delayQueuePush writes into the nodes. */
  lemma PlacedEntries(tids: seq<nat>, before: seq<S32>, after: seq<S32>, ids: seq<nat>, node: nat, k: nat, left: U32)
    requires |tids| == |before| && node < |tids| && k <= |ids| && node !in ids && Distinct(ids)
    requires forall j :: 0 <= j < |ids| ==> ids[j] < |tids|
    requires after == if k < |ids|
      then before[node := AsS32(left)][ids[k] := AsS32(AsU32(before[ids[k]]) - left)]
      else before[node := AsS32(left)]
    ensures forall j :: 0 <= j < |Spliced(ids, node, k)| ==> Spliced(ids, node, k)[j] < |tids|
    ensures |Entries(tids, before, ids)| == |ids|
    ensures Entries(tids, after, Spliced(ids, node, k)) == Placed(Entries(tids, before, ids), k, tids[node], left)
  {
    hide AsS32, AsU32;
    var all, q, r := Spliced(ids, node, k), Entries(tids, before, ids), Entries(tids, after, Spliced(ids, node, k));
    forall j | 0 <= j < |all| ensures r[j] == Placed(q, k, tids[node], left)[j] {
      if j < k {
        assert ids[j] in ids;
      } else if j > k {
        assert ids[j - 1] in ids;
      }
    }
  }

  /** Walking past one entry. */
  lemma InsertPast(q: seq<Delayed>, tid: nat, d: U32, k: nat, left: U32)
    requires k < |q| && left > AsU32(q[k].delay)
    requires InsertWord(q, tid, d) == q[..k] + InsertWord(q[k..], tid, left)
    ensures InsertWord(q, tid, d) == q[..k + 1] + InsertWord(q[k + 1..], tid, left - AsU32(q[k].delay))
  {
    hide AsS32, AsU32;
    assert q[k..][1..] == q[k + 1..] && q[..k + 1] == q[..k] + [q[k]];
  }
}
