/** The switch server (user/servers/TrainSwitchServer.c): switch commands queued as packed
    words for one courier, which is told to release the solenoid before it may rest. */
module SwitchServer {
  import opened Bits
  import RingBuffer

  const COURIER: U8 := 17
  const SOLENOID_OFF: U8 := 0x20
  const SWITCH_STRAIGHT: U8 := 0x21
  const SWITCH_CURVED: U8 := 0x22
  const LENGTH := 64

  type U8 = b: bv16 | b < 0x100

  /** What the courier carries: a type and a one-byte body. */
  datatype Command = Command(kind: U8, body: U8)

  datatype Message = Message(from: nat, kind: U8, body: U8)

  predicate IsSwitch(kind: U8) { kind == SWITCH_STRAIGHT || kind == SWITCH_CURVED }

  // ---------------------------------------------------------------- packing

  function Pack(c: Command): bv16 { (c.kind << 8) | c.body }

  function Unpack(w: bv16): Command { Command(w >> 8, w & 0xFF) }

  /** A command survives the queue, and distinct words are distinct commands. */
  lemma PackRoundTrip(c: Command, w: bv16)
    ensures Unpack(Pack(c)) == c
    ensures Pack(Unpack(w)) == w
  {
  }

  // ---------------------------------------------------------------- one message

  datatype State = State(queue: seq<Command>, waiting: bool, turningOff: bool)

  /** The commands handed over, to whom, and the clients let go. */
  datatype Outcome = Served(state: State, handed: seq<Command>, to: seq<nat>, acks: seq<nat>) | Asserted

  /** One turn of the loop, given the id of the courier it has created. */
  function Handle(s: State, courier: nat, m: Message): Outcome {
    if m.kind == COURIER then
      if s.queue != [] then Served(State(s.queue[1..], false, false), [s.queue[0]], [m.from], [])
      else if s.turningOff then Served(State([], true, false), [], [], [])
      else Served(State([], false, true), [Command(SOLENOID_OFF, m.body)], [m.from], [])
    else if IsSwitch(m.kind) then
      if s.waiting then Served(s.(waiting := false), [Command(m.kind, m.body)], [courier], [m.from])
      else if |s.queue| == LENGTH then Asserted
      else Served(s.(queue := s.queue + [Command(m.kind, m.body)]), [], [], [m.from])
    else Served(s, [], [], [])
  }

  class Server {
    const courier: nat
    const qMsg: RingBuffer.Queue<bv16>
    var isCourierWaiting: bool
    var turningOffSolenoid: bool

    ghost predicate Valid()
      reads this, qMsg, qMsg.data
    {
      qMsg.Valid() && qMsg.length == LENGTH
    }

    ghost function View(): State
      reads this, qMsg
    {
      State(Unpacked(qMsg.items), isCourierWaiting, turningOffSolenoid)
    }

    constructor (courier: nat)
      ensures Valid() && View() == BOOT && this.courier == courier && fresh(qMsg) && fresh(qMsg.data)
    {
      this.courier := courier;
      var qMsgBacking := new bv16[LENGTH];
      assert Pow2(6) == LENGTH by { assert Pow2(3) == 8; }
      qMsg := new RingBuffer.Queue(qMsgBacking, LENGTH);
      isCourierWaiting, turningOffSolenoid := false, false;
    }

    /** One turn of the loop of TrainSwitchServer. */
    method Serve(m: Message) returns (asserted: bool, handed: seq<Command>, to: seq<nat>, acks: seq<nat>)
      requires Valid()
      modifies this, qMsg, qMsg.data
      ensures Valid()
      ensures if asserted then Handle(old(View()), courier, m).Asserted?
              else Handle(old(View()), courier, m) == Served(View(), handed, to, acks)
    {
      hide Pack, Unpack;
      asserted, handed, to, acks := false, [], [], [];
      if m.kind == COURIER {
        var rc, command := qMsg.Pop(0);
        if rc == RingBuffer.OK {
          assert Unpacked(old(qMsg.items))[1..] == Unpacked(qMsg.items);
          handed, to := [Unpack(command)], [m.from];
          turningOffSolenoid := false;
          isCourierWaiting := false;
        } else if turningOffSolenoid {
          isCourierWaiting := true;
          turningOffSolenoid := false;
        } else {
          handed, to := [Command(SOLENOID_OFF, m.body)], [m.from];
          isCourierWaiting := false;
          turningOffSolenoid := true;
        }
      } else if IsSwitch(m.kind) {
        if isCourierWaiting {
          handed, to := [Command(m.kind, m.body)], [courier];
          isCourierWaiting := false;
        } else {
          PackRoundTrip(Command(m.kind, m.body), 0);
          var rc := qMsg.Push(Pack(Command(m.kind, m.body)));
          if rc != RingBuffer.OK {
            return true, [], [], [];
          }
          assert Unpacked(qMsg.items) == Unpacked(old(qMsg.items)) + [Command(m.kind, m.body)];
        }
        acks := [m.from];
      }
    }
  }

  ghost function Unpacked(words: seq<bv16>): seq<Command> {
    seq(|words|, i requires 0 <= i < |words| => Unpack(words[i]))
  }

  // ---------------------------------------------------------------- whole runs

  const BOOT := State([], false, false)

  /** A run from boot, with everything handed over and everyone let go. */
  function Run(courier: nat, ms: seq<Message>): Outcome {
    if ms == [] then Served(BOOT, [], [], [])
    else
      match Run(courier, ms[..|ms| - 1])
      case Asserted => Asserted
      case Served(s, handed, to, acks) =>
        match Handle(s, courier, ms[|ms| - 1])
        case Asserted => Asserted
        case Served(t, more, whom, freed) => Served(t, handed + more, to + whom, acks + freed)
  }

  /** The switch commands among those handed over. */
  function Switches(cs: seq<Command>): seq<Command> {
    if cs == [] then []
    else Switches(cs[..|cs| - 1]) + (if IsSwitch(cs[|cs| - 1].kind) then [cs[|cs| - 1]] else [])
  }

  function CommandOf(m: Message): seq<Command> {
    if IsSwitch(m.kind) then [Command(m.kind, m.body)] else []
  }

  function ClientOf(m: Message): seq<nat> {
    if IsSwitch(m.kind) then [m.from] else []
  }

  /** The switch commands that arrived, and from whom. */
  function Arrived(ms: seq<Message>): seq<Command> {
    if ms == [] then [] else Arrived(ms[..|ms| - 1]) + CommandOf(ms[|ms| - 1])
  }

  function Clients(ms: seq<Message>): seq<nat> {
    if ms == [] then [] else Clients(ms[..|ms| - 1]) + ClientOf(ms[|ms| - 1])
  }

  /** What went last to the courier was the order to release the solenoid. */
  ghost predicate Released(handed: seq<Command>) {
    handed != [] && handed[|handed| - 1].kind == SOLENOID_OFF
  }

  /** The flags say what the courier was last told. */
  ghost predicate Good(s: State, handed: seq<Command>) {
    && (s.waiting ==> s.queue == []) && !(s.waiting && s.turningOff) && |s.queue| <= LENGTH
    && (s.waiting || s.turningOff ==> Released(handed))
    && forall i :: 0 <= i < |s.queue| ==> IsSwitch(s.queue[i].kind)
  }

  lemma SwitchesOfMore(handed: seq<Command>, more: seq<Command>)
    requires |more| <= 1
    ensures Switches(handed + more) == Switches(handed) + Switches(more)
  {
    if |more| == 1 {
      assert (handed + more)[..|handed + more| - 1] == handed;
      assert more[..0] == [];
    } else {
      assert handed + more == handed;
    }
  }

  lemma OneMessage(s: State, handed: seq<Command>, courier: nat, m: Message)
    requires Good(s, handed) && Handle(s, courier, m).Served?
    ensures var o := Handle(s, courier, m);
      && |o.handed| <= 1 && Good(o.state, handed + o.handed)
      && Switches(o.handed) + o.state.queue == s.queue + CommandOf(m) && o.acks == ClientOf(m)
  {
  }

  /** Over every run the switch commands handed to the courier followed by the queue are those
      that arrived, in order, each once; every client is let go once, in order; and the courier
      rests only with nothing to do and the solenoid released. */
  lemma {:induction false} DeliveredInOrder(courier: nat, ms: seq<Message>)
    requires Run(courier, ms).Served?
    ensures var o := Run(courier, ms);
      && Switches(o.handed) + o.state.queue == Arrived(ms) && o.acks == Clients(ms)
      && Good(o.state, o.handed)
  {
    hide Good, Switches, CommandOf, ClientOf, Handle;
    if ms == [] {
      BootIsGood();
    } else {
      var before, m := ms[..|ms| - 1], ms[|ms| - 1];
      var p, o := Run(courier, before), Handle(Run(courier, before).state, courier, m);
      DeliveredInOrder(courier, before);
      OneMessage(p.state, p.handed, courier, m);
      SwitchesOfMore(p.handed, o.handed);
      calc {
        Switches(p.handed + o.handed) + o.state.queue;
        Switches(p.handed) + (Switches(o.handed) + o.state.queue);
        (Switches(p.handed) + p.state.queue) + CommandOf(m);
        Arrived(ms);
      }
    }
  }

  lemma BootIsGood()
    ensures Good(BOOT, []) && Switches([]) == []
  {
  }

  /** The courier, blocked while it rests, does not come again until it is handed something. */
  predicate OneCourier(courier: nat, ms: seq<Message>) {
    ms == [] ||
    (&& OneCourier(courier, ms[..|ms| - 1])
     && (ms[|ms| - 1].kind == COURIER ==>
           ms[|ms| - 1].from == courier && Run(courier, ms[..|ms| - 1]).Served? && !Run(courier, ms[..|ms| - 1]).state.waiting))
  }

  function Visits(ms: seq<Message>): nat {
    if ms == [] then 0 else Visits(ms[..|ms| - 1]) + (if ms[|ms| - 1].kind == COURIER then 1 else 0)
  }

  /** The solenoid is not released twice without a switch command in between. */
  ghost predicate NeverTwice(handed: seq<Command>) {
    forall i {:trigger handed[i]} :: 0 <= i < |handed| - 1 ==>
      handed[i].kind != SOLENOID_OFF || handed[i + 1].kind != SOLENOID_OFF
  }

  lemma NeverTwiceMore(handed: seq<Command>, more: seq<Command>)
    requires NeverTwice(handed) && |more| <= 1 && !(Released(handed) && Released(more))
    ensures NeverTwice(handed + more)
    ensures Released(handed + more) == if more == [] then Released(handed) else Released(more)
  {
  }

  lemma OneVisit(s: State, handed: seq<Command>, courier: nat, m: Message)
    requires Good(s, handed) && (Released(handed) ==> s.waiting || s.turningOff)
    requires Handle(s, courier, m).Served? && (m.kind == COURIER ==> !s.waiting && m.from == courier)
    ensures var o := Handle(s, courier, m);
      && |o.to| == |o.handed| && (forall v :: v in o.to ==> v == courier) && (Released(o.handed) ==> o.handed[0].body == m.body)
      && |o.handed| <= 1 && !(Released(handed) && Released(o.handed))
      && ((if o.handed == [] then Released(handed) else Released(o.handed)) ==> o.state.waiting || o.state.turningOff)
      && (if m.kind == COURIER then 1 else 0) + (if s.waiting then 1 else 0)
         == |o.handed| + (if o.state.waiting then 1 else 0)
  {
  }

  /** With one courier, every visit is answered once, and to the courier, unless it is the one now
      resting, and the solenoid is never released twice without a switch command in between. */
  lemma {:induction false} EveryVisitAnswered(courier: nat, ms: seq<Message>)
    requires Run(courier, ms).Served? && OneCourier(courier, ms)
    ensures var o := Run(courier, ms);
      && |o.to| == |o.handed| && (forall v :: v in o.to ==> v == courier)
      && Visits(ms) == |o.handed| + (if o.state.waiting then 1 else 0)
      && (Released(o.handed) ==> o.state.waiting || o.state.turningOff)
      && NeverTwice(o.handed)
  {
    hide Good, Handle, NeverTwice, Released;
    if ms == [] {
      NoneHanded();
    } else {
      var before, m := ms[..|ms| - 1], ms[|ms| - 1];
      var p, o := Run(courier, before), Handle(Run(courier, before).state, courier, m);
      EveryVisitAnswered(courier, before);
      DeliveredInOrder(courier, before);
      OneVisit(p.state, p.handed, courier, m);
      NeverTwiceMore(p.handed, o.handed);
    }
  }

  lemma NoneHanded()
    ensures NeverTwice([]) && !Released([])
  {
  }

  // ---------------------------------------------------------------- when the server asserts

  /** The message after the first n is a switch command, and 64 that arrived before it have not been
      handed over. */
  ghost predicate Overfills(courier: nat, ms: seq<Message>, n: nat)
    requires n < |ms|
  {
    && Run(courier, ms[..n]).Served? && IsSwitch(ms[n].kind)
    && |Arrived(ms[..n])| == |Switches(Run(courier, ms[..n]).handed)| + LENGTH
  }

  lemma AssertsNow(s: State, handed: seq<Command>, courier: nat, m: Message)
    requires Good(s, handed)
    ensures Handle(s, courier, m).Asserted? <==> IsSwitch(m.kind) && |s.queue| == LENGTH
  {
  }

  lemma LastAsserts(courier: nat, ms: seq<Message>)
    requires ms != [] && Run(courier, ms[..|ms| - 1]).Served?
    ensures Run(courier, ms).Asserted? <==> Overfills(courier, ms, |ms| - 1)
  {
    hide Handle, Good, Switches;
    var before, m := ms[..|ms| - 1], ms[|ms| - 1];
    var p := Run(courier, before);
    DeliveredInOrder(courier, before);
    AssertsNow(p.state, p.handed, courier, m);
    assert |Switches(p.handed)| + |p.state.queue| == |Switches(p.handed) + p.state.queue|;
  }

  /** From boot the server asserts if and only if a switch command comes while 64 wait. */
  lemma {:induction false} AssertsExactly(courier: nat, ms: seq<Message>)
    ensures Run(courier, ms).Asserted? <==> exists n: nat :: n < |ms| && Overfills(courier, ms, n)
  {
    hide Handle;
    if ms != [] {
      var before := ms[..|ms| - 1];
      AssertsExactly(courier, before);
      forall n: nat | n < |before| ensures Overfills(courier, ms, n) <==> Overfills(courier, before, n) {
        assert ms[..n] == before[..n];
      }
      if Run(courier, before).Served? {
        LastAsserts(courier, ms);
      } else {
        var n: nat :| n < |before| && Overfills(courier, before, n);
        assert Overfills(courier, ms, n);
      }
    }
  }
}
