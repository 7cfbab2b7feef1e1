/** The terminal server (user/servers/TerminalDriver.c): an output ring of bytes handed one at
    a time to a notifier, and an input queue handed one at a time to callers of getc. */
module TerminalDriver {
  import opened Bits
  import opened RingBuffer
  import opened Streams

  const INPUT_LENGTH := 32
  const OUTPUT_LENGTH := 4096
  const U32_RANGE := 0x1_0000_0000

  type Text = seq<nat>

  /** A string that fits into the address space beside the server's buffer. */
  type Str = t: Text | |t| + OUTPUT_LENGTH < U32_RANGE

  datatype Message =
    | GetC(from: nat)
    | PutStr(from: nat, str: Str)
    | TxChar(from: nat)
    | RcvChar(from: nat, c: nat)
    | OtherMessage(from: nat)

  /** Output bytes for a notifier, input characters for a caller of getc, bare acknowledgements. */
  datatype Reply = Out(to: nat, b: nat) | In(to: nat, c: nat) | Ack(to: nat)

  /** The server's variables: output buffer, its indices and count, the characters typed ahead, the
      caller waiting in getc (0 is none) and whether the output notifier waits for a byte. */
  datatype Variables = Variables(
    buffer: Text, head: nat, tail: nat, count: nat, typed: Text, getcTask: nat, ready: bool)

  predicate IsState(s: Variables) {
    |s.buffer| == OUTPUT_LENGTH && s.head < OUTPUT_LENGTH && s.tail < OUTPUT_LENGTH
  }

  /** Before the first message, whatever the buffer holds. */
  function Boot(buffer: Text): (s: Variables)
    ensures |buffer| == OUTPUT_LENGTH ==> IsState(s)
  {
    Variables(buffer, 0, 0, 0, [], 0, false)
  }

  function Zeros(n: nat): (r: Text)
    ensures |r| == n
  {
    seq(n, i => 0)
  }

  type State = s: Variables | IsState(s) witness Boot(Zeros(OUTPUT_LENGTH))

  datatype Outcome = Served(state: State, replies: seq<Reply>) | Asserted

  function After(i: nat): nat { Wrap(i, 1, OUTPUT_LENGTH) }

  /** The copying loop. */
  function Written(s: State, str: Text): State
    decreases |str|
  {
    if str == [] then s else Written(s.(buffer := s.buffer[s.tail := str[0]], tail := After(s.tail)), str[1..])
  }

  /** The byte at the head has been taken; the count is a U32. */
  function Dequeued(s: State): State {
    s.(head := After(s.head), count := (s.count + U32_RANGE - 1) % U32_RANGE)
  }

  /** One turn of the loop, given the ids of the two notifiers. */
  function Handle(s: State, inputId: nat, outputId: nat, m: Message): Outcome {
    match m
    case GetC(from) =>
      if s.typed != [] then Served(s.(typed := s.typed[1..]), [In(from, s.typed[0])])
      else if s.getcTask != 0 then Asserted
      else Served(s.(getcTask := from), [])
    case PutStr(from, str) =>
      var count := (s.count + |str|) % U32_RANGE;
      if count >= OUTPUT_LENGTH then Asserted
      else
        var w := Written(s, str).(count := count);
        if s.ready then Served(Dequeued(w).(ready := false), [Ack(from), Out(outputId, w.buffer[w.head])])
        else Served(w, [Ack(from)])
    case TxChar(from) =>
      if s.head != s.tail then Served(Dequeued(s), [Out(from, s.buffer[s.head])])
      else Served(s.(ready := true), [])
    case RcvChar(from, c) =>
      if from != inputId then Asserted
      else if s.getcTask > 0 then Served(s.(getcTask := 0), [Ack(inputId), In(s.getcTask, c)])
      else if |s.typed| < INPUT_LENGTH then Served(s.(typed := s.typed + [c]), [Ack(inputId)])
      else Served(s, [Ack(inputId)])
    case OtherMessage(_) => Served(s, [])
  }

  // ---------------------------------------------------------------- the object

  class Driver {
    const inputId: nat
    const outputId: nat
    const outputBuffer: array<nat>
    const qInput: Queue<nat>
    var outputHead: nat
    var outputTail: nat
    var outputCount: nat
    var getcTask: nat
    var isOutputNotifierReady: bool

    ghost predicate Valid()
      reads this, qInput, qInput.data
    {
      && outputBuffer.Length == OUTPUT_LENGTH && outputBuffer != qInput.data
      && qInput.Valid() && qInput.length == INPUT_LENGTH
      && outputHead < OUTPUT_LENGTH && outputTail < OUTPUT_LENGTH
    }

    ghost function View(): State
      requires Valid()
      reads this, outputBuffer, qInput, qInput.data
    {
      Variables(outputBuffer[..], outputHead, outputTail, outputCount, qInput.items, getcTask, isOutputNotifierReady)
    }

    constructor (inputId: nat, outputId: nat)
      ensures Valid() && View() == Boot(outputBuffer[..]) && this.inputId == inputId && this.outputId == outputId
      ensures fresh(outputBuffer) && fresh(qInput) && fresh(qInput.data)
    {
      this.inputId, this.outputId := inputId, outputId;
      var inputBuffer := new nat[INPUT_LENGTH];
      outputBuffer := new nat[OUTPUT_LENGTH];
      assert Pow2(5) == INPUT_LENGTH;
      qInput := new Queue(inputBuffer, INPUT_LENGTH);
      outputHead, outputTail, outputCount := 0, 0, 0;
      getcTask, isOutputNotifierReady := 0, false;
    }

    /** Take the byte at the head. */
    method Dequeue() returns (b: nat)
      requires Valid()
      modifies this`outputHead, this`outputCount
      ensures Valid() && View() == Dequeued(old(View())) && b == old(outputBuffer[outputHead])
    {
      OutputMask();
      MaskedStep(outputHead, OUTPUT_LENGTH);
      b := outputBuffer[outputHead];
      outputHead := And(outputHead + 1, OUTPUT_LENGTH - 1);
      outputCount := (outputCount + U32_RANGE - 1) % U32_RANGE;
    }

    /** Copy a string to the tail. */
    method Enqueue(str: Text)
      requires Valid()
      modifies this`outputTail, this`outputCount, outputBuffer
      ensures Valid() && View() == Written(old(View()), str).(count := (old(outputCount) + |str|) % U32_RANGE)
    {
      hide Represents;
      OutputMask();
      ghost var s := View();
      var i := 0;
      while i < |str|
        invariant i <= |str| && Valid() && Written(View(), str[i..]) == Written(s, str)
        modifies this`outputTail, outputBuffer
      {
        MaskedStep(outputTail, OUTPUT_LENGTH);
        ghost var was := outputBuffer[..];
        outputBuffer[outputTail] := str[i];
        assert outputBuffer[..] == was[outputTail := str[i]];
        outputTail := And(outputTail + 1, OUTPUT_LENGTH - 1);
        assert str[i..][1..] == str[i + 1..];
        i := i + 1;
      }
      assert str[i..] == [];
      WrittenKeeps(s, str);
      outputCount := (outputCount + |str|) % U32_RANGE;
    }

    /** One turn of the loop of TerminalDriver. */
    method Serve(m: Message) returns (asserted: bool, replies: seq<Reply>)
      requires Valid()
      modifies this, outputBuffer, qInput, qInput.data
      ensures Valid()
      ensures if asserted then Handle(old(View()), inputId, outputId, m).Asserted? && View() == old(View())
              else Handle(old(View()), inputId, outputId, m) == Served(View(), replies)
    {
      hide Represents, Written, Wrap;
      asserted, replies := false, [];
      match m {
        case GetC(from) =>
          var rc, value := qInput.Pop(0);
          if rc < 0 {
            asserted := getcTask != 0;
            if !asserted {
              getcTask := from;
            }
          } else {
            assert old(qInput.items)[0] == value && old(qInput.items)[1..] == qInput.items;
            replies := [In(from, value)];
          }
        case PutStr(from, str) =>
          WrittenKeeps(View(), str);
          asserted := (outputCount + |str|) % U32_RANGE >= OUTPUT_LENGTH;
          if !asserted {
            Enqueue(str);
            replies := [Ack(from)];
            if isOutputNotifierReady {
              var b := Dequeue();
              replies := replies + [Out(outputId, b)];
              isOutputNotifierReady := false;
            }
          }
        case TxChar(from) =>
          if outputHead != outputTail {
            var b := Dequeue();
            replies := [Out(from, b)];
          } else {
            isOutputNotifierReady := true;
          }
        case RcvChar(from, c) =>
          asserted := inputId != from;
          if !asserted {
            replies := [Ack(inputId)];
            if getcTask > 0 {
              replies := replies + [In(getcTask, c)];
              getcTask := 0;
            } else {
              Fits(qInput.data[..], qInput.head, INPUT_LENGTH, qInput.items);
              var rc := qInput.Push(c);
            }
          }
        case OtherMessage(from) =>
      }
    }
  }

  lemma Fits(data: Text, head: nat, n: nat, items: Text)
    requires Represents(data, head, n, items)
    ensures |items| <= n
  {
  }

  lemma OutputMask()
    ensures PowerOfTwo(OUTPUT_LENGTH)
  {
    assert Pow2(12) == OUTPUT_LENGTH by {
      assert Pow2(4) == 16 && Pow2(8) == 256;
    }
  }

  /** Copying moves the tail only. */
  lemma {:induction false} WrittenKeeps(s: State, str: Text)
    ensures var w := Written(s, str);
      && w.head == s.head && w.count == s.count && w.typed == s.typed && w.getcTask == s.getcTask && w.ready == s.ready
    decreases |str|
  {
    if str != [] {
      WrittenKeeps(s.(buffer := s.buffer[s.tail := str[0]], tail := After(s.tail)), str[1..]);
    }
  }

  // ---------------------------------------------------------------- what the ring holds

  function Distance(head: nat, tail: nat): int {
    if tail >= head then tail - head else tail + OUTPUT_LENGTH - head
  }

  /** The bytes from head to tail. */
  function Held(s: State): Text {
    seq(Distance(s.head, s.tail), i requires 0 <= i < Distance(s.head, s.tail) => s.buffer[Wrap(s.head, i, OUTPUT_LENGTH)])
  }

  /** The count is that distance, and a waiting notifier means that nothing is held. */
  ghost predicate Coherent(s: State) {
    s.count == |Held(s)| && (s.ready ==> Held(s) == [])
  }

  lemma {:induction false} WrittenHolds(s: State, str: Text)
    requires |Held(s)| + |str| < OUTPUT_LENGTH
    ensures Held(Written(s, str)) == Held(s) + str
    decreases |str|
  {
    if str == [] {
      assert Held(s) + str == Held(s);
    } else {
      var t := s.(buffer := s.buffer[s.tail := str[0]], tail := After(s.tail));
      assert Held(t) == Held(s) + [str[0]];
      WrittenHolds(t, str[1..]);
      assert (Held(s) + [str[0]]) + str[1..] == Held(s) + str;
    }
  }

  lemma DequeuedHolds(s: State)
    requires Held(s) != []
    ensures Held(s) == [s.buffer[s.head]] + Held(Dequeued(s))
  {
  }

  // ---------------------------------------------------------------- whole runs

  function Run(s: State, inputId: nat, outputId: nat, ms: seq<Message>): Outcome
    decreases |ms|
  {
    if ms == [] then Served(s, [])
    else
      match Handle(s, inputId, outputId, ms[0])
      case Asserted => Asserted
      case Served(t, replies) =>
        match Run(t, inputId, outputId, ms[1..])
        case Asserted => Asserted
        case Served(u, more) => Served(u, replies + more)
  }

  /** Bytes handed to the output notifier, characters handed to callers, those callers, and
      whoever is let go by a bare acknowledgement. */
  function SentBy(r: Reply): Text { if r.Out? then [r.b] else [] }

  function GivenBy(r: Reply): Text { if r.In? then [r.c] else [] }

  function AnsweredBy(r: Reply): seq<nat> { if r.In? then [r.to] else [] }

  function LetGoBy(r: Reply): seq<nat> { if r.Ack? then [r.to] else [] }

  /** Bytes put by a message, and callers of getc. */
  function SaidBy(m: Message): Text { if m.PutStr? then m.str else [] }

  function AskedBy(m: Message): seq<nat> { if m.GetC? then [m.from] else [] }

  function Said(ms: seq<Message>): Text { Gather(SaidBy, ms) }

  function Sent(rs: seq<Reply>): Text { Gather(SentBy, rs) }

  // ---------------------------------------------------------------- the output stream

  /** An empty string put while the notifier waits. */
  predicate EmptyToWaiting(s: State, m: Message) {
    m.PutStr? && m.str == [] && s.ready
  }

  lemma PutKept(s: State, inputId: nat, outputId: nat, from: nat, str: Str)
    requires Coherent(s) && Handle(s, inputId, outputId, PutStr(from, str)).Served? && !(str == [] && s.ready)
    ensures var o := Handle(s, inputId, outputId, PutStr(from, str));
      Coherent(o.state) && Sent(o.replies) + Held(o.state) == Held(s) + str
  {
    hide Held, Written;
    HeldFits(s);
    WrittenKeeps(s, str);
    WrittenHolds(s, str);
    var w := Written(s, str).(count := s.count + |str|);
    HeldOf(Written(s, str), w);
    var o := Handle(s, inputId, outputId, PutStr(from, str));
    if s.ready {
      DequeuedHolds(w);
      HeldOf(Dequeued(w), o.state);
      GatherTwo(SentBy, Ack(from), Out(outputId, w.buffer[w.head]));
    } else {
      GatherTwo(SentBy, Ack(from), Ack(from));
      assert [] + Held(o.state) == Held(o.state);
    }
  }

  lemma TxKept(s: State, inputId: nat, outputId: nat, from: nat)
    requires Coherent(s)
    ensures var o := Handle(s, inputId, outputId, TxChar(from));
      Coherent(o.state) && Sent(o.replies) + Held(o.state) == Held(s)
  {
    hide Held, Written;
    var o := Handle(s, inputId, outputId, TxChar(from));
    HeldEmpty(s);
    HeldFits(s);
    if s.head != s.tail {
      DequeuedHolds(s);
      GatherTwo(SentBy, Out(from, s.buffer[s.head]), Ack(from));
    } else {
      HeldOf(s, o.state);
      assert [] + Held(o.state) == Held(o.state);
    }
  }

  lemma OthersKeep(s: State, inputId: nat, outputId: nat, m: Message)
    requires Coherent(s) && Handle(s, inputId, outputId, m).Served? && !m.PutStr? && !m.TxChar?
    ensures var o := Handle(s, inputId, outputId, m);
      Coherent(o.state) && Sent(o.replies) + Held(o.state) == Held(s)
  {
    hide Held, Written;
    var o := Handle(s, inputId, outputId, m);
    HeldOf(s, o.state);
    if |o.replies| == 2 {
      GatherTwo(SentBy, o.replies[0], o.replies[1]);
    } else if |o.replies| == 1 {
      GatherTwo(SentBy, o.replies[0], o.replies[0]);
    }
    assert [] + Held(o.state) == Held(o.state);
  }

  /** Any other message moves the output stream by what it brings. */
  lemma OutputKept(s: State, inputId: nat, outputId: nat, m: Message)
    requires Coherent(s) && Handle(s, inputId, outputId, m).Served? && !EmptyToWaiting(s, m)
    ensures var o := Handle(s, inputId, outputId, m);
      Coherent(o.state) && Sent(o.replies) + Held(o.state) == Held(s) + SaidBy(m)
  {
    hide Held, Handle, Coherent;
    if m.PutStr? {
      PutKept(s, inputId, outputId, m.from, m.str);
    } else {
      if m.TxChar? {
        TxKept(s, inputId, outputId, m.from);
      } else {
        OthersKeep(s, inputId, outputId, m);
      }
      assert Held(s) + [] == Held(s);
    }
  }

  lemma HeldOf(s: State, t: State)
    requires t.buffer == s.buffer && t.head == s.head && t.tail == s.tail
    ensures Held(t) == Held(s)
  {
  }

  lemma HeldFits(s: State)
    ensures |Held(s)| < OUTPUT_LENGTH
  {
  }

  lemma HeldEmpty(s: State)
    ensures Held(s) == [] <==> s.head == s.tail
  {
  }

  /** That one hands the notifier a byte nobody put, turns the count to 2^32 - 1 and leaves the
      ring looking all but full. */
  lemma EmptyPutBreaks(s: State, inputId: nat, outputId: nat, m: Message)
    requires Coherent(s) && EmptyToWaiting(s, m)
    ensures var o := Handle(s, inputId, outputId, m);
      && o.Served? && o.replies == [Ack(m.from), Out(outputId, s.buffer[s.head])]
      && o.state.count == U32_RANGE - 1 && |Held(o.state)| == OUTPUT_LENGTH - 1 && !Coherent(o.state)
      && Sent(o.replies) + Held(o.state) != Held(s) + SaidBy(m)
  {
    var o := Handle(s, inputId, outputId, m);
    HeldEmpty(s);
    assert o.replies == [Ack(m.from), Out(outputId, s.buffer[s.head])];
    GatherTwo(SentBy, o.replies[0], o.replies[1]);
  }

  /** A message keeps the output stream exactly when it is not an empty string put while the
      notifier waits. */
  lemma OutputKeptExactly(s: State, inputId: nat, outputId: nat, m: Message)
    requires Coherent(s) && Handle(s, inputId, outputId, m).Served?
    ensures var o := Handle(s, inputId, outputId, m);
      Coherent(o.state) && Sent(o.replies) + Held(o.state) == Held(s) + SaidBy(m) <==> !EmptyToWaiting(s, m)
  {
    if EmptyToWaiting(s, m) {
      EmptyPutBreaks(s, inputId, outputId, m);
    } else {
      OutputKept(s, inputId, outputId, m);
    }
  }

  /** No empty string is put while the notifier waits. */
  ghost predicate NeverEmptyToWaiting(s: State, inputId: nat, outputId: nat, ms: seq<Message>)
    decreases |ms|
  {
    ms == [] ||
    (&& !EmptyToWaiting(s, ms[0])
     && (Handle(s, inputId, outputId, ms[0]).Served? ==>
           NeverEmptyToWaiting(Handle(s, inputId, outputId, ms[0]).state, inputId, outputId, ms[1..])))
  }

  /** After these messages, if the server has survived them, the bytes handed to the notifier
      followed by those held are the bytes held at first and then put, in order. */
  ghost predicate OutputIs(s: State, inputId: nat, outputId: nat, ms: seq<Message>) {
    var o := Run(s, inputId, outputId, ms);
    o.Served? ==> Sent(o.replies) + Held(o.state) == Held(s) + Said(ms)
  }

  /** The output stream is right at every point of a run. */
  ghost predicate OutputAlways(s: State, inputId: nat, outputId: nat, ms: seq<Message>) {
    forall n {:trigger ms[..n]} :: 0 <= n <= |ms| ==> OutputIs(s, inputId, outputId, ms[..n])
  }

  lemma OneAtATime(s: State, inputId: nat, outputId: nat, ms: seq<Message>)
    requires ms != [] && Coherent(s) && Handle(s, inputId, outputId, ms[0]).Served? && !EmptyToWaiting(s, ms[0])
    ensures OutputIs(s, inputId, outputId, ms) <==>
      OutputIs(Handle(s, inputId, outputId, ms[0]).state, inputId, outputId, ms[1..])
  {
    OutputKept(s, inputId, outputId, ms[0]);
    hide Held, Handle, Coherent, SentBy, SaidBy;
    var h := Handle(s, inputId, outputId, ms[0]);
    var o := Run(h.state, inputId, outputId, ms[1..]);
    if o.Served? {
      GatherJoined(SentBy, h.replies, o.replies);
      Chained(Sent(h.replies), Held(h.state), Sent(o.replies), Held(o.state), Held(s), SaidBy(ms[0]), Said(ms[1..]));
    }
  }

  /** Without such a message the output is right at the end of a run. */
  lemma {:induction false} OutputPreserved(s: State, inputId: nat, outputId: nat, ms: seq<Message>)
    requires Coherent(s) && NeverEmptyToWaiting(s, inputId, outputId, ms)
    ensures OutputIs(s, inputId, outputId, ms)
    ensures Run(s, inputId, outputId, ms).Served? ==> Coherent(Run(s, inputId, outputId, ms).state)
    decreases |ms|
  {
    hide Held, Handle, Coherent, EmptyToWaiting;
    if ms == [] {
      assert Held(s) + [] == [] + Held(s);
    } else if Handle(s, inputId, outputId, ms[0]).Served? {
      OutputKept(s, inputId, outputId, ms[0]);
      OneAtATime(s, inputId, outputId, ms);
      OutputPreserved(Handle(s, inputId, outputId, ms[0]).state, inputId, outputId, ms[1..]);
    }
  }

  lemma {:induction false} NeverOnPrefix(s: State, inputId: nat, outputId: nat, ms: seq<Message>, n: nat)
    requires NeverEmptyToWaiting(s, inputId, outputId, ms) && n <= |ms|
    ensures NeverEmptyToWaiting(s, inputId, outputId, ms[..n])
    decreases |ms|
  {
    hide Handle, EmptyToWaiting;
    if n > 0 && Handle(s, inputId, outputId, ms[0]).Served? {
      NeverOnPrefix(Handle(s, inputId, outputId, ms[0]).state, inputId, outputId, ms[1..], n - 1);
      assert ms[..n][1..] == ms[1..][..n - 1];
    }
  }

  /** With such a message it is wrong at some point. */
  lemma {:induction false} OutputBroken(s: State, inputId: nat, outputId: nat, ms: seq<Message>) returns (n: nat)
    requires Coherent(s) && !NeverEmptyToWaiting(s, inputId, outputId, ms)
    ensures n <= |ms| && !OutputIs(s, inputId, outputId, ms[..n])
    decreases |ms|
  {
    hide Held, Handle, Coherent, EmptyToWaiting;
    var h := Handle(s, inputId, outputId, ms[0]);
    if EmptyToWaiting(s, ms[0]) {
      n := 1;
      EmptyPutBreaks(s, inputId, outputId, ms[0]);
      JustOne(s, inputId, outputId, ms[0]);
      assert ms[..1] == [ms[0]];
    } else {
      OutputKept(s, inputId, outputId, ms[0]);
      n := OutputBroken(h.state, inputId, outputId, ms[1..]);
      n := n + 1;
      assert ms[..n][1..] == ms[1..][..n - 1] && ms[..n][0] == ms[0];
      OneAtATime(s, inputId, outputId, ms[..n]);
    }
  }

  lemma JustOne(s: State, inputId: nat, outputId: nat, m: Message)
    requires Handle(s, inputId, outputId, m).Served?
    ensures Run(s, inputId, outputId, [m]) == Handle(s, inputId, outputId, m)
    ensures Said([m]) == SaidBy(m)
  {
    hide Handle;
    var h := Handle(s, inputId, outputId, m);
    assert [m][1..] == [] && h.replies + [] == h.replies;
    GatherTwo(SaidBy, m, m);
  }

  /** The output stream is right at every point of a run if and only if no empty string is put
      while the notifier waits. */
  lemma OutputExactly(s: State, inputId: nat, outputId: nat, ms: seq<Message>)
    requires Coherent(s)
    ensures OutputAlways(s, inputId, outputId, ms) <==> NeverEmptyToWaiting(s, inputId, outputId, ms)
  {
    hide Coherent, OutputIs;
    if NeverEmptyToWaiting(s, inputId, outputId, ms) {
      forall n {:trigger ms[..n]} | 0 <= n <= |ms| ensures OutputIs(s, inputId, outputId, ms[..n]) {
        NeverOnPrefix(s, inputId, outputId, ms, n);
        OutputPreserved(s, inputId, outputId, ms[..n]);
      }
    } else {
      var n := OutputBroken(s, inputId, outputId, ms);
      assert !OutputIs(s, inputId, outputId, ms[..n]);
    }
  }

  /** It goes wrong from boot: the notifier asks for a byte, somebody puts an empty string, and the
      notifier is sent whatever the buffer held. */
  lemma EmptyPutFromBoot(buffer: Text)
    requires |buffer| == OUTPUT_LENGTH
    ensures var o := Run(Boot(buffer), 3, 4, [TxChar(4), PutStr(9, [])]);
      && o.Served? && o.replies == [Ack(9), Out(4, buffer[0])] && Said([TxChar(4), PutStr(9, [])]) == []
      && o.state.count == U32_RANGE - 1
  {
    var waiting := Handle(Boot(buffer), 3, 4, TxChar(4));
    assert waiting == Served(Boot(buffer).(ready := true), []);
    var o := Handle(waiting.state, 3, 4, PutStr(9, []));
    assert o.replies == [Ack(9), Out(4, buffer[0])] && o.state.count == U32_RANGE - 1;
    hide Handle, Boot;
    JustOne(waiting.state, 3, 4, PutStr(9, []));
    assert [TxChar(4), PutStr(9, [])][1..] == [PutStr(9, [])];
    assert [] + o.replies == o.replies;
    GatherTwo(SaidBy, TxChar(4), PutStr(9, []));
  }

  // ---------------------------------------------------------------- the input stream

  /** A waiting caller of getc means an empty queue. */
  ghost predicate Attentive(s: State) {
    (s.getcTask != 0 ==> s.typed == []) && |s.typed| <= INPUT_LENGTH
  }

  function Waiting(s: State): seq<nat> { if s.getcTask != 0 then [s.getcTask] else [] }

  /** A character received, unless it finds the queue full. */
  function AcceptedBy(s: State, m: Message): Text {
    if m.RcvChar? && |s.typed| < INPUT_LENGTH then [m.c] else []
  }

  function Accepted(s: State, inputId: nat, outputId: nat, ms: seq<Message>): Text
    decreases |ms|
  {
    if ms == [] || Handle(s, inputId, outputId, ms[0]).Asserted? then []
    else AcceptedBy(s, ms[0]) + Accepted(Handle(s, inputId, outputId, ms[0]).state, inputId, outputId, ms[1..])
  }

  ghost predicate FromTasks(ms: seq<Message>) {
    forall i :: 0 <= i < |ms| && ms[i].GetC? ==> ms[i].from != 0
  }

  /** One message moves the input and the queue of callers by what it brings. */
  lemma InputKept(s: State, inputId: nat, outputId: nat, m: Message)
    requires Attentive(s) && Handle(s, inputId, outputId, m).Served? && (m.GetC? ==> m.from != 0)
    ensures var o := Handle(s, inputId, outputId, m);
      && Attentive(o.state)
      && Gather(GivenBy, o.replies) + o.state.typed == s.typed + AcceptedBy(s, m)
      && Gather(AnsweredBy, o.replies) + Waiting(o.state) == Waiting(s) + AskedBy(m)
  {
    hide Written;
    var o := Handle(s, inputId, outputId, m);
    if m.PutStr? {
      WrittenKeeps(s, m.str);
    }
    if |o.replies| == 2 {
      GatherTwo(GivenBy, o.replies[0], o.replies[1]);
      GatherTwo(AnsweredBy, o.replies[0], o.replies[1]);
    }
  }

  /** Over any run: the characters given out followed by the queue are those received with room,
      in order; and callers of getc are answered once each, in the order they asked. */
  lemma {:induction false} InputPreserved(s: State, inputId: nat, outputId: nat, ms: seq<Message>)
    requires Attentive(s) && FromTasks(ms) && Run(s, inputId, outputId, ms).Served?
    ensures var o := Run(s, inputId, outputId, ms);
      && Attentive(o.state)
      && Gather(GivenBy, o.replies) + o.state.typed == s.typed + Accepted(s, inputId, outputId, ms)
      && Gather(AnsweredBy, o.replies) + Waiting(o.state) == Waiting(s) + Gather(AskedBy, ms)
    decreases |ms|
  {
    hide Attentive, Handle, Waiting, GivenBy, AnsweredBy, AcceptedBy, AskedBy;
    if ms != [] {
      var h := Handle(s, inputId, outputId, ms[0]);
      var o := Run(h.state, inputId, outputId, ms[1..]);
      InputKept(s, inputId, outputId, ms[0]);
      InputPreserved(h.state, inputId, outputId, ms[1..]);
      GatherJoined(GivenBy, h.replies, o.replies);
      GatherJoined(AnsweredBy, h.replies, o.replies);
      Chained(Gather(GivenBy, h.replies), h.state.typed, Gather(GivenBy, o.replies), o.state.typed, s.typed,
              AcceptedBy(s, ms[0]), Accepted(h.state, inputId, outputId, ms[1..]));
      Chained(Gather(AnsweredBy, h.replies), Waiting(h.state), Gather(AnsweredBy, o.replies), Waiting(o.state), Waiting(s),
              AskedBy(ms[0]), Gather(AskedBy, ms[1..]));
    }
  }

  /** The server starts with both streams in order. */
  lemma BootIsGood(buffer: Text)
    requires |buffer| == OUTPUT_LENGTH
    ensures Coherent(Boot(buffer)) && Attentive(Boot(buffer)) && Held(Boot(buffer)) == [] && Waiting(Boot(buffer)) == []
  {
  }

  // ---------------------------------------------------------------- acknowledgements

  function Released(inputId: nat, m: Message): seq<nat> {
    if m.PutStr? then [m.from] else if m.RcvChar? then [inputId] else []
  }

  function AllReleased(inputId: nat, ms: seq<Message>): seq<nat> {
    if ms == [] then [] else Released(inputId, ms[0]) + AllReleased(inputId, ms[1..])
  }

  lemma OneRelease(s: State, inputId: nat, outputId: nat, m: Message)
    requires Handle(s, inputId, outputId, m).Served?
    ensures Gather(LetGoBy, Handle(s, inputId, outputId, m).replies) == Released(inputId, m)
  {
    hide Written;
    var rs := Handle(s, inputId, outputId, m).replies;
    if |rs| == 2 {
      GatherTwo(LetGoBy, rs[0], rs[1]);
    }
  }

  /** Every writer is let go once its string is copied, and the input notifier once for every
      character, in the order of the messages. */
  lemma {:induction false} EveryoneIsLetGo(s: State, inputId: nat, outputId: nat, ms: seq<Message>)
    requires Run(s, inputId, outputId, ms).Served?
    ensures Gather(LetGoBy, Run(s, inputId, outputId, ms).replies) == AllReleased(inputId, ms)
    decreases |ms|
  {
    hide Handle, Released, LetGoBy;
    if ms != [] {
      var h := Handle(s, inputId, outputId, ms[0]);
      OneRelease(s, inputId, outputId, ms[0]);
      EveryoneIsLetGo(h.state, inputId, outputId, ms[1..]);
      GatherJoined(LetGoBy, h.replies, Run(h.state, inputId, outputId, ms[1..]).replies);
    }
  }

  // ---------------------------------------------------------------- the output notifier

  function HandedTo(r: Reply): seq<nat> { if r.Out? then [r.to] else [] }

  function VisitBy(m: Message): seq<nat> { if m.TxChar? then [m.from] else [] }

  /** The output notifier, while it waits for a byte. */
  function Idle(s: State, outputId: nat): seq<nat> { if s.ready then [outputId] else [] }

  /** Bytes are asked for by the output notifier only, and not while it still waits for one. */
  predicate IsVisit(s: State, outputId: nat, m: Message) {
    m.TxChar? ==> m.from == outputId && !s.ready
  }

  ghost predicate OneNotifier(s: State, inputId: nat, outputId: nat, ms: seq<Message>)
    decreases |ms|
  {
    ms == [] ||
    (&& IsVisit(s, outputId, ms[0])
     && (Handle(s, inputId, outputId, ms[0]).Served? ==>
           OneNotifier(Handle(s, inputId, outputId, ms[0]).state, inputId, outputId, ms[1..])))
  }

  lemma OneVisit(s: State, inputId: nat, outputId: nat, m: Message)
    requires Handle(s, inputId, outputId, m).Served? && IsVisit(s, outputId, m)
    ensures var o := Handle(s, inputId, outputId, m);
      Gather(HandedTo, o.replies) + Idle(o.state, outputId) == Idle(s, outputId) + VisitBy(m)
  {
    hide Written;
    if m.PutStr? { WrittenKeeps(s, m.str); }
    HandedByOne(s, inputId, outputId, m);
  }

  /** At most the last reply hands out a byte of output. */
  lemma HandedByOne(s: State, inputId: nat, outputId: nat, m: Message)
    requires Handle(s, inputId, outputId, m).Served?
    ensures var rs := Handle(s, inputId, outputId, m).replies;
      Gather(HandedTo, rs) == if |rs| == 0 then [] else if m.PutStr? || m.TxChar? then HandedTo(rs[|rs| - 1]) else []
  {
    hide Written, Dequeued;
    var rs := Handle(s, inputId, outputId, m).replies;
    if |rs| == 2 {
      GatherTwo(HandedTo, rs[0], rs[1]);
    } else if |rs| == 1 {
      GatherTwo(HandedTo, rs[0], rs[0]);
    }
  }

  /** Whoever sends a message that is answered is answered first. */
  lemma SenderFirst(s: State, inputId: nat, outputId: nat, m: Message)
    requires Handle(s, inputId, outputId, m).Served? && Handle(s, inputId, outputId, m).replies != []
    ensures Handle(s, inputId, outputId, m).replies[0].to == m.from
  {
    hide Written;
  }

  /** Over every run in which one notifier fetches the output, each of its visits is answered with
      one byte, addressed to it, unless it is the one now waiting; and nobody else is sent a byte of
      output. */
  lemma {:induction false} EveryVisitAnswered(s: State, inputId: nat, outputId: nat, ms: seq<Message>)
    requires Run(s, inputId, outputId, ms).Served? && OneNotifier(s, inputId, outputId, ms)
    ensures var o := Run(s, inputId, outputId, ms);
      Gather(HandedTo, o.replies) + Idle(o.state, outputId) == Idle(s, outputId) + Gather(VisitBy, ms)
    ensures forall v :: v in Gather(HandedTo, Run(s, inputId, outputId, ms).replies) ==> v == outputId
    decreases |ms|
  {
    hide Handle, HandedTo, VisitBy, IsVisit;
    if ms != [] {
      var h := Handle(s, inputId, outputId, ms[0]);
      var o := Run(h.state, inputId, outputId, ms[1..]);
      OneVisit(s, inputId, outputId, ms[0]);
      EveryVisitAnswered(h.state, inputId, outputId, ms[1..]);
      GatherJoined(HandedTo, h.replies, o.replies);
      VisitIsOwn(s, outputId, ms[0]);
      OwnOnly(Gather(HandedTo, h.replies), Idle(h.state, outputId), Idle(s, outputId), VisitBy(ms[0]), outputId);
      Chained(Gather(HandedTo, h.replies), Idle(h.state, outputId), Gather(HandedTo, o.replies), Idle(o.state, outputId),
              Idle(s, outputId), VisitBy(ms[0]), Gather(VisitBy, ms[1..]));
    }
  }

  lemma VisitIsOwn(s: State, outputId: nat, m: Message)
    requires IsVisit(s, outputId, m)
    ensures forall v :: v in VisitBy(m) ==> v == outputId
  {
  }

  lemma OwnOnly(a: seq<nat>, b: seq<nat>, c: seq<nat>, d: seq<nat>, x: nat)
    requires a + b == c + d && (forall v :: v in c ==> v == x) && forall v :: v in d ==> v == x
    ensures forall v :: v in a ==> v == x
  {
    assert forall v :: v in a ==> v in a + b;
  }

  // ---------------------------------------------------------------- when the server asserts

  /** A string that does not fit behind the bytes held, a getc while another waits, or a character
      that does not come from the input notifier. */
  predicate Unacceptable(m: Message, inputId: nat, held: int, waiting: int) {
    || (m.PutStr? && held + |m.str| >= OUTPUT_LENGTH)
    || (m.GetC? && waiting > 0)
    || (m.RcvChar? && m.from != inputId)
  }

  lemma AssertsNow(s: State, inputId: nat, outputId: nat, m: Message)
    requires Coherent(s) && Attentive(s)
    ensures Handle(s, inputId, outputId, m).Asserted? <==> Unacceptable(m, inputId, |Held(s)|, |Waiting(s)|)
  {
    HeldFits(s);
    hide Held, Written;
  }

  ghost predicate AssertsAt(s: State, inputId: nat, outputId: nat, ms: seq<Message>, n: nat)
    requires n < |ms|
  {
    Run(s, inputId, outputId, ms[..n]).Served? && Handle(Run(s, inputId, outputId, ms[..n]).state, inputId, outputId, ms[n]).Asserted?
  }

  lemma AssertsLater(s: State, inputId: nat, outputId: nat, ms: seq<Message>, n: nat)
    requires 0 < n < |ms|
    ensures AssertsAt(s, inputId, outputId, ms, n) <==>
      Handle(s, inputId, outputId, ms[0]).Served? && AssertsAt(Handle(s, inputId, outputId, ms[0]).state, inputId, outputId, ms[1..], n - 1)
  {
    hide Handle;
    assert ms[..n][1..] == ms[1..][..n - 1] && ms[..n][0] == ms[0];
  }

  lemma {:induction false} RunAsserts(s: State, inputId: nat, outputId: nat, ms: seq<Message>)
    ensures Run(s, inputId, outputId, ms).Asserted? <==> exists n: nat :: n < |ms| && AssertsAt(s, inputId, outputId, ms, n)
    decreases |ms|
  {
    hide Handle;
    if ms != [] {
      var h, rest := Handle(s, inputId, outputId, ms[0]), ms[1..];
      assert ms[..0] == [];
      assert AssertsAt(s, inputId, outputId, ms, 0) <==> h.Asserted?;
      forall n: nat | 0 < n < |ms|
        ensures AssertsAt(s, inputId, outputId, ms, n) <==> h.Served? && AssertsAt(h.state, inputId, outputId, rest, n - 1)
      {
        AssertsLater(s, inputId, outputId, ms, n);
      }
      if h.Served? {
        RunAsserts(h.state, inputId, outputId, rest);
        if n: nat :| n < |rest| && AssertsAt(h.state, inputId, outputId, rest, n) {
          assert AssertsAt(s, inputId, outputId, ms, n + 1);
        }
      }
    }
  }

  /** The message after the first n is unacceptable, given what has been put and sent and who has
      asked and been answered. */
  ghost predicate Refused(buffer: Text, inputId: nat, outputId: nat, ms: seq<Message>, n: nat)
    requires |buffer| == OUTPUT_LENGTH && n < |ms|
  {
    var o := Run(Boot(buffer), inputId, outputId, ms[..n]);
    o.Served? && Unacceptable(ms[n], inputId, |Said(ms[..n])| - |Sent(o.replies)|,
                              |Gather(AskedBy, ms[..n])| - |Gather(AnsweredBy, o.replies)|)
  }

  /** From boot, as long as no empty string is put while the notifier waits, the server asserts if and
      only if a message is unacceptable. */
  lemma AssertsExactly(buffer: Text, inputId: nat, outputId: nat, ms: seq<Message>)
    requires |buffer| == OUTPUT_LENGTH && FromTasks(ms) && NeverEmptyToWaiting(Boot(buffer), inputId, outputId, ms)
    ensures Run(Boot(buffer), inputId, outputId, ms).Asserted? <==>
            exists n: nat :: n < |ms| && Refused(buffer, inputId, outputId, ms, n)
  {
    RunAsserts(Boot(buffer), inputId, outputId, ms);
    forall n: nat | n < |ms|
      ensures AssertsAt(Boot(buffer), inputId, outputId, ms, n) <==> Refused(buffer, inputId, outputId, ms, n)
    {
      RefusedExactly(buffer, inputId, outputId, ms, n);
    }
    hide Run, Boot, AssertsAt, Refused;
  }

  lemma RefusedExactly(buffer: Text, inputId: nat, outputId: nat, ms: seq<Message>, n: nat)
    requires |buffer| == OUTPUT_LENGTH && FromTasks(ms) && NeverEmptyToWaiting(Boot(buffer), inputId, outputId, ms) && n < |ms|
    ensures AssertsAt(Boot(buffer), inputId, outputId, ms, n) <==> Refused(buffer, inputId, outputId, ms, n)
  {
    BootIsGood(buffer);
    NeverOnPrefix(Boot(buffer), inputId, outputId, ms, n);
    hide Held, Handle, Run, Boot, Coherent, Attentive, Unacceptable, Waiting;
    var o := Run(Boot(buffer), inputId, outputId, ms[..n]);
    if o.Served? {
      OutputPreserved(Boot(buffer), inputId, outputId, ms[..n]);
      InputPreserved(Boot(buffer), inputId, outputId, ms[..n]);
      AssertsNow(o.state, inputId, outputId, ms[n]);
      assert |Sent(o.replies)| + |Held(o.state)| == |Sent(o.replies) + Held(o.state)|;
      assert |Gather(AnsweredBy, o.replies)| + |Waiting(o.state)| == |Gather(AnsweredBy, o.replies) + Waiting(o.state)|;
    }
  }
}
