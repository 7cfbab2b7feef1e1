/** What a sequence of messages or replies amounts to, taken one by one. */
module Streams {
  /** The pieces that `f` finds in each element, in order. */
  function Gather<A, B>(f: A -> seq<B>, xs: seq<A>): seq<B> {
    if xs == [] then [] else f(xs[0]) + Gather(f, xs[1..])
  }

  lemma {:induction false} GatherJoined<A, B>(f: A -> seq<B>, a: seq<A>, b: seq<A>)
    ensures Gather(f, a + b) == Gather(f, a) + Gather(f, b)
  {
    if a == [] {
      assert a + b == b;
    } else {
      GatherJoined(f, a[1..], b);
      assert (a + b)[0] == a[0] && (a + b)[1..] == a[1..] + b;
      Associates(f(a[0]), Gather(f, a[1..]), Gather(f, b));
    }
  }

  lemma GatherTwo<A, B>(f: A -> seq<B>, x: A, y: A)
    ensures Gather(f, [x]) == f(x) && Gather(f, [x, y]) == f(x) + f(y)
  {
    assert [x][1..] == [] && [x, y][1..] == [y] && [y][1..] == [];
  }

  lemma Associates<T>(a: seq<T>, b: seq<T>, c: seq<T>)
    ensures (a + b) + c == a + (b + c)
  {
  }

  /** What leaves and stays after one step and what leaves and stays after the next. */
  lemma Chained<T>(out: seq<T>, kept: seq<T>, more: seq<T>, left: seq<T>, start: seq<T>, first: seq<T>, second: seq<T>)
    requires out + kept == start + first
    ensures (out + more) + left == start + (first + second) <==> more + left == kept + second
  {
    calc {
      start + (first + second);
      (start + first) + second;
      (out + kept) + second;
      out + (kept + second);
    }
    Associates(out, more, left);
    if out + (more + left) == out + (kept + second) {
      assert more + left == (out + (more + left))[|out|..];
      assert kept + second == (out + (kept + second))[|out|..];
    }
  }

  /** How many elements satisfy `p`. */
  function Tally<A>(p: A -> bool, xs: seq<A>): nat {
    if xs == [] then 0 else (if p(xs[0]) then 1 else 0) + Tally(p, xs[1..])
  }

  lemma {:induction false} TallyJoined<A>(p: A -> bool, a: seq<A>, b: seq<A>)
    ensures Tally(p, a + b) == Tally(p, a) + Tally(p, b)
  {
    if a == [] {
      assert a + b == b;
    } else {
      TallyJoined(p, a[1..], b);
      assert (a + b)[1..] == a[1..] + b;
    }
  }
}
