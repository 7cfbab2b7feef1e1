/** The invariant behind the relaxation loop of trains/trackGraph.c, on plain values. */
module Dijkstra {
  import opened Chains
  import opened SparseHeap
  import opened TrackGraph

  const INFINITY: U16 := 0xFFFF
  const UNSEEN := 0xFF

  /** The start's own label is never set, so its distance is taken to be 0. */
  function Label(s: int, cost: seq<U16>, v: int): U16
    requires 0 <= v < |cost|
  {
    if v == s then 0 else cost[v]
  }

  predicate Labelled(s: int, cost: seq<U16>, v: int)
    requires 0 <= v < |cost|
  {
    v == s || cost[v] != INFINITY
  }

  /** Expanded nodes have labels no larger than the cost last popped. */
  ghost predicate Settled(s: int, cost: seq<U16>, done: set<int>, last: int)
    requires |cost| == TRACK_MAX
  {
    forall v :: v in done ==> 0 <= v < TRACK_MAX && Labelled(s, cost, v) && Label(s, cost, v) <= last
  }

  /** A labelled node's predecessor is expanded and accounts for the label exactly. */
  ghost predicate Tree(g: Graph, s: int, cost: seq<U16>, came: seq<int>, via: seq<nat>, done: set<int>)
    requires |cost| == |came| == |via| == TRACK_MAX
  {
    forall v {:trigger came[v]} :: 0 <= v < TRACK_MAX && v != s ==>
      if cost[v] == INFINITY then
        came[v] == UNSEEN
      else
        && 0 <= came[v] < TRACK_MAX && came[v] in done
        && HasEdge(g, came[v], via[v]) && Dest(g, came[v], via[v]) == v
        && Label(s, cost, came[v]) + Dist(g, came[v], via[v]) == cost[v]
  }

  /** Every edge out of an expanded node has been relaxed, except those of `current` from number `ni` on. */
  ghost predicate Relaxed(g: Graph, s: int, cost: seq<U16>, done: set<int>, current: int, ni: nat)
    requires |cost| == TRACK_MAX
  {
    forall u: int, k: nat {:trigger HasEdge(g, u, k)} :: u in done && HasEdge(g, u, k) && !(u == current && k >= ni) ==>
      cost[Dest(g, u, k)] <= Label(s, cost, u) + Dist(g, u, k) < INFINITY
  }

  /** Every labelled node not yet expanded waits in the heap under its label. */
  ghost predicate Queued(s: int, cost: seq<U16>, bag: multiset<Entry>, done: set<int>)
    requires |cost| == TRACK_MAX
  {
    forall v {:trigger Label(s, cost, v)} :: 0 <= v < TRACK_MAX && v !in done && Labelled(s, cost, v) ==>
      Entry(v, Label(s, cost, v)) in bag
  }

  ghost predicate OneEdgeFrom(g: Graph, s: int, cost: seq<U16>, done: set<int>, e: Entry)
    requires |cost| == TRACK_MAX
  {
    exists u: int, k: nat :: u in done && HasEdge(g, u, k) && Dest(g, u, k) == e.value && Label(s, cost, u) + Dist(g, u, k) == e.cost
  }

  /** Heap entries are no cheaper than the last pop or than their node's label, and stem from one expanded node. */
  ghost predicate Sound(g: Graph, s: int, cost: seq<U16>, bag: multiset<Entry>, done: set<int>, last: int)
    requires |cost| == TRACK_MAX
  {
    forall e :: e in bag ==>
      && e.value < TRACK_MAX && last <= e.cost && Label(s, cost, e.value) <= e.cost
      && ((e.value == s && e.cost == 0) || OneEdgeFrom(g, s, cost, done, e))
  }

  datatype Search = Search(cost: seq<U16>, came: seq<int>, via: seq<nat>, bag: multiset<Entry>, done: set<int>, last: int)

  /** The invariant while edges `ni..` of `current` remain to be relaxed; `current` is NULL between expansions. */
  ghost predicate Inv(g: Graph, s: int, q: Search, current: int, ni: nat) {
    && 0 <= s < TRACK_MAX && |q.cost| == |q.came| == |q.via| == TRACK_MAX && 0 <= q.last
    && Settled(s, q.cost, q.done, q.last)
    && Tree(g, s, q.cost, q.came, q.via, q.done)
    && Relaxed(g, s, q.cost, q.done, current, ni)
    && Queued(s, q.cost, q.bag, q.done)
    && Sound(g, s, q.cost, q.bag, q.done, q.last)
  }

  lemma Start(g: Graph, s: int, via: seq<nat>)
    requires 0 <= s < TRACK_MAX && |via| == TRACK_MAX
    ensures Inv(g, s, Search(seq(TRACK_MAX, _ => INFINITY), seq(TRACK_MAX, _ => UNSEEN), via, multiset{Entry(s, 0)}, {}, 0), NULL, 0)
  {
  }

  // ---------------------------------------------------------------- labels are lengths of walks

  /** The walk along predecessors. */
  ghost function WalkTo(g: Graph, s: int, q: Search, current: int, ni: nat, v: int): (w: Walk)
    requires Inv(g, s, q, current, ni) && PositiveLengths(g)
    requires 0 <= v < TRACK_MAX && Labelled(s, q.cost, v)
    ensures End(g, s, w) == v && Length(g, s, w) == Label(s, q.cost, v)
    decreases Label(s, q.cost, v)
  {
    if v == s then Stay else
      var u := q.came[v];
      assert HasEdge(g, u, q.via[v]);
      Go(WalkTo(g, s, q, current, ni, u), q.via[v])
  }

  /** Any walk ends in an expanded node labelled no higher than its length, or some heap entry costs no more. */
  lemma {:induction false} Frontier(g: Graph, s: int, q: Search, w: Walk) returns (e: Entry)
    requires Inv(g, s, q, NULL, 0) && PositiveLengths(g) && End(g, s, w) != NULL
    ensures (End(g, s, w) in q.done && Label(s, q.cost, End(g, s, w)) <= Length(g, s, w)) ||
            (e in q.bag && e.cost <= Length(g, s, w))
  {
    var v := End(g, s, w);
    e := Entry(v, Label(s, q.cost, v));
    match w {
      case Stay =>
      case Go(p, k) =>
        e := Frontier(g, s, q, p);
        var u := End(g, s, p);
        assert HasEdge(g, u, k);
        if u in q.done && Label(s, q.cost, u) <= Length(g, s, p) {
          e := Entry(v, Label(s, q.cost, v));
        }
    }
  }

  lemma DoneIsShortest(g: Graph, s: int, q: Search, u: int)
    requires Inv(g, s, q, NULL, 0) && PositiveLengths(g) && u in q.done
    ensures 0 <= u < TRACK_MAX && Labelled(s, q.cost, u)
    ensures IsShortest(g, s, WalkTo(g, s, q, NULL, 0, u))
  {
    forall o | End(g, s, o) == u ensures Label(s, q.cost, u) <= Length(g, s, o) {
      var e := Frontier(g, s, q, o);
    }
  }

  /** A cheapest heap entry of a node not yet expanded carries that node's shortest distance. */
  lemma CheapestIsShortest(g: Graph, s: int, q: Search, e: Entry)
    requires Inv(g, s, q, NULL, 0) && PositiveLengths(g)
    requires e in q.bag && (forall f :: f in q.bag ==> e.cost <= f.cost) && e.value !in q.done
    ensures e.value < TRACK_MAX && Labelled(s, q.cost, e.value) && e.cost == Label(s, q.cost, e.value)
    ensures IsShortest(g, s, WalkTo(g, s, q, NULL, 0, e.value))
  {
    forall o | End(g, s, o) == e.value ensures e.cost <= Length(g, s, o) {
      var f := Frontier(g, s, q, o);
    }
  }

  // ---------------------------------------------------------------- steps of the loop

  ghost predicate Cheapest(bag: multiset<Entry>, e: Entry) {
    e in bag && forall f :: f in bag ==> e.cost <= f.cost
  }

  /** The search after popping `e`. */
  ghost function Popped(q: Search, e: Entry): Search
    requires e in q.bag
  {
    q.(bag := q.bag - multiset{e}, done := q.done + {e.value as int}, last := e.cost)
  }

  lemma PopSound(g: Graph, s: int, q: Search, e: Entry)
    requires |q.cost| == TRACK_MAX && Sound(g, s, q.cost, q.bag, q.done, q.last) && Cheapest(q.bag, e)
    ensures Sound(g, s, q.cost, Popped(q, e).bag, Popped(q, e).done, e.cost) && q.last <= e.cost
  {
    var r := Popped(q, e);
    forall f | f in r.bag ensures f in q.bag && e.cost <= f.cost {
    }
    forall f | f in r.bag && OneEdgeFrom(g, s, q.cost, q.done, f) ensures OneEdgeFrom(g, s, q.cost, r.done, f) {
      var u: int, k: nat :| u in q.done && HasEdge(g, u, k) && Dest(g, u, k) == f.value && Label(s, q.cost, u) + Dist(g, u, k) == f.cost;
      assert u in r.done;
    }
  }

  lemma PopSettled(s: int, q: Search, e: Entry)
    requires |q.cost| == TRACK_MAX && Settled(s, q.cost, q.done, q.last) && e in q.bag && q.last <= e.cost
    requires e.value !in q.done ==> e.value < TRACK_MAX && Labelled(s, q.cost, e.value) && e.cost == Label(s, q.cost, e.value)
    ensures Settled(s, q.cost, Popped(q, e).done, e.cost)
  {
  }

  lemma PopTree(g: Graph, s: int, q: Search, e: Entry)
    requires |q.cost| == |q.came| == |q.via| == TRACK_MAX && Tree(g, s, q.cost, q.came, q.via, q.done) && e in q.bag
    ensures Tree(g, s, q.cost, q.came, q.via, Popped(q, e).done)
  {
  }

  lemma PopRelaxed(g: Graph, s: int, q: Search, e: Entry)
    requires |q.cost| == TRACK_MAX && Relaxed(g, s, q.cost, q.done, NULL, 0) && e in q.bag
    ensures Relaxed(g, s, q.cost, Popped(q, e).done, e.value, 0)
    ensures e.value in q.done ==> Relaxed(g, s, q.cost, Popped(q, e).done, NULL, 0)
  {
  }

  lemma PopQueued(s: int, q: Search, e: Entry)
    requires |q.cost| == TRACK_MAX && Queued(s, q.cost, q.bag, q.done) && e in q.bag
    ensures Queued(s, q.cost, Popped(q, e).bag, Popped(q, e).done)
  {
  }

  /** Popping a node for the first time expands it at its final label; popping it again changes nothing but the heap. */
  lemma PopStep(g: Graph, s: int, q: Search, e: Entry)
    requires Inv(g, s, q, NULL, 0) && PositiveLengths(g) && Cheapest(q.bag, e)
    ensures e.value !in q.done ==> Inv(g, s, Popped(q, e), e.value, 0) && e.cost == Label(s, q.cost, e.value)
    ensures e.value in q.done ==> Inv(g, s, Popped(q, e), NULL, 0)
  {
    hide Settled, Tree, Relaxed, Queued, Sound;
    if e.value !in q.done {
      CheapestIsShortest(g, s, q, e);
    }
    PopSound(g, s, q, e);
    PopSettled(s, q, e);
    PopTree(g, s, q, e);
    PopRelaxed(g, s, q, e);
    PopQueued(s, q, e);
  }

  /** Expanding a fresh node never wraps nor reaches the label for infinity. */
  lemma FreshFits(g: Graph, s: int, q: Search, e: Entry, k: nat)
    requires Inv(g, s, q, NULL, 0) && PositiveLengths(g) && FitsLabels(g, s)
    requires Cheapest(q.bag, e) && e.value !in q.done && HasEdge(g, e.value, k)
    ensures e.cost + Dist(g, e.value, k) < INFINITY
  {
    CheapestIsShortest(g, s, q, e);
    var w := WalkTo(g, s, q, NULL, 0, e.value);
    assert End(g, s, Go(w, k)) != NULL;
  }

  /** Expanding an already expanded node does not wrap either. */
  lemma StaleFits(g: Graph, s: int, q: Search, e: Entry, k: nat)
    requires Inv(g, s, q, NULL, 0) && PositiveLengths(g) && FitsLabels(g, s)
    requires e in q.bag && e.value in q.done && HasEdge(g, e.value, k)
    ensures e.cost + Dist(g, e.value, k) <= INFINITY
  {
    if e.value == s && e.cost == 0 {
      DoneIsShortest(g, s, q, s);
      assert End(g, s, Go(Stay, k)) != NULL;
    } else {
      var u: int, l: nat :| u in q.done && HasEdge(g, u, l) && Dest(g, u, l) == e.value && Label(s, q.cost, u) + Dist(g, u, l) == e.cost;
      DoneIsShortest(g, s, q, u);
      var w := WalkTo(g, s, q, NULL, 0, u);
      assert End(g, s, Go(Go(w, l), k)) != NULL;
    }
  }

  /** The search after edge `ni` of `u` lowered the label of its destination to `c`. */
  function Lowered(g: Graph, q: Search, u: int, ni: nat, c: U16): Search
    requires |q.cost| == |q.came| == |q.via| == TRACK_MAX && HasEdge(g, u, ni)
  {
    var v := Dest(g, u, ni);
    q.(cost := q.cost[v := c], came := q.came[v := u], via := q.via[v := ni], bag := q.bag + multiset{Entry(v, c)})
  }

  /** A lowered label belongs to the start or to a node not yet expanded. */
  lemma LoweredIsOpen(g: Graph, s: int, q: Search, u: int, ni: nat)
    requires Inv(g, s, q, u, ni) && PositiveLengths(g)
    requires u in q.done && HasEdge(g, u, ni) && Label(s, q.cost, u) == q.last
    requires Label(s, q.cost, u) + Dist(g, u, ni) < q.cost[Dest(g, u, ni)]
    ensures Dest(g, u, ni) == s || Dest(g, u, ni) !in q.done
  {
  }

  /** The label of an expanded node never changes again. */
  lemma LoweredKeepsDone(g: Graph, s: int, q: Search, u: int, ni: nat, c: U16)
    requires Inv(g, s, q, u, ni) && PositiveLengths(g)
    requires u in q.done && HasEdge(g, u, ni) && Label(s, q.cost, u) == q.last
    requires c == Label(s, q.cost, u) + Dist(g, u, ni) < q.cost[Dest(g, u, ni)]
    ensures var r := Lowered(g, q, u, ni, c);
      r.done == q.done && forall x :: x in q.done ==> 0 <= x < TRACK_MAX && Label(s, r.cost, x) == Label(s, q.cost, x)
  {
    LoweredIsOpen(g, s, q, u, ni);
  }

  lemma LowerSettled(g: Graph, s: int, q: Search, u: int, ni: nat)
    requires Inv(g, s, q, u, ni) && PositiveLengths(g)
    requires u in q.done && HasEdge(g, u, ni) && Label(s, q.cost, u) == q.last
    requires Label(s, q.cost, u) + Dist(g, u, ni) < q.cost[Dest(g, u, ni)]
    ensures var r := Lowered(g, q, u, ni, Label(s, q.cost, u) + Dist(g, u, ni)); Settled(s, r.cost, r.done, r.last)
  {
    LoweredKeepsDone(g, s, q, u, ni, Label(s, q.cost, u) + Dist(g, u, ni));
    LoweredIsOpen(g, s, q, u, ni);
  }

  lemma LowerTree(g: Graph, s: int, q: Search, u: int, ni: nat)
    requires Inv(g, s, q, u, ni) && PositiveLengths(g)
    requires u in q.done && HasEdge(g, u, ni) && Label(s, q.cost, u) == q.last
    requires Label(s, q.cost, u) + Dist(g, u, ni) < q.cost[Dest(g, u, ni)]
    ensures var r := Lowered(g, q, u, ni, Label(s, q.cost, u) + Dist(g, u, ni)); Tree(g, s, r.cost, r.came, r.via, r.done)
  {
    LoweredKeepsDone(g, s, q, u, ni, Label(s, q.cost, u) + Dist(g, u, ni));
    LoweredIsOpen(g, s, q, u, ni);
  }

  lemma LowerRelaxed(g: Graph, s: int, q: Search, u: int, ni: nat)
    requires Inv(g, s, q, u, ni) && PositiveLengths(g)
    requires u in q.done && HasEdge(g, u, ni) && Label(s, q.cost, u) == q.last
    requires Label(s, q.cost, u) + Dist(g, u, ni) < q.cost[Dest(g, u, ni)]
    ensures var r := Lowered(g, q, u, ni, Label(s, q.cost, u) + Dist(g, u, ni)); Relaxed(g, s, r.cost, r.done, u, ni + 1)
  {
    LoweredKeepsDone(g, s, q, u, ni, Label(s, q.cost, u) + Dist(g, u, ni));
    LoweredIsOpen(g, s, q, u, ni);
  }

  lemma LowerQueued(g: Graph, s: int, q: Search, u: int, ni: nat)
    requires Inv(g, s, q, u, ni) && PositiveLengths(g)
    requires u in q.done && HasEdge(g, u, ni) && Label(s, q.cost, u) == q.last
    requires Label(s, q.cost, u) + Dist(g, u, ni) < q.cost[Dest(g, u, ni)]
    ensures var r := Lowered(g, q, u, ni, Label(s, q.cost, u) + Dist(g, u, ni)); Queued(s, r.cost, r.bag, r.done)
  {
    LoweredIsOpen(g, s, q, u, ni);
    var r := Lowered(g, q, u, ni, Label(s, q.cost, u) + Dist(g, u, ni));
    forall v | 0 <= v < TRACK_MAX && v !in r.done && Labelled(s, r.cost, v)
      ensures Entry(v, Label(s, r.cost, v)) in r.bag
    {
      assert v != Dest(g, u, ni) ==> Label(s, r.cost, v) == Label(s, q.cost, v);
      assert v == s ==> Label(s, r.cost, v) == Label(s, q.cost, v);
    }
  }

  lemma LowerSound(g: Graph, s: int, q: Search, u: int, ni: nat)
    requires Inv(g, s, q, u, ni) && PositiveLengths(g)
    requires u in q.done && HasEdge(g, u, ni) && Label(s, q.cost, u) == q.last
    requires Label(s, q.cost, u) + Dist(g, u, ni) < q.cost[Dest(g, u, ni)]
    ensures var r := Lowered(g, q, u, ni, Label(s, q.cost, u) + Dist(g, u, ni)); Sound(g, s, r.cost, r.bag, r.done, r.last)
  {
    var c: U16 := Label(s, q.cost, u) + Dist(g, u, ni);
    LoweredKeepsDone(g, s, q, u, ni, c);
    assert Sound(g, s, q.cost, q.bag, q.done, q.last) && Dist(g, u, ni) > 0;
    hide Inv, PositiveLengths;
    LoweredSound(g, s, q, u, ni, c);
  }

  lemma LoweredSound(g: Graph, s: int, q: Search, u: int, ni: nat, c: U16)
    requires |q.cost| == |q.came| == |q.via| == TRACK_MAX && Sound(g, s, q.cost, q.bag, q.done, q.last)
    requires u in q.done && 0 <= u < TRACK_MAX && HasEdge(g, u, ni) && Dist(g, u, ni) > 0
    requires Label(s, q.cost, u) == q.last && c == q.last + Dist(g, u, ni) < q.cost[Dest(g, u, ni)]
    requires forall x :: x in q.done ==> 0 <= x < TRACK_MAX && Label(s, Lowered(g, q, u, ni, c).cost, x) == Label(s, q.cost, x)
    ensures var r := Lowered(g, q, u, ni, c); Sound(g, s, r.cost, r.bag, r.done, r.last)
  {
    var r, v := Lowered(g, q, u, ni, c), Dest(g, u, ni);
    hide OneEdgeFrom;
    EdgeFromHere(g, s, r.cost, r.done, u, ni, Entry(v, c));
    forall e | e in r.bag
      ensures e.value < TRACK_MAX && r.last <= e.cost && Label(s, r.cost, e.value) <= e.cost
      ensures (e.value == s && e.cost == 0) || OneEdgeFrom(g, s, r.cost, r.done, e)
    {
      if e != Entry(v, c) {
        assert e in q.bag;
        EdgeFromStays(g, s, q.cost, r.cost, q.done, e);
      }
    }
  }

  lemma EdgeFromHere(g: Graph, s: int, cost: seq<U16>, done: set<int>, u: int, k: nat, e: Entry)
    requires |cost| == TRACK_MAX && u in done && HasEdge(g, u, k)
    requires Dest(g, u, k) == e.value && Label(s, cost, u) + Dist(g, u, k) == e.cost
    ensures OneEdgeFrom(g, s, cost, done, e)
  {
  }

  lemma EdgeFromStays(g: Graph, s: int, cost: seq<U16>, less: seq<U16>, done: set<int>, e: Entry)
    requires |cost| == |less| == TRACK_MAX
    requires forall x :: x in done ==> 0 <= x < TRACK_MAX && Label(s, less, x) == Label(s, cost, x)
    ensures OneEdgeFrom(g, s, cost, done, e) ==> OneEdgeFrom(g, s, less, done, e)
  {
    if OneEdgeFrom(g, s, cost, done, e) {
      var u: int, k: nat :| u in done && HasEdge(g, u, k) && Dest(g, u, k) == e.value && Label(s, cost, u) + Dist(g, u, k) == e.cost;
      assert Label(s, less, u) == Label(s, cost, u);
    }
  }

  lemma LowerStep(g: Graph, s: int, q: Search, u: int, ni: nat)
    requires Inv(g, s, q, u, ni) && PositiveLengths(g)
    requires u in q.done && HasEdge(g, u, ni) && Label(s, q.cost, u) == q.last
    requires Label(s, q.cost, u) + Dist(g, u, ni) < q.cost[Dest(g, u, ni)]
    ensures Inv(g, s, Lowered(g, q, u, ni, Label(s, q.cost, u) + Dist(g, u, ni)), u, ni + 1)
  {
    hide Settled, Tree, Relaxed, Queued, Sound;
    LowerSettled(g, s, q, u, ni);
    LowerTree(g, s, q, u, ni);
    LowerRelaxed(g, s, q, u, ni);
    LowerQueued(g, s, q, u, ni);
    LowerSound(g, s, q, u, ni);
  }

  lemma SkipStep(g: Graph, s: int, q: Search, u: int, ni: nat)
    requires Inv(g, s, q, u, ni)
    requires HasEdge(g, u, ni) && u in q.done ==>
      q.cost[Dest(g, u, ni)] <= Label(s, q.cost, u) + Dist(g, u, ni) < INFINITY
    ensures Inv(g, s, q, u, ni + 1)
  {
  }

  lemma LastEdge(g: Graph, s: int, q: Search, u: int, ni: nat)
    requires Inv(g, s, q, u, ni) && 0 <= u < TRACK_MAX && ni >= Degree(g[u])
    ensures Inv(g, s, q, NULL, 0)
  {
  }

  // ---------------------------------------------------------------- one expansion

  /** Popped entry (u, c) is being expanded, with edges `ni..` still to look at. */
  ghost predicate Expanding(g: Graph, s: int, q: Search, u: int, c: U16, first: bool, ni: nat) {
    && PositiveLengths(g) && u in q.done
    && Inv(g, s, q, if first then u else NULL, if first then ni else 0)
    && (if first then c == Label(s, q.cost, u) && c == q.last else Label(s, q.cost, u) <= c)
    && forall k: nat :: HasEdge(g, u, k) ==> c + Dist(g, u, k) < INFINITY + (if first then 0 else 1)
  }

  lemma BeginExpansion(g: Graph, s: int, q: Search, e: Entry)
    requires Inv(g, s, q, NULL, 0) && PositiveLengths(g) && FitsLabels(g, s) && Cheapest(q.bag, e)
    ensures Expanding(g, s, Popped(q, e), e.value, e.cost, e.value !in q.done, 0)
  {
    hide Settled, Tree, Relaxed, Queued;
    PopStep(g, s, q, e);
    if e.value !in q.done {
      forall k: nat | HasEdge(g, e.value, k) ensures e.cost + Dist(g, e.value, k) < INFINITY {
        FreshFits(g, s, q, e, k);
      }
    } else {
      forall k: nat | HasEdge(g, e.value, k) ensures e.cost + Dist(g, e.value, k) <= INFINITY {
        StaleFits(g, s, q, e, k);
      }
    }
  }

  /** The 16-bit cost the code computes for a neighbour. */
  function NewCost(g: Graph, u: int, k: nat, c: U16): U16
    requires HasEdge(g, u, k)
  {
    (c + Dist(g, u, k)) % 0x1_0000
  }

  lemma ExpandSkip(g: Graph, s: int, q: Search, u: int, c: U16, first: bool, ni: nat)
    requires Expanding(g, s, q, u, c, first, ni)
    requires HasEdge(g, u, ni) ==> q.cost[Dest(g, u, ni)] <= NewCost(g, u, ni, c)
    ensures Expanding(g, s, q, u, c, first, ni + 1)
  {
    if first {
      SkipStep(g, s, q, u, ni);
    }
  }

  lemma StaleIsRelaxed(g: Graph, s: int, q: Search, u: int, k: nat)
    requires Inv(g, s, q, NULL, 0) && u in q.done && HasEdge(g, u, k)
    ensures q.cost[Dest(g, u, k)] <= Label(s, q.cost, u) + Dist(g, u, k)
  {
  }

  /** Only the first expansion of a node ever lowers a label. */
  lemma ExpandLower(g: Graph, s: int, q: Search, u: int, c: U16, first: bool, ni: nat)
    requires Expanding(g, s, q, u, c, first, ni)
    requires HasEdge(g, u, ni) && q.cost[Dest(g, u, ni)] > NewCost(g, u, ni, c)
    ensures |q.cost| == |q.came| == |q.via| == TRACK_MAX
    ensures first && Expanding(g, s, Lowered(g, q, u, ni, NewCost(g, u, ni, c)), u, c, first, ni + 1)
  {
    hide Settled, Tree, Relaxed, Queued, Sound, OneEdgeFrom;
    if first {
      LowerStep(g, s, q, u, ni);
      LoweredIsOpen(g, s, q, u, ni);
    } else {
      StaleIsRelaxed(g, s, q, u, ni);
    }
  }

  lemma EndExpansion(g: Graph, s: int, q: Search, u: int, c: U16, first: bool, ni: nat)
    requires Expanding(g, s, q, u, c, first, ni) && ni >= Degree(g[u])
    ensures Inv(g, s, q, NULL, 0)
  {
    if first {
      LastEdge(g, s, q, u, ni);
    }
  }

  // ---------------------------------------------------------------- the finished search

  /** With the heap empty every label is a distance, and only reachable nodes are labelled. */
  lemma Finished(g: Graph, s: int, q: Search, v: int)
    requires Inv(g, s, q, NULL, 0) && PositiveLengths(g) && q.bag == multiset{} && 0 <= v < TRACK_MAX
    ensures Labelled(s, q.cost, v) <==> Reaches(g, s, v)
    ensures v != s ==> (q.came[v] == UNSEEN <==> !Reaches(g, s, v))
    ensures Labelled(s, q.cost, v) ==> IsShortest(g, s, WalkTo(g, s, q, NULL, 0, v))
  {
    if Labelled(s, q.cost, v) {
      assert End(g, s, WalkTo(g, s, q, NULL, 0, v)) == v;
      assert Entry(v, Label(s, q.cost, v)) !in q.bag;
      DoneIsShortest(g, s, q, v);
    }
    forall w | End(g, s, w) == v ensures Labelled(s, q.cost, v) {
      var e := Frontier(g, s, q, w);
    }
  }

  /** Labels fall strictly along predecessors, so a predecessor walk repeats no node. */
  lemma {:induction false} WalkIsSimple(g: Graph, s: int, q: Search, v: int)
    requires Inv(g, s, q, NULL, 0) && PositiveLengths(g)
    requires 0 <= v < TRACK_MAX && Labelled(s, q.cost, v)
    ensures forall x :: x in Nodes(g, s, WalkTo(g, s, q, NULL, 0, v)) ==>
      0 <= x < TRACK_MAX && (x == v || Label(s, q.cost, x) < Label(s, q.cost, v))
    ensures Distinct(Nodes(g, s, WalkTo(g, s, q, NULL, 0, v)))
    decreases Label(s, q.cost, v)
  {
    if v != s {
      var u := q.came[v];
      assert HasEdge(g, u, q.via[v]);
      WalkIsSimple(g, s, q, u);
    }
  }
}
