/** pathFind of trains/trackGraph.c: lazy-deletion search over the sparse heap,
    then reconstruction of the path into a bounded list. */
module PathFind {
  import opened Chains
  import opened SparseHeap
  import opened LinkedList
  import opened TrackGraph
  import opened Dijkstra
  import opened SearchLimits
  import opened BushGraph

  const OPEN_LIST := 0x3F

  /** How a call ends: a path, the -1 result, or a failed assertion, which halts the kernel. */
  datatype Outcome = Found | NotFound | Asserted

  // ---------------------------------------------------------------- measures

  ghost function Total(cost: seq<U16>): nat {
    if cost == [] then 0 else cost[0] + Total(cost[1..])
  }

  lemma {:induction false} TotalFalls(cost: seq<U16>, v: nat, c: U16)
    requires v < |cost| && c < cost[v]
    ensures Total(cost[v := c]) < Total(cost)
  {
    if v == 0 {
      assert cost[v := c][1..] == cost[1..];
    } else {
      TotalFalls(cost[1..], v - 1, c);
      assert cost[v := c][1..] == cost[1..][v - 1 := c];
    }
  }

  /** Every marked node names a predecessor that is the start or is itself marked. */
  ghost predicate Chained(s: int, came: seq<int>, bag: multiset<Entry>) {
    && |came| == TRACK_MAX
    && (forall v {:trigger came[v]} :: 0 <= v < TRACK_MAX && came[v] != UNSEEN ==> Marked(s, came, came[v]))
    && (forall e :: e in bag ==> Marked(s, came, e.value))
  }

  ghost predicate Marked(s: int, came: seq<int>, v: int)
    requires |came| == TRACK_MAX
  {
    0 <= v < TRACK_MAX && (v == s || came[v] != UNSEEN)
  }

  lemma ChainedStep(s: int, came: seq<int>, bag: multiset<Entry>, u: int, v: U16, c: U16)
    requires Chained(s, came, bag) && Marked(s, came, u) && v < TRACK_MAX
    ensures Chained(s, came[v := u], bag + multiset{Entry(v, c)}) && Marked(s, came[v := u], u)
  {
  }

  // ---------------------------------------------------------------- expanding one entry

  /** The executable half of a search agrees with its history. */
  ghost predicate Agrees(q: Search, cost: array<U16>, came: array<int>, heap: HeapU16)
    reads cost, came, heap, heap.nodes
  {
    q.cost == cost[..] && q.came == came[..] && q.bag == heap.Contents()
  }

  /** The work and the history of an expansion so far. */
  ghost predicate Progress(q0: Search, q: Search, pushes: nat) {
    q.done == q0.done && q.last == q0.last && |q.bag| == |q0.bag| + pushes
  }

  /** One pass of the inner loop: relax edge `ni` of `u`. */
  method RelaxEdge(g: Graph, s: int, heap: HeapU16, cost: array<U16>, came: array<int>, u: int, c: U16, ni: nat,
                   ghost ok: bool, ghost first: bool, ghost q: Search)
    returns (asserted: bool, ghost r: Search, ghost pushed: bool)
    requires 0 <= s < TRACK_MAX && heap.Valid() && cost.Length == came.Length == TRACK_MAX
    requires Chained(s, came[..], heap.Contents()) && Marked(s, came[..], u)
    requires ok ==> Agrees(q, cost, came, heap) && Expanding(g, s, q, u, c, first, ni) && Watched(g, s, q, u, first, ni)
    modifies heap, heap.nodes, cost, came
    ensures heap.Valid()
    ensures !asserted ==> Chained(s, came[..], heap.Contents()) && Marked(s, came[..], u)
    ensures pushed <==> HasEdge(g, u, ni) && old(cost[Dest(g, u, ni)]) > NewCost(g, u, ni, c)
    ensures if pushed then
              && cost[..] == old(cost[..])[Dest(g, u, ni) := NewCost(g, u, ni, c)]
              && came[..] == old(came[..])[Dest(g, u, ni) := u]
              && Total(cost[..]) < Total(old(cost[..]))
              && (!asserted ==>
                    heap.Contents() == old(heap.Contents()) + multiset{Entry(Dest(g, u, ni), NewCost(g, u, ni, c))})
            else cost[..] == old(cost[..]) && came[..] == old(came[..]) && heap.Contents() == old(heap.Contents())
    ensures asserted <==> pushed && |old(heap.Contents())| == heap.nodes.Length
    ensures ok && !asserted ==> Agrees(r, cost, came, heap) && Expanding(g, s, r, u, c, first, ni + 1)
    ensures ok && !asserted ==> Watched(g, s, r, u, first, ni + 1)
    ensures ok && !asserted ==> Progress(q, r, if pushed then 1 else 0)
    ensures ok && pushed ==> first
    ensures ok && asserted ==> |Peak(g, s, q.last)| > heap.nodes.Length
  {
    hide Chained, Expanding, Inv, Bag, Wellformed, Total, Watched, Peak;
    r, pushed, asserted := q, false, false;
    if !HasEdge(g, u, ni) {
      if ok {
        ExpandSkip(g, s, q, u, c, first, ni);
        WatchSkip(g, s, q, u, c, first, ni);
      }
      return;
    }
    var v: U16, n: U16 := Dest(g, u, ni), NewCost(g, u, ni, c);
    if cost[v] <= n {
      if ok {
        ExpandSkip(g, s, q, u, c, first, ni);
        WatchSkip(g, s, q, u, c, first, ni);
      }
      return;
    }
    if ok {
      ExpandLower(g, s, q, u, c, first, ni);
      WatchLower(g, s, q, u, c, first, ni);
      r := Lowered(g, q, u, ni, n);
    }
    TotalFalls(cost[..], v, n);
    ChainedStep(s, came[..], heap.Contents(), u, v, n);
    ghost var costs, links := cost[..], came[..];
    came[v] := u;
    cost[v] := n;
    assert cost[..] == costs[v := n] && came[..] == links[v := u];
    var rc := heap.Push(v, n);
    asserted, pushed := rc < 0, true;
  }

  /** The inner loop: relax every edge of the popped node `u`. */
  method Expand(g: Graph, s: int, heap: HeapU16, cost: array<U16>, came: array<int>, u: int, c: U16,
                ghost ok: bool, ghost first: bool, ghost q: Search)
    returns (asserted: bool, ghost r: Search, ghost pushes: nat)
    requires 0 <= s < TRACK_MAX && 0 <= u < TRACK_MAX && heap.Valid() && cost.Length == came.Length == TRACK_MAX
    requires Chained(s, came[..], heap.Contents()) && Marked(s, came[..], u)
    requires ok ==> Agrees(q, cost, came, heap) && Expanding(g, s, q, u, c, first, 0) && Watched(g, s, q, u, first, 0)
    modifies heap, heap.nodes, cost, came
    ensures heap.Valid()
    ensures !asserted ==> Chained(s, came[..], heap.Contents())
    ensures !asserted ==>
      (cost[..] == old(cost[..]) && heap.Contents() == old(heap.Contents())) ||
      Total(cost[..]) < Total(old(cost[..]))
    ensures ok && !asserted ==> Agrees(r, cost, came, heap) && Inv(g, s, r, NULL, 0) && Progress(q, r, pushes) && Watched(g, s, r, NULL, false, 0)
    ensures ok && !asserted ==> pushes <= if first then LiveEdges(g, u, Degree(g[u])) else 0
    ensures ok && asserted ==> first && |q.bag| + Degree(g[u]) > heap.nodes.Length
    ensures ok && asserted ==> |Peak(g, s, q.last)| > heap.nodes.Length
  {
    hide Chained, Expanding, Inv, Bag, Wellformed, Total, Watched, Peak;
    var ni: nat := 0;
    r, pushes, asserted := q, 0, false;
    while ni < Degree(g[u])
      invariant ni <= Degree(g[u]) && heap.Valid()
      invariant Chained(s, came[..], heap.Contents()) && Marked(s, came[..], u)
      invariant (cost[..] == old(cost[..]) && heap.Contents() == old(heap.Contents())) ||
                Total(cost[..]) < Total(old(cost[..]))
      invariant ok ==> Agrees(r, cost, came, heap) && Expanding(g, s, r, u, c, first, ni) && Progress(q, r, pushes)
      invariant ok ==> Watched(g, s, r, u, first, ni)
      invariant ok ==> pushes <= if first then LiveEdges(g, u, ni) else 0
      invariant LiveEdges(g, u, ni) <= ni
    {
      ghost var pushed;
      asserted, r, pushed := RelaxEdge(g, s, heap, cost, came, u, c, ni, ok, first, r);
      if asserted {
        return;
      }
      pushes := pushes + (if pushed then 1 else 0);
      ni := ni + 1;
    }
    if ok {
      EndExpansion(g, s, r, u, c, first, ni);
      EndWatch(g, s, r, u, first, ni);
    }
  }

  // ---------------------------------------------------------------- the search loop

  ghost predicate CostsRise(pops: seq<Entry>) {
    forall i, j :: 0 <= i < j < |pops| ==> pops[i].cost <= pops[j].cost
  }

  ghost predicate Before(pops: seq<Entry>, n: nat, v: int)
    requires n <= |pops|
  {
    exists i :: 0 <= i < n && pops[i].value == v
  }

  /** A node is popped for the first time at its distance. */
  ghost predicate FirstAtDistance(g: Graph, s: int, pops: seq<Entry>)
    requires 0 <= s < TRACK_MAX
  {
    forall j :: 0 <= j < |pops| && !Before(pops, j, pops[j].value) ==> IsDistance(g, s, pops[j].value, pops[j].cost)
  }

  ghost predicate Seen(pops: seq<Entry>, q: Search) {
    && (forall v {:trigger v in q.done} :: v in q.done <==> Before(pops, |pops|, v))
    && (forall i :: 0 <= i < |pops| ==> pops[i].cost <= q.last)
  }

  ghost predicate AllReached(g: Graph, s: int, done: set<int>)
    requires 0 <= s < TRACK_MAX
  {
    forall v :: v in done ==> Reaches(g, s, v)
  }

  /** How full the heap can be, how much has been pushed, and in which order entries came out. */
  ghost predicate Counted(g: Graph, s: int, q: Search, pops: seq<Entry>, pushes: nat)
    requires 0 <= s < TRACK_MAX
  {
    && |q.bag| <= 1 + |q.done * Branches(g)|
    && pushes <= 1 + |EdgesFrom(g, q.done)|
    && CostsRise(pops) && FirstAtDistance(g, s, pops)
    && Seen(pops, q) && AllReached(g, s, q.done)
  }

  lemma EdgesOfOneMore(g: Graph, nodes: set<int>, u: int)
    requires 0 <= u < TRACK_MAX && u !in nodes
    ensures |EdgesFrom(g, nodes + {u})| == |EdgesFrom(g, nodes)| + LiveEdges(g, u, Degree(g[u]))
  {
    var one: set<(int, nat)> := set k: nat | 0 <= k < 2 && HasEdge(g, u, k) :: (u, k);
    assert EdgesFrom(g, nodes + {u}) == EdgesFrom(g, nodes) + one;
    assert EdgesFrom(g, nodes) !! one;
    assert one == (if HasEdge(g, u, 0) then {(u, 0)} else {}) + (if HasEdge(g, u, 1) then {(u, 1)} else {});
    assert LiveEdges(g, u, 1) == if HasEdge(g, u, 0) then 1 else 0;
  }

  lemma BranchesOfOneMore(g: Graph, done: set<int>, u: int)
    requires 0 <= u < TRACK_MAX && u !in done
    ensures |(done + {u}) * Branches(g)| == |done * Branches(g)| + Degree(g[u]) - 1
    ensures |done * Branches(g)| + Degree(g[u]) <= |Branches(g)| + 1
  {
    var b := Branches(g);
    if g[u].isBranch {
      assert (done + {u}) * b == done * b + {u};
      SubsetSize((done + {u}) * b, b);
    } else {
      assert (done + {u}) * b == done * b;
      SubsetSize(done * b, b);
    }
  }

  lemma BeforeStep(pops: seq<Entry>, e: Entry, v: int)
    ensures Before(pops + [e], |pops| + 1, v) <==> Before(pops, |pops|, v) || e.value == v
    ensures forall n :: 0 <= n <= |pops| ==> (Before(pops + [e], n, v) <==> Before(pops, n, v))
  {
    var all := pops + [e];
    assert forall i :: 0 <= i < |pops| ==> all[i] == pops[i];
    assert all[|pops|] == e;
  }

  lemma SeenStep(q: Search, r: Search, pops: seq<Entry>, e: Entry)
    requires Seen(pops, q) && q.last <= e.cost == r.last && r.done == q.done + {e.value as int}
    ensures Seen(pops + [e], r)
  {
    var all := pops + [e];
    forall v ensures v in r.done <==> Before(all, |all|, v) {
      BeforeStep(pops, e, v);
      assert v in r.done <==> v in q.done || e.value == v;
    }
  }

  lemma FirstStep(g: Graph, s: int, pops: seq<Entry>, e: Entry)
    requires 0 <= s < TRACK_MAX && FirstAtDistance(g, s, pops)
    requires Before(pops, |pops|, e.value) || IsDistance(g, s, e.value, e.cost)
    ensures FirstAtDistance(g, s, pops + [e])
  {
    hide IsDistance;
    var all := pops + [e];
    forall j | 0 <= j < |all| && !Before(all, j, all[j].value)
      ensures IsDistance(g, s, all[j].value, all[j].cost)
    {
      BeforeStep(pops, e, all[j].value);
      assert j < |pops| ==> all[j] == pops[j];
    }
  }

  lemma PoppedIsDistance(g: Graph, s: int, q: Search, e: Entry)
    requires Inv(g, s, q, NULL, 0) && PositiveLengths(g) && Cheapest(q.bag, e)
    ensures q.last <= e.cost && e.value < TRACK_MAX
    ensures e.value !in q.done ==> Reaches(g, s, e.value) && IsDistance(g, s, e.value, e.cost)
  {
    PopSound(g, s, q, e);
    if e.value !in q.done {
      CheapestIsShortest(g, s, q, e);
      var w := WalkTo(g, s, q, NULL, 0, e.value);
      assert End(g, s, w) == e.value;
    }
  }

  /** Popping and expanding one entry keeps the counters. */
  lemma CountStep(g: Graph, s: int, q: Search, pops: seq<Entry>, pushes: nat, e: Entry, r: Search, more: nat)
    requires Inv(g, s, q, NULL, 0) && PositiveLengths(g) && Cheapest(q.bag, e) && Counted(g, s, q, pops, pushes)
    requires 0 <= s < TRACK_MAX && e.value < TRACK_MAX && Progress(Popped(q, e), r, more)
    requires more <= if e.value !in q.done then LiveEdges(g, e.value, Degree(g[e.value])) else 0
    ensures Counted(g, s, r, pops + [e], pushes + more)
  {
    hide Inv, PositiveLengths, IsDistance, FirstAtDistance, Seen, Before, Branches, EdgesFrom, Reaches;
    PoppedIsDistance(g, s, q, e);
    NewIsUnseen(q, pops, e.value);
    FirstStep(g, s, pops, e);
    SeenStep(q, r, pops, e);
    LiveEdgesBound(g, e.value, Degree(g[e.value]));
    if e.value !in q.done {
      EdgesOfOneMore(g, q.done, e.value);
      BranchesOfOneMore(g, q.done, e.value);
    } else {
      assert r.done == q.done;
    }
  }

  /** With few enough branches an expansion cannot overfill the heap. */
  lemma RoomToExpand(g: Graph, s: int, q: Search, pops: seq<Entry>, pushes: nat, e: Entry)
    requires 0 <= s < TRACK_MAX && Counted(g, s, q, pops, pushes) && e in q.bag
    requires e.value !in q.done && e.value < TRACK_MAX
    ensures |Popped(q, e).bag| + Degree(g[e.value]) <= |Branches(g)| + 1
  {
    BranchesOfOneMore(g, q.done, e.value);
  }

  lemma NewIsUnseen(q: Search, pops: seq<Entry>, v: int)
    requires Seen(pops, q)
    ensures v in q.done <==> Before(pops, |pops|, v)
  {
  }

  lemma LiveEdgesBound(g: Graph, u: int, n: nat)
    ensures LiveEdges(g, u, n) <= n
  {
  }

  /** One pass of the outer loop, after `e` has been popped. */
  method ExpandNext(g: Graph, s: int, heap: HeapU16, cost: array<U16>, came: array<int>, ghost ok: bool, e: Entry,
                    ghost q: Search, ghost pops: seq<Entry>, ghost pushes: nat)
    returns (asserted: bool, ghost r: Search, ghost more: nat)
    requires 0 <= s < TRACK_MAX && heap.Valid() && cost.Length == came.Length == TRACK_MAX && e.value < TRACK_MAX
    requires Chained(s, came[..], heap.Contents()) && Marked(s, came[..], e.value)
    requires ok ==> PositiveLengths(g) && FitsLabels(g, s)
    requires ok ==> Inv(g, s, q, NULL, 0) && Counted(g, s, q, pops, pushes) && Cheapest(q.bag, e)
    requires ok ==> Agrees(Popped(q, e), cost, came, heap) && Watched(g, s, q, NULL, false, 0)
    modifies heap, heap.nodes, cost, came
    ensures heap.Valid()
    ensures !asserted ==> Chained(s, came[..], heap.Contents())
    ensures !asserted ==>
      (cost[..] == old(cost[..]) && heap.Contents() == old(heap.Contents())) ||
      Total(cost[..]) < Total(old(cost[..]))
    ensures ok && !asserted ==> Agrees(r, cost, came, heap) && Inv(g, s, r, NULL, 0) && r.last == e.cost
    ensures ok && !asserted ==> Watched(g, s, r, NULL, false, 0)
    ensures ok && !asserted ==> Counted(g, s, r, pops + [e], pushes + more)
    ensures ok && asserted ==> |Branches(g)| >= heap.nodes.Length && Crowded(g, s, heap.nodes.Length)
  {
    hide FitsLabels, PositiveLengths, Total, Chained, Wellformed, Bag, Counted, Inv, Expanding, Branches, Watched, Peak;
    ghost var p, first := q, ok && e.value !in q.done;
    if ok {
      BeginExpansion(g, s, q, e);
      BeginWatch(g, s, q, e);
      p := Popped(q, e);
      if first {
        RoomToExpand(g, s, q, pops, pushes, e);
      }
    }
    asserted, r, more := Expand(g, s, heap, cost, came, e.value, e.cost, ok, first, p);
    if ok && !asserted {
      CountStep(g, s, q, pops, pushes, e, r, more);
    }
  }

  /** Pop and expand until the heap is empty. On every graph this ends; when costs
      fit and lengths are positive the labels it leaves are distances. */
  method RunSearch(g: Graph, s: int, heap: HeapU16, cost: array<U16>, came: array<int>, ghost ok: bool)
    returns (asserted: bool, ghost q: Search, ghost pops: seq<Entry>, ghost pushes: nat)
    requires 0 <= s < TRACK_MAX && heap.Valid() && cost.Length == came.Length == TRACK_MAX
    requires heap.Contents() == multiset{Entry(s, 0)} && heap.nodes.Length >= 3 && heap.nodes.Length % 2 == 1
    requires cost[..] == seq(TRACK_MAX, _ => INFINITY) && came[..] == seq(TRACK_MAX, _ => UNSEEN)
    requires ok ==> PositiveLengths(g) && FitsLabels(g, s)
    modifies heap, heap.nodes, cost, came
    ensures !asserted ==> heap.Valid() && heap.Contents() == multiset{} && Chained(s, came[..], multiset{})
    ensures ok && !asserted ==> Agrees(q, cost, came, heap) && Inv(g, s, q, NULL, 0) && Counted(g, s, q, pops, pushes)
    ensures ok && asserted ==> |Branches(g)| >= heap.nodes.Length && Crowded(g, s, heap.nodes.Length)
    ensures ok && !asserted ==> !Overflows(g, s, heap.nodes.Length)
  {
    hide FitsLabels, PositiveLengths, Total, Chained, Wellformed, Bag, Counted, Branches, FitsBelow, Overflows, Watched, Crowded;
    hide Inv, Marked, Labelled;
    q := StartSearch(g, s, cost[..], came[..], heap.Contents());
    pops, pushes, asserted := [], 1, false;
    FitsAtFirst(g, s, heap.nodes.Length);
    while true
      invariant heap.Valid() && Chained(s, came[..], heap.Contents())
      invariant ok ==> FitsBelow(g, s, q.last, heap.nodes.Length) && Watched(g, s, q, NULL, false, 0)
      invariant ok ==> Agrees(q, cost, came, heap) && Inv(g, s, q, NULL, 0) && Counted(g, s, q, pops, pushes)
      decreases Total(cost[..]), |heap.Contents()|
    {
      ghost var bag := heap.Contents();
      BagSize(heap.nodes[..]);
      var rc, value, price := heap.Pop();
      if rc < 0 {
        if ok {
          WatchedAll(g, s, q, heap.nodes.Length);
        }
        break;
      }
      ghost var e := Entry(value, price);
      ChainedPop(s, came[..], bag, e, heap.Contents());
      if ok {
        WatchedUpTo(g, s, q, e, heap.nodes.Length);
      }
      ghost var r, more;
      asserted, r, more := ExpandNext(g, s, heap, cost, came, ok, Entry(value, price), q, pops, pushes);
      if asserted {
        return;
      }
      q, pops, pushes := r, pops + [e], pushes + more;
    }
  }

  lemma FitsAtFirst(g: Graph, s: int, n: nat)
    requires 0 <= s < TRACK_MAX
    ensures FitsBelow(g, s, 0, n)
  {
  }

  lemma StartSearch(g: Graph, s: int, cost: seq<U16>, came: seq<int>, bag: multiset<Entry>) returns (q: Search)
    requires 0 <= s < TRACK_MAX && bag == multiset{Entry(s, 0)}
    requires cost == seq(TRACK_MAX, _ => INFINITY) && came == seq(TRACK_MAX, _ => UNSEEN)
    ensures q.cost == cost && q.came == came && q.bag == bag && q.last == 0
    ensures PositiveLengths(g) ==> Watched(g, s, q, NULL, false, 0)
    ensures Inv(g, s, q, NULL, 0) && Counted(g, s, q, [], 1) && Chained(s, came, bag)
  {
    q := Search(cost, came, seq(TRACK_MAX, _ => 0), bag, {}, 0);
    Start(g, s, q.via);
    if PositiveLengths(g) { ExactStart(g, s, q); }
    hide Exact, PositiveLengths;
    assert {} * Branches(g) == {};
  }

  lemma ChainedPop(s: int, came: seq<int>, bag: multiset<Entry>, e: Entry, rest: multiset<Entry>)
    requires Chained(s, came, bag) && e in bag && rest + multiset{e} == bag
    ensures rest == bag - multiset{e} && Chained(s, came, rest) && Marked(s, came, e.value)
  {
    assert bag - multiset{e} == rest;
    assert forall x :: x in rest ==> x in bag;
  }

  // ---------------------------------------------------------------- reconstruction

  ghost predicate HasPath(g: Graph, s: int, q: Search, v: int) {
    Inv(g, s, q, NULL, 0) && PositiveLengths(g) && 0 <= v < TRACK_MAX && Labelled(s, q.cost, v)
  }

  ghost function PathTo(g: Graph, s: int, q: Search, v: int): seq<int>
    requires HasPath(g, s, q, v)
  {
    Nodes(g, s, WalkTo(g, s, q, NULL, 0, v))
  }

  lemma PathFacts(g: Graph, s: int, q: Search, v: int)
    requires HasPath(g, s, q, v)
    ensures |q.came| == TRACK_MAX
    ensures 0 < |PathTo(g, s, q, v)| <= TRACK_MAX
    ensures v == s ==> PathTo(g, s, q, v) == [s]
    ensures v != s ==> HasPath(g, s, q, q.came[v])
                       && PathTo(g, s, q, v) == PathTo(g, s, q, q.came[v]) + [v]
  {
    WalkIsSimple(g, s, q, v);
    Pigeonhole(PathTo(g, s, q, v), 0, TRACK_MAX);
    if v != s {
      var u := q.came[v];
      assert HasEdge(g, u, q.via[v]);
    }
  }

  lemma StepBack(s: int, came: seq<int>, x: int)
    requires Chained(s, came, multiset{}) && Marked(s, came, x) && x != s
    ensures 0 <= x < |came| && Marked(s, came, came[x])
  {
  }

  /** Follow predecessors back from `end`, pushing each node to the front of the list. */
  method Rebuild(g: Graph, s: int, came: array<int>, end: int, path: ListU32, ghost ok: bool, ghost q: Search)
    returns (asserted: bool)
    requires came.Length == TRACK_MAX && path.Valid() && path.Contents() == [] && |path.free| == TRACK_MAX
    requires path.next != came
    requires 0 <= s < TRACK_MAX && Chained(s, came[..], multiset{}) && Marked(s, came[..], end)
    requires ok ==> HasPath(g, s, q, end) && |q.came| == TRACK_MAX
    requires ok ==> forall v :: 0 <= v < TRACK_MAX && v != s ==> came[v] == q.came[v]
    modifies path, path.data, path.next
    ensures path.Valid()
    ensures ok ==> !asserted && path.Contents() == PathTo(g, s, q, end)
  {
    hide HasPath, PathTo, TwoLists, Values, Chained;
    var x := end;
    while true
      invariant path.Valid() && Marked(s, came[..], x) && came[..] == old(came[..])
      invariant |path.Contents()| + |path.free| == TRACK_MAX
      invariant ok ==> HasPath(g, s, q, x) && PathTo(g, s, q, x) + path.Contents() == PathTo(g, s, q, end)
      decreases |path.free|
    {
      if ok {
        PathFacts(g, s, q, x);
        PathFacts(g, s, q, end);
      }
      var rc := path.PushFront(x);
      if rc < 0 {
        return true;
      }
      if x == s {
        break;
      }
      StepBack(s, came[..], x);
      x := came[x];
    }
    asserted := false;
  }

  // ---------------------------------------------------------------- pathFind

  /** The list holds a shortest walk of real edges from `s` to `e`. */
  ghost predicate IsShortestPath(g: Graph, s: int, e: int, path: seq<int>)
    requires 0 <= s < TRACK_MAX
  {
    exists w :: IsShortest(g, s, w) && End(g, s, w) == e && path == Nodes(g, s, w)
  }

  /** pathFind. It ends on every graph. With positive lengths and costs that fit, a
      path is found exactly when one exists, and it is a shortest one. No assertion fails
      while the graph has fewer branches than the heap has slots, nor while no more entries can
      wait at once than those; one does fail when more are certain to. When no two entries have
      the same cost that decides it: an assertion fails if and only if, at some distance, more
      entries wait than the heap has slots. */
  method PathFind(g: Graph, start: int, end: int, data: array<U32>, next: array<int>)
    returns (outcome: Outcome, path: ListU32?, ghost pops: seq<Entry>, ghost pushes: nat)
    requires 0 <= start < TRACK_MAX && 0 <= end < TRACK_MAX
    requires data.Length == next.Length == TRACK_MAX
    modifies data, next
    ensures outcome.Found? ==> path != null && path.Valid()
    ensures PositiveLengths(g) && FitsLabels(g, start) && outcome.Found? ==>
      IsShortestPath(g, start, end, path.Contents())
    ensures PositiveLengths(g) && FitsLabels(g, start) && outcome.NotFound? ==> !Reaches(g, start, end)
    ensures PositiveLengths(g) && FitsLabels(g, start) && |Branches(g)| < OPEN_LIST ==> !outcome.Asserted?
    ensures PositiveLengths(g) && FitsLabels(g, start) && !Crowded(g, start, OPEN_LIST) ==> !outcome.Asserted?
    ensures PositiveLengths(g) && FitsLabels(g, start) && Overflows(g, start, OPEN_LIST) ==> outcome.Asserted?
    ensures PositiveLengths(g) && FitsLabels(g, start) && TieFree(g, start) ==>
      (outcome.Asserted? <==> Crowded(g, start, OPEN_LIST))
    ensures PositiveLengths(g) && FitsLabels(g, start) && !outcome.Asserted? ==>
      CostsRise(pops) && FirstAtDistance(g, start, pops)
    ensures PositiveLengths(g) && FitsLabels(g, start) && !outcome.Asserted? ==>
      pushes <= 1 + |EdgesFrom(g, ReachableFrom(g, start))|
  {
    hide FitsLabels, PositiveLengths, Chained, Wellformed, Bag, Counted, Branches, Inv, Overflows, Crowded, TieFree, TwoLists, Values;
    ghost var ok := PositiveLengths(g) && FitsLabels(g, start);
    var cost := new U16[TRACK_MAX](_ => INFINITY);
    var came := new int[TRACK_MAX](_ => UNSEEN);
    var openList := new HeapNode[OPEN_LIST](_ => HeapNode(0, 0, false, NULL));
    var heap := new HeapU16(openList);
    path, pops, pushes := null, [], 0;
    var rc := heap.Push(start, 0);
    if rc < 0 {
      return Asserted, path, pops, pushes;
    }
    var asserted;
    ghost var q;
    asserted, q, pops, pushes := RunSearch(g, start, heap, cost, came, ok);
    if asserted {
      return Asserted, path, pops, pushes;
    }
    if ok {
      Finished(g, start, q, end);
      CountedResult(g, start, q, pops, pushes);
      if TieFree(g, start) {
        NoGapWithoutTies(g, start, OPEN_LIST);
      }
    }
    if start == end {
      ChainedStart(start, came[..]);
      ghost var links := came[..];
      came[end] := start;
      assert came[..] == links[start := start];
    }
    if came[end] == UNSEEN {
      return NotFound, path, pops, pushes;
    }
    path := new ListU32(data, next);
    asserted := Rebuild(g, start, came, end, path, ok, q);
    if asserted {
      return Asserted, path, pops, pushes;
    }
    outcome := Found;
  }

  /** On the bush every call fails an assertion, although all lengths are positive and all costs
      fit: the open list overflows. */
  method FindInBush(end: int, data: array<U32>, next: array<int>) returns (outcome: Outcome)
    requires 0 <= end < TRACK_MAX && data.Length == next.Length == TRACK_MAX
    modifies data, next
    ensures outcome.Asserted?
  {
    hide Overflows, Crowded, PositiveLengths, FitsLabels;
    BushOverflows();
    var path;
    ghost var pops, pushes;
    outcome, path, pops, pushes := PathFind(Bush(), 0, end, data, next);
  }

  lemma ChainedStart(s: int, came: seq<int>)
    requires 0 <= s < TRACK_MAX && Chained(s, came, multiset{})
    ensures Chained(s, came[s := s], multiset{})
  {
  }

  lemma CountedResult(g: Graph, s: int, q: Search, pops: seq<Entry>, pushes: nat)
    requires 0 <= s < TRACK_MAX && Counted(g, s, q, pops, pushes) && Inv(g, s, q, NULL, 0)
    ensures CostsRise(pops) && FirstAtDistance(g, s, pops)
    ensures pushes <= 1 + |EdgesFrom(g, ReachableFrom(g, s))|
  {
    assert q.done <= ReachableFrom(g, s);
    assert EdgesFrom(g, q.done) <= EdgesFrom(g, ReachableFrom(g, s));
    SubsetSize(EdgesFrom(g, q.done), EdgesFrom(g, ReachableFrom(g, s)));
  }
}
