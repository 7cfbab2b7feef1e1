/** When the open list of trains/trackGraph.c is large enough: which entries wait in it at once,
    told from the graph alone. */
module SearchLimits {
  import opened Chains
  import opened SparseHeap
  import opened TrackGraph
  import opened Dijkstra

  // ---------------------------------------------------------------- distances

  ghost predicate IsDistance(g: Graph, s: int, v: int, d: int)
    requires 0 <= s < TRACK_MAX
  {
    exists w :: IsShortest(g, s, w) && End(g, s, w) == v && Length(g, s, w) == d
  }

  ghost predicate Known(g: Graph, s: int, v: int)
    requires 0 <= s < TRACK_MAX
  {
    exists d :: IsDistance(g, s, v, d)
  }

  /** How far node v is from the start. */
  ghost function Far(g: Graph, s: int, v: int): int
    requires 0 <= s < TRACK_MAX
  {
    if Known(g, s, v) then var d :| IsDistance(g, s, v, d); d else -1
  }

  lemma FarIs(g: Graph, s: int, v: int, d: int)
    requires 0 <= s < TRACK_MAX && IsDistance(g, s, v, d)
    ensures Known(g, s, v) && Far(g, s, v) == d
  {
    var w :| IsShortest(g, s, w) && End(g, s, w) == v && Length(g, s, w) == d;
    var o :| IsShortest(g, s, o) && End(g, s, o) == v && Length(g, s, o) == Far(g, s, v);
  }

  // ---------------------------------------------------------------- the entries a search makes

  /** An edge out of a reachable node. */
  ghost predicate Leads(g: Graph, s: int, u: int, k: nat)
    requires 0 <= s < TRACK_MAX
  {
    HasEdge(g, u, k) && Known(g, s, u)
  }

  /** The cost at which an edge reaches its end. */
  ghost function Arrival(g: Graph, s: int, u: int, k: nat): int
    requires 0 <= s < TRACK_MAX && HasEdge(g, u, k)
  {
    Far(g, s, u) + Dist(g, u, k)
  }

  /** The edge can make an entry: it improves on every edge to the same end that is looked at
      earlier, from a nearer node or as the first of the same node's. */
  ghost predicate Improves(g: Graph, s: int, u: int, k: nat)
    requires 0 <= s < TRACK_MAX
  {
    && Leads(g, s, u, k)
    && forall x: int, j: nat {:trigger Leads(g, s, x, j)} ::
         Leads(g, s, x, j) && Dest(g, x, j) == Dest(g, u, k) && (Far(g, s, x) < Far(g, s, u) || (x == u && j < k)) ==>
           Arrival(g, s, u, k) < Arrival(g, s, x, j)
  }

  /** The edge's entry is certain to be made, by this edge or by one as good: no edge to the same
      end that can be looked at earlier is better. */
  ghost predicate Certain(g: Graph, s: int, u: int, k: nat)
    requires 0 <= s < TRACK_MAX
  {
    && Leads(g, s, u, k)
    && forall x: int, j: nat {:trigger Leads(g, s, x, j)} ::
         Leads(g, s, x, j) && Dest(g, x, j) == Dest(g, u, k) && Far(g, s, x) <= Far(g, s, u) && !(x == u && j > k) ==>
           Arrival(g, s, u, k) <= Arrival(g, s, x, j)
  }

  /** The entries, as node and cost, that can wait once everything within distance d is expanded. */
  ghost function Open(g: Graph, s: int, d: int): set<(int, int)>
    requires 0 <= s < TRACK_MAX
  {
    set u, k: nat | 0 <= u < TRACK_MAX && 0 <= k < 2 && Improves(g, s, u, k) &&
                    Far(g, s, u) <= d < Arrival(g, s, u, k) :: (Dest(g, u, k), Arrival(g, s, u, k))
  }

  /** The same with the entries of cost d itself, of which some may still wait. */
  ghost function Crossing(g: Graph, s: int, d: int): set<(int, int)>
    requires 0 <= s < TRACK_MAX
  {
    set u, k: nat | 0 <= u < TRACK_MAX && 0 <= k < 2 && Improves(g, s, u, k) &&
                    Far(g, s, u) <= d <= Arrival(g, s, u, k) :: (Dest(g, u, k), Arrival(g, s, u, k))
  }

  /** The entries that then wait for certain. */
  ghost function Sure(g: Graph, s: int, d: int): set<(int, int)>
    requires 0 <= s < TRACK_MAX
  {
    set u, k: nat | 0 <= u < TRACK_MAX && 0 <= k < 2 && Certain(g, s, u, k) &&
                    Far(g, s, u) <= d < Arrival(g, s, u, k) :: (Dest(g, u, k), Arrival(g, s, u, k))
  }

  /** No two entries have the same cost, so the order in which the heap gives them out is fixed. */
  ghost predicate TieFree(g: Graph, s: int)
    requires 0 <= s < TRACK_MAX
  {
    forall u: int, k: nat, x: int, j: nat {:trigger Improves(g, s, u, k), Improves(g, s, x, j)} ::
      Improves(g, s, u, k) && Improves(g, s, x, j) && Arrival(g, s, u, k) == Arrival(g, s, x, j) ==>
        Dest(g, u, k) == Dest(g, x, j)
  }

  /** The most that can wait while entries of cost d are taken out. */
  ghost function Peak(g: Graph, s: int, d: int): set<(int, int)>
    requires 0 <= s < TRACK_MAX
  {
    if TieFree(g, s) then Open(g, s, d) else Crossing(g, s, d)
  }

  /** At some distance more than `n` entries can wait. */
  ghost predicate Crowded(g: Graph, s: int, n: nat)
    requires 0 <= s < TRACK_MAX
  {
    exists d :: 0 <= d && |Peak(g, s, d)| > n
  }

  /** At some distance more than `n` entries wait for certain. */
  ghost predicate Overflows(g: Graph, s: int, n: nat)
    requires 0 <= s < TRACK_MAX
  {
    exists d :: 0 <= d && |Sure(g, s, d)| > n
  }

  // ---------------------------------------------------------------- without ties the two agree

  /** The last edge of a shortest walk is tight. */
  ghost predicate Tight(g: Graph, s: int, u: int, k: nat)
    requires 0 <= s < TRACK_MAX
  {
    Leads(g, s, u, k) && Known(g, s, Dest(g, u, k)) && Arrival(g, s, u, k) == Far(g, s, Dest(g, u, k))
  }

  lemma SomeTight(g: Graph, s: int, v: int) returns (u: int, k: nat)
    requires 0 <= s < TRACK_MAX && Known(g, s, v) && v != s
    ensures Tight(g, s, u, k) && Dest(g, u, k) == v
  {
    var d :| IsDistance(g, s, v, d);
    FarIs(g, s, v, d);
    var w :| IsShortest(g, s, w) && End(g, s, w) == v && Length(g, s, w) == d;
    u, k := End(g, s, w.prefix), w.choice;
    forall o | End(g, s, o) == u ensures Length(g, s, w.prefix) <= Length(g, s, o) {
      assert End(g, s, Go(o, k)) == v && Length(g, s, Go(o, k)) == Length(g, s, o) + Dist(g, u, k);
    }
    assert IsDistance(g, s, u, Length(g, s, w.prefix));
    FarIs(g, s, u, Length(g, s, w.prefix));
  }

  /** No edge arrives before the distance of its end. */
  lemma NotBefore(g: Graph, s: int, u: int, k: nat)
    requires 0 <= s < TRACK_MAX && Leads(g, s, u, k) && Known(g, s, Dest(g, u, k))
    ensures Far(g, s, Dest(g, u, k)) <= Arrival(g, s, u, k)
  {
    var w :| IsShortest(g, s, w) && End(g, s, w) == u && Length(g, s, w) == Far(g, s, u);
    var o :| IsShortest(g, s, o) && End(g, s, o) == Dest(g, u, k) && Length(g, s, o) == Far(g, s, Dest(g, u, k));
    assert End(g, s, Go(w, k)) == Dest(g, u, k) && Length(g, s, Go(w, k)) == Arrival(g, s, u, k);
  }

  lemma FarAtLeast(g: Graph, s: int, u: int)
    requires 0 <= s < TRACK_MAX && PositiveLengths(g) && Known(g, s, u)
    ensures if u == s then Far(g, s, u) == 0 else Far(g, s, u) > 0
  {
    var w :| IsShortest(g, s, w) && End(g, s, w) == u && Length(g, s, w) == Far(g, s, u);
    LengthsRise(g, s, w);
    if u == s { assert End(g, s, Stay) == s && Length(g, s, Stay) == 0; }
  }

  lemma {:induction false} LengthsRise(g: Graph, s: int, w: Walk)
    requires 0 <= s < TRACK_MAX && PositiveLengths(g) && End(g, s, w) != NULL
    ensures Length(g, s, w) >= 0 && (w.Go? ==> Length(g, s, w) > 0)
  {
    if w.Go? { LengthsRise(g, s, w.prefix); }
  }

  /** Among the tight edges to a node the first one looked at makes an entry. */
  lemma {:induction false} FirstTight(g: Graph, s: int, u: int, k: nat) returns (x: int, j: nat)
    requires 0 <= s < TRACK_MAX && PositiveLengths(g) && Tight(g, s, u, k)
    ensures Improves(g, s, x, j) && Dest(g, x, j) == Dest(g, u, k) && Arrival(g, s, x, j) == Arrival(g, s, u, k)
    decreases Far(g, s, u), k
  {
    x, j := u, k;
    if !Improves(g, s, u, k) {
      var y: int, i: nat :| Leads(g, s, y, i) && Dest(g, y, i) == Dest(g, u, k) &&
        (Far(g, s, y) < Far(g, s, u) || (y == u && i < k)) && Arrival(g, s, u, k) >= Arrival(g, s, y, i);
      NotBefore(g, s, y, i);
      FarAtLeast(g, s, u);
      FarAtLeast(g, s, y);
      x, j := FirstTight(g, s, y, i);
    }
  }

  /** Without ties different nodes have different distances. */
  lemma DistancesDiffer(g: Graph, s: int, u: int, x: int)
    requires 0 <= s < TRACK_MAX && PositiveLengths(g) && TieFree(g, s)
    requires Known(g, s, u) && Known(g, s, x) && Far(g, s, u) == Far(g, s, x)
    ensures u == x
  {
    FarAtLeast(g, s, u);
    FarAtLeast(g, s, x);
    if u != s {
      var a, k := SomeTight(g, s, u);
      a, k := FirstTight(g, s, a, k);
      var b, j := SomeTight(g, s, x);
      b, j := FirstTight(g, s, b, j);
    }
  }

  lemma ImprovesIsCertain(g: Graph, s: int, u: int, k: nat)
    requires 0 <= s < TRACK_MAX && PositiveLengths(g) && TieFree(g, s) && Improves(g, s, u, k)
    ensures Certain(g, s, u, k)
  {
    forall x: int, j: nat | Leads(g, s, x, j) && Dest(g, x, j) == Dest(g, u, k) && Far(g, s, x) <= Far(g, s, u) && !(x == u && j > k)
      ensures Arrival(g, s, u, k) <= Arrival(g, s, x, j)
    {
      if Far(g, s, x) == Far(g, s, u) {
        DistancesDiffer(g, s, u, x);
      }
    }
  }

  /** Without ties the open list is too small in the sense of the one bound exactly when it is in
      the sense of the other. */
  lemma NoGapWithoutTies(g: Graph, s: int, n: nat)
    requires 0 <= s < TRACK_MAX && PositiveLengths(g) && TieFree(g, s)
    ensures Crowded(g, s, n) ==> Overflows(g, s, n)
  {
    if Crowded(g, s, n) {
      var d :| 0 <= d && |Peak(g, s, d)| > n;
      forall u: int, k: nat | Improves(g, s, u, k) ensures Certain(g, s, u, k) {
        ImprovesIsCertain(g, s, u, k);
      }
      assert Open(g, s, d) <= Sure(g, s, d);
      SubsetSize(Open(g, s, d), Sure(g, s, d));
    }
  }

  // ---------------------------------------------------------------- what the heap holds

  ghost predicate Single(bag: multiset<Entry>) {
    forall e :: e in bag ==> bag[e] == 1
  }

  /** The start's own entry is there only at first. */
  ghost predicate StartOnce(s: int, q: Search)
    requires 0 <= s < TRACK_MAX && |q.cost| == TRACK_MAX
  {
    forall e {:trigger q.bag[e]} :: e in q.bag && e.value == s ==>
      if q.done == {} then e.cost == 0 else q.cost[s] <= e.cost && 0 < e.cost
  }

  ghost predicate AtDistance(g: Graph, s: int, q: Search)
    requires 0 <= s < TRACK_MAX && |q.cost| == TRACK_MAX
  {
    forall u :: u in q.done ==> 0 <= u < TRACK_MAX && Known(g, s, u) && Far(g, s, u) == Label(s, q.cost, u)
  }

  ghost predicate NearerDone(g: Graph, s: int, q: Search)
    requires 0 <= s < TRACK_MAX
  {
    forall x: int {:trigger Far(g, s, x)} :: Known(g, s, x) && Far(g, s, x) < q.last ==> x in q.done
  }

  ghost predicate BornBy(g: Graph, s: int, q: Search, u: int, k: nat, e: Entry)
    requires 0 <= s < TRACK_MAX
  {
    u in q.done && Improves(g, s, u, k) && Dest(g, u, k) == e.value && Arrival(g, s, u, k) == e.cost
  }

  /** Every entry but the first was made by an improving edge of an expanded node. */
  ghost predicate Born(g: Graph, s: int, q: Search)
    requires 0 <= s < TRACK_MAX
  {
    q.done != {} ==> forall e :: e in q.bag ==> exists u: int, k: nat :: BornBy(g, s, q, u, k, e)
  }

  ghost predicate Waits(bag: multiset<Entry>, v: int, c: int) {
    exists e :: e in bag && e.value == v && e.cost == c
  }

  ghost predicate LabelsWait(q: Search)
    requires |q.cost| == TRACK_MAX
  {
    forall v {:trigger q.cost[v]} :: 0 <= v < TRACK_MAX && q.last < q.cost[v] < INFINITY ==> Waits(q.bag, v, q.cost[v])
  }

  /** The edge has been looked at. */
  ghost predicate Tried(g: Graph, s: int, q: Search, current: int, ni: nat, u: int, k: nat)
    requires 0 <= s < TRACK_MAX
  {
    u in q.done && Leads(g, s, u, k) && !(u == current && k >= ni)
  }

  /** A label is the arrival of an edge that has been looked at. */
  ghost predicate Earned(g: Graph, s: int, q: Search, current: int, ni: nat)
    requires 0 <= s < TRACK_MAX && |q.cost| == TRACK_MAX
  {
    forall v {:trigger q.cost[v]} :: 0 <= v < TRACK_MAX && q.cost[v] < INFINITY ==>
      exists u: int, k: nat :: Tried(g, s, q, current, ni, u, k) && Dest(g, u, k) == v && Arrival(g, s, u, k) == q.cost[v]
  }

  /** The certain entries of the edges looked at wait until their cost is reached. */
  ghost predicate Kept(g: Graph, s: int, q: Search, current: int, ni: nat)
    requires 0 <= s < TRACK_MAX
  {
    forall u: int, k: nat {:trigger Tried(g, s, q, current, ni, u, k)} ::
      Tried(g, s, q, current, ni, u, k) && Certain(g, s, u, k) && Arrival(g, s, u, k) > q.last ==>
        Waits(q.bag, Dest(g, u, k), Arrival(g, s, u, k))
  }

  ghost predicate Untied(g: Graph, s: int, q: Search)
    requires 0 <= s < TRACK_MAX
  {
    TieFree(g, s) && q.done != {} ==> forall e :: e in q.bag ==> q.last < e.cost
  }

  /** Which entries the heap holds, told from the graph. */
  ghost predicate Exact(g: Graph, s: int, q: Search, current: int, ni: nat)
    requires 0 <= s < TRACK_MAX && |q.cost| == TRACK_MAX
  {
    && Single(q.bag) && StartOnce(s, q) && AtDistance(g, s, q) && NearerDone(g, s, q) && Born(g, s, q)
    && LabelsWait(q) && Earned(g, s, q, current, ni) && Kept(g, s, q, current, ni) && Untied(g, s, q)
  }

  lemma ExactStart(g: Graph, s: int, q: Search)
    requires 0 <= s < TRACK_MAX && PositiveLengths(g) && |q.cost| == TRACK_MAX
    requires q.bag == multiset{Entry(s, 0)} && q.done == {} && q.last == 0 && q.cost == seq(TRACK_MAX, _ => INFINITY)
    ensures Exact(g, s, q, NULL, 0)
  {
    hide Known, IsDistance, Improves, Certain;
    forall x: int | Known(g, s, x) ensures Far(g, s, x) >= 0 {
      FarAtLeast(g, s, x);
    }
  }

  // ---------------------------------------------------------------- popping

  lemma OnlyStartAtFirst(g: Graph, s: int, q: Search, e: Entry)
    requires Inv(g, s, q, NULL, 0) && StartOnce(s, q) && e in q.bag
    ensures q.done == {} ==> e.cost == 0 && forall f :: f in q.bag ==> f == e
  {
  }

  /** The nodes nearer than every entry are expanded. */
  lemma WithinIsDone(g: Graph, s: int, q: Search, d: int, x: int)
    requires Inv(g, s, q, NULL, 0) && PositiveLengths(g) && Known(g, s, x)
    requires Far(g, s, x) <= d && forall e :: e in q.bag ==> e.cost > d
    ensures x in q.done
  {
    var w :| IsShortest(g, s, w) && End(g, s, w) == x && Length(g, s, w) == Far(g, s, x);
    var e := Frontier(g, s, q, w);
  }

  lemma FreshDistance(g: Graph, s: int, q: Search, e: Entry)
    requires Inv(g, s, q, NULL, 0) && PositiveLengths(g) && Cheapest(q.bag, e) && e.value !in q.done
    ensures e.value < TRACK_MAX && IsDistance(g, s, e.value, e.cost) && e.cost == Label(s, q.cost, e.value)
  {
    CheapestIsShortest(g, s, q, e);
    var w := WalkTo(g, s, q, NULL, 0, e.value);
    assert End(g, s, w) == e.value;
  }

  lemma PopAtDistance(g: Graph, s: int, q: Search, e: Entry)
    requires Inv(g, s, q, NULL, 0) && PositiveLengths(g) && Cheapest(q.bag, e) && AtDistance(g, s, q)
    ensures AtDistance(g, s, Popped(q, e))
  {
    assert 0 <= s < TRACK_MAX;
    hide Inv, Known, Far, PositiveLengths, IsDistance;
    if e.value !in q.done {
      FreshDistance(g, s, q, e);
      FarIs(g, s, e.value, e.cost);
    }
  }

  lemma PopNearer(g: Graph, s: int, q: Search, e: Entry)
    requires Inv(g, s, q, NULL, 0) && PositiveLengths(g) && Cheapest(q.bag, e)
    ensures NearerDone(g, s, Popped(q, e))
  {
    assert 0 <= s < TRACK_MAX;
    hide Inv, PositiveLengths;
    forall x: int | Known(g, s, x) && Far(g, s, x) < e.cost ensures x in q.done {
      WithinIsDone(g, s, q, e.cost - 1, x);
    }
  }

  lemma PopOne(bag: multiset<Entry>, e: Entry)
    requires Single(bag) && e in bag
    ensures Single(bag - multiset{e}) && forall f :: f in bag - multiset{e} <==> f in bag && f != e
  {
    forall f | f in bag - multiset{e} ensures f in bag && f != e {
      assert bag[f] == 1;
    }
  }

  lemma PopHeap(g: Graph, s: int, q: Search, e: Entry)
    requires Inv(g, s, q, NULL, 0) && Cheapest(q.bag, e) && Single(q.bag) && StartOnce(s, q)
    ensures Single(Popped(q, e).bag) && StartOnce(s, Popped(q, e)) && q.last <= e.cost
    ensures q.done == {} ==> Popped(q, e).bag == multiset{}
    ensures forall f :: f in Popped(q, e).bag <==> f in q.bag && f != e
  {
    OnlyStartAtFirst(g, s, q, e);
    PopSound(g, s, q, e);
    hide Inv;
    PopOne(q.bag, e);
    assert q.done == {} ==> forall f :: f !in Popped(q, e).bag;
    PopStart(s, q, e);
  }

  lemma PopStart(s: int, q: Search, e: Entry)
    requires 0 <= s < TRACK_MAX == |q.cost| && StartOnce(s, q) && e in q.bag
    requires q.done == {} ==> Popped(q, e).bag == multiset{}
    requires forall f :: f in Popped(q, e).bag <==> f in q.bag && f != e
    ensures StartOnce(s, Popped(q, e))
  {
    var r := Popped(q, e);
    forall f | f in r.bag && f.value == s ensures q.cost[s] <= f.cost && 0 < f.cost {
      assert q.bag[f] > 0;
    }
  }

  lemma PopBorn(g: Graph, s: int, q: Search, e: Entry)
    requires 0 <= s < TRACK_MAX && Born(g, s, q) && e in q.bag
    requires q.done == {} ==> Popped(q, e).bag == multiset{}
    ensures Born(g, s, Popped(q, e))
  {
    hide Improves, Arrival;
    var r := Popped(q, e);
    forall f | f in r.bag ensures exists u: int, k: nat :: BornBy(g, s, r, u, k, f) {
      assert f in q.bag;
      var u: int, k: nat :| BornBy(g, s, q, u, k, f);
      assert BornBy(g, s, r, u, k, f);
    }
  }

  lemma StillWaits(q: Search, e: Entry, v: int, c: int)
    requires e in q.bag && Waits(q.bag, v, c) && e.cost < c
    ensures Waits(Popped(q, e).bag, v, c)
  {
    var f :| f in q.bag && f.value == v && f.cost == c;
    assert f in Popped(q, e).bag;
  }

  lemma PopLabels(g: Graph, s: int, q: Search, e: Entry)
    requires |q.cost| == TRACK_MAX && LabelsWait(q) && e in q.bag && q.last <= e.cost
    ensures LabelsWait(Popped(q, e))
  {
    hide Waits;
    forall v | 0 <= v < TRACK_MAX && e.cost < q.cost[v] < INFINITY ensures Waits(Popped(q, e).bag, v, q.cost[v]) {
      StillWaits(q, e, v, q.cost[v]);
    }
  }

  /** The node expanded next, if any. */
  function Fresh(q: Search, e: Entry): int { if e.value !in q.done then e.value else NULL }

  lemma PopEarned(g: Graph, s: int, q: Search, e: Entry)
    requires 0 <= s < TRACK_MAX && |q.cost| == TRACK_MAX && Earned(g, s, q, NULL, 0) && e in q.bag
    ensures Earned(g, s, Popped(q, e), Fresh(q, e), 0)
  {
    hide Known, Arrival;
    var r := Popped(q, e);
    forall v | 0 <= v < TRACK_MAX && r.cost[v] < INFINITY
      ensures exists u: int, k: nat :: Tried(g, s, r, Fresh(q, e), 0, u, k) && Dest(g, u, k) == v && Arrival(g, s, u, k) == r.cost[v]
    {
      var u: int, k: nat :| Tried(g, s, q, NULL, 0, u, k) && Dest(g, u, k) == v && Arrival(g, s, u, k) == q.cost[v];
      assert Tried(g, s, r, Fresh(q, e), 0, u, k);
    }
  }

  lemma PopKept(g: Graph, s: int, q: Search, e: Entry)
    requires 0 <= s < TRACK_MAX && Kept(g, s, q, NULL, 0) && e in q.bag && q.last <= e.cost
    ensures Kept(g, s, Popped(q, e), Fresh(q, e), 0)
  {
    hide Known, Arrival, Certain, Waits;
    var r := Popped(q, e);
    forall u: int, k: nat | Tried(g, s, r, Fresh(q, e), 0, u, k) && Certain(g, s, u, k) && Arrival(g, s, u, k) > e.cost
      ensures Waits(r.bag, Dest(g, u, k), Arrival(g, s, u, k))
    {
      assert Tried(g, s, q, NULL, 0, u, k);
      StillWaits(q, e, Dest(g, u, k), Arrival(g, s, u, k));
    }
  }

  lemma PopUntied(g: Graph, s: int, q: Search, e: Entry)
    requires 0 <= s < TRACK_MAX && Cheapest(q.bag, e) && Born(g, s, q) && e !in Popped(q, e).bag
    requires q.done == {} ==> Popped(q, e).bag == multiset{}
    ensures Untied(g, s, Popped(q, e))
  {
    hide Improves, Arrival;
    forall f | TieFree(g, s) && f in Popped(q, e).bag ensures e.cost < f.cost {
      assert f in q.bag && f != e;
      var u: int, k: nat :| BornBy(g, s, q, u, k, f);
      var x: int, j: nat :| BornBy(g, s, q, x, j, e);
    }
  }

  lemma ExactPop(g: Graph, s: int, q: Search, e: Entry)
    requires Inv(g, s, q, NULL, 0) && PositiveLengths(g) && Exact(g, s, q, NULL, 0) && Cheapest(q.bag, e)
    ensures Exact(g, s, Popped(q, e), Fresh(q, e), 0)
  {
    assert 0 <= s < TRACK_MAX == |q.cost|;
    hide Inv, PositiveLengths, Single, StartOnce, AtDistance, NearerDone, Born, LabelsWait, Earned, Kept, Untied, Fresh;
    PopHeap(g, s, q, e);
    PopBorn(g, s, q, e);
    PopAtDistance(g, s, q, e);
    PopNearer(g, s, q, e);
    PopLabels(g, s, q, e);
    PopEarned(g, s, q, e);
    PopKept(g, s, q, e);
    PopUntied(g, s, q, e);
  }

  // ---------------------------------------------------------------- relaxing an edge

  /** Edge `ni` of node u is looked at next. */
  ghost predicate Looking(g: Graph, s: int, q: Search, u: int, ni: nat) {
    && Inv(g, s, q, u, ni) && PositiveLengths(g) && Exact(g, s, q, u, ni)
    && u in q.done && Label(s, q.cost, u) == q.last
  }

  lemma LookingFar(g: Graph, s: int, q: Search, u: int, ni: nat)
    requires Looking(g, s, q, u, ni)
    ensures 0 <= s < TRACK_MAX && 0 <= u < TRACK_MAX == |q.cost| && Known(g, s, u) && Far(g, s, u) == q.last
  {
    hide Known, Far;
  }

  /** The edges into a node that have been looked at are no better than its label. */
  lemma LabelIsLeast(g: Graph, s: int, q: Search, current: int, ni: nat, x: int, j: nat)
    requires Inv(g, s, q, current, ni) && AtDistance(g, s, q) && Tried(g, s, q, current, ni, x, j)
    ensures q.cost[Dest(g, x, j)] <= Arrival(g, s, x, j)
  {
    hide Known, Far;
  }

  lemma LowerImproves(g: Graph, s: int, q: Search, u: int, ni: nat)
    requires Looking(g, s, q, u, ni) && HasEdge(g, u, ni)
    requires Label(s, q.cost, u) + Dist(g, u, ni) < q.cost[Dest(g, u, ni)]
    ensures 0 <= s < TRACK_MAX && Improves(g, s, u, ni) && Arrival(g, s, u, ni) == Label(s, q.cost, u) + Dist(g, u, ni)
  {
    LookingFar(g, s, q, u, ni);
    hide Inv, Known, Far;
    forall x: int, j: nat | Leads(g, s, x, j) && Dest(g, x, j) == Dest(g, u, ni) &&
                            (Far(g, s, x) < Far(g, s, u) || (x == u && j < ni))
      ensures Arrival(g, s, u, ni) < Arrival(g, s, x, j)
    {
      assert Tried(g, s, q, u, ni, x, j);
      LabelIsLeast(g, s, q, u, ni, x, j);
    }
  }

  lemma NotYetWaiting(g: Graph, s: int, q: Search, e: Entry)
    requires 0 <= s < TRACK_MAX == |q.cost| && Sound(g, s, q.cost, q.bag, q.done, q.last) && StartOnce(s, q) && q.done != {}
    requires e.value < TRACK_MAX && e.cost < q.cost[e.value]
    ensures e !in q.bag
  {
    hide OneEdgeFrom;
    assert e in q.bag <==> q.bag[e] > 0;
  }

  lemma LowerHeap(s: int, q: Search, r: Search, e: Entry)
    requires 0 <= s < TRACK_MAX == |q.cost| && Single(q.bag) && StartOnce(s, q) && e !in q.bag
    requires r.bag == q.bag + multiset{e} && r.done == q.done && q.done != {}
    requires e.value < TRACK_MAX && 0 < e.cost < q.cost[e.value] && r.cost == q.cost[e.value := e.cost]
    ensures Single(r.bag) && StartOnce(s, r)
  {
    forall f | f in r.bag ensures r.bag[f] == 1 && (f == e || f in q.bag) {
      assert f in q.bag ==> q.bag[f] == 1;
    }
  }

  lemma LowerAtDistance(g: Graph, s: int, q: Search, u: int, ni: nat, c: U16)
    requires Looking(g, s, q, u, ni) && HasEdge(g, u, ni)
    requires c == Label(s, q.cost, u) + Dist(g, u, ni) < q.cost[Dest(g, u, ni)]
    ensures 0 <= s < TRACK_MAX && |q.cost| == |q.came| == |q.via| == TRACK_MAX
    ensures AtDistance(g, s, Lowered(g, q, u, ni, c)) && NearerDone(g, s, Lowered(g, q, u, ni, c))
  {
    LoweredKeepsDone(g, s, q, u, ni, c);
    hide Known, Far, Single, StartOnce, Born, Earned, Kept, Untied, LabelsWait, Settled, Tree, Relaxed, Queued, Sound;
  }

  lemma LowerBorn(g: Graph, s: int, q: Search, r: Search, u: int, ni: nat, e: Entry)
    requires 0 <= s < TRACK_MAX && Born(g, s, q) && Untied(g, s, q) && q.last < e.cost
    requires r.bag == q.bag + multiset{e} && r.done == q.done && r.last == q.last && BornBy(g, s, q, u, ni, e)
    ensures Born(g, s, r) && Untied(g, s, r)
  {
    hide Improves, Arrival, TieFree;
    forall f | f in r.bag ensures exists x: int, j: nat :: BornBy(g, s, r, x, j, f) {
      if f == e {
        assert BornBy(g, s, r, u, ni, f);
      } else {
        assert f in q.bag;
        var x: int, j: nat :| BornBy(g, s, q, x, j, f);
        assert BornBy(g, s, r, x, j, f);
      }
    }
    forall f | f in r.bag ensures f == e || f in q.bag {
    }
  }

  lemma MoreWaits(bag: multiset<Entry>, e: Entry, v: int, c: int)
    ensures Waits(bag, v, c) ==> Waits(bag + multiset{e}, v, c)
    ensures Waits(bag + multiset{e}, e.value, e.cost)
  {
    if Waits(bag, v, c) {
      var f :| f in bag && f.value == v && f.cost == c;
      assert f in bag + multiset{e};
    }
    assert e in bag + multiset{e};
  }

  lemma TriedMore(g: Graph, s: int, q: Search, r: Search, u: int, ni: nat, x: int, k: nat)
    requires 0 <= s < TRACK_MAX && r.done == q.done
    ensures Tried(g, s, q, u, ni, x, k) ==> Tried(g, s, r, u, ni + 1, x, k)
    ensures Tried(g, s, r, u, ni + 1, x, k) ==> Tried(g, s, q, u, ni, x, k) || (x == u && k == ni)
  {
  }

  lemma LowerLabels(g: Graph, s: int, q: Search, u: int, ni: nat, c: U16)
    requires 0 <= s < TRACK_MAX && |q.cost| == |q.came| == |q.via| == TRACK_MAX && HasEdge(g, u, ni)
    requires LabelsWait(q) && Earned(g, s, q, u, ni) && u in q.done && Leads(g, s, u, ni) && Arrival(g, s, u, ni) == c
    ensures LabelsWait(Lowered(g, q, u, ni, c)) && Earned(g, s, Lowered(g, q, u, ni, c), u, ni + 1)
  {
    hide Known, Arrival, Waits;
    var r, v := Lowered(g, q, u, ni, c), Dest(g, u, ni);
    forall x | 0 <= x < TRACK_MAX && r.last < r.cost[x] < INFINITY ensures Waits(r.bag, x, r.cost[x]) {
      MoreWaits(q.bag, Entry(v, c), x, r.cost[x]);
      assert x != v ==> r.cost[x] == q.cost[x];
    }
    forall x | 0 <= x < TRACK_MAX && r.cost[x] < INFINITY
      ensures exists y: int, k: nat :: Tried(g, s, r, u, ni + 1, y, k) && Dest(g, y, k) == x && Arrival(g, s, y, k) == r.cost[x]
    {
      if x == v {
        assert Tried(g, s, r, u, ni + 1, u, ni);
      } else {
        assert r.cost[x] == q.cost[x];
        var y: int, k: nat :| Tried(g, s, q, u, ni, y, k) && Dest(g, y, k) == x && Arrival(g, s, y, k) == q.cost[x];
        TriedMore(g, s, q, r, u, ni, y, k);
      }
    }
  }

  lemma LowerKept(g: Graph, s: int, q: Search, u: int, ni: nat, c: U16)
    requires 0 <= s < TRACK_MAX && |q.cost| == |q.came| == |q.via| == TRACK_MAX && HasEdge(g, u, ni)
    requires Kept(g, s, q, u, ni) && Arrival(g, s, u, ni) == c
    ensures Kept(g, s, Lowered(g, q, u, ni, c), u, ni + 1)
  {
    hide Known, Arrival, Waits, Certain;
    var r := Lowered(g, q, u, ni, c);
    forall x: int, k: nat | Tried(g, s, r, u, ni + 1, x, k) && Certain(g, s, x, k) && Arrival(g, s, x, k) > r.last
      ensures Waits(r.bag, Dest(g, x, k), Arrival(g, s, x, k))
    {
      TriedMore(g, s, q, r, u, ni, x, k);
      MoreWaits(q.bag, Entry(Dest(g, u, ni), c), Dest(g, x, k), Arrival(g, s, x, k));
    }
  }

  lemma ExactLower(g: Graph, s: int, q: Search, u: int, ni: nat, c: U16)
    requires Looking(g, s, q, u, ni) && HasEdge(g, u, ni)
    requires c == Label(s, q.cost, u) + Dist(g, u, ni) < q.cost[Dest(g, u, ni)]
    ensures |q.cost| == |q.came| == |q.via| == TRACK_MAX && Exact(g, s, Lowered(g, q, u, ni, c), u, ni + 1)
  {
    LowerAtDistance(g, s, q, u, ni, c);
    LowerImproves(g, s, q, u, ni);
    LookingFar(g, s, q, u, ni);
    var e, r := Entry(Dest(g, u, ni), c), Lowered(g, q, u, ni, c);
    NotYetWaiting(g, s, q, e);
    hide Inv, Single, StartOnce, AtDistance, NearerDone, Born, LabelsWait, Earned, Kept, Untied, Arrival, Known, Improves;
    assert q.last < c;
    LowerHeap(s, q, r, e);
    LowerBorn(g, s, q, r, u, ni, e);
    LowerLabels(g, s, q, u, ni, c);
    LowerKept(g, s, q, u, ni, c);
  }

  /** An edge that lowers nothing: if its entry is certain, another has made it. */
  lemma ExactSkip(g: Graph, s: int, q: Search, u: int, ni: nat)
    requires Looking(g, s, q, u, ni)
    requires HasEdge(g, u, ni) ==> q.cost[Dest(g, u, ni)] <= Label(s, q.cost, u) + Dist(g, u, ni) < INFINITY
    ensures Exact(g, s, q, u, ni + 1)
  {
    LookingFar(g, s, q, u, ni);
    SkipEarned(g, s, q, u, ni);
    SkipKept(g, s, q, u, ni);
    hide Inv, PositiveLengths, Single, StartOnce, AtDistance, NearerDone, Born, LabelsWait, Earned, Kept, Untied;
  }

  lemma SkipEarned(g: Graph, s: int, q: Search, u: int, ni: nat)
    requires 0 <= s < TRACK_MAX && |q.cost| == TRACK_MAX && Earned(g, s, q, u, ni)
    ensures Earned(g, s, q, u, ni + 1)
  {
    hide Known, Arrival;
    forall v | 0 <= v < TRACK_MAX && q.cost[v] < INFINITY
      ensures exists x: int, k: nat :: Tried(g, s, q, u, ni + 1, x, k) && Dest(g, x, k) == v && Arrival(g, s, x, k) == q.cost[v]
    {
      var x: int, k: nat :| Tried(g, s, q, u, ni, x, k) && Dest(g, x, k) == v && Arrival(g, s, x, k) == q.cost[v];
      TriedMore(g, s, q, q, u, ni, x, k);
    }
  }

  lemma SkipKept(g: Graph, s: int, q: Search, u: int, ni: nat)
    requires Looking(g, s, q, u, ni)
    requires HasEdge(g, u, ni) ==> q.cost[Dest(g, u, ni)] <= Label(s, q.cost, u) + Dist(g, u, ni) < INFINITY
    ensures 0 <= s < TRACK_MAX && Kept(g, s, q, u, ni + 1)
  {
    LookingFar(g, s, q, u, ni);
    hide Inv, Known, Waits, Far, PositiveLengths;
    forall x: int, k: nat | Tried(g, s, q, u, ni + 1, x, k) && Certain(g, s, x, k) && Arrival(g, s, x, k) > q.last
      ensures Waits(q.bag, Dest(g, x, k), Arrival(g, s, x, k))
    {
      TriedMore(g, s, q, q, u, ni, x, k);
      if x == u && k == ni {
        var v := Dest(g, u, ni);
        var y: int, j: nat :| Tried(g, s, q, u, ni, y, j) && Dest(g, y, j) == v && Arrival(g, s, y, j) == q.cost[v];
        NotBeyond(g, s, q, u, ni, y);
        assert Arrival(g, s, u, ni) <= Arrival(g, s, y, j);
      }
    }
  }

  lemma NotBeyond(g: Graph, s: int, q: Search, current: int, ni: nat, y: int)
    requires Inv(g, s, q, current, ni) && AtDistance(g, s, q) && y in q.done
    ensures Far(g, s, y) <= q.last
  {
    hide Known, Far;
  }

  lemma ExactEnd(g: Graph, s: int, q: Search, u: int, ni: nat)
    requires 0 <= u < TRACK_MAX && 0 <= s < TRACK_MAX == |q.cost| && Exact(g, s, q, u, ni) && ni >= Degree(g[u])
    ensures Exact(g, s, q, NULL, 0)
  {
    hide Known, Far, Single, StartOnce, AtDistance, NearerDone, Born, LabelsWait, Untied, Certain, Arrival, Waits;
    forall x: int, k: nat ensures Tried(g, s, q, u, ni, x, k) <==> Tried(g, s, q, NULL, 0, x, k) {
    }
  }

  // ---------------------------------------------------------------- at most the peak

  /** Entries of a heap without duplicates, each under its own pair. */
  lemma {:induction false} PairsForAll(bag: multiset<Entry>, pairs: set<(int, int)>)
    requires Single(bag) && forall e :: e in bag ==> (e.value as int, e.cost as int) in pairs
    ensures |bag| <= |pairs|
    decreases |bag|
  {
    if bag != multiset{} {
      var e :| e in bag;
      PopOne(bag, e);
      PairsForAll(bag - multiset{e}, pairs - {(e.value as int, e.cost as int)});
    }
  }

  lemma BornAtPeak(g: Graph, s: int, q: Search, u: int, k: nat, e: Entry)
    requires 0 <= s < TRACK_MAX && BornBy(g, s, q, u, k, e) && Far(g, s, u) <= q.last <= e.cost
    requires TieFree(g, s) ==> q.last < e.cost
    ensures (e.value as int, e.cost as int) in Peak(g, s, q.last)
  {
    hide Improves, Arrival, TieFree;
    ImprovingIsEdge(g, s, u, k);
    assert (Dest(g, u, k), Arrival(g, s, u, k)) == (e.value as int, e.cost as int);
  }

  lemma ImprovingIsEdge(g: Graph, s: int, u: int, k: nat)
    requires 0 <= s < TRACK_MAX && Improves(g, s, u, k)
    ensures HasEdge(g, u, k) && k < 2 && 0 <= u < TRACK_MAX
  {
  }

  /** The heap never holds more entries than can wait at the cost last popped. */
  lemma BagPeaks(g: Graph, s: int, q: Search, current: int, ni: nat)
    requires Inv(g, s, q, current, ni) && Exact(g, s, q, current, ni) && q.done != {}
    ensures |q.bag| <= |Peak(g, s, q.last)|
  {
    assert Sound(g, s, q.cost, q.bag, q.done, q.last);
    forall u | u in q.done ensures Far(g, s, u) <= q.last {
      NotBeyond(g, s, q, current, ni, u);
    }
    hide Inv, Peak, Known, Far, Improves, BornBy, TieFree, OneEdgeFrom, AtDistance, NearerDone, LabelsWait, Earned, Kept;
    forall e | e in q.bag ensures (e.value as int, e.cost as int) in Peak(g, s, q.last) {
      var u: int, k: nat :| BornBy(g, s, q, u, k, e);
      BornDone(g, s, q, u, k, e);
      BornAtPeak(g, s, q, u, k, e);
    }
    PairsForAll(q.bag, Peak(g, s, q.last));
  }

  lemma BornDone(g: Graph, s: int, q: Search, u: int, k: nat, e: Entry)
    requires 0 <= s < TRACK_MAX && BornBy(g, s, q, u, k, e)
    ensures u in q.done
  {
  }

  // ---------------------------------------------------------------- at least the sure

  lemma SureEdge(g: Graph, s: int, d: int, x: (int, int)) returns (u: int, k: nat)
    requires 0 <= s < TRACK_MAX && x in Sure(g, s, d)
    ensures Certain(g, s, u, k) && Leads(g, s, u, k) && Known(g, s, u)
    ensures Far(g, s, u) <= d < Arrival(g, s, u, k) && x.0 == Dest(g, u, k) && x.1 == Arrival(g, s, u, k)
  {
    hide Known, Far;
    u, k :| Certain(g, s, u, k) && Far(g, s, u) <= d < Arrival(g, s, u, k) && x == (Dest(g, u, k), Arrival(g, s, u, k));
  }

  lemma SureWaits(g: Graph, s: int, q: Search, d: int, x: (int, int))
    requires Inv(g, s, q, NULL, 0) && Exact(g, s, q, NULL, 0) && PositiveLengths(g) && x in Sure(g, s, d)
    requires q.last <= d && forall e :: e in q.bag ==> e.cost > d
    ensures Waits(q.bag, x.0, x.1)
  {
    assert 0 <= s < TRACK_MAX && Kept(g, s, q, NULL, 0);
    hide Inv, Exact, Known, Far, Waits, PositiveLengths, Arrival, Sure, Certain, Leads;
    var u, k := SureEdge(g, s, d, x);
    WithinIsDone(g, s, q, d, u);
    assert Tried(g, s, q, NULL, 0, u, k) by { LeadsIs(g, s, u, k); }
  }

  lemma LeadsIs(g: Graph, s: int, u: int, k: nat)
    requires 0 <= s < TRACK_MAX && Leads(g, s, u, k)
    ensures HasEdge(g, u, k) && u != NULL
  {
  }

  /** Different pairs wait as different entries. */
  lemma {:induction false} WaitsForAll(bag: multiset<Entry>, pairs: set<(int, int)>)
    requires forall x :: x in pairs ==> Waits(bag, x.0, x.1)
    ensures |pairs| <= |bag|
    decreases pairs
  {
    if pairs != {} {
      var x :| x in pairs;
      assert Waits(bag, x.0, x.1);
      var e :| e in bag && e.value == x.0 && e.cost == x.1;
      var rest := bag - multiset{e};
      forall y | y in pairs - {x} ensures Waits(rest, y.0, y.1) {
        assert Waits(bag, y.0, y.1);
        var f :| f in bag && f.value == y.0 && f.cost == y.1;
        assert f != e && f in rest;
      }
      WaitsForAll(rest, pairs - {x});
    }
  }

  lemma SureFits(g: Graph, s: int, q: Search, d: int)
    requires Inv(g, s, q, NULL, 0) && Exact(g, s, q, NULL, 0) && PositiveLengths(g)
    requires q.last <= d && (forall e :: e in q.bag ==> e.cost > d)
    ensures |Sure(g, s, d)| <= |q.bag|
  {
    assert 0 <= s < TRACK_MAX;
    hide Inv, Exact, PositiveLengths, Sure, Waits;
    forall x | x in Sure(g, s, d) ensures Waits(q.bag, x.0, x.1) {
      SureWaits(g, s, q, d, x);
    }
    WaitsForAll(q.bag, Sure(g, s, d));
  }

  /** At every distance below `upto` at most `n` entries wait for certain. */
  ghost predicate FitsBelow(g: Graph, s: int, upto: int, n: nat)
    requires 0 <= s < TRACK_MAX
  {
    forall d :: 0 <= d < upto ==> |Sure(g, s, d)| <= n
  }

  /** Popping `e` passes every distance between the last cost and its own. */
  lemma FitsUpTo(g: Graph, s: int, q: Search, e: Entry, n: nat)
    requires Inv(g, s, q, NULL, 0) && Exact(g, s, q, NULL, 0) && PositiveLengths(g) && Cheapest(q.bag, e)
    requires 0 <= s < TRACK_MAX && FitsBelow(g, s, q.last, n) && |q.bag| <= n
    ensures FitsBelow(g, s, e.cost, n)
  {
    hide Inv, Exact, PositiveLengths, Sure;
    forall d | 0 <= d < e.cost ensures |Sure(g, s, d)| <= n {
      if d >= q.last {
        SureFits(g, s, q, d);
      }
    }
  }

  /** After the last pop every distance has been passed. */
  lemma FitsAll(g: Graph, s: int, q: Search, n: nat)
    requires Inv(g, s, q, NULL, 0) && Exact(g, s, q, NULL, 0) && PositiveLengths(g)
    requires 0 <= s < TRACK_MAX && q.bag == multiset{} && FitsBelow(g, s, q.last, n)
    ensures !Overflows(g, s, n)
  {
    hide Inv, Exact, PositiveLengths, Sure;
    forall d | 0 <= d ensures |Sure(g, s, d)| <= n {
      if d >= q.last {
        SureFits(g, s, q, d);
      }
    }
  }

  // ---------------------------------------------------------------- one expansion

  /** The heap is as the graph says while entry (u, c) is being expanded. */
  ghost predicate Watched(g: Graph, s: int, q: Search, u: int, first: bool, ni: nat) {
    0 <= s < TRACK_MAX && |q.cost| == TRACK_MAX && Exact(g, s, q, if first then u else NULL, if first then ni else 0)
  }

  lemma BeginWatch(g: Graph, s: int, q: Search, e: Entry)
    requires Inv(g, s, q, NULL, 0) && PositiveLengths(g) && Watched(g, s, q, NULL, false, 0) && Cheapest(q.bag, e)
    ensures Watched(g, s, Popped(q, e), e.value, e.value !in q.done, 0)
  {
    hide Inv, PositiveLengths, Exact;
    ExactPop(g, s, q, e);
  }

  lemma FirstExpansion(g: Graph, s: int, q: Search, u: int, c: U16, ni: nat)
    requires Expanding(g, s, q, u, c, true, ni) && Watched(g, s, q, u, true, ni)
    ensures Looking(g, s, q, u, ni) && c == Label(s, q.cost, u)
    ensures HasEdge(g, u, ni) ==> NewCost(g, u, ni, c) == c + Dist(g, u, ni) < INFINITY
  {
    hide Settled, Tree, Relaxed, Queued, Sound, Exact;
  }

  lemma WatchSkip(g: Graph, s: int, q: Search, u: int, c: U16, first: bool, ni: nat)
    requires Expanding(g, s, q, u, c, first, ni) && Watched(g, s, q, u, first, ni)
    requires HasEdge(g, u, ni) ==> q.cost[Dest(g, u, ni)] <= NewCost(g, u, ni, c)
    ensures Watched(g, s, q, u, first, ni + 1)
  {
    hide Expanding, Exact, Looking, NewCost;
    if first {
      FirstExpansion(g, s, q, u, c, ni);
      ExactSkip(g, s, q, u, ni);
    }
  }

  /** Lowering a label keeps the heap as the graph says, and within the peak. */
  lemma WatchLower(g: Graph, s: int, q: Search, u: int, c: U16, first: bool, ni: nat)
    requires Expanding(g, s, q, u, c, first, ni) && Watched(g, s, q, u, first, ni)
    requires HasEdge(g, u, ni) && q.cost[Dest(g, u, ni)] > NewCost(g, u, ni, c)
    ensures |q.cost| == |q.came| == |q.via| == TRACK_MAX
    ensures var r := Lowered(g, q, u, ni, NewCost(g, u, ni, c));
      Watched(g, s, r, u, first, ni + 1) && |r.bag| <= |Peak(g, s, q.last)|
  {
    hide Inv, Expanding, Exact, Peak, PositiveLengths, NewCost, Looking;
    ExpandLower(g, s, q, u, c, first, ni);
    FirstExpansion(g, s, q, u, c, ni);
    var r := Lowered(g, q, u, ni, NewCost(g, u, ni, c));
    ExactLower(g, s, q, u, ni, NewCost(g, u, ni, c));
    StillExpanding(g, s, r, u, c, ni + 1);
    BagPeaks(g, s, r, u, ni + 1);
  }

  lemma StillExpanding(g: Graph, s: int, q: Search, u: int, c: U16, ni: nat)
    requires Expanding(g, s, q, u, c, true, ni)
    ensures Inv(g, s, q, u, ni) && u in q.done
  {
  }

  lemma EndWatch(g: Graph, s: int, q: Search, u: int, first: bool, ni: nat)
    requires 0 <= u < TRACK_MAX && Watched(g, s, q, u, first, ni) && ni >= Degree(g[u])
    ensures Watched(g, s, q, NULL, false, 0)
  {
    hide Exact;
    if first { ExactEnd(g, s, q, u, ni); }
  }

  lemma WatchedUpTo(g: Graph, s: int, q: Search, e: Entry, n: nat)
    requires Inv(g, s, q, NULL, 0) && Watched(g, s, q, NULL, false, 0) && PositiveLengths(g) && Cheapest(q.bag, e)
    requires 0 <= s < TRACK_MAX && FitsBelow(g, s, q.last, n) && |q.bag| <= n
    ensures FitsBelow(g, s, e.cost, n)
  {
    hide Inv, Exact, PositiveLengths, FitsBelow;
    FitsUpTo(g, s, q, e, n);
  }

  lemma WatchedAll(g: Graph, s: int, q: Search, n: nat)
    requires Inv(g, s, q, NULL, 0) && Watched(g, s, q, NULL, false, 0) && PositiveLengths(g)
    requires 0 <= s < TRACK_MAX && q.bag == multiset{} && FitsBelow(g, s, q.last, n)
    ensures !Overflows(g, s, n)
  {
    hide Inv, Exact, PositiveLengths, FitsBelow, Overflows;
    FitsAll(g, s, q, n);
  }
}
