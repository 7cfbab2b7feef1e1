/** The track graph of trains/trackNode.h and what a shortest walk over it is. */
module TrackGraph {
  import opened Chains

  const TRACK_MAX := 144

  /** A directed edge; `dest` is a node number, or NULL for an edge that is not there. */
  datatype TrackEdge = TrackEdge(dest: int, dist: int)

  /** Every node has room for two edges, but only a branch uses the second. */
  datatype TrackNode = TrackNode(isBranch: bool, edge: seq<TrackEdge>)

  type Graph = g: seq<TrackNode> | IsGraph(g) witness seq(TRACK_MAX, _ => TrackNode(false, [TrackEdge(NULL, 0), TrackEdge(NULL, 0)]))

  predicate IsGraph(g: seq<TrackNode>) {
    && |g| == TRACK_MAX
    && forall u :: 0 <= u < |g| ==>
         |g[u].edge| == 2 && NULL <= g[u].edge[0].dest < TRACK_MAX && NULL <= g[u].edge[1].dest < TRACK_MAX
  }

  function Degree(n: TrackNode): nat { if n.isBranch then 2 else 1 }

  predicate HasEdge(g: Graph, u: int, k: nat) {
    0 <= u < TRACK_MAX && k < Degree(g[u]) && g[u].edge[k].dest != NULL
  }

  function Dest(g: Graph, u: int, k: nat): (v: int)
    requires HasEdge(g, u, k)
    ensures 0 <= v < TRACK_MAX
  {
    g[u].edge[k].dest
  }

  function Dist(g: Graph, u: int, k: nat): int
    requires HasEdge(g, u, k)
  {
    g[u].edge[k].dist
  }

  ghost predicate PositiveLengths(g: Graph) {
    forall u, k :: HasEdge(g, u, k) ==> Dist(g, u, k) > 0
  }

  // ---------------------------------------------------------------- walks

  /** A sequence of edge choices, last choice outermost. */
  datatype Walk = Stay | Go(prefix: Walk, choice: nat)

  /** Where a walk from `s` ends, or NULL if it takes an edge that is not there. */
  function End(g: Graph, s: int, w: Walk): (v: int)
    requires 0 <= s < TRACK_MAX
    ensures NULL <= v < TRACK_MAX
  {
    match w
    case Stay => s
    case Go(p, k) => if HasEdge(g, End(g, s, p), k) then Dest(g, End(g, s, p), k) else NULL
  }

  /** The total length of a walk. */
  function Length(g: Graph, s: int, w: Walk): int
    requires 0 <= s < TRACK_MAX
  {
    match w
    case Stay => 0
    case Go(p, k) => Length(g, s, p) + (if HasEdge(g, End(g, s, p), k) then Dist(g, End(g, s, p), k) else 0)
  }

  /** The nodes a walk visits, in order. */
  function Nodes(g: Graph, s: int, w: Walk): seq<int>
    requires 0 <= s < TRACK_MAX
  {
    match w
    case Stay => [s]
    case Go(p, k) => Nodes(g, s, p) + [End(g, s, w)]
  }

  ghost predicate IsShortest(g: Graph, s: int, w: Walk)
    requires 0 <= s < TRACK_MAX
  {
    && End(g, s, w) != NULL
    && forall o {:trigger Length(g, s, o)} :: End(g, s, o) == End(g, s, w) ==> Length(g, s, w) <= Length(g, s, o)
  }

  ghost predicate Reaches(g: Graph, s: int, v: int)
    requires 0 <= s < TRACK_MAX
  {
    v != NULL && exists w :: End(g, s, w) == v
  }

  ghost function ReachableFrom(g: Graph, s: int): set<int>
    requires 0 <= s < TRACK_MAX
  {
    set v | 0 <= v < TRACK_MAX && Reaches(g, s, v)
  }

  /** The edges leaving a set of nodes, as (node, choice) pairs. */
  ghost function EdgesFrom(g: Graph, nodes: set<int>): set<(int, nat)> {
    set u, k: nat | u in nodes && 0 <= k < 2 && HasEdge(g, u, k) :: (u, k)
  }

  ghost function Branches(g: Graph): set<int> {
    set u | 0 <= u < TRACK_MAX && g[u].isBranch
  }

  /** Costs fit the 16-bit labels: one more edge after a shortest walk stays below
      the label that means "not reached", and two more do not wrap. */
  ghost predicate FitsLabels(g: Graph, s: int)
    requires 0 <= s < TRACK_MAX
  {
    && (forall w, k {:trigger IsShortest(g, s, w), End(g, s, Go(w, k))} ::
          IsShortest(g, s, w) && End(g, s, Go(w, k)) != NULL ==> Length(g, s, Go(w, k)) < 0xFFFF)
    && (forall w, k, l {:trigger IsShortest(g, s, w), End(g, s, Go(Go(w, k), l))} ::
          IsShortest(g, s, w) && End(g, s, Go(Go(w, k), l)) != NULL ==> Length(g, s, Go(Go(w, k), l)) <= 0xFFFF)
  }

  /** How many of a node's first `n` edges are there. */
  ghost function LiveEdges(g: Graph, u: int, n: nat): nat {
    if n == 0 then 0 else LiveEdges(g, u, n - 1) + (if HasEdge(g, u, n - 1) then 1 else 0)
  }
}
