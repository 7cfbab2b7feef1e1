/** A track layout that does not fit the open list: a binary tree of branches. */
module BushGraph {
  import opened Chains
  import opened TrackGraph
  import opened SearchLimits

  function Child(u: int, k: int): TrackEdge {
    TrackEdge(if 0 <= 2 * u + 1 + k < TRACK_MAX then 2 * u + 1 + k else NULL, 1)
  }

  /** A binary tree of branches, every edge of length 1. */
  function Bush(): Graph {
    seq(TRACK_MAX, u => TrackNode(true, [Child(u, 0), Child(u, 1)]))
  }

  function Depth(v: nat): nat { if v == 0 then 0 else 1 + Depth((v - 1) / 2) }

  function Down(v: nat): Walk { if v == 0 then Stay else Go(Down((v - 1) / 2), (v - 1) % 2) }

  lemma BushEdge(u: nat, k: nat)
    requires u < TRACK_MAX
    ensures HasEdge(Bush(), u, k) <==> k < 2 && 2 * u + 1 + k < TRACK_MAX
    ensures HasEdge(Bush(), u, k) ==>
      Dest(Bush(), u, k) == 2 * u + 1 + k && Dist(Bush(), u, k) == 1 && Depth(2 * u + 1 + k) == 1 + Depth(u)
  {
  }

  lemma {:induction false} DepthBound(v: nat)
    ensures Depth(v) <= v
  {
    if v > 0 {
      DepthBound((v - 1) / 2);
    }
  }

  /** Every walk down the tree is as long as its end is deep. */
  lemma {:induction false} LengthIsDepth(w: Walk)
    requires End(Bush(), 0, w) != NULL
    ensures Length(Bush(), 0, w) == Depth(End(Bush(), 0, w))
  {
    match w {
      case Stay =>
      case Go(p, k) =>
        LengthIsDepth(p);
        BushEdge(End(Bush(), 0, p), k);
    }
  }

  lemma {:induction false} DownLeads(v: nat)
    requires v < TRACK_MAX
    ensures End(Bush(), 0, Down(v)) == v
  {
    if v > 0 {
      DownLeads((v - 1) / 2);
      BushEdge((v - 1) / 2, (v - 1) % 2);
    }
  }

  lemma BushFar(v: nat)
    requires v < TRACK_MAX
    ensures Known(Bush(), 0, v) && Far(Bush(), 0, v) == Depth(v)
  {
    hide Bush;
    DownLeads(v);
    LengthIsDepth(Down(v));
    forall o | End(Bush(), 0, o) == v ensures Length(Bush(), 0, o) == Depth(v) {
      LengthIsDepth(o);
    }
    assert IsDistance(Bush(), 0, v, Depth(v));
    FarIs(Bush(), 0, v, Depth(v));
  }

  /** The 64 nodes of the seventh layer are six edges down. */
  lemma SeventhLayer(v: nat)
    requires 63 <= v <= 126
    ensures Depth(v) == 6 && Depth((v - 1) / 2) == 5
  {
    var a := (v - 1) / 2;
    var b := (a - 1) / 2;
    Third(b);
  }

  lemma Third(b: nat)
    requires 15 <= b <= 30
    ensures Depth(b) == 4
  {
    var c := (b - 1) / 2;
    var d := (c - 1) / 2;
    assert Depth(1) == 1 && Depth(2) == 1;
    assert d == 3 || d == 4 || d == 5 || d == 6;
    assert Depth(d) == 2;
  }

  /** Its entries are certain, as no two edges of the tree end in one node. */
  lemma BushIsSure(v: nat)
    requires 63 <= v <= 126
    ensures (v as int, 6) in Sure(Bush(), 0, 5)
  {
    hide Bush, Known;
    var u, k := (v - 1) / 2, (v - 1) % 2;
    SeventhLayer(v);
    BushFar(u);
    BushEdge(u, k);
    forall x: int, j: nat | Leads(Bush(), 0, x, j) && Dest(Bush(), x, j) == v ensures x == u && j == k {
      BushEdge(x, j);
    }
    assert Certain(Bush(), 0, u, k);
    assert Arrival(Bush(), 0, u, k) == 6 && Dest(Bush(), u, k) == v;
  }

  lemma {:induction false} RowSize(lo: int, hi: int, c: int, all: set<(int, int)>)
    requires lo <= hi && forall v :: lo <= v < hi ==> (v, c) in all
    ensures |all| >= hi - lo
    decreases hi - lo
  {
    if lo < hi {
      RowSize(lo, hi - 1, c, all - {(hi - 1, c)});
    }
  }

  /** The tree meets every other condition of pathFind, and 64 entries wait in it at once, one
      more than the open list has slots. */
  lemma BushOverflows()
    ensures PositiveLengths(Bush()) && FitsLabels(Bush(), 0)
    ensures |Sure(Bush(), 0, 5)| >= 64 && Overflows(Bush(), 0, 63)
  {
    hide Bush, Sure;
    forall u, k | HasEdge(Bush(), u, k) ensures Dist(Bush(), u, k) > 0 {
      BushEdge(u, k);
    }
    forall w | End(Bush(), 0, w) != NULL ensures Length(Bush(), 0, w) < TRACK_MAX {
      LengthIsDepth(w);
      DepthBound(End(Bush(), 0, w));
    }
    forall v | 63 <= v < 127 ensures (v, 6) in Sure(Bush(), 0, 5) {
      BushIsSure(v);
    }
    RowSize(63, 127, 6, Sure(Bush(), 0, 5));
  }
}
