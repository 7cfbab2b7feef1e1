/** The track ownership server (user/trainservers/TrackManager.c). */
module TrackManager {
  /** Half of TRACK_MAX: the two directions of a node are one piece of track. */
  const NODES := 72

  /** An entry of the ownership table. */
  type U8 = x: nat | x < 256

  function Zeros(n: nat): (r: seq<U8>)
    ensures |r| == n
  {
    seq(n, i => 0)
  }

  /** The train that holds each node; 0 is nobody. */
  type Owners = o: seq<U8> | |o| == NODES witness Zeros(NODES)

  /** A list word: the train in bits 8 to 15, the node in bits 0 to 7. */
  function TrainOf(word: nat): U8 { word / 256 % 256 }

  function NodeOf(word: nat): U8 { word % 256 }

  /** A request is a non-empty list of words for nodes of the layout. */
  predicate IsRequest(r: seq<nat>) {
    |r| > 0 && forall k :: 0 <= k < |r| ==> NodeOf(r[k]) < NODES
  }

  type Request = r: seq<nat> | IsRequest(r) witness [0]

  /** The requesting train is read from the first word only. */
  function Train(r: Request): U8 { TrainOf(r[0]) }

  predicate Names(r: Request, i: nat) {
    exists k :: 0 <= k < |r| && NodeOf(r[k]) == i
  }

  predicate Conflict(o: Owners, t: nat, i: nat)
    requires i < NODES
  {
    o[i] != t && o[i] != 0
  }

  /** No node of the request is held by another train. */
  predicate Free(o: Owners, r: Request) {
    forall k :: 0 <= k < |r| ==> !Conflict(o, Train(r), NodeOf(r[k]))
  }

  function NewOwner(o: Owners, r: Request, i: nat): U8
    requires i < NODES
  {
    if Names(r, i) then Train(r) else if o[i] == Train(r) then 0 else o[i]
  }

  /** The owners after a request. */
  function Granted(o: Owners, r: Request): Owners {
    if Free(o, r) then seq(NODES, i requires 0 <= i < NODES => NewOwner(o, r, i)) else o
  }

  /** The server's answer to a request: both passes over the list, and the revocation between.
      A refusal names the first node of the list that another train holds. */
  method Allocate(ownershipGraph: array<U8>, r: Request) returns (failed: bool, at: nat)
    requires ownershipGraph.Length == NODES
    modifies ownershipGraph
    ensures failed <==> !Free(old(ownershipGraph[..]), r)
    ensures failed ==> at < |r| && Conflict(old(ownershipGraph[..]), Train(r), NodeOf(r[at]))
    ensures failed ==> forall k :: 0 <= k < at ==> !Conflict(old(ownershipGraph[..]), Train(r), NodeOf(r[k]))
    ensures ownershipGraph[..] == Granted(old(ownershipGraph[..]), r)
  {
    var trainId := TrainOf(r[0]);
    ghost var o := ownershipGraph[..];
    var ir2 := 0;
    while ir2 < |r|
      invariant ir2 <= |r|
      invariant forall k :: 0 <= k < ir2 ==> !Conflict(o, trainId, NodeOf(r[k]))
      modifies {}
    {
      var indNode := NodeOf(r[ir2]);
      if ownershipGraph[indNode] != trainId && ownershipGraph[indNode] != 0 {
        assert Conflict(o, trainId, NodeOf(r[ir2]));
        return true, ir2;
      }
      ir2 := ir2 + 1;
    }
    var i := 0;
    while i < NODES
      invariant i <= NODES
      invariant forall j :: 0 <= j < NODES ==> ownershipGraph[j] == if j < i && o[j] == trainId then 0 else o[j]
    {
      if ownershipGraph[i] == trainId {
        ownershipGraph[i] := 0;
      }
      i := i + 1;
    }
    ghost var revoked := ownershipGraph[..];
    var ir := 0;
    while ir < |r|
      invariant ir <= |r|
      invariant forall k :: 0 <= k < ir ==> ownershipGraph[NodeOf(r[k])] == trainId
      invariant forall j {:trigger ownershipGraph[j]} :: 0 <= j < NODES ==>
        ownershipGraph[j] == revoked[j] || (ownershipGraph[j] == trainId && Names(r, j))
    {
      ownershipGraph[NodeOf(r[ir])] := trainId;
      ir := ir + 1;
    }
    failed, at := false, 0;
    assert forall j :: 0 <= j < NODES && Names(r, j) ==> ownershipGraph[j] == trainId;
  }

  // ---------------------------------------------------------------- whole runs

  ghost function Holding(o: Owners, t: nat): set<nat> {
    set i | 0 <= i < NODES && o[i] == t
  }

  ghost function Named(r: Request): set<nat> {
    set i | 0 <= i < NODES && Names(r, i)
  }

  function After(o: Owners, rs: seq<Request>): Owners {
    if rs == [] then o else Granted(After(o, rs[..|rs| - 1]), rs[|rs| - 1])
  }

  const NOBODY: Owners := Zeros(NODES)

  /** The nodes of the last request of `t` that was granted in a run from boot. */
  ghost function LastGranted(rs: seq<Request>, t: nat): set<nat> {
    if rs == [] then {}
    else if Train(rs[|rs| - 1]) == t && Free(After(NOBODY, rs[..|rs| - 1]), rs[|rs| - 1]) then Named(rs[|rs| - 1])
    else LastGranted(rs[..|rs| - 1], t)
  }

  /** A granted request leaves its train with exactly the nodes named, and every other train
      with what it had; a refused one leaves everyone as they were. */
  lemma GrantMoves(o: Owners, r: Request, t: nat)
    requires t != 0
    ensures Holding(Granted(o, r), t) == if Train(r) == t && Free(o, r) then Named(r) else Holding(o, t)
  {
    if Free(o, r) {
      forall i | 0 <= i < NODES && Names(r, i) ensures o[i] == Train(r) || o[i] == 0 {
        var k :| 0 <= k < |r| && NodeOf(r[k]) == i;
        assert !Conflict(o, Train(r), NodeOf(r[k]));
      }
    }
  }

  /** Over any run each train owns exactly the nodes of its last granted request. */
  lemma {:induction false} OwnsLastGranted(rs: seq<Request>, t: nat)
    requires t != 0
    ensures Holding(After(NOBODY, rs), t) == LastGranted(rs, t)
  {
    if rs != [] {
      OwnsLastGranted(rs[..|rs| - 1], t);
      GrantMoves(After(NOBODY, rs[..|rs| - 1]), rs[|rs| - 1], t);
    }
  }

  /** Two trains never hold the same node, nor does a grant to one reach into the other's. */
  lemma GrantsAreApart(rs: seq<Request>, t: nat, u: nat)
    requires t != 0 && u != 0 && t != u
    ensures LastGranted(rs, t) !! LastGranted(rs, u)
  {
    OwnsLastGranted(rs, t);
    OwnsLastGranted(rs, u);
  }

  /** A train that asks for nothing but what it holds is granted it, and keeps just that: the
      call a train makes to give up the track behind it cannot fail. */
  lemma SubsetSucceeds(o: Owners, r: Request)
    requires Train(r) != 0 && Named(r) <= Holding(o, Train(r))
    ensures Free(o, r) && Holding(Granted(o, r), Train(r)) == Named(r)
  {
    forall k | 0 <= k < |r| ensures !Conflict(o, Train(r), NodeOf(r[k])) {
      assert Names(r, NodeOf(r[k])) && NodeOf(r[k]) in Named(r);
    }
    GrantMoves(o, r, Train(r));
  }

  /** A request is granted exactly when every node it names is its own or nobody's. */
  lemma GrantedExactly(o: Owners, r: Request)
    requires Train(r) != 0
    ensures Free(o, r) <==> forall t :: t != 0 && t != Train(r) ==> Named(r) !! Holding(o, t)
  {
    if Free(o, r) {
      forall t | t != 0 && t != Train(r) ensures Named(r) !! Holding(o, t) {
        forall i | i in Named(r) ensures i !in Holding(o, t) {
          var k :| 0 <= k < |r| && NodeOf(r[k]) == i;
          assert !Conflict(o, Train(r), NodeOf(r[k]));
        }
      }
    } else {
      var k :| 0 <= k < |r| && Conflict(o, Train(r), NodeOf(r[k]));
      var i := NodeOf(r[k]);
      assert Names(r, i) && i in Named(r) && i in Holding(o, o[i]);
    }
  }

  /** The only request that takes a node from a train is its own. */
  lemma LosesOnlyByRelease(o: Owners, r: Request, i: nat, t: nat)
    requires i < NODES && t != 0 && o[i] == t && Granted(o, r)[i] != t
    ensures ReleasedBy(o, r, i, t)
  {
    GrantMoves(o, r, t);
    assert i in Holding(o, t) && i !in Holding(Granted(o, r), t);
  }

  /** A node passes from one train to another only through nobody: somewhere in between its
      first holder was granted a request that no longer names it. */
  lemma {:induction false} PassesThroughRelease(o: Owners, rs: seq<Request>, i: nat, t: nat)
    requires i < NODES && o[i] == t && t != 0 && After(o, rs)[i] != t
    ensures exists k :: 0 <= k < |rs| && ReleasedBy(After(o, rs[..k]), rs[k], i, t)
  {
    hide ReleasedBy, Granted;
    var before, r := rs[..|rs| - 1], rs[|rs| - 1];
    var p := After(o, before);
    if p[i] == t {
      LosesOnlyByRelease(p, r, i, t);
      assert ReleasedBy(After(o, rs[..|rs| - 1]), rs[|rs| - 1], i, t);
    } else {
      PassesThroughRelease(o, before, i, t);
      var k :| 0 <= k < |before| && ReleasedBy(After(o, before[..k]), before[k], i, t);
      assert before[..k] == rs[..k] && before[k] == rs[k];
    }
  }

  /** A request by which `t` gives up node `i`, which then belongs to nobody. */
  ghost predicate ReleasedBy(o: Owners, r: Request, i: nat, t: nat)
    requires i < NODES
  {
    o[i] == t && Train(r) == t && Free(o, r) && !Names(r, i) && Granted(o, r)[i] == 0
  }

  // ---------------------------------------------------------------- the client's view

  /** The first word of a refused request whose node another train holds. */
  ghost predicate IsFirstConflict(o: Owners, r: Request, at: nat) {
    && at < |r| && Conflict(o, Train(r), NodeOf(r[at]))
    && forall k :: 0 <= k < at ==> !Conflict(o, Train(r), NodeOf(r[k]))
  }

  /** What trainAllocateTrack returns: 0, or the negated number of the node refused. */
  method ClientResult(ownershipGraph: array<U8>, r: Request) returns (result: int)
    requires ownershipGraph.Length == NODES
    modifies ownershipGraph
    ensures Answers(old(ownershipGraph[..]), r, result)
    ensures ownershipGraph[..] == Granted(old(ownershipGraph[..]), r)
  {
    var failed, at := Allocate(ownershipGraph, r);
    result := if failed then 0 - NodeOf(r[at]) else 0;
  }

  ghost predicate Answers(o: Owners, r: Request, result: int) {
    if Free(o, r) then result == 0
    else exists at: nat :: IsFirstConflict(o, r, at) && result == -(NodeOf(r[at]) as int)
  }

  /** The request names node 0, which another train holds, before any other node that one holds. */
  ghost predicate ZeroConflictsFirst(o: Owners, r: Request) {
    && Conflict(o, Train(r), 0)
    && exists k :: 0 <= k < |r| && NodeOf(r[k]) == 0 && forall j :: 0 <= j < k ==> !Conflict(o, Train(r), NodeOf(r[j]))
  }

  /** The client reads a refusal as success exactly when the list comes to node 0, held by
      another train, before it comes to any other node so held. */
  lemma RefusalLostExactly(o: Owners, r: Request, result: int)
    requires Answers(o, r, result)
    ensures !Free(o, r) && result == 0 <==> ZeroConflictsFirst(o, r)
  {
    if ZeroConflictsFirst(o, r) {
      var k :| 0 <= k < |r| && NodeOf(r[k]) == 0 && forall j :: 0 <= j < k ==> !Conflict(o, Train(r), NodeOf(r[j]));
      assert Conflict(o, Train(r), NodeOf(r[k]));
      var at: nat :| IsFirstConflict(o, r, at) && result == -(NodeOf(r[at]) as int);
      assert at == k;
    }
    if !Free(o, r) && result == 0 {
      var at: nat :| IsFirstConflict(o, r, at) && result == -(NodeOf(r[at]) as int);
      assert NodeOf(r[at]) == 0;
    }
  }

  /** A client can trust the answer to a request, whoever holds what, exactly when the request
      does not name node 0. */
  lemma TrustedExactly(r: Request)
    ensures (forall o: Owners, result :: Answers(o, r, result) && result == 0 ==> Free(o, r)) <==> !Names(r, 0)
  {
    if Names(r, 0) {
      var other: U8 := if Train(r) == 1 then 2 else 1;
      var o: Owners := NOBODY[0 := other];
      var k := FirstNaming(r, 0);
      assert forall j :: 0 <= j < k ==> !Conflict(o, Train(r), NodeOf(r[j]));
      assert Conflict(o, Train(r), NodeOf(r[k])) && IsFirstConflict(o, r, k);
      assert !Free(o, r) && Answers(o, r, 0);
    } else {
      forall o: Owners, result | Answers(o, r, result) && result == 0 ensures Free(o, r) {
        RefusalLostExactly(o, r, result);
      }
    }
  }

  lemma {:induction false} FirstNamingFrom(r: Request, i: nat, from: nat) returns (k: nat)
    requires from < |r| && exists j :: from <= j < |r| && NodeOf(r[j]) == i
    ensures from <= k < |r| && NodeOf(r[k]) == i && forall j :: from <= j < k ==> NodeOf(r[j]) != i
    decreases |r| - from
  {
    k := from;
    if NodeOf(r[from]) != i {
      k := FirstNamingFrom(r, i, from + 1);
    }
  }

  lemma FirstNaming(r: Request, i: nat) returns (k: nat)
    requires Names(r, i)
    ensures k < |r| && NodeOf(r[k]) == i && forall j :: 0 <= j < k ==> NodeOf(r[j]) != i
  {
    k := FirstNamingFrom(r, i, 0);
  }

  /** Train 1 asks for node 0 while train 2 holds it: the server refuses, the client sees 0. */
  lemma RefusalLost()
    ensures var o, r: Request := NOBODY[0 := 2], [0x100];
      Train(r) == 1 && !Free(o, r) && Answers(o, r, 0) && Granted(o, r) == o
  {
    var o: Owners, r: Request := NOBODY[0 := 2], [0x100];
    assert Conflict(o, Train(r), NodeOf(r[0])) && IsFirstConflict(o, r, 0);
  }
}
