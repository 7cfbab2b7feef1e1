/** Singly linked chains threaded through an array of successor indices, the
    shape shared by the lists and the free lists of the repository. */
module Chains {
  const NULL := -1

  /** The link that node number `k` of the chain `ids` must hold. */
  function Following(ids: seq<nat>, k: nat): int {
    if k + 1 < |ids| then ids[k + 1] else NULL
  }

  function HeadOf(ids: seq<nat>): int {
    if ids == [] then NULL else ids[0]
  }

  /** Starting at `head`, the links visit exactly `ids` and then end. */
  ghost predicate Chain(next: seq<int>, head: int, ids: seq<nat>) {
    && head == HeadOf(ids)
    && forall k {:trigger Following(ids, k)} :: 0 <= k < |ids| ==>
         ids[k] < |next| && next[ids[k]] == Following(ids, k)
  }

  ghost predicate Distinct<T>(s: seq<T>) {
    forall j, k :: 0 <= j < k < |s| ==> s[j] != s[k]
  }

  /** No node is on both chains. */
  ghost predicate Apart<T>(a: seq<T>, b: seq<T>) {
    forall x :: x in a ==> x !in b
  }

  lemma SubsetSize<T>(a: set<T>, b: set<T>)
    requires a <= b
    ensures |a| <= |b|
  {
    assert b == a + (b - a);
  }

  lemma LinkAt(next: seq<int>, head: int, ids: seq<nat>, k: nat)
    requires Chain(next, head, ids) && k < |ids|
    ensures ids[k] < |next| && next[ids[k]] == Following(ids, k)
  {
    var f := Following(ids, k);
  }

  lemma FirstLink(next: seq<int>, head: int, ids: seq<nat>)
    requires Chain(next, head, ids) && ids != []
    ensures head == ids[0] && 0 <= head < |next| && next[head] == HeadOf(ids[1..])
    ensures Chain(next, next[head], ids[1..])
  {
    LinkAt(next, head, ids, 0);
    forall k | 0 <= k < |ids[1..]| ensures ids[1..][k] < |next| && next[ids[1..][k]] == Following(ids[1..], k) {
      LinkAt(next, head, ids, k + 1);
    }
  }

  /** Rewriting a link outside the chain does not disturb it. */
  lemma ChainFrame(next: seq<int>, head: int, ids: seq<nat>, i: nat, v: int)
    requires Chain(next, head, ids) && i < |next| && i !in ids
    ensures Chain(next[i := v], head, ids)
  {
    forall k | 0 <= k < |ids| ensures ids[k] < |next| && next[i := v][ids[k]] == Following(ids, k) {
      LinkAt(next, head, ids, k);
      assert ids[k] in ids;
    }
  }

  /** Linking a fresh node in front of a chain extends it by that node. */
  lemma ChainCons(next: seq<int>, head: int, ids: seq<nat>, i: nat)
    requires Chain(next, head, ids) && i < |next| && i !in ids
    ensures Chain(next[i := head], i, [i] + ids)
  {
    var all := [i] + ids;
    ChainFrame(next, head, ids, i, head);
    forall k | 0 <= k < |all| ensures all[k] < |next| && next[i := head][all[k]] == Following(all, k) {
      if k > 0 {
        LinkAt(next, head, ids, k - 1);
      }
    }
  }

  /** Pointing node `k` of a chain at a fresh node that carries on where it did inserts that node. */
  lemma ChainInsert(next: seq<int>, head: int, ids: seq<nat>, k: nat, i: nat)
    requires Chain(next, head, ids) && Distinct(ids) && k < |ids| && i < |next| && i !in ids
    ensures ids[k] < |next| && next[ids[k]] == Following(ids, k)
    ensures Chain(next[i := next[ids[k]]][ids[k] := i], head, ids[..k + 1] + [i] + ids[k + 1..])
  {
    LinkAt(next, head, ids, k);
    var all := ids[..k + 1] + [i] + ids[k + 1..];
    var links := next[i := next[ids[k]]][ids[k] := i];
    forall j | 0 <= j < |all| ensures all[j] < |links| && links[all[j]] == Following(all, j) {
      if j <= k {
        LinkAt(next, head, ids, j);
        assert ids[j] in ids;
      } else if j > k + 1 {
        LinkAt(next, head, ids, j - 1);
        assert ids[j - 1] in ids;
      }
    }
  }

  /** The identity chain built by the initialisation loops. */
  lemma FreshChain(next: seq<int>, ids: seq<nat>)
    requires |ids| == |next| && forall i :: 0 <= i < |ids| ==> ids[i] == i
    requires forall i :: 0 <= i < |next| ==> next[i] == (if i + 1 < |next| then i + 1 else NULL)
    ensures Chain(next, HeadOf(ids), ids) && Distinct(ids)
  {
  }

  /** Different numbers from a range are no more than the range is long. */
  lemma {:induction false} Pigeonhole(xs: seq<int>, lo: int, hi: int)
    requires lo <= hi && Distinct(xs) && forall x :: x in xs ==> lo <= x < hi
    ensures |xs| <= hi - lo
    decreases hi - lo
  {
    if lo == hi {
      assert forall i :: 0 <= i < |xs| ==> xs[i] in xs;
    } else if hi - 1 in xs {
      var i :| 0 <= i < |xs| && xs[i] == hi - 1;
      var rest := xs[..i] + xs[i + 1..];
      forall x | x in rest ensures lo <= x < hi - 1 {
        var j :| 0 <= j < |rest| && rest[j] == x;
        var m := if j < i then j else j + 1;
        assert x == xs[m] && xs[m] in xs && m != i;
      }
      Pigeonhole(rest, lo, hi - 1);
    } else {
      Pigeonhole(xs, lo, hi - 1);
    }
  }

  // ---------------------------------------------------------------- moving a node between two chains

  lemma HeadIsFirst(links: seq<int>, head: int, ids: seq<nat>)
    requires Chain(links, head, ids)
    ensures ids == [] ==> head == NULL
    ensures ids != [] ==> head == ids[0] >= 0
  {
  }

  lemma RestMembers(ids: seq<nat>, free: seq<nat>)
    requires ids != [] && Distinct(ids) && Distinct(free) && Apart(ids, free)
    ensures ids[0] !in ids[1..] && ids[0] !in free
    ensures Distinct(ids[1..]) && Distinct([ids[0]] + free) && Apart(ids[1..], [ids[0]] + free)
  {
    assert ids[0] in ids;
  }

  /** The node numbers with a new one before the k-th. */
  ghost function Spliced(ids: seq<nat>, node: nat, k: nat): seq<nat>
    requires k <= |ids|
  {
    ids[..k] + [node] + ids[k..]
  }

  lemma SplicedMembers(ids: seq<nat>, free: seq<nat>, node: nat, k: nat)
    requires k <= |ids| && node !in ids && node !in free && Distinct(ids) && Apart(ids, free)
    ensures var all := Spliced(ids, node, k);
      && |all| == |ids| + 1 && Distinct(all) && Apart(all, free)
      && forall j {:trigger all[j]} :: 0 <= j < |all| ==> all[j] == node || all[j] in ids
  {
    var all := Spliced(ids, node, k);
    forall i, j | 0 <= i < j < |all| ensures all[i] != all[j] {
      assert i < k ==> all[i] == ids[i] && ids[i] in ids;
      assert i > k ==> all[i] == ids[i - 1] && ids[i - 1] in ids;
      assert j < k ==> all[j] == ids[j] && ids[j] in ids;
      assert j > k ==> all[j] == ids[j - 1] && ids[j - 1] in ids;
    }
  }

  /** Linking a node in front of the queue leaves the free list alone. */
  lemma LinkFront(links: seq<int>, queue: int, freeList: int, ids: seq<nat>, free: seq<nat>, node: nat)
    requires Chain(links, queue, ids) && Chain(links, freeList, free)
    requires node < |links| && node !in ids && node !in free
    ensures queue == (if 0 < |ids| then ids[0] else NULL)
    ensures Chain(links[node := queue], node, Spliced(ids, node, 0)) && Chain(links[node := queue], freeList, free)
  {
    ChainCons(links, queue, ids, node);
    ChainFrame(links, freeList, free, node, queue);
    assert Spliced(ids, node, 0) == [node] + ids;
  }

  /** Linking a node in behind the (k-1)-st leaves the free list alone. */
  lemma LinkAfter(links: seq<int>, queue: int, freeList: int, ids: seq<nat>, free: seq<nat>, node: nat, k: nat)
    requires Chain(links, queue, ids) && Chain(links, freeList, free) && Distinct(ids) && Apart(ids, free)
    requires node < |links| && node !in ids && node !in free && 0 < k <= |ids|
    ensures ids[k - 1] < |links|
    ensures var linked := links[node := if k < |ids| then ids[k] else NULL][ids[k - 1] := node];
      Chain(linked, queue, Spliced(ids, node, k)) && Chain(linked, freeList, free)
  {
    var onward := if k < |ids| then ids[k] else NULL;
    LinkAt(links, queue, ids, k - 1);
    ChainInsert(links, queue, ids, k - 1, node);
    assert ids[k - 1] in ids && ids[k - 1] !in free;
    ChainFrame(links, freeList, free, node, onward);
    ChainFrame(links[node := onward], freeList, free, ids[k - 1], node);
  }

  /** Taking the first free node off its chain and ending it leaves the other chain alone. */
  lemma TakeFirst(next: seq<int>, head: int, ids: seq<nat>, freeList: int, free: seq<nat>, v: int)
    requires Chain(next, head, ids) && Chain(next, freeList, free) && free != []
    requires Distinct(free) && Apart(ids, free)
    ensures freeList == free[0] < |next| && free[0] !in ids && free[0] !in free[1..]
    ensures next[free[0]] == HeadOf(free[1..]) && Distinct(free[1..]) && Apart(ids, free[1..])
    ensures Chain(next[free[0] := v], head, ids) && Chain(next[free[0] := v], next[free[0]], free[1..])
  {
    FirstLink(next, freeList, free);
    assert free[0] in free;
    ChainFrame(next, head, ids, free[0], v);
    ChainFrame(next, next[free[0]], free[1..], free[0], v);
  }

  /** A list and a free list that share no node. */
  ghost predicate TwoLists(next: seq<int>, head: int, ids: seq<nat>, freeList: int, free: seq<nat>) {
    Chain(next, head, ids) && Chain(next, freeList, free) && Distinct(ids) && Distinct(free) && Apart(ids, free)
  }

  lemma Ends(next: seq<int>, head: int, ids: seq<nat>, freeList: int, free: seq<nat>)
    requires TwoLists(next, head, ids, freeList, free)
    ensures freeList == HeadOf(free) && head == HeadOf(ids)
    ensures free != [] ==> free[0] < |next| && free[0] !in ids
    ensures forall k :: 0 <= k < |ids| ==> ids[k] < |next|
  {
    if free != [] {
      LinkAt(next, freeList, free, 0);
      assert free[0] in free;
    }
    forall k | 0 <= k < |ids| ensures ids[k] < |next| {
      LinkAt(next, head, ids, k);
    }
  }

  /** The first free node goes to the front of the list. */
  lemma FreeToFront(next: seq<int>, head: int, ids: seq<nat>, freeList: int, free: seq<nat>)
    requires TwoLists(next, head, ids, freeList, free) && free != []
    ensures free[0] < |next| && free[0] !in ids
    ensures TwoLists(next[free[0] := head], free[0], [free[0]] + ids, next[free[0]], free[1..])
  {
    hide Chain, Distinct, Apart;
    TakeFirst(next, head, ids, freeList, free, head);
    SplicedMembers(ids, free[1..], free[0], 0);
    LinkFront(next[free[0] := head], head, next[free[0]], ids, free[1..], free[0]);
    assert next[free[0] := head][free[0] := head] == next[free[0] := head];
    assert Spliced(ids, free[0], 0) == [free[0]] + ids;
  }

  /** The first free node goes behind the last of the list. */
  lemma FreeToBack(next: seq<int>, head: int, ids: seq<nat>, freeList: int, free: seq<nat>)
    requires TwoLists(next, head, ids, freeList, free) && free != [] && ids != []
    ensures free[0] < |next| && free[0] !in ids && ids[|ids| - 1] < |next|
    ensures TwoLists(next[free[0] := NULL][ids[|ids| - 1] := free[0]], head, ids + [free[0]], next[free[0]], free[1..])
  {
    hide Chain, Distinct, Apart;
    TakeFirst(next, head, ids, freeList, free, NULL);
    var n, ended := |ids|, next[free[0] := NULL];
    SplicedMembers(ids, free[1..], free[0], n);
    LinkAfter(ended, head, next[free[0]], ids, free[1..], free[0], n);
    assert ended[free[0] := NULL] == ended;
    assert Spliced(ids, free[0], n) == ids + [free[0]];
  }

  /** Taking the front node off the list; nothing is said of the free list any more. */
  lemma DropFront(next: seq<int>, head: int, ids: seq<nat>, freeList: int, free: seq<nat>)
    requires TwoLists(next, head, ids, freeList, free) && ids != []
    ensures head == ids[0] < |next| && ids[0] !in free
    ensures Chain(next[ids[0] := NULL], next[ids[0]], ids[1..]) && Distinct(ids[1..]) && ids[0] !in ids[1..]
    ensures forall x :: x in ids[1..] ==> x !in free
  {
    FirstLink(next, head, ids);
    assert ids == [ids[0]] + ids[1..];
    ChainFrame(next, next[ids[0]], ids[1..], ids[0], NULL);
  }
}
