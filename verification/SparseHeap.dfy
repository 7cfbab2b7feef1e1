/** The sparse binary heap of common/heap.c: slots come from a LIFO free list
    threaded through the array, so the filled slots need not be a prefix of it. */
module SparseHeap {
  import opened Chains

  type U16 = x: int | 0 <= x < 0x1_0000

  /** One slot. `next` is the index of the next free slot, or NULL. */
  datatype HeapNode = HeapNode(value: U16, cost: U16, isFilled: bool, next: int)

  /** What a caller stores: the two fields of a node that survive a round trip. */
  datatype Entry = Entry(value: U16, cost: U16)

  function Right(i: nat): nat { (i + 1) * 2 }

  function Left(i: nat): nat { Right(i) - 1 }

  function Parent(i: nat): int { (i + i % 2) / 2 - 1 }

  lemma ParentOfChild(i: nat)
    ensures Parent(Left(i)) == i && Parent(Right(i)) == i
    ensures i < Left(i) < Right(i)
    ensures i > 0 ==> 0 <= Parent(i) < i && (i == Left(Parent(i)) || i == Right(Parent(i)))
  {
  }

  // ---------------------------------------------------------------- shape

  /** The filled slots are closed under Parent and costs never decrease downwards. */
  ghost predicate HeapShape(a: seq<HeapNode>) {
    forall i {:trigger Parent(i)} :: 0 < i < |a| && a[i].isFilled ==>
      a[Parent(i)].isFilled && a[Parent(i)].cost <= a[i].cost
  }

  ghost function Nexts(a: seq<HeapNode>): seq<int> {
    seq(|a|, i requires 0 <= i < |a| => a[i].next)
  }

  /** The free list threads `free` through the slots. */
  ghost predicate Linked(a: seq<HeapNode>, head: int, free: seq<nat>) {
    Chain(Nexts(a), head, free)
  }

  /** `free` lists the unfilled slots, each once. */
  ghost predicate Enumerates(a: seq<HeapNode>, free: seq<nat>) {
    && (forall k :: 0 <= k < |free| ==> free[k] < |a| && !a[free[k]].isFilled)
    && (forall i :: 0 <= i < |a| && !a[i].isFilled ==> i in free)
    && Distinct(free)
  }

  /** Every free slot's parent is filled, or is handed out before the slot itself. */
  ghost predicate ParentFirst(a: seq<HeapNode>, free: seq<nat>) {
    forall k {:trigger Parent(free[k])} :: 0 <= k < |free| ==>
      free[k] == 0 || (0 <= Parent(free[k]) < |a| && (a[Parent(free[k])].isFilled || Parent(free[k]) in free[..k]))
  }

  ghost predicate Wellformed(a: seq<HeapNode>, head: int, free: seq<nat>) {
    && a != []
    && HeapShape(a)
    && Linked(a, head, free)
    && Enumerates(a, free)
    && ParentFirst(a, free)
  }

  // ---------------------------------------------------------------- contents

  ghost function Held(n: HeapNode): multiset<Entry> {
    if n.isFilled then multiset{Entry(n.value, n.cost)} else multiset{}
  }

  ghost function Bag(a: seq<HeapNode>): multiset<Entry> {
    if a == [] then multiset{} else Bag(a[..|a| - 1]) + Held(a[|a| - 1])
  }

  lemma Cancel<T>(a: multiset<T>, b: multiset<T>, m: multiset<T>)
    requires a + m == b + m
    ensures a == b
  {
    forall x ensures a[x] == b[x] {
      assert (a + m)[x] == (b + m)[x];
    }
  }

  lemma AddToBoth<T>(a: multiset<T>, b: multiset<T>, m: multiset<T>, x: multiset<T>, y: multiset<T>)
    requires a + x == b + y
    ensures (a + m) + x == (b + m) + y
  {
    assert (a + m) + x == (a + x) + m;
    assert (b + m) + y == (b + y) + m;
  }

  lemma {:induction false} BagUpdate(a: seq<HeapNode>, i: nat, x: HeapNode)
    requires i < |a|
    ensures Bag(a[i := x]) + Held(a[i]) == Bag(a) + Held(x)
  {
    var n, b := |a| - 1, a[i := x];
    var front := a[..n];
    if i == n {
      assert b[..n] == front;
      assert Bag(b) == Bag(front) + Held(x);
    } else {
      BagUpdate(front, i, x);
      assert b[..n] == front[i := x];
      AddToBoth(Bag(front[i := x]), Bag(front), Held(a[n]), Held(a[i]), Held(x));
    }
  }

  lemma BagVacate(a: seq<HeapNode>, i: nat, x: HeapNode)
    requires i < |a| && !x.isFilled
    ensures Bag(a[i := x]) + Held(a[i]) == Bag(a)
    ensures !a[i].isFilled ==> Bag(a[i := x]) == Bag(a)
  {
    BagUpdate(a, i, x);
    assert Bag(a) + Held(x) == Bag(a);
    if !a[i].isFilled {
      Cancel(Bag(a[i := x]), Bag(a), multiset{});
    }
  }

  lemma BagSwap(a: seq<HeapNode>, i: nat, j: nat)
    requires i < |a| && j < |a| && i != j
    ensures Bag(a[i := a[j]][j := a[i]]) == Bag(a)
  {
    BagUpdate(a, i, a[j]);
    BagUpdate(a[i := a[j]], j, a[i]);
    Cancel(Bag(a[i := a[j]][j := a[i]]), Bag(a), Held(a[j]));
  }

  ghost predicate Holds(n: HeapNode, e: Entry) {
    n.isFilled && n.value == e.value && n.cost == e.cost
  }

  lemma {:induction false} BagMember(a: seq<HeapNode>, e: Entry)
    ensures e in Bag(a) <==> exists i :: 0 <= i < |a| && Holds(a[i], e)
  {
    if a != [] {
      var front, last := a[..|a| - 1], a[|a| - 1];
      BagMember(front, e);
      assert e in Bag(a) <==> e in Bag(front) || Holds(last, e);
      assert forall i :: 0 <= i < |front| ==> front[i] == a[i];
      assert a == front + [last];
    }
  }

  lemma {:induction false} BagSize(a: seq<HeapNode>)
    ensures |Bag(a)| <= |a|
    ensures |Bag(a)| == |a| <==> forall i :: 0 <= i < |a| ==> a[i].isFilled
    ensures |Bag(a)| == 0 <==> forall i :: 0 <= i < |a| ==> !a[i].isFilled
  {
    if a != [] {
      var front, last := a[..|a| - 1], a[|a| - 1];
      BagSize(front);
      CardinalityOfSum(Bag(front), last);
      assert forall i :: 0 <= i < |front| ==> front[i] == a[i];
      assert a == front + [last];
    }
  }

  lemma CardinalityOfSum(m: multiset<Entry>, n: HeapNode)
    ensures |m + Held(n)| == |m| + (if n.isFilled then 1 else 0)
  {
  }

  /** The root of a shaped heap holds a minimum, and an empty root means an empty heap. */
  lemma {:induction false} RootIsMinimum(a: seq<HeapNode>, i: nat)
    requires HeapShape(a) && i < |a| && a[i].isFilled
    ensures a[0].isFilled && a[0].cost <= a[i].cost
    decreases i
  {
    if i > 0 {
      RootIsMinimum(a, Parent(i));
    }
  }

  lemma BottomIsMinimum(a: seq<HeapNode>)
    requires HeapShape(a) && a != []
    ensures !a[0].isFilled ==> Bag(a) == multiset{}
    ensures a[0].isFilled ==> Entry(a[0].value, a[0].cost) in Bag(a)
    ensures forall e :: e in Bag(a) ==> a[0].cost <= e.cost
  {
    var root := Entry(a[0].value, a[0].cost);
    BagMember(a, root);
    assert a[0].isFilled ==> Holds(a[0], root);
    forall e | e in Bag(a) ensures a[0].isFilled && a[0].cost <= e.cost {
      BagMember(a, e);
      var i :| 0 <= i < |a| && Holds(a[i], e);
      RootIsMinimum(a, i);
    }
    if !a[0].isFilled {
      assert forall e :: e !in Bag(a);
    }
  }

  // ---------------------------------------------------------------- sifting up

  /** Ordered everywhere except possibly between `hole` and its parent. */
  ghost predicate Rising(b: seq<HeapNode>, hole: nat) {
    && hole < |b| && b[hole].isFilled
    && (forall i {:trigger Parent(i)} :: 0 < i < |b| && b[i].isFilled ==> b[Parent(i)].isFilled)
    && (forall i {:trigger Parent(i)} :: 0 < i < |b| && b[i].isFilled && i != hole ==> b[Parent(i)].cost <= b[i].cost)
    && (hole > 0 ==> forall i {:trigger Parent(i)} :: 0 < i < |b| && b[i].isFilled && Parent(i) == hole ==>
          b[Parent(hole)].cost <= b[i].cost)
  }

  lemma RiseStep(b: seq<HeapNode>, hole: nat)
    requires 0 < hole && Rising(b, hole) && b[hole].cost <= b[Parent(hole)].cost
    ensures Rising(b[hole := b[Parent(hole)]][Parent(hole) := b[hole]], Parent(hole))
  {
  }

  lemma StartRising(a: seq<HeapNode>, head: int, free: seq<nat>, node: HeapNode)
    requires Wellformed(a, head, free) && free != [] && node.isFilled
    ensures Rising(a[free[0] := node], free[0])
  {
    var b := a[free[0] := node];
    assert free[..0] == [];
    assert free[0] == 0 || b[Parent(free[0])].isFilled;
    forall i | 0 < i < |b| && b[i].isFilled ensures b[Parent(i)].isFilled && Parent(i) != free[0] {
    }
  }

  /** Midway through a push into slot `slot`: `b` is the heap as if `node` already stood at `hole`. */
  ghost predicate Pushing(a: seq<HeapNode>, slot: nat, node: HeapNode, b: seq<HeapNode>, hole: nat) {
    && |b| == |a| && slot < |a|
    && Rising(b, hole) && b[hole] == node
    && Bag(b) == Bag(a) + Held(node)
    && (forall i :: 0 <= i < |a| ==> b[i].isFilled == (a[i].isFilled || i == slot))
    && (forall i :: 0 <= i < |a| && !b[i].isFilled ==> b[i] == a[i])
  }

  lemma PushStep(a: seq<HeapNode>, slot: nat, node: HeapNode, b: seq<HeapNode>, hole: nat)
    requires 0 < hole && Pushing(a, slot, node, b, hole) && node.cost <= b[Parent(hole)].cost
    ensures Pushing(a, slot, node, b[hole := b[Parent(hole)]][Parent(hole) := node], Parent(hole))
  {
    hide Bag;
    RiseStep(b, hole);
    BagSwap(b, hole, Parent(hole));
  }

  lemma StartPush(a: seq<HeapNode>, head: int, free: seq<nat>, node: HeapNode)
    requires Wellformed(a, head, free) && free != [] && node.isFilled
    ensures Pushing(a, free[0], node, a[free[0] := node], free[0])
  {
    hide HeapShape, Linked, Enumerates, ParentFirst, Bag, Rising;
    HeadOfFreeList(a, head, free);
    StartRising(a, head, free, node);
    BagUpdate(a, free[0], node);
  }

  lemma FinishPush(a: seq<HeapNode>, head: int, free: seq<nat>, node: HeapNode, b: seq<HeapNode>, hole: nat)
    requires Wellformed(a, head, free) && free != []
    requires Pushing(a, free[0], node, b, hole)
    requires hole == 0 || b[Parent(hole)].cost <= node.cost
    ensures Wellformed(b, a[free[0]].next, free[1..])
  {
    TakeSlot(a, head, free, b);
  }

  // ---------------------------------------------------------------- sinking a hole

  /** Shaped everywhere except around the unfilled slot `hole`. */
  ghost predicate Sinking(b: seq<HeapNode>, hole: nat) {
    && hole < |b| && !b[hole].isFilled
    && (hole > 0 ==> b[Parent(hole)].isFilled)
    && (forall i {:trigger Parent(i)} :: 0 < i < |b| && b[i].isFilled && Parent(i) != hole ==>
          b[Parent(i)].isFilled && b[Parent(i)].cost <= b[i].cost)
    && (hole > 0 ==> forall i {:trigger Parent(i)} :: 0 < i < |b| && b[i].isFilled && Parent(i) == hole ==>
          b[Parent(hole)].cost <= b[i].cost)
  }

  ghost predicate LeastChild(b: seq<HeapNode>, hole: nat, child: nat) {
    && (child == Left(hole) || child == Right(hole)) && Right(hole) < |b|
    && b[child].isFilled
    && (b[Left(hole)].isFilled ==> b[child].cost <= b[Left(hole)].cost)
    && (b[Right(hole)].isFilled ==> b[child].cost <= b[Right(hole)].cost)
  }

  ghost predicate Childless(b: seq<HeapNode>, hole: nat) {
    && (Left(hole) < |b| ==> !b[Left(hole)].isFilled)
    && (Right(hole) < |b| ==> !b[Right(hole)].isFilled)
  }

  lemma SinkStep(b: seq<HeapNode>, hole: nat, child: nat, empty: HeapNode)
    requires Sinking(b, hole) && !empty.isFilled
    requires LeastChild(b, hole, child)
    ensures Sinking(b[hole := b[child]][child := empty], child)
  {
    hide Parent, Left, Right;
    ParentOfChild(hole);
    ParentOfChild(child);
    var c := b[hole := b[child]][child := empty];
    forall i {:trigger Parent(i)} | 0 < i < |c| && c[i].isFilled
      ensures 0 <= Parent(i) < i
      ensures Parent(i) != child ==> c[Parent(i)].isFilled && c[Parent(i)].cost <= c[i].cost
      ensures Parent(i) == child ==> c[hole].cost <= c[i].cost
    {
      ParentOfChild(i);
    }
  }

  lemma BagSwapHole(b: seq<HeapNode>, hole: nat, child: nat, empty: HeapNode)
    requires hole < |b| && child < |b| && hole != child && !b[hole].isFilled && !empty.isFilled
    ensures Bag(b[hole := b[child]][child := empty]) == Bag(b)
  {
    var c := b[hole := b[child]];
    BagUpdate(b, hole, b[child]);
    BagUpdate(c, child, empty);
    Cancel(Bag(c[child := empty]), Bag(b), Held(b[child]));
  }

  /** Midway through a pop: `b` is the heap with the popped entry gone and slot `hole` emptied. */
  ghost predicate Popping(a: seq<HeapNode>, b: seq<HeapNode>, hole: nat) {
    && |b| == |a| && a != []
    && Sinking(b, hole)
    && Bag(b) + Held(a[0]) == Bag(a)
    && (forall i :: 0 <= i < |a| ==> b[i].isFilled == (a[i].isFilled && i != hole))
    && (forall i :: 0 <= i < |a| && !a[i].isFilled ==> b[i] == a[i])
  }

  lemma StartSinking(a: seq<HeapNode>, empty: HeapNode)
    requires HeapShape(a) && a != [] && !empty.isFilled
    ensures Sinking(a[0 := empty], 0)
  {
  }

  lemma StartPop(a: seq<HeapNode>, empty: HeapNode)
    requires HeapShape(a) && a != [] && a[0].isFilled && !empty.isFilled
    ensures Popping(a, a[0 := empty], 0)
  {
    BagVacate(a, 0, empty);
    StartSinking(a, empty);
  }

  lemma PopStep(a: seq<HeapNode>, b: seq<HeapNode>, hole: nat, child: nat, empty: HeapNode)
    requires Popping(a, b, hole) && !empty.isFilled && a[hole].isFilled
    requires LeastChild(b, hole, child)
    ensures Popping(a, b[hole := b[child]][child := empty], child) && a[child].isFilled
  {
    hide Sinking, Bag;
    SinkStep(b, hole, child, empty);
    BagSwapHole(b, hole, child, empty);
  }

  lemma FinishSinking(b: seq<HeapNode>, hole: nat, last: HeapNode)
    requires Sinking(b, hole) && !last.isFilled
    requires Childless(b, hole)
    ensures HeapShape(b[hole := last])
  {
  }

  lemma FinishPop(a: seq<HeapNode>, head: int, free: seq<nat>, b: seq<HeapNode>, hole: nat, last: HeapNode)
    requires Wellformed(a, head, free) && Popping(a, b, hole) && a[hole].isFilled
    requires Childless(b, hole)
    requires !last.isFilled && last.next == head
    ensures Wellformed(b[hole := last], hole, [hole] + free)
    ensures Bag(b[hole := last]) + Held(a[0]) == Bag(a)
  {
    hide HeapShape, Linked, Enumerates, ParentFirst, Bag, Childless;
    FinishSinking(b, hole, last);
    BagVacate(b, hole, last);
    ReturnSlot(a, head, free, b[hole := last], hole);
  }

  // ---------------------------------------------------------------- the free list

  lemma FreshHeap(a: seq<HeapNode>, free: seq<nat>)
    requires a != []
    requires |free| == |a| && forall i :: 0 <= i < |a| ==> free[i] == i
    requires forall i :: 0 <= i < |a| ==> !a[i].isFilled && a[i].next == (if i + 1 < |a| then i + 1 else NULL)
    ensures Wellformed(a, 0, free)
  {
    forall k | 0 <= k < |free|
      ensures free[k] == 0 || (0 <= Parent(free[k]) < |a| && Parent(free[k]) in free[..k])
    {
      if k > 0 {
        assert free[..k][Parent(k)] == Parent(free[k]);
      }
    }
    forall i | 0 <= i < |a| ensures i in free {
      assert free[i] == i;
    }
  }

  /** Filling the first free slot leaves the rest of the list a good free list. */
  lemma TakeSlot(a: seq<HeapNode>, head: int, free: seq<nat>, b: seq<HeapNode>)
    requires Linked(a, head, free) && Enumerates(a, free) && ParentFirst(a, free) && free != []
    requires |b| == |a|
    requires forall i :: 0 <= i < |a| ==> b[i].isFilled == (a[i].isFilled || i == free[0])
    requires forall i :: 0 <= i < |a| && !b[i].isFilled ==> b[i] == a[i]
    ensures Linked(b, a[free[0]].next, free[1..]) && Enumerates(b, free[1..]) && ParentFirst(b, free[1..])
  {
    var rest := free[1..];
    assert a[free[0]].next == Following(free, 0);
    forall k | 0 <= k < |rest| ensures rest[k] < |b| && b[rest[k]].next == Following(rest, k) {
      assert Following(rest, k) == Following(free, k + 1);
    }
    forall i | 0 <= i < |b| && !b[i].isFilled ensures i in rest {
      assert i in free;
    }
    forall k | 0 <= k < |rest|
      ensures rest[k] == 0 || (0 <= Parent(rest[k]) < |b| && (b[Parent(rest[k])].isFilled || Parent(rest[k]) in rest[..k]))
    {
      assert rest[k] == free[k + 1];
      if rest[k] != 0 && !b[Parent(rest[k])].isFilled {
        var m :| 0 <= m < k + 1 && free[m] == Parent(rest[k]);
        assert rest[m - 1] == Parent(rest[k]);
      }
    }
  }

  /** `b` is `a` with the filled slot `slot` emptied. */
  ghost predicate Emptied(a: seq<HeapNode>, b: seq<HeapNode>, slot: nat) {
    && |b| == |a| && slot < |a| && a[slot].isFilled
    && (forall i :: 0 <= i < |a| ==> b[i].isFilled == (a[i].isFilled && i != slot))
    && (forall i :: 0 <= i < |a| && !a[i].isFilled ==> b[i] == a[i])
  }

  lemma ReturnLinked(a: seq<HeapNode>, head: int, free: seq<nat>, b: seq<HeapNode>, slot: nat)
    requires Linked(a, head, free) && Enumerates(a, free) && Emptied(a, b, slot) && b[slot].next == head
    ensures Linked(b, slot, [slot] + free)
  {
    var all := [slot] + free;
    forall k | 0 <= k < |all| ensures all[k] < |b| && b[all[k]].next == Following(all, k) {
      if k > 0 {
        assert Following(all, k) == Following(free, k - 1);
      }
    }
  }

  lemma ReturnEnumerates(a: seq<HeapNode>, free: seq<nat>, b: seq<HeapNode>, slot: nat)
    requires Enumerates(a, free) && Emptied(a, b, slot)
    ensures Enumerates(b, [slot] + free)
  {
    var all := [slot] + free;
    forall i | 0 <= i < |b| && !b[i].isFilled ensures i in all {
      if i != slot {
        assert i in free;
      }
    }
  }

  lemma ReturnParentFirst(a: seq<HeapNode>, free: seq<nat>, b: seq<HeapNode>, slot: nat)
    requires ParentFirst(a, free) && Emptied(a, b, slot)
    requires slot > 0 ==> b[Parent(slot)].isFilled
    ensures ParentFirst(b, [slot] + free)
  {
    var all := [slot] + free;
    forall k | 0 <= k < |all|
      ensures all[k] == 0 || (0 <= Parent(all[k]) < |b| && (b[Parent(all[k])].isFilled || Parent(all[k]) in all[..k]))
    {
      if k > 0 && all[k] != 0 {
        assert all[k] == free[k - 1] && all[..k] == [slot] + free[..k - 1];
      }
    }
  }

  /** Recycling a slot to the front of the list keeps the list a good free list. */
  lemma ReturnSlot(a: seq<HeapNode>, head: int, free: seq<nat>, b: seq<HeapNode>, slot: nat)
    requires Linked(a, head, free) && Enumerates(a, free) && ParentFirst(a, free)
    requires Emptied(a, b, slot) && b[slot].next == head
    requires slot > 0 ==> b[Parent(slot)].isFilled
    ensures Linked(b, slot, [slot] + free) && Enumerates(b, [slot] + free) && ParentFirst(b, [slot] + free)
  {
    ReturnLinked(a, head, free, b, slot);
    ReturnEnumerates(a, free, b, slot);
    ReturnParentFirst(a, free, b, slot);
  }

  /** What the free list's head tells a caller about the whole heap. */
  lemma HeadOfFreeList(a: seq<HeapNode>, head: int, free: seq<nat>)
    requires Wellformed(a, head, free)
    ensures head == NULL <==> free == []
    ensures free == [] <==> |Bag(a)| == |a|
    ensures free != [] ==> head == free[0] && 0 <= head < |a| && !a[head].isFilled
  {
    BagSize(a);
    if free == [] {
      assert forall i :: 0 <= i < |a| ==> a[i].isFilled;
    } else {
      assert Following(free, 0) == Following(free, 0);
    }
  }

  // ---------------------------------------------------------------- the heap

  class HeapU16 {
    const nodes: array<HeapNode>
    var freeList: int
    ghost var free: seq<nat>

    ghost predicate Valid()
      reads this, nodes
    {
      Wellformed(nodes[..], freeList, free)
    }

    ghost function Contents(): multiset<Entry>
      reads this, nodes
    {
      Bag(nodes[..])
    }

    /** heapU16Init over a caller's array of at least one slot. */
    constructor (nodes: array<HeapNode>)
      requires nodes.Length >= 1
      modifies nodes
      ensures Valid() && this.nodes == nodes
      ensures Contents() == multiset{}
      ensures |free| == nodes.Length && forall i :: 0 <= i < nodes.Length ==> free[i] == i
    {
      this.nodes := nodes;
      freeList := 0;
      free := seq(nodes.Length, i => i);
      new;
      ghost var order := free;

      var i := 0;
      while i < nodes.Length - 1
        invariant 0 <= i <= nodes.Length - 1 && freeList == 0 && free == order
        invariant forall j :: 0 <= j < i ==> !nodes[j].isFilled && nodes[j].next == j + 1
      {
        nodes[i] := nodes[i].(next := i + 1, isFilled := false);
        i := i + 1;
      }
      nodes[i] := nodes[i].(next := NULL, isFilled := false);
      BagSize(nodes[..]);
      FreshHeap(nodes[..], order);
    }

    /** heapU16Push: fails with -1 exactly when every slot is filled. */
    method Push(value: U16, cost: U16) returns (rc: int)
      requires Valid()
      modifies this, nodes
      ensures Valid()
      ensures rc == (if |old(Contents())| == nodes.Length then -1 else 0)
      ensures Contents() == old(Contents()) + (if rc == 0 then multiset{Entry(value, cost)} else multiset{})
    {
      hide HeapShape, Linked, Enumerates, ParentFirst, Bag, Rising;
      ghost var a, unused := nodes[..], free;
      HeadOfFreeList(a, freeList, free);
      if freeList == NULL {
        return -1;
      }
      var index: nat := freeList;
      ghost var slot := index;
      freeList := nodes[freeList].next;
      var node := HeapNode(value, cost, true, NULL);
      ghost var b := a[index := node];
      StartPush(a, slot, unused, node);
      while index != 0 && node.cost <= nodes[Parent(index)].cost
        invariant index < nodes.Length && nodes[..][index := node] == b
        invariant Pushing(a, slot, node, b, index) && freeList == a[slot].next
      {
        var parent := Parent(index);
        PushStep(a, slot, node, b, index);
        b := b[index := b[parent]][parent := node];
        nodes[index] := nodes[parent];
        index := parent;
      }
      nodes[index] := node;
      assert nodes[..] == b;
      FinishPush(a, slot, unused, node, b, index);
      free := unused[1..];
      rc := 0;
    }

    /** heapU16Pop: fails with -1 exactly when the heap is empty, and otherwise
        removes one entry of least cost. It looks at both children of a slot, so a heap
        with slots below the root needs a size whose last slot is a right child. */
    method Pop() returns (rc: int, value: U16, cost: U16)
      requires Valid() && (nodes[0].isFilled ==> nodes.Length >= 3 && nodes.Length % 2 == 1)
      modifies this, nodes
      ensures Valid()
      ensures rc == (if old(Contents()) == multiset{} then -1 else 0)
      ensures rc == -1 ==> Contents() == old(Contents())
      ensures rc == 0 ==> Entry(value, cost) in old(Contents())
      ensures rc == 0 ==> Contents() + multiset{Entry(value, cost)} == old(Contents())
      ensures rc == 0 ==> forall e :: e in old(Contents()) ==> cost <= e.cost
    {
      hide HeapShape, Linked, Enumerates, ParentFirst, Bag, Sinking, Popping;
      ghost var a := nodes[..];
      BottomIsMinimum(a);
      if !nodes[0].isFilled {
        return -1, 0, 0;
      }
      value, cost := nodes[0].value, nodes[0].cost;
      ghost var head, unused, root := freeList, free, nodes[0];
      ghost var empty := HeapNode(0, 0, false, NULL);
      var current: nat := 0;
      ghost var b := a[0 := empty];
      StartPop(a, empty);
      while true
        invariant Left(current) < nodes.Length && a[current].isFilled
        invariant nodes[..][current := empty] == b
        invariant Popping(a, b, current) && freeList == head
        decreases nodes.Length - current
      {
        var left, right := Left(current), Right(current);
        var child;
        if nodes[left].isFilled && nodes[right].isFilled {
          child := if nodes[right].cost <= nodes[left].cost then right else left;
        } else if nodes[left].isFilled {
          child := left;
        } else if nodes[right].isFilled {
          child := right;
        } else {
          break;
        }
        PopStep(a, b, current, child, empty);
        b := b[current := b[child]][child := empty];
        nodes[current] := nodes[child];
        current := child;
        if Left(current) >= nodes.Length {
          break;
        }
      }
      FinishPop(a, head, unused, b, current, nodes[current].(isFilled := false, next := freeList));
      nodes[current] := nodes[current].(isFilled := false, next := freeList);
      assert nodes[..] == b[current := nodes[current]];
      freeList := current;
      free := [current] + unused;
      rc := 0;
    }
  }
}
