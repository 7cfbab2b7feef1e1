/** The bounded linked list of common/list.c: nodes live in a caller's buffer and
    move between a free chain and the list. */
module LinkedList {
  import opened Chains

  type U32 = x: int | 0 <= x < 0x1_0000_0000

  ghost predicate InRange(data: seq<U32>, ids: seq<nat>) {
    forall k :: 0 <= k < |ids| ==> ids[k] < |data|
  }

  /** The stored values in list order. */
  ghost function Values(data: seq<U32>, ids: seq<nat>): seq<U32>
    requires InRange(data, ids)
  {
    seq(|ids|, k requires 0 <= k < |ids| => data[ids[k]])
  }

  lemma ValuesFrame(data: seq<U32>, ids: seq<nat>, i: nat, v: U32)
    requires InRange(data, ids) && i < |data| && i !in ids
    ensures Values(data[i := v], ids) == Values(data, ids)
  {
    forall k | 0 <= k < |ids| ensures data[i := v][ids[k]] == data[ids[k]] {
      assert ids[k] in ids;
    }
  }

  class ListU32 {
    const data: array<U32>
    const next: array<int>
    var freeList: int
    var head: int
    ghost var ids: seq<nat>
    ghost var free: seq<nat>

    ghost predicate Valid()
      reads this, data, next
    {
      && data.Length == next.Length
      && InRange(data[..], ids)
      && TwoLists(next[..], head, ids, freeList, free)
    }

    ghost function Contents(): seq<U32>
      requires Valid()
      reads this, data, next
    {
      Values(data[..], ids)
    }

    /** listU32Init over a buffer of at least one node. */
    constructor (data: array<U32>, next: array<int>)
      requires data.Length == next.Length > 0
      modifies next
      ensures Valid() && this.data == data && this.next == next
      ensures Contents() == [] && |free| == next.Length
    {
      this.data, this.next := data, next;
      freeList, head := 0, NULL;
      ids := [];
      free := seq(next.Length, i => i);
      new;
      ghost var order := free;
      var i := 0;
      while i < next.Length - 1
        invariant 0 <= i <= next.Length - 1 && freeList == 0 && head == NULL && ids == [] && free == order
        invariant forall j :: 0 <= j < i ==> next[j] == j + 1
      {
        next[i] := i + 1;
        i := i + 1;
      }
      next[i] := NULL;
      FreshChain(next[..], order);
    }

    /** listU32PushFront fails, changing nothing, exactly when no free node is left. */
    method PushFront(value: U32) returns (rc: int)
      requires Valid()
      modifies this, data, next
      ensures Valid()
      ensures rc == (if old(free) == [] then -1 else 0)
      ensures rc == 0 ==> Contents() == [value] + old(Contents()) && |free| == |old(free)| - 1
      ensures rc == -1 ==> Contents() == old(Contents()) && free == old(free)
    {
      hide TwoLists, Values;
      ghost var links, values, items, rest := next[..], data[..], ids, free;
      Ends(links, head, items, freeList, rest);
      if freeList == NULL {
        return -1;
      }
      FreeToFront(links, head, items, freeList, rest);
      var node: nat := freeList;
      freeList := next[node];
      data[node] := value;
      next[node] := head;
      assert next[..] == links[node := head] && data[..] == values[node := value];
      ValuesFrame(values, items, node, value);
      ValuesCons(data[..], items, node);
      head := node;
      ids, free := [node] + items, rest[1..];
      rc := 0;
    }

    /** listU32PushBack walks to the tail and appends; it fails under the same condition. */
    method PushBack(value: U32) returns (rc: int)
      requires Valid()
      modifies this, data, next
      ensures Valid()
      ensures rc == (if old(free) == [] then -1 else 0)
      ensures rc == 0 ==> Contents() == old(Contents()) + [value] && |free| == |old(free)| - 1
      ensures rc == -1 ==> Contents() == old(Contents()) && free == old(free)
    {
      hide TwoLists, Values, Chain;
      ghost var links, values, items, rest := next[..], data[..], ids, free;
      Ends(links, head, items, freeList, rest);
      if freeList == NULL {
        return -1;
      }
      var node: nat := freeList;
      freeList := next[node];
      data[node] := value;
      next[node] := NULL;
      ghost var ended, stored := next[..], data[..];
      assert ended == links[node := NULL] && stored == values[node := value];
      ValuesFrame(values, items, node, value);
      ValuesSnoc(data[..], items, node);
      ids, free := items + [node], rest[1..];
      if head == NULL {
        FreeToFront(links, NULL, items, rest[0], rest);
        assert items == [] && items + [node] == [node] + items;
        head := node;
        assert data[..] == stored;
        return 0;
      }
      FreeToBack(links, head, items, rest[0], rest);
      var tail: nat := head;
      ghost var k := 0;
      TailChain(links, head, items, rest[0], rest);
      while next[tail] != NULL
        invariant 0 <= k < |items| && tail == items[k] && tail < next.Length
        modifies {}
        decreases |items| - k
      {
        LinkAt(ended, head, items, k);
        LinkAt(ended, head, items, k + 1);
        tail := next[tail];
        k := k + 1;
      }
      LinkAt(ended, head, items, k);
      next[tail] := node;
      assert next[..] == ended[tail := node] && data[..] == stored;
      rc := 0;
    }

    /** listU32PopFront returns the first value. The freed node is linked behind the
        head of the free chain, cutting off whatever followed it, so at most two
        nodes stay free. */
    method PopFront() returns (rc: int, value: U32)
      requires Valid()
      modifies this, next
      ensures Valid()
      ensures rc == (if old(Contents()) == [] then -1 else 0)
      ensures rc == 0 ==> [value] + Contents() == old(Contents())
      ensures rc == 0 ==> |free| == (if old(free) == [] then 1 else 2)
      ensures rc == -1 ==> Contents() == [] && free == old(free)
    {
      hide TwoLists, Values, Chain;
      ghost var links, items, unused := next[..], ids, free;
      Ends(links, head, items, freeList, unused);
      ValuesAre(data[..], items);
      if head == NULL {
        return -1, 0;
      }
      DropFront(links, head, items, freeList, unused);
      ValuesCons(data[..], items[1..], items[0]);
      assert items == [items[0]] + items[1..];
      var node: nat := head;
      head := next[node];
      value := data[node];
      next[node] := NULL;
      ghost var ended := next[..];
      assert ended == links[node := NULL];
      ids := items[1..];
      if freeList != NULL {
        next[freeList] := node;
        assert next[..] == ended[freeList := node];
        free := [freeList, node];
        FreePair(ended, head, ids, freeList, node);
      } else {
        freeList := node;
        free := [node];
        FreeOne(ended, head, ids, node);
      }
      rc := 0;
    }
  }

  lemma ValuesAre(data: seq<U32>, ids: seq<nat>)
    requires InRange(data, ids)
    ensures Values(data, ids) == [] <==> ids == []
  {
  }

  lemma ValuesCons(data: seq<U32>, ids: seq<nat>, node: nat)
    requires InRange(data, ids) && node < |data|
    ensures InRange(data, [node] + ids) && Values(data, [node] + ids) == [data[node]] + Values(data, ids)
  {
  }

  lemma ValuesSnoc(data: seq<U32>, ids: seq<nat>, node: nat)
    requires InRange(data, ids) && node < |data|
    ensures InRange(data, ids + [node]) && Values(data, ids + [node]) == Values(data, ids) + [data[node]]
  {
  }

  /** The list is untouched while the new node is ended. */
  lemma TailChain(links: seq<int>, head: int, ids: seq<nat>, freeList: int, free: seq<nat>)
    requires TwoLists(links, head, ids, freeList, free) && free != [] && ids != []
    ensures free[0] < |links| && Chain(links[free[0] := NULL], head, ids) && head == ids[0] < |links|
  {
    TakeFirst(links, head, ids, freeList, free, NULL);
    LinkAt(links, head, ids, 0);
  }

  lemma FreeOne(ended: seq<int>, head: int, ids: seq<nat>, node: nat)
    requires Chain(ended, head, ids) && Distinct(ids) && node < |ended| && ended[node] == NULL && node !in ids
    ensures TwoLists(ended, head, ids, node, [node])
  {
  }

  lemma FreePair(ended: seq<int>, head: int, ids: seq<nat>, first: nat, node: nat)
    requires Chain(ended, head, ids) && Distinct(ids) && node < |ended| && ended[node] == NULL && node !in ids
    requires first < |ended| && first != node && first !in ids
    ensures TwoLists(ended[first := node], head, ids, first, [first, node])
  {
    ChainFrame(ended, head, ids, first, node);
    assert Following([first, node], 0) == node && Following([first, node], 1) == NULL;
  }
}
