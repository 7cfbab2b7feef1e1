/** The circular queues of common/queue.c, over a caller's array whose used length
    is a power of two. */
module RingBuffer {
  import opened Bits

  const OK := 0
  const ERROR_GENERIC := -1
  const ERROR_LEN := -3

  /** Index `i` places after `h` on a ring of `n` slots. */
  function Wrap(h: nat, i: nat, n: nat): nat {
    if h + i < n then h + i else h + i - n
  }

  /** The masked increment of the source walks the ring. */
  lemma MaskedStep(h: nat, n: nat)
    requires h < n && PowerOfTwo(n)
    ensures And(h + 1, n - 1) == Wrap(h, 1, n)
  {
    var k: nat :| n == Pow2(k);
    MaskIsMod(h + 1, k);
    if h + 1 < n {
      ModUnique(h + 1, n, 0, h + 1);
    } else {
      ModUnique(n, n, 1, 0);
    }
  }

  /** Slot number head + i of the ring holds element i of the queue. */
  ghost predicate Represents<T>(data: seq<T>, head: nat, n: nat, items: seq<T>) {
    && head < n <= |data| && |items| <= n
    && forall i {:trigger items[i]} :: 0 <= i < |items| ==> data[Wrap(head, i, n)] == items[i]
  }

  lemma Append<T>(data: seq<T>, head: nat, n: nat, items: seq<T>, x: T)
    requires Represents(data, head, n, items) && |items| < n
    ensures Represents(data[Wrap(head, |items|, n) := x], head, n, items + [x])
    ensures Wrap(Wrap(head, |items|, n), 1, n) == Wrap(head, |items| + 1, n)
  {
  }

  lemma Remove<T>(data: seq<T>, head: nat, n: nat, items: seq<T>)
    requires Represents(data, head, n, items) && items != []
    ensures data[head] == items[0]
    ensures Represents(data, Wrap(head, 1, n), n, items[1..])
    ensures Wrap(Wrap(head, 1, n), |items| - 1, n) == Wrap(head, |items|, n)
  {
    assert data[Wrap(head, 0, n)] == items[0];
    var rest := items[1..];
    forall i | 0 <= i < |rest| ensures data[Wrap(Wrap(head, 1, n), i, n)] == rest[i] {
      assert data[Wrap(head, i + 1, n)] == items[i + 1];
    }
  }

  class Queue<T> {
    const data: array<T>
    const length: nat
    var head: nat
    var tail: nat
    var count: nat
    ghost var items: seq<T>

    ghost predicate Valid()
      reads this, data
    {
      && PowerOfTwo(length)
      && Represents(data[..], head, length, items)
      && count == |items| && tail == Wrap(head, count, length)
    }

    constructor (data: array<T>, length: nat)
      requires PowerOfTwo(length) && length <= data.Length
      ensures Valid() && items == [] && this.data == data && this.length == length
    {
      this.data, this.length := data, length;
      head, tail, count := 0, 0, 0;
      items := [];
    }

    method Push(value: T) returns (rc: int)
      requires Valid()
      modifies this, data
      ensures Valid()
      ensures rc == (if |old(items)| == length then ERROR_GENERIC else OK)
      ensures items == if rc == OK then old(items) + [value] else old(items)
    {
      if count == length {
        return ERROR_GENERIC;
      }
      Append(data[..], head, length, items, value);
      MaskedStep(tail, length);
      ghost var was := data[..];
      data[tail] := value;
      assert data[..] == was[tail := value];
      tail := And(tail + 1, length - 1);
      count := count + 1;
      items := items + [value];
      rc := OK;
    }

    method Pop(dest: T) returns (rc: int, value: T)
      requires Valid()
      modifies this
      ensures Valid()
      ensures rc == (if old(items) == [] then ERROR_GENERIC else OK)
      ensures rc == OK ==> old(items) == [value] + items
      ensures rc != OK ==> items == old(items) && value == dest
    {
      if count == 0 {
        return ERROR_GENERIC, dest;
      }
      Remove(data[..], head, length, items);
      MaskedStep(head, length);
      count := count - 1;
      value := data[head];
      head := And(head + 1, length - 1);
      items := items[1..];
      rc := OK;
    }

    method Peek(dest: T) returns (rc: int, value: T)
      requires Valid()
      ensures rc == (if items == [] then ERROR_GENERIC else OK)
      ensures value == if items == [] then dest else items[0]
    {
      if count == 0 {
        return ERROR_GENERIC, dest;
      }
      Remove(data[..], head, length, items);
      value := data[head];
      rc := OK;
    }
  }

  /** The initialisers accept exactly the power-of-two lengths. */
  method Init<T>(data: array<T>, length: nat) returns (rc: int, queue: Queue?<T>)
    requires length <= data.Length
    ensures rc == (if PowerOfTwo(length) then OK else ERROR_LEN)
    ensures rc == OK ==> queue != null && fresh(queue) && queue.Valid() && queue.items == []
    ensures rc == OK ==> queue.data == data && queue.length == length
  {
    IsPow2Exactly(length);
    if !IsPow2(length) {
      return ERROR_LEN, null;
    }
    queue := new Queue(data, length);
    rc := OK;
  }
}
