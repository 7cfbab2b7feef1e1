/** The ready queue of common/priorityQueue.c: 32 rings of 16 slots in one array,
    with a word whose bit p says whether level p holds anything. */
module PriorityQueues {
  import opened Bits
  import opened RingBuffer

  const LEVELS := 32
  const DEPTH := 16
  const ERROR_FULL := -4
  const ERROR_EMPTY := -5

  // ---------------------------------------------------------------- what it means

  /** Level p's waiting values, oldest first. */
  type Levels = l: seq<seq<nat>> | |l| == LEVELS witness seq(LEVELS, _ => [])

  /** The most urgent level that holds anything, counting from `p`, or LEVELS. */
  function LowestFrom(l: Levels, p: nat): (r: nat)
    requires p <= LEVELS
    ensures p <= r <= LEVELS
    ensures r < LEVELS ==> l[r] != []
    ensures forall i :: p <= i < r ==> l[i] == []
    decreases LEVELS - p
  {
    if p == LEVELS || l[p] != [] then p else LowestFrom(l, p + 1)
  }

  function Lowest(l: Levels): nat { LowestFrom(l, 0) }

  /** A queue operation's return code, the levels it leaves, and the value it hands back. */
  datatype Outcome = Outcome(rc: int, levels: Levels, value: nat)

  function Pushed(l: Levels, p: nat, v: nat): Outcome {
    if p >= LEVELS || |l[p]| >= DEPTH then Outcome(ERROR_FULL, l, v)
    else Outcome(OK, l[p := l[p] + [v]], v)
  }

  function Popped(l: Levels, dest: nat): Outcome {
    var p := Lowest(l);
    if p == LEVELS then Outcome(ERROR_EMPTY, l, dest) else Outcome(OK, l[p := l[p][1..]], l[p][0])
  }

  /** The fused operation as the source computes it: the level to pop is fixed before the push. */
  function PushPopped(l: Levels, p: nat, v: nat): Outcome {
    var free := Lowest(l);
    if p < free then Outcome(1, l, v)
    else if p >= LEVELS || |l[p]| >= DEPTH then Outcome(ERROR_FULL, l, v)
    else
      var m := l[p := l[p] + [v]];
      Outcome(OK, m[free := m[free][1..]], m[free][0])
  }

  lemma LowestIs(l: Levels, p: nat)
    requires p <= LEVELS && (p < LEVELS ==> l[p] != []) && forall i :: 0 <= i < p ==> l[i] == []
    ensures Lowest(l) == p
  {
  }

  /** Fusing changes nothing: the result is that of a push followed by a pop, the code 1
      marks exactly the case in which that pair would hand the pushed value straight back,
      and a full or missing level fails both ways. */
  lemma PushPopIsPushThenPop(l: Levels, p: nat, v: nat)
    ensures var pushed := Pushed(l, p, v); var fused := PushPopped(l, p, v);
      if pushed.rc != OK then fused == pushed
      else
        var popped := Popped(pushed.levels, v);
        && popped.rc == OK
        && fused.levels == popped.levels && fused.value == popped.value
        && fused.rc == (if p < Lowest(l) then 1 else OK)
        && (fused.rc == 1 ==> popped.levels == l && popped.value == v)
  {
    var free := Lowest(l);
    if p < free {
      var m := l[p := l[p] + [v]];
      LowestIs(m, p);
      assert m[p][1..] == l[p];
    } else if p < LEVELS && |l[p]| < DEPTH {
      var m := l[p := l[p] + [v]];
      assert m[free] != [] && forall i :: 0 <= i < free ==> m[i] == l[i] == [];
      LowestIs(m, free);
      assert Pushed(l, p, v).levels == m;
    }
  }

  /** What a pop hands out is at least as urgent as everything that stays. */
  lemma PopIsMostUrgent(l: Levels, dest: nat, p: nat)
    requires Popped(l, dest).rc == OK && p < LEVELS && l[p] != []
    ensures Lowest(l) <= p && Popped(l, dest).value == l[Lowest(l)][0]
  {
  }

  // ---------------------------------------------------------------- the structure

  /** Level p's ring holds `items`; its bit tells a full ring from an empty one. */
  ghost predicate LevelHolds(data: seq<nat>, head: nat, tail: nat, bit: bool, p: nat, items: seq<nat>) {
    && p < LEVELS && |data| == LEVELS * DEPTH
    && Represents(data[p * DEPTH..p * DEPTH + DEPTH], head, DEPTH, items)
    && tail == Wrap(head, |items|, DEPTH)
    && (bit <==> items != [])
  }

  lemma DepthIsPow2()
    ensures PowerOfTwo(DEPTH)
  {
    assert Pow2(4) == DEPTH;
  }

  lemma AppendHere(data: seq<nat>, head: nat, tail: nat, bit: bool, p: nat, items: seq<nat>, x: nat)
    requires LevelHolds(data, head, tail, bit, p, items) && |items| < DEPTH
    ensures tail < DEPTH
    ensures LevelHolds(data[tail + p * DEPTH := x], head, And(tail + 1, DEPTH - 1), true, p, items + [x])
  {
    var ring := data[p * DEPTH..p * DEPTH + DEPTH];
    Append(ring, head, DEPTH, items, x);
    DepthIsPow2();
    MaskedStep(tail, DEPTH);
    assert data[tail + p * DEPTH := x][p * DEPTH..p * DEPTH + DEPTH] == ring[tail := x];
  }

  lemma WriteElsewhere(data: seq<nat>, head: nat, tail: nat, bit: bool, q: nat, items: seq<nat>, p: nat, i: nat, x: nat)
    requires LevelHolds(data, head, tail, bit, q, items) && p < LEVELS && p != q && i < DEPTH
    ensures LevelHolds(data[i + p * DEPTH := x], head, tail, bit, q, items)
  {
    assert data[i + p * DEPTH := x][q * DEPTH..q * DEPTH + DEPTH] == data[q * DEPTH..q * DEPTH + DEPTH];
  }

  lemma RemoveHere(data: seq<nat>, head: nat, tail: nat, bit: bool, p: nat, items: seq<nat>)
    requires LevelHolds(data, head, tail, bit, p, items) && items != []
    ensures bit && head < DEPTH && data[head + p * DEPTH] == items[0]
    ensures LevelHolds(data, And(head + 1, DEPTH - 1), tail, |items| > 1, p, items[1..])
    ensures And(head + 1, DEPTH - 1) == tail <==> |items| == 1
  {
    var ring := data[p * DEPTH..p * DEPTH + DEPTH];
    Remove(ring, head, DEPTH, items);
    DepthIsPow2();
    MaskedStep(head, DEPTH);
    assert data[head + p * DEPTH] == ring[head];
  }

  ghost predicate Holds(data: seq<nat>, head: seq<nat>, tail: seq<nat>, bits: bv32, l: Levels) {
    && |data| == LEVELS * DEPTH && |head| == |tail| == LEVELS
    && forall p: nat {:trigger l[p]} :: p < LEVELS ==>
         LevelHolds(data, head[p], tail[p], Bit(bits, p), p, l[p])
  }

  lemma Store(data: seq<nat>, head: seq<nat>, tail: seq<nat>, bits: bv32, l: Levels, p: nat, v: nat)
    requires Holds(data, head, tail, bits, l) && p < LEVELS && |l[p]| < DEPTH
    ensures tail[p] < DEPTH
    ensures Holds(data[tail[p] + p * DEPTH := v], head, tail[p := And(tail[p] + 1, DEPTH - 1)],
                  SetBit(bits, p), l[p := l[p] + [v]])
  {
    hide LevelHolds, Bit, And, SetBit, FlipBitIf;
    var m, bits' := l[p := l[p] + [v]], SetBit(bits, p);
    AppendHere(data, head[p], tail[p], Bit(bits, p), p, l[p], v);
    SetBitEverywhere(bits, p);
    forall q: nat | q < LEVELS && q != p
      ensures LevelHolds(data[tail[p] + p * DEPTH := v], head[q], tail[q], Bit(bits', q), q, m[q])
    {
      assert m[q] == l[q];
      WriteElsewhere(data, head[q], tail[q], Bit(bits, q), q, l[q], p, tail[p], v);
    }
  }

  lemma Load(data: seq<nat>, head: seq<nat>, tail: seq<nat>, bits: bv32, l: Levels, p: nat, next: nat)
    requires Holds(data, head, tail, bits, l) && p < LEVELS && l[p] != [] && next == And(head[p] + 1, DEPTH - 1)
    ensures head[p] < DEPTH && data[head[p] + p * DEPTH] == l[p][0]
    ensures Holds(data, head[p := next], tail, FlipBitIf(next == tail[p], bits, p), l[p := l[p][1..]])
  {
    hide LevelHolds, Bit, And, SetBit, FlipBitIf;
    var m, bits' := l[p := l[p][1..]], FlipBitIf(next == tail[p], bits, p);
    RemoveHere(data, head[p], tail[p], Bit(bits, p), p, l[p]);
    FlipBitEverywhere(next == tail[p], bits, p);
    forall q: nat | q < LEVELS && q != p
      ensures LevelHolds(data, head[q], tail[q], Bit(bits', q), q, m[q])
    {
      assert m[q] == l[q];
    }
  }

  class PriorityQueue {
    const data: array<nat>
    const head: array<nat>
    const tail: array<nat>
    var priorityBits: bv32
    ghost var levels: Levels

    ghost predicate Valid()
      reads this, data, head, tail
    {
      && head != tail && data != head && data != tail
      && Holds(data[..], head[..], tail[..], priorityBits, levels)
    }

    constructor ()
      ensures Valid() && levels == seq(LEVELS, _ => [])
      ensures fresh(data) && fresh(head) && fresh(tail)
    {
      data := new nat[LEVELS * DEPTH];
      head := new nat[LEVELS](_ => 0);
      tail := new nat[LEVELS](_ => 0);
      priorityBits := 0;
      levels := seq(LEVELS, _ => []);
      new;
      forall p: nat | p < LEVELS ensures !Bit(priorityBits, p) {
        ZeroHasNoBits(p);
      }
    }

    /** priorityQueueEmpty. */
    method Empty() returns (r: bool)
      requires Valid()
      ensures r <==> Lowest(levels) == LEVELS
    {
      r := priorityBits == 0;
      if r {
        forall p: nat | p < LEVELS ensures levels[p] == [] {
          ZeroHasNoBits(p);
        }
        LowestIs(levels, LEVELS);
      } else if Lowest(levels) == LEVELS {
        forall p: nat | p < LEVELS ensures !Bit(priorityBits, p) {
          assert levels[p] == [];
        }
        NoBitsIsZero(priorityBits);
      }
    }

    /** The trailing-zero count of the bit word is the most urgent level in use. */
    method LowestLevel() returns (c: nat)
      requires Valid()
      ensures c == Lowest(levels)
    {
      c := Ctz(priorityBits);
      forall i: nat | i < c ensures levels[i] == [] {
        assert !Bit(priorityBits, i);
      }
      assert c < LEVELS ==> levels[c] != [];
      LowestIs(levels, c);
    }

    /** Store a value at the tail of level p, advance the tail, and set the level's bit. */
    method StoreAt(p: nat, value: nat)
      requires Valid() && p < LEVELS && |levels[p]| < DEPTH
      modifies this, data, tail
      ensures Valid() && levels == old(levels)[p := old(levels)[p] + [value]]
    {
      hide Holds, And, SetBit, FlipBitIf;
      ghost var items, tails := data[..], tail[..];
      Lengths();
      Store(data[..], head[..], tail[..], priorityBits, levels, p, value);
      data[tail[p] + p * DEPTH] := value;
      tail[p] := And(tail[p] + 1, DEPTH - 1);
      priorityBits := SetBit(priorityBits, p);
      assert data[..] == items[tails[p] + p * DEPTH := value] && tail[..] == tails[p := tail[p]];
      levels := levels[p := levels[p] + [value]];
    }

    /** Load the value at the head of level p, advance the head, and clear the bit of an emptied level. */
    method LoadFrom(p: nat) returns (value: nat)
      requires Valid() && p < LEVELS && levels[p] != []
      modifies this, head
      ensures Valid() && levels == old(levels)[p := old(levels)[p][1..]] && value == old(levels)[p][0]
    {
      hide Holds, And, SetBit, FlipBitIf;
      ghost var heads := head[..];
      Lengths();
      Load(data[..], head[..], tail[..], priorityBits, levels, p, And(head[p] + 1, DEPTH - 1));
      value := data[head[p] + p * DEPTH];
      head[p] := And(head[p] + 1, DEPTH - 1);
      assert head[..] == heads[p := head[p]];
      priorityBits := FlipBitIf(head[p] == tail[p], priorityBits, p);
      levels := levels[p := levels[p][1..]];
    }

    lemma Lengths()
      requires Valid()
      ensures data.Length == LEVELS * DEPTH && head.Length == tail.Length == LEVELS
    {
    }

    /** How the source recognises a full level: its bit is set and its indices coincide. */
    method Full(p: nat) returns (full: bool)
      requires Valid() && p < LEVELS
      ensures full <==> |levels[p]| == DEPTH
    {
      full := Bit(priorityBits, p) && tail[p] == head[p];
      assert LevelHolds(data[..], head[p], tail[p], Bit(priorityBits, p), p, levels[p]);
    }

    /** priorityQueuePush. */
    method Push(p: nat, value: nat) returns (rc: int)
      requires Valid()
      modifies this, data, tail
      ensures Valid() && rc == Pushed(old(levels), p, value).rc
      ensures levels == Pushed(old(levels), p, value).levels
    {
      hide Holds;
      if p >= LEVELS {
        return ERROR_FULL;
      }
      DepthBound(p);
      var full := Full(p);
      if full {
        return ERROR_FULL;
      }
      StoreAt(p, value);
      rc := OK;
    }

    /** priorityQueuePop; on failure the destination keeps its value. */
    method Pop(dest: nat) returns (rc: int, value: nat)
      requires Valid()
      modifies this, head
      ensures Valid() && Outcome(rc, levels, value) == Popped(old(levels), dest)
    {
      hide Holds;
      var empty := Empty();
      if empty {
        return ERROR_EMPTY, dest;
      }
      var p := LowestLevel();
      value := LoadFrom(p);
      rc := OK;
    }

    /** priorityQueuePushPop. */
    method PushPop(p: nat, dest: nat) returns (rc: int, value: nat)
      requires Valid()
      modifies this, data, head, tail
      ensures Valid() && Outcome(rc, levels, value) == PushPopped(old(levels), p, dest)
    {
      hide Holds;
      var free := LowestLevel();
      if p < free {
        return 1, dest;
      }
      if p >= LEVELS {
        return ERROR_FULL, dest;
      }
      DepthBound(p);
      var full := Full(p);
      if full {
        return ERROR_FULL, dest;
      }
      StoreAt(p, dest);
      value := LoadFrom(free);
      rc := OK;
    }

    lemma DepthBound(p: nat)
      requires Valid() && p < LEVELS
      ensures |levels[p]| <= DEPTH
    {
      assert LevelHolds(data[..], head[p], tail[p], Bit(priorityBits, p), p, levels[p]);
    }
  }
}
