/** The bit twiddling the kernel relies on: power-of-two masks, single-bit words and
    the trailing-zero count of common/utils.h. */
module Bits {
  // ---------------------------------------------------------------- masks

  /** Bitwise and of two unsigned words. */
  function And(a: nat, b: nat): nat {
    if a == 0 || b == 0 then 0 else 2 * And(a / 2, b / 2) + (a % 2) * (b % 2)
  }

  function Pow2(k: nat): (p: nat)
    ensures p > 0
  {
    if k == 0 then 1 else 2 * Pow2(k - 1)
  }

  lemma ModOfDouble(x: nat, m: nat)
    requires m > 0
    ensures x % (2 * m) == 2 * (x / 2 % m) + x % 2
  {
    var q, r := x / 2 / m, x / 2 % m;
    assert x / 2 == q * m + r;
    assert x == q * (2 * m) + (2 * r + x % 2);
    ModUnique(x, 2 * m, q, 2 * r + x % 2);
  }

  lemma ModUnique(x: nat, m: nat, q: nat, r: nat)
    requires m > 0 && r < m && x == q * m + r
    ensures x % m == r
  {
    var d := x / m - q;
    assert d * m == r - x % m by {
      assert x == (x / m) * m + x % m;
    }
    SmallMultiple(d, m);
  }

  lemma SmallMultiple(d: int, m: nat)
    requires m > 0 && 0 - m < d * m < m
    ensures d == 0
  {
  }

  /** One unfolding of And, on an odd mask. */
  lemma AndOdd(x: nat, m: nat)
    ensures And(x, 2 * m + 1) == 2 * And(x / 2, m) + x % 2
  {
    assert (2 * m + 1) / 2 == m && (2 * m + 1) % 2 == 1;
  }

  /** Masking with 2^k - 1 is reduction modulo 2^k. */
  lemma {:induction false} MaskIsMod(x: nat, k: nat)
    ensures And(x, Pow2(k) - 1) == x % Pow2(k)
  {
    if k > 0 {
      var m := Pow2(k - 1);
      calc {
        And(x, 2 * (m - 1) + 1);
        { AndOdd(x, m - 1); }
        2 * And(x / 2, m - 1) + x % 2;
        { MaskIsMod(x / 2, k - 1); }
        2 * (x / 2 % m) + x % 2;
        { ModOfDouble(x, m); }
        x % (2 * m);
      }
    }
  }

  /** The length check of the queue initialisers. */
  predicate IsPow2(x: nat) {
    x != 0 && And(x, x - 1) == 0
  }

  ghost predicate PowerOfTwo(x: nat) {
    exists k: nat :: x == Pow2(k)
  }

  /** The check accepts exactly the powers of two. */
  lemma {:induction false} IsPow2Exactly(x: nat)
    ensures IsPow2(x) <==> PowerOfTwo(x)
  {
    if x == 1 {
      assert x == Pow2(0);
    } else if x > 1 {
      var h := x / 2;
      IsPow2Exactly(h);
      if x % 2 == 0 {
        assert x == 2 * h && x - 1 == 2 * (h - 1) + 1;
        AndOdd(x, h - 1);
        if PowerOfTwo(h) {
          var k: nat :| h == Pow2(k);
          assert x == Pow2(k + 1);
        }
        if PowerOfTwo(x) {
          var k: nat :| x == Pow2(k);
          assert h == Pow2(k - 1);
        }
      } else {
        AndSelf(h);
        assert And(x, x - 1) == 2 * And(h, h);
      }
    }
  }

  lemma AndTwice(x: nat)
    ensures And(x, x) == if x == 0 then 0 else 2 * And(x / 2, x / 2) + x % 2
  {
    Square(x % 2);
  }

  lemma Square(b: nat)
    requires b < 2
    ensures b * b == b
  {
  }

  lemma {:induction false} AndSelf(x: nat)
    ensures And(x, x) == x
  {
    hide And;
    AndTwice(x);
    if x > 0 {
      AndSelf(x / 2);
    }
  }

  // ---------------------------------------------------------------- words

  function Double(x: bv32): bv32 { x << 1 }

  function Half(x: bv32): bv32 { x >> 1 }

  predicate Meets(v: bv32, x: bv32) { v & x != 0 }

  function Joined(v: bv32, x: bv32): bv32 { v | x }

  function Flipped(v: bv32, x: bv32): bv32 { v ^ x }

  ghost predicate IsSingle(x: bv32) { x != 0 && x & (x - 1) == 0 }

  ghost predicate Bears(t: bv32, x: bv32) { x <= t }

  /** No bit in common, and the second is greater. */
  ghost predicate Above(x: bv32, y: bv32) { x & y == 0 && x < y }

  lemma DoubleSingle(x: bv32, t: bv32)
    requires IsSingle(x) && Bears(Half(t), x)
    ensures IsSingle(Double(x)) && Bears(t, Double(x)) && x < Double(x)
  {
  }

  lemma DoubleAbove(x: bv32, y: bv32)
    requires Above(x, y) && y < Double(y)
    ensures Above(Double(x), Double(y))
  {
  }

  lemma OneBelowDouble(y: bv32)
    requires IsSingle(y) && y < Double(y)
    ensures Above(1, Double(y))
  {
  }

  lemma OrElsewhere(v: bv32, x: bv32, y: bv32)
    requires x & y == 0
    ensures (v | y) & x == v & x
  {
  }

  lemma XorElsewhere(v: bv32, x: bv32, y: bv32)
    requires x & y == 0
    ensures (v ^ y) & x == v & x
  {
  }

  lemma SameMeets(v: bv32, w: bv32, x: bv32)
    requires v & x == w & x
    ensures Meets(v, x) == Meets(w, x)
  {
  }

  lemma JoinApart(v: bv32, x: bv32, y: bv32)
    requires x & y == 0
    ensures Meets(Joined(v, y), x) == Meets(v, x)
  {
    hide Meets;
    OrElsewhere(v, x, y);
    SameMeets(v | y, v, x);
  }

  lemma FlipApart(v: bv32, x: bv32, y: bv32)
    requires x & y == 0
    ensures Meets(Flipped(v, y), x) == Meets(v, x)
  {
    hide Meets;
    XorElsewhere(v, x, y);
    SameMeets(v ^ y, v, x);
  }

  lemma NothingInCommon(x: bv32, y: bv32)
    requires Above(x, y) || Above(y, x)
    ensures x & y == 0
  {
  }

  lemma JoinElsewhere(v: bv32, x: bv32, y: bv32)
    requires Above(x, y) || Above(y, x)
    ensures Meets(Joined(v, y), x) == Meets(v, x) && Meets(Flipped(v, y), x) == Meets(v, x)
  {
    hide Above, Meets, Joined, Flipped;
    NothingInCommon(x, y);
    JoinApart(v, x, y);
    FlipApart(v, x, y);
  }

  lemma JoinHere(v: bv32, x: bv32)
    requires IsSingle(x)
    ensures Meets(Joined(v, x), x) && Meets(Flipped(v, x), x) == !Meets(v, x)
  {
  }

  lemma NothingWord(v: bv32)
    ensures Double(0) == 0 && Flipped(v, 0) == v && !Meets(0, v)
  {
  }

  /** The lowest set bit of a word. */
  function LowestOf(v: bv32): bv32 { v & (0 - v) }

  lemma LowestMeets(v: bv32)
    requires LowestOf(v) != 0
    ensures Meets(v, LowestOf(v))
  {
  }

  /** No single bit of a word is below its lowest. */
  lemma NoneBelow(v: bv32, x: bv32)
    requires IsSingle(x) && Above(x, LowestOf(v))
    ensures !Meets(v, x)
  {
  }

  // ---------------------------------------------------------------- single bits

  /** x << j, one place at a time. */
  function Shifted(x: bv32, j: nat): bv32 {
    if j == 0 then x else Double(Shifted(x, j - 1))
  }

  /** Bit number `i` of a word is set. */
  predicate Bit(v: bv32, i: nat)
    requires i < 32
  {
    Meets(v, Shifted(1, i))
  }

  function SetBit(v: bv32, j: nat): bv32
    requires j < 32
  {
    Joined(v, Shifted(1, j))
  }

  function FlipBit(v: bv32, j: nat): bv32
    requires j < 32
  {
    Flipped(v, Shifted(1, j))
  }

  /** The source's way of clearing a bit that is known to be set. */
  function FlipBitIf(c: bool, v: bv32, j: nat): bv32
    requires j < 32
  {
    Flipped(v, Shifted(if c then 1 else 0, j))
  }

  /** The largest word that bears k doublings. */
  ghost function Top(k: nat): bv32 {
    if k == 0 then 0x8000_0000 else Half(Top(k - 1))
  }

  function Sixteenth(x: bv32): bv32 { x >> 4 }

  lemma HalfFour(x: bv32)
    ensures Half(Half(Half(Half(x)))) == Sixteenth(x)
  {
  }

  lemma TopFour(k: nat)
    ensures Top(k + 4) == Sixteenth(Top(k))
  {
    hide Half, Sixteenth;
    assert Top(k + 1) == Half(Top(k));
    assert Top(k + 2) == Half(Top(k + 1));
    assert Top(k + 3) == Half(Top(k + 2));
    HalfFour(Top(k));
  }

  lemma Sixteenths()
    ensures Sixteenth(0x8000_0000) == 0x800_0000 && Sixteenth(0x800_0000) == 0x80_0000 && Sixteenth(0x80_0000) == 0x8_0000
    ensures Sixteenth(0x8_0000) == 0x8000 && Sixteenth(0x8000) == 0x800 && Sixteenth(0x800) == 0x80 && Sixteenth(0x80) == 8
    ensures Half(8) == 4 && Half(4) == 2 && Half(2) == 1
  {
  }

  lemma TopIsOne()
    ensures Top(31) == 1
  {
    hide Half, Sixteenth;
    Sixteenths();
    TopFour(0);
    TopFour(4);
    TopFour(8);
    TopFour(12);
    TopFour(16);
    TopFour(20);
    TopFour(24);
    assert Top(29) == Half(Top(28)) && Top(30) == Half(Top(29));
  }

  lemma OneIsSingle()
    ensures IsSingle(1) && Bears(1, 1)
  {
  }

  lemma {:induction false} ShiftIsSingle(i: nat)
    requires i < 32
    ensures IsSingle(Shifted(1, i)) && Bears(Top(31 - i), Shifted(1, i))
  {
    hide IsSingle, Bears, Double, Half;
    if i == 0 {
      TopIsOne();
      OneIsSingle();
    } else {
      ShiftIsSingle(i - 1);
      DoubleSingle(Shifted(1, i - 1), Top(31 - i));
    }
  }

  /** Different shifts have no bit in common, and the longer one is greater. */
  lemma {:induction false} ShiftsApart(i: nat, j: nat)
    requires i < j < 32
    ensures Above(Shifted(1, i), Shifted(1, j))
  {
    hide IsSingle, Bears, Double, Half, Above;
    ShiftIsSingle(j - 1);
    DoubleSingle(Shifted(1, j - 1), Top(31 - j));
    if i == 0 {
      OneBelowDouble(Shifted(1, j - 1));
    } else {
      ShiftsApart(i - 1, j - 1);
      DoubleAbove(Shifted(1, i - 1), Shifted(1, j - 1));
    }
  }

  /** Setting or flipping one bit leaves the others alone. */
  lemma BitElsewhere(v: bv32, i: nat, j: nat)
    requires i < 32 && j < 32 && i != j
    ensures Bit(SetBit(v, j), i) == Bit(v, i)
    ensures Bit(FlipBit(v, j), i) == Bit(v, i)
  {
    hide Shifted, Above, Meets, Joined, Flipped;
    if i < j { ShiftsApart(i, j); } else { ShiftsApart(j, i); }
    JoinElsewhere(v, Shifted(1, i), Shifted(1, j));
  }

  lemma BitHere(v: bv32, j: nat)
    requires j < 32
    ensures Bit(SetBit(v, j), j)
    ensures Bit(FlipBit(v, j), j) == !Bit(v, j)
  {
    hide Shifted, IsSingle, Bears, Top, Meets, Joined, Flipped;
    ShiftIsSingle(j);
    JoinHere(v, Shifted(1, j));
  }

  lemma {:induction false} ShiftNothing(j: nat)
    ensures Shifted(0, j) == 0
  {
    hide Double;
    NothingWord(0);
    if j > 0 { ShiftNothing(j - 1); }
  }

  lemma FlipIfIs(c: bool, v: bv32, j: nat)
    requires j < 32
    ensures FlipBitIf(c, v, j) == if c then FlipBit(v, j) else v
  {
    hide Shifted, Flipped;
    ShiftNothing(j);
    NothingWord(v);
  }

  lemma SetBitAt(v: bv32, j: nat, i: nat)
    requires i < 32 && j < 32
    ensures Bit(SetBit(v, j), i) <==> Bit(v, i) || i == j
  {
    hide Bit, SetBit;
    if i == j { BitHere(v, j); } else { BitElsewhere(v, i, j); }
  }

  lemma FlipBitAt(c: bool, v: bv32, j: nat, i: nat)
    requires i < 32 && j < 32
    ensures Bit(FlipBitIf(c, v, j), i) <==> if c && i == j then !Bit(v, i) else Bit(v, i)
  {
    hide Bit, FlipBitIf, FlipBit;
    FlipIfIs(c, v, j);
    if i == j { BitHere(v, j); } else { BitElsewhere(v, i, j); }
  }

  lemma SetBitEverywhere(v: bv32, j: nat)
    requires j < 32
    ensures forall i: nat {:trigger Bit(SetBit(v, j), i)} :: i < 32 ==> (Bit(SetBit(v, j), i) <==> Bit(v, i) || i == j)
  {
    forall i: nat | i < 32 ensures Bit(SetBit(v, j), i) <==> Bit(v, i) || i == j {
      hide Bit, SetBit;
      SetBitAt(v, j, i);
    }
  }

  lemma FlipBitEverywhere(c: bool, v: bv32, j: nat)
    requires j < 32
    ensures forall i: nat {:trigger Bit(FlipBitIf(c, v, j), i)} :: i < 32 ==>
      (Bit(FlipBitIf(c, v, j), i) <==> if c && i == j then !Bit(v, i) else Bit(v, i))
  {
    forall i: nat | i < 32 ensures Bit(FlipBitIf(c, v, j), i) <==> if c && i == j then !Bit(v, i) else Bit(v, i) {
      hide Bit, FlipBitIf;
      FlipBitAt(c, v, j, i);
    }
  }

  lemma ZeroHasNoBits(i: nat)
    requires i < 32
    ensures !Bit(0, i)
  {
    hide Shifted, Meets;
    NothingWord(Shifted(1, i));
  }

  // ---------------------------------------------------------------- the lowest bit

  /** The position of the lowest set bit, or 32. */
  ghost predicate IsLowestBit(v: bv32, c: int) {
    && 0 <= c <= 32
    && (c < 32 ==> Bit(v, c))
    && forall i {:trigger Bit(v, i)} :: 0 <= i < c && i < 32 ==> !Bit(v, i)
  }

  lemma ShiftDoubles(i: nat)
    requires 0 < i < 32
    ensures 1 as bv32 << i == Double(1 as bv32 << (i - 1))
  {
    assert 1 as bv32 << i == (1 as bv32 << (i - 1)) << 1;
  }

  /** The shift of a machine word. */
  lemma {:induction false} ShiftIs(i: nat)
    requires i < 32
    ensures Shifted(1, i) == 1 << i
  {
    hide Double;
    if i > 0 {
      ShiftIs(i - 1);
      ShiftDoubles(i);
    }
  }

  lemma IsolatedBit(v: bv32, c: nat)
    requires c < 32 && LowestOf(v) == Shifted(1, c)
    ensures IsLowestBit(v, c)
  {
    hide Shifted, LowestOf, IsSingle, Bears, Top, Meets;
    ShiftIsSingle(c);
    SingleIsSome(Shifted(1, c));
    LowestMeets(v);
    forall i: nat | i < c ensures !Bit(v, i) {
      BelowIsolatedBit(v, c, i);
    }
  }

  lemma SingleIsSome(x: bv32)
    requires IsSingle(x)
    ensures x != 0
  {
  }

  lemma BelowIsolatedBit(v: bv32, c: nat, i: nat)
    requires i < c < 32 && LowestOf(v) == Shifted(1, c)
    ensures !Bit(v, i)
  {
    hide Shifted, LowestOf, IsSingle, Bears, Top, Meets, Above;
    ShiftsApart(i, c);
    ShiftIsSingle(i);
    NoneBelow(v, Shifted(1, i));
  }

  /** Where the halving steps of __ctz locate the lowest bit of a word. */
  function Located(low: bv32): int {
    31 - (if low & 0x0000_FFFF != 0 then 16 else 0) - (if low & 0x00FF_00FF != 0 then 8 else 0)
      - (if low & 0x0F0F_0F0F != 0 then 4 else 0) - (if low & 0x3333_3333 != 0 then 2 else 0)
      - (if low & 0x5555_5555 != 0 then 1 else 0)
  }

  lemma LocatedWord(v: bv32)
    requires v != 0
    ensures 0 <= Located(LowestOf(v)) < 32 && LowestOf(v) == 1 << Located(LowestOf(v))
  {
  }

  lemma LocatedIsLowest(v: bv32)
    requires v != 0
    ensures IsLowestBit(v, Located(LowestOf(v)))
  {
    hide LowestOf, Located, Shifted, IsLowestBit;
    LocatedWord(v);
    ShiftIs(Located(LowestOf(v)));
    IsolatedBit(v, Located(LowestOf(v)));
  }

  /** __ctz: isolate the lowest set bit, then locate it by halving. */
  method Ctz(word: bv32) returns (c: int)
    ensures IsLowestBit(word, c)
  {
    c := 32;
    var v := word & (0 - word);
    if v != 0 { c := c - 1; }
    if v & 0x0000_FFFF != 0 { c := c - 16; }
    if v & 0x00FF_00FF != 0 { c := c - 8; }
    if v & 0x0F0F_0F0F != 0 { c := c - 4; }
    if v & 0x3333_3333 != 0 { c := c - 2; }
    if v & 0x5555_5555 != 0 { c := c - 1; }
    assert v == LowestOf(word) && (v != 0 ==> c == Located(v)) && (v == 0 ==> c == 32 && word == 0);
    hide LowestOf, Located, Bit;
    if word == 0 {
      forall i: nat | i < 32 ensures !Bit(word, i) { ZeroHasNoBits(i); }
    } else {
      LocatedIsLowest(word);
      assert v != 0;
    }
  }

  lemma NoBitsIsZero(v: bv32)
    requires IsLowestBit(v, 32)
    ensures v == 0
  {
    hide Bit, LowestOf;
    if v != 0 {
      LocatedWord(v);
      LocatedIsLowest(v);
    }
  }
}
