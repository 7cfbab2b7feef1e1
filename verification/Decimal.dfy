/** Decimal text: _printDecimal (user/services/terminal.c) and the scanners stratoui and
    strskipws (common/string.c). Characters are their codes; a string ends with its text. */
module Decimal {
  type Text = seq<nat>

  const U32_RANGE := 0x1_0000_0000
  const S32_MIN := -0x8000_0000
  const S32_MAX := 0x7FFF_FFFF
  const SPACE := 32
  const COMMA := 44
  const MINUS := 45
  const ZERO := 48

  // ---------------------------------------------------------------- C arithmetic

  /** Division and remainder that truncate toward zero. */
  function CDiv(a: int, b: int): int
    requires b > 0
  {
    if a >= 0 then a / b else -(-a / b)
  }

  function CRem(a: int, b: int): int
    requires b > 0
  {
    a - CDiv(a, b) * b
  }

  /** Negation in S32. */
  function Negated(v: int): int { if v == S32_MIN then S32_MIN else -v }

  /** _x2c applied to a byte. */
  function X2c(c: int): nat { if c <= 9 then (ZERO + c) % 256 else (97 + c - 10) % 256 }

  // ---------------------------------------------------------------- what is printed

  /** The character of the last digit of `v`, by way of a U8. */
  function Code(v: int): nat { X2c(CRem(v, 10) % 256) }

  /** The characters of all digits, the most significant first. */
  function Codes(v: int): (s: Text)
    ensures s != []
    decreases if v >= 0 then v else -v
  {
    if CDiv(v, 10) == 0 then [Code(v)] else Codes(CDiv(v, 10)) + [Code(v)]
  }

  /** A comma before every whole group of three. */
  function Grouped(s: Text, comma: bool): Text {
    if s == [] then []
    else [s[0]] + (if comma && |s| > 1 && (|s| - 1) % 3 == 0 then [COMMA] else []) + Grouped(s[1..], comma)
  }

  function Repeated(c: nat, n: int): Text {
    if n <= 0 then [] else [c] + Repeated(c, n - 1)
  }

  /** Digits and the commas that could stand between them. */
  function Room(digits: nat): int
    requires digits > 0
  {
    digits + (digits - 1) / 3
  }

  function Magnitude(v: int): int { if v < 0 then Negated(v) else v }

  function Printed(v: int, width: nat, delim: nat, comma: bool): Text {
    var codes := Codes(Magnitude(v));
    (if v < 0 then [MINUS] else []) + Repeated(delim, width - Room(|codes|)) + Grouped(codes, comma)
  }

  // ---------------------------------------------------------------- printing

  /** The digits found so far are the last ones of `codes`, the very last first; those before them
      are `left`. */
  ghost predicate FoundSoFar(codes: Text, found: Text, left: Text) {
    && |codes| == |left| + |found| && left <= codes
    && forall k :: 0 <= k < |found| ==> found[k] == codes[|codes| - 1 - k]
  }

  /** The largest magnitude left after each division by ten. */
  const LIMITS: seq<int> := [0x8000_0000, 214748364, 21474836, 2147483, 214748, 21474, 2147, 214, 21, 2, 0]

  lemma Shrinks(v: int, i: nat)
    requires i < 10 && -LIMITS[i] <= v <= LIMITS[i]
    ensures -LIMITS[i + 1] <= CDiv(v, 10) <= LIMITS[i + 1]
  {
  }

  lemma CodesUnfold(v: int)
    ensures Codes(v) == if CDiv(v, 10) == 0 then [Code(v)] else Codes(CDiv(v, 10)) + [Code(v)]
  {
    hide CDiv, Code;
  }

  /** The digits of `v` that are left when its last has been found. */
  ghost function LeftAfter(v: int): Text {
    if CDiv(v, 10) == 0 then [] else Codes(CDiv(v, 10))
  }

  /** Dividing by ten finds the next digit. */
  lemma OneMoreDigit(codes: Text, v: int, found: Text)
    requires FoundSoFar(codes, found, Codes(v))
    ensures FoundSoFar(codes, found + [Code(v)], LeftAfter(v))
  {
    hide CDiv, Code, Codes;
    CodesUnfold(v);
    var more := found + [Code(v)];
    assert Codes(v) == LeftAfter(v) + [Code(v)];
    forall k | 0 <= k < |more| ensures more[k] == codes[|codes| - 1 - k] {
      if k == |found| {
        assert codes[|LeftAfter(v)|] == Codes(v)[|LeftAfter(v)|] == Code(v);
      }
    }
  }

  /** The digits, least significant first: at most ten of the sixteen characters are used. */
  method Collect(value: int, buffer: array<nat>) returns (i: nat)
    requires S32_MIN <= value <= -S32_MIN && buffer.Length == 16
    modifies buffer
    ensures 0 < i == |Codes(value)| <= 10
    ensures forall k :: 0 <= k < i ==> Codes(value)[k] == buffer[i - 1 - k]
  {
    hide CDiv, CRem, X2c, Codes;
    var v := value;
    i := 0;
    ghost var codes := Codes(v);
    assert buffer[..i] == [];
    var more := true;
    while more
      invariant i <= 10 && -LIMITS[i] <= v <= LIMITS[i] && (more <==> i == 0 || v != 0)
      invariant FoundSoFar(codes, buffer[..i], if more then Codes(v) else [])
      decreases 11 - i, more
    {
      Shrinks(v, i);
      ghost var was := buffer[..i];
      OneMoreDigit(codes, v, was);
      var d := CRem(v, 10) % 256;
      buffer[i] := X2c(d);
      assert buffer[..i + 1] == was + [Code(v)];
      i := i + 1;
      v := CDiv(v, 10);
      more := v != 0;
    }
    forall k | 0 <= k < i ensures codes[k] == buffer[i - 1 - k] {
      assert buffer[..i][i - 1 - k] == codes[k];
    }
  }

  /** _printDecimal, for every S32. */
  method PrintDecimal(value: int, width: nat, delim: nat, comma: nat) returns (output: Text)
    requires S32_MIN <= value <= S32_MAX
    ensures output == Printed(value, width, delim, comma != 0)
  {
    hide Codes;
    var buffer := new nat[16];
    var v := value;
    output := [];
    if v < 0 {
      v := Negated(v);
      output := [MINUS];
    }
    ghost var codes, sign := Codes(v), output;
    var i := Collect(v, buffer);
    var ti: int := i + (i - 1) / 3;
    var w: int := width;
    ghost var padding := Repeated(delim, width - ti);
    while w > ti
      invariant sign + padding == output + Repeated(delim, w - ti)
      modifies {}
    {
      output := output + [delim];
      w := w - 1;
    }
    assert output == sign + padding;
    var grouped := Group(buffer, i, comma != 0, codes);
    output := output + grouped;
  }

  /** The digits in order, a comma before every whole group of three. */
  method Group(buffer: array<nat>, i: nat, comma: bool, ghost codes: Text) returns (output: Text)
    requires i == |codes| <= buffer.Length && forall k :: 0 <= k < i ==> codes[k] == buffer[i - 1 - k]
    ensures output == Grouped(codes, comma)
  {
    hide Grouped;
    output := [];
    var ci := 0;
    while ci < i
      invariant ci <= i
      invariant Grouped(codes, comma) == output + Grouped(codes[ci..], comma)
    {
      var index := i - ci - 1;
      GroupedUnfold(codes[ci..], comma);
      assert codes[ci..][1..] == codes[ci + 1..] && codes[ci..][0] == buffer[index];
      ghost var was, rest := output, Grouped(codes[ci + 1..], comma);
      output := output + [buffer[index]];
      if index > 0 && index % 3 == 0 && comma {
        output := output + [COMMA];
        assert was + ([buffer[index]] + ([COMMA] + rest)) == output + rest;
      } else {
        assert was + ([buffer[index]] + ([] + rest)) == output + rest;
      }
      ci := ci + 1;
    }
    NothingGrouped(comma);
    assert codes[ci..] == [];
  }

  lemma NothingGrouped(comma: bool)
    ensures Grouped([], comma) == []
  {
  }

  lemma GroupedUnfold(s: Text, comma: bool)
    requires s != []
    ensures Grouped(s, comma)
      == [s[0]] + ((if comma && |s| > 1 && (|s| - 1) % 3 == 0 then [COMMA] else []) + Grouped(s[1..], comma))
  {
  }

  // ---------------------------------------------------------------- scanning

  predicate IsDigit(c: nat) { ZERO <= c <= ZERO + 9 }

  /** The number read on from `i`, in U32, and the rest of the text. */
  function Scan(i: nat, s: Text): (nat, Text)
    decreases |s|
  {
    if s == [] || !IsDigit(s[0]) then (i, s) else Scan((10 * i + (s[0] - ZERO)) % U32_RANGE, s[1..])
  }

  function Skip(s: Text): Text {
    if s == [] || s[0] > SPACE then s else Skip(s[1..])
  }

  method Stratoui(s: Text) returns (i: nat, rest: Text)
    ensures (i, rest) == Scan(0, s)
  {
    i, rest := 0, s;
    while rest != [] && IsDigit(rest[0])
      invariant Scan(i, rest) == Scan(0, s)
      decreases |rest|
    {
      i := (10 * i + (rest[0] - ZERO)) % U32_RANGE;
      rest := rest[1..];
    }
  }

  method Strskipws(s: Text) returns (rest: Text)
    ensures rest == Skip(s)
  {
    rest := s;
    while rest != [] && rest[0] <= SPACE
      invariant Skip(rest) == Skip(s)
      decreases |rest|
    {
      rest := rest[1..];
    }
  }

  // ---------------------------------------------------------------- round trips

  ghost predicate AllDigits(s: Text) {
    forall k :: 0 <= k < |s| ==> IsDigit(s[k])
  }

  lemma CodesOfNat(v: nat)
    ensures Codes(v) == if v < 10 then [ZERO + v] else Codes(v / 10) + [ZERO + v % 10]
  {
    hide Codes, CDiv, CRem, X2c;
    CodesUnfold(v);
    OfNat(v);
  }

  lemma OfNat(v: nat)
    ensures CDiv(v, 10) == v / 10 && CRem(v, 10) == v % 10
    ensures v / 10 == 0 <==> v < 10
    ensures X2c(v % 10 % 256) == ZERO + v % 10
  {
  }

  lemma {:induction false} CodesAreDigits(v: nat)
    ensures AllDigits(Codes(v))
    decreases v
  {
    hide Codes;
    CodesOfNat(v);
    if v >= 10 {
      CodesAreDigits(v / 10);
    }
  }

  /** Every S32 but the least prints as digits. */
  lemma DigitsExactly(v: int)
    requires S32_MIN <= v <= S32_MAX
    ensures AllDigits(Codes(Magnitude(v))) <==> v != S32_MIN
  {
    hide Codes;
    if v == S32_MIN {
      var s := Codes(v);
      CodesUnfold(v);
      assert CDiv(v, 10) == -214748364 && CRem(v, 10) == -8;
      assert s[|s| - 1] == Code(v) == X2c(248) == 79;
    } else {
      CodesAreDigits(Magnitude(v));
    }
  }

  lemma ScanOne(i: nat, d: nat, tail: Text)
    requires d < 10
    ensures Scan(i, [ZERO + d] + tail) == Scan((10 * i + d) % U32_RANGE, tail)
  {
    assert ([ZERO + d] + tail)[1..] == tail;
  }

  lemma {:induction false} ScanCodes(v: nat, tail: Text)
    requires v < U32_RANGE
    ensures Scan(0, Codes(v) + tail) == Scan(v, tail)
    decreases v
  {
    hide Codes, Scan;
    CodesOfNat(v);
    if v < 10 {
      ScanOne(0, v, tail);
    } else {
      ScanCodes(v / 10, [ZERO + v % 10] + tail);
      assert Codes(v) + tail == Codes(v / 10) + ([ZERO + v % 10] + tail);
      ScanOne(v / 10, v % 10, tail);
    }
  }

  lemma {:induction false} ScanZeros(n: int, tail: Text)
    ensures Scan(0, Repeated(ZERO, n) + tail) == Scan(0, tail)
    decreases n
  {
    if n > 0 {
      ScanZeros(n - 1, tail);
      assert (Repeated(ZERO, n) + tail)[1..] == Repeated(ZERO, n - 1) + tail;
    } else {
      assert [] + tail == tail;
    }
  }

  lemma {:induction false} SkipSpaces(n: int, tail: Text)
    ensures Skip(Repeated(SPACE, n) + tail) == Skip(tail)
    decreases n
  {
    if n > 0 {
      SkipSpaces(n - 1, tail);
      assert (Repeated(SPACE, n) + tail)[1..] == Repeated(SPACE, n - 1) + tail;
    } else {
      assert [] + tail == tail;
    }
  }

  lemma {:induction false} Ungrouped(s: Text)
    ensures Grouped(s, false) == s
  {
    if s != [] {
      Ungrouped(s[1..]);
    }
  }

  lemma Plain(v: int, width: nat, delim: nat, tail: Text)
    ensures v < 0 ==> Printed(v, width, delim, false) + tail != [] && (Printed(v, width, delim, false) + tail)[0] == MINUS
    ensures v >= 0 ==>
      Printed(v, width, delim, false) + tail == Repeated(delim, width - Room(|Codes(v)|)) + (Codes(v) + tail)
  {
    hide Codes, Room, Repeated;
    Ungrouped(Codes(Magnitude(v)));
  }

  lemma ScanStops(i: nat, s: Text)
    requires s == [] || !IsDigit(s[0])
    ensures Scan(i, s) == (i, s)
  {
  }

  lemma SkipStops(s: Text)
    requires s != [] && s[0] > SPACE
    ensures Skip(s) == s
  {
  }

  /** Printed with zero padding, a number reads back as itself, whatever the width, exactly
      when it is not negative; what follows it is left, so long as that is not a digit. */
  lemma ZeroPaddedRoundTrip(v: int, width: nat, tail: Text)
    requires S32_MIN <= v <= S32_MAX && (tail == [] || !IsDigit(tail[0]))
    ensures Scan(0, Printed(v, width, ZERO, false) + tail) == (v, tail) <==> v >= 0
  {
    hide Codes, Room, Repeated, Printed, Scan;
    Plain(v, width, ZERO, tail);
    if v >= 0 {
      ScanZeros(width - Room(|Codes(v)|), Codes(v) + tail);
      ScanCodes(v, tail);
      ScanStops(v, tail);
    } else {
      ScanStops(0, Printed(v, width, ZERO, false) + tail);
    }
  }

  /** With spaces the same holds once they are skipped. */
  lemma SpacePaddedRoundTrip(v: int, width: nat, tail: Text)
    requires S32_MIN <= v <= S32_MAX && (tail == [] || !IsDigit(tail[0]))
    ensures Scan(0, Skip(Printed(v, width, SPACE, false) + tail)) == (v, tail) <==> v >= 0
  {
    hide Codes, Room, Repeated, Printed, Scan, Skip;
    Plain(v, width, SPACE, tail);
    var text := Printed(v, width, SPACE, false) + tail;
    if v >= 0 {
      SkipSpaces(width - Room(|Codes(v)|), Codes(v) + tail);
      CodesAreDigits(v);
      assert IsDigit(Codes(v)[0]) && (Codes(v) + tail)[0] == Codes(v)[0];
      SkipStops(Codes(v) + tail);
      ScanCodes(v, tail);
      ScanStops(v, tail);
    } else {
      SkipStops(text);
      ScanStops(0, text);
    }
  }

  // ---------------------------------------------------------------- width and commas

  function WithoutCommas(s: Text): Text {
    if s == [] then [] else (if s[0] == COMMA then [] else [s[0]]) + WithoutCommas(s[1..])
  }

  /** Commas only separate, and there is one for every three digits that follow another. */
  lemma {:induction false} GroupedKeepsDigits(s: Text)
    requires s != [] && AllDigits(s)
    ensures WithoutCommas(Grouped(s, true)) == s
    ensures |Grouped(s, true)| == Room(|s|)
  {
    var g, rest := Grouped(s, true), Grouped(s[1..], true);
    if |s| == 1 {
      assert g == [s[0]] && g[1..] == [];
    } else {
      GroupedKeepsDigits(s[1..]);
      if (|s| - 1) % 3 == 0 {
        assert g == [s[0]] + ([COMMA] + rest);
        assert g[1..] == [COMMA] + rest && g[1..][1..] == rest;
      } else {
        assert g[1..] == rest;
      }
    }
  }

  lemma {:induction false} RepeatedLength(c: nat, n: int)
    ensures |Repeated(c, n)| == if n > 0 then n else 0
    decreases n
  {
    if n > 0 {
      RepeatedLength(c, n - 1);
    }
  }

  lemma RoomExactly(n: nat)
    requires n > 0
    ensures Room(n) >= n && (Room(n) == n <==> n <= 3)
  {
  }

  /** With commas the text of a non-negative number is exactly as wide as asked, or as wide as it
      must be. Without, it is so exactly when no comma was foreseen or none fits the width. */
  lemma WidthExactly(v: nat, width: nat, delim: nat)
    requires v <= S32_MAX
    ensures var n := |Codes(v)|;
      && |Printed(v, width, delim, true)| == (if width > Room(n) then width else Room(n))
      && (|Printed(v, width, delim, false)| == (if width > n then width else n) <==> n <= 3 || width <= n)
  {
    hide Codes, Room, Repeated;
    var codes := Codes(v);
    CodesAreDigits(v);
    RoomExactly(|codes|);
    Ungrouped(codes);
    GroupedKeepsDigits(codes);
    RepeatedLength(delim, width - Room(|codes|));
  }

  lemma {:induction false} DigitsStay(s: Text)
    requires AllDigits(s)
    ensures WithoutCommas(s) == s
  {
    if s != [] {
      DigitsStay(s[1..]);
    }
  }

  lemma {:induction false} ScannedDigits(i: nat, s: Text)
    ensures Scan(i, s).1 == [] ==> AllDigits(s)
    decreases |s|
  {
    if s != [] && IsDigit(s[0]) {
      ScannedDigits((10 * i + (s[0] - ZERO)) % U32_RANGE, s[1..]);
      assert s == [s[0]] + s[1..];
    }
  }

  lemma ThreeDigits(v: nat)
    ensures |Codes(v)| <= 3 <==> v < 1000
  {
    hide Codes;
    CodesOfNat(v);
    CodesOfNat(v / 10);
    CodesOfNat(v / 10 / 10);
  }

  /** With commas a number reads back exactly when it has none. */
  lemma CommaRoundTrip(v: nat)
    requires v <= S32_MAX
    ensures Scan(0, Printed(v, 0, ZERO, true)) == (v, []) <==> v < 1000
  {
    hide Codes, Scan, WithoutCommas, Grouped;
    var codes := Codes(v);
    var g := Grouped(codes, true);
    CodesAreDigits(v);
    ThreeDigits(v);
    GroupedKeepsDigits(codes);
    assert Printed(v, 0, ZERO, true) == g;
    if v < 1000 {
      SmallGroup(codes);
      ScanCodes(v, []);
      ScanStops(v, []);
      assert codes + [] == g;
    } else {
      ScannedDigits(0, g);
      if AllDigits(g) {
        DigitsStay(g);
      }
    }
  }

  lemma {:induction false} SmallGroup(s: Text)
    requires |s| <= 3
    ensures Grouped(s, true) == s
  {
    if s != [] {
      SmallGroup(s[1..]);
    }
  }

  // ---------------------------------------------------------------- every number, every format

  lemma RoomPlaces(n: nat)
    requires n > 1
    ensures Room(n - 1) % 4 == 3 <==> (n - 1) % 3 == 0
    ensures (n - 1) % 3 == 0 ==> (Room(n - 1) + 1) % 4 != 3
  {
    var m, r := (n - 2) / 3, (n - 2) % 3;
    assert Room(n - 1) == 4 * m + r + 1;
  }

  lemma {:induction false} GroupedPlaces(s: Text, i: nat)
    requires s != [] && AllDigits(s) && i < |Grouped(s, true)|
    ensures Grouped(s, true)[|Grouped(s, true)| - 1 - i] == COMMA <==> i % 4 == 3
  {
    hide Grouped, Room;
    GroupedUnfold(s, true);
    NothingGrouped(true);
    assert IsDigit(s[0]);
    if |s| > 1 {
      var rest := Grouped(s[1..], true);
      GroupedKeepsDigits(s[1..]);
      RoomPlaces(|s|);
      if i < |rest| {
        GroupedPlaces(s[1..], i);
      }
    } else {
      assert s[1..] == [];
    }
  }

  /** Commas stand before every third digit, counted from the end, and nowhere else. */
  lemma CommasExactly(v: nat, delim: nat, i: nat)
    requires v <= S32_MAX && i < |Printed(v, 0, delim, true)|
    ensures Printed(v, 0, delim, true)[|Printed(v, 0, delim, true)| - 1 - i] == COMMA <==> i % 4 == 3
  {
    hide Codes, Grouped, Room;
    CodesAreDigits(v);
    RoomExactly(|Codes(v)|);
    assert Printed(v, 0, delim, true) == Grouped(Codes(v), true);
    GroupedPlaces(Codes(v), i);
  }

  /** A minus goes before everything, and what follows it is the number without its sign: the padding
      too, which does not count the minus. */
  lemma MinusFirst(v: int, width: nat, delim: nat, comma: bool)
    requires S32_MIN < v < 0
    ensures Printed(v, width, delim, comma) == [MINUS] + Printed(-v, width, delim, comma)
  {
    hide Codes, Grouped, Repeated, Room;
  }

  /** A number is padded with as many delimiters as the width exceeds what its digits take with commas. */
  lemma PaddingExactly(v: nat, width: nat, delim: nat, comma: bool)
    requires v <= S32_MAX
    ensures var room := |Printed(v, 0, delim, true)|;
      Printed(v, width, delim, comma) == seq(if width > room then width - room else 0, _ => delim) + Printed(v, 0, delim, comma)
  {
    hide Codes, Grouped, Room;
    var codes := Codes(v);
    CodesAreDigits(v);
    GroupedKeepsDigits(codes);
    RoomExactly(|codes|);
    RepeatedIs(delim, width - Room(|codes|));
  }

  lemma {:induction false} RepeatedIs(c: nat, n: int)
    ensures Repeated(c, n) == seq(if n > 0 then n else 0, _ => c)
    decreases n
  {
    if n > 0 {
      RepeatedIs(c, n - 1);
    }
  }

  /** Unpadded, a number reads back as itself once its commas are removed, and begins with no
      superfluous zero. */
  lemma UnpaddedRoundTrip(v: nat, delim: nat, comma: bool, tail: Text)
    requires v <= S32_MAX && (tail == [] || !IsDigit(tail[0]))
    ensures var text := Printed(v, 0, delim, comma);
      && Scan(0, WithoutCommas(text) + tail) == (v, tail)
      && text != [] && (text[0] == ZERO ==> v == 0)
  {
    hide Codes, Scan, WithoutCommas, Grouped, Room;
    var codes := Codes(v);
    CodesAreDigits(v);
    LeadingDigit(v);
    GroupedKeepsDigits(codes);
    DigitsStay(codes);
    Ungrouped(codes);
    RoomExactly(|codes|);
    GroupedUnfold(codes, comma);
    assert Printed(v, 0, delim, comma) == Grouped(codes, comma);
    ScanCodes(v, tail);
    ScanStops(v, tail);
  }

  lemma {:induction false} LeadingDigit(v: nat)
    ensures Codes(v)[0] == ZERO ==> v == 0
    decreases v
  {
    hide Codes;
    CodesOfNat(v);
    if v >= 10 { LeadingDigit(v / 10); }
  }

  /** Every S32 but the least, with padding by zeros: after the minus, if any, its magnitude reads back. */
  lemma SignedRoundTrip(v: int, width: nat, tail: Text)
    requires S32_MIN < v <= S32_MAX && (tail == [] || !IsDigit(tail[0]))
    ensures var text := Printed(v, width, ZERO, false);
      && |text| > 0 && (text[0] == MINUS <==> v < 0)
      && (v < 0 ==> Scan(0, text[1..] + tail) == (-v, tail))
      && (v >= 0 ==> Scan(0, text + tail) == (v, tail))
  {
    hide Codes, Scan, Printed;
    if v < 0 {
      MinusFirst(v, width, ZERO, false);
      ZeroPaddedRoundTrip(-v, width, tail);
      assert ([MINUS] + Printed(-v, width, ZERO, false))[1..] == Printed(-v, width, ZERO, false);
    } else {
      ZeroPaddedRoundTrip(v, width, tail);
      FirstIsNoMinus(v, width);
    }
  }

  lemma FirstIsNoMinus(v: nat, width: nat)
    requires v <= S32_MAX
    ensures Printed(v, width, ZERO, false) != [] && Printed(v, width, ZERO, false)[0] != MINUS
  {
    hide Codes, Grouped, Room;
    CodesAreDigits(v);
    Ungrouped(Codes(v));
    RepeatedIs(ZERO, width - Room(|Codes(v)|));
    assert IsDigit(Codes(v)[0]);
  }

  /** The same with spaces, which stand between the minus and the digits. */
  lemma SignedSpacedRoundTrip(v: int, width: nat, tail: Text)
    requires S32_MIN < v < 0 && (tail == [] || !IsDigit(tail[0]))
    ensures var text := Printed(v, width, SPACE, false);
      |text| > 0 && text[0] == MINUS && Scan(0, Skip(text[1..] + tail)) == (-v, tail)
  {
    hide Codes, Scan, Skip, Printed;
    MinusFirst(v, width, SPACE, false);
    SpacePaddedRoundTrip(-v, width, tail);
    assert ([MINUS] + Printed(-v, width, SPACE, false))[1..] == Printed(-v, width, SPACE, false);
  }

  // ---------------------------------------------------------------- reading any text

  /** The number that a row of digits stands for. */
  function Value(s: Text): nat
    requires AllDigits(s)
  {
    if s == [] then 0 else 10 * Value(s[..|s| - 1]) + (s[|s| - 1] - ZERO)
  }

  lemma {:induction false} ScanDigit(i: nat, s: Text, d: nat, tail: Text)
    requires AllDigits(s) && IsDigit(d)
    ensures Scan(i, s + ([d] + tail)) == Scan((10 * Scan(i, s).0 + (d - ZERO)) % U32_RANGE, tail)
    decreases |s|
  {
    if s == [] {
      assert s + ([d] + tail) == [d] + tail && ([d] + tail)[1..] == tail;
    } else {
      assert (s + ([d] + tail))[1..] == s[1..] + ([d] + tail);
      ScanDigit((10 * i + (s[0] - ZERO)) % U32_RANGE, s[1..], d, tail);
    }
  }

  lemma RemainderIs(x: nat, q: nat, r: nat)
    requires r < U32_RANGE && x == q * U32_RANGE + r
    ensures x % U32_RANGE == r
  {
    assert x / U32_RANGE == q;
  }

  lemma ModStep(a: nat, d: nat)
    ensures (10 * (a % U32_RANGE) + d) % U32_RANGE == (10 * a + d) % U32_RANGE
  {
    var q, r := a / U32_RANGE, a % U32_RANGE;
    assert a == q * U32_RANGE + r;
    var low := 10 * r + d;
    var p, t := low / U32_RANGE, low % U32_RANGE;
    assert low == p * U32_RANGE + t;
    RemainderIs(10 * a + d, 10 * q + p, t);
  }

  /** stratoui reads the digits a text begins with, as many as there are, modulo 2^32. */
  lemma {:induction false} ScanIsValue(s: Text, tail: Text)
    requires AllDigits(s) && (tail == [] || !IsDigit(tail[0]))
    ensures Scan(0, s + tail) == (Value(s) % U32_RANGE, tail)
    decreases |s|
  {
    hide Scan;
    ScansTo(s);
    if s == [] {
      assert s + tail == tail;
      ScanStops(0, tail);
    } else {
      var front, d := s[..|s| - 1], s[|s| - 1];
      assert s + tail == front + ([d] + tail);
      ScansTo(front);
      ScanDigit(0, front, d, tail);
      ModStep(Value(front), d - ZERO);
      ScanStops(Value(s) % U32_RANGE, tail);
    }
  }

  lemma {:induction false} ScansTo(s: Text)
    requires AllDigits(s)
    ensures Scan(0, s).0 == Value(s) % U32_RANGE
    decreases |s|
  {
    if s != [] {
      var front, d := s[..|s| - 1], s[|s| - 1];
      ScansTo(front);
      ScanDigit(0, front, d, []);
      assert s == front + ([d] + []);
      ModStep(Value(front), d - ZERO);
    }
  }

  /** strskipws drops the characters up to the space that a text begins with, all of them and no other. */
  lemma {:induction false} SkipExactly(s: Text) returns (n: nat)
    ensures n <= |s| && Skip(s) == s[n..] && forall k :: 0 <= k < n ==> s[k] <= SPACE
    ensures Skip(s) != [] ==> Skip(s)[0] > SPACE
  {
    n := 0;
    if s != [] && s[0] <= SPACE {
      n := SkipExactly(s[1..]);
      n := n + 1;
    }
  }
}
