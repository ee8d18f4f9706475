/** Printing and parsing numbers on a machine without a divider: division by ten from
    shifts and additions in 32-bit words. */
module Numbers {

  const WORD: nat := 0x1_0000_0000
  const HALF: nat := 0x8000_0000

  /** Truncation to an unsigned 32-bit word. */
  function U32(x: int): (r: nat)
    ensures 0 <= x < WORD ==> r == x
    ensures r < WORD
  {
    x % WORD
  }

  /** Truncation to a signed 32-bit word. */
  function I32(x: int): (r: int)
    ensures -0x8000_0000 <= x < 0x8000_0000 ==> r == x
  {
    (x + HALF) % WORD - HALF
  }

  // ----- division by ten -----

  /** The least number for which a sum of the shifted parts leaves a 32-bit word. */
  const LIMIT: nat := 0x1_4000_0002

  /** The sums of shifted parts, each truncated to a word. */
  function Sum0(n: nat): nat { U32(n / 2 + n / 4) }
  function Sum1(n: nat): nat { U32(Sum0(n) + Sum0(n) / 16) }
  function Sum2(n: nat): nat { U32(Sum1(n) + Sum1(n) / 256) }
  function Sum3(n: nat): nat { U32(Sum2(n) + Sum2(n) / 65536) }

  /** The quotient before its correction. */
  function Rough(n: nat): nat {
    Sum3(n) / 8
  }

  /** Ten times a quotient, by shifts. */
  function Times10(q: nat): nat {
    U32(U32(U32(4 * q) + q) * 2)
  }

  /** What is left of n, in a word. */
  function Left(n: nat, q: nat): nat {
    U32(n - Times10(q))
  }

  /** The corrected quotient. */
  function Quot10(n: nat): nat {
    U32(Rough(n) + U32(Left(n, Rough(n)) + 6) / 16)
  }

  /** A truncation takes whole words away. */
  lemma Truncates(x: nat)
    ensures U32(x) == x || U32(x) <= x - WORD
  {
  }

  /** Below the limit no sum is truncated. */
  lemma NoWrap(n: nat)
    requires n < LIMIT
    ensures
      && Sum0(n) == n / 2 + n / 4 && Sum1(n) == Sum0(n) + Sum0(n) / 16
      && Sum2(n) == Sum1(n) + Sum1(n) / 256 && Sum3(n) == Sum2(n) + Sum2(n) / 65536
  {
    hide U32;
    var q0 := n / 2 + n / 4;
    assert q0 <= 4026531841;
    var q1 := q0 + q0 / 16;
    assert q1 <= 4278190081;
    var q2 := q1 + q1 / 256;
    assert q2 <= 4294901760;
    var q3 := q2 + q2 / 65536;
    assert q3 < WORD;
  }

  /** Below the limit the rough quotient is too small by at most one. */
  lemma RoughClose(n: nat)
    requires n < LIMIT
    ensures 0 <= n - 10 * Rough(n) <= 19
  {
    NoWrap(n);
    var q0, q1, q2, q3 := Sum0(n), Sum1(n), Sum2(n), Sum3(n);
    hide Sum0, Sum1, Sum2, Sum3, U32;
    assert 3 * n - 5 <= 4 * q0 <= 3 * n;
    assert 17 * q0 - 15 <= 16 * q1 <= 17 * q0;
    assert 257 * q1 - 255 <= 256 * q2 <= 257 * q1;
    assert 65537 * q2 - 65535 <= 65536 * q3 <= 65537 * q2;
    assert q3 - 7 <= 8 * Rough(n) <= q3;
  }

  lemma Whole(x: int)
    ensures x == U32(x) + WORD * (x / WORD)
  {
  }

  lemma SameWord(x: int, r: nat, k: int)
    requires x == r + WORD * k && r < WORD
    ensures U32(x) == r
  {
  }

  /** Truncations on the way do not matter for a remainder that fits a word. */
  lemma LeftIs(n: nat, q: nat)
    requires 0 <= n - 10 * q < WORD
    ensures Left(n, q) == n - 10 * q
  {
    hide U32;
    var x1 := U32(4 * q);
    var x2 := U32(x1 + q);
    Whole(4 * q);
    Whole(x1 + q);
    Whole(x2 * 2);
    var k := 2 * (4 * q / WORD) + 2 * ((x1 + q) / WORD) + x2 * 2 / WORD;
    SameWord(n - U32(x2 * 2), n - 10 * q, k);
  }

  lemma ChainGrows(n: nat, q0: nat, q1: nat, q2: nat, q3: nat)
    requires n >= LIMIT && q0 == n / 2 + n / 4 && q1 == q0 + q0 / 16 && q2 == q1 + q1 / 256 && q3 == q2 + q2 / 65536
    ensures q3 >= WORD
  {
    assert q0 >= 4026531841;
    assert q1 >= 4278190081;
    assert q2 >= 4294901761;
  }

  /** One truncated sum costs at least a word; t counts the truncations. */
  lemma ChainLoses(n: nat, q0: nat, q1: nat, q2: nat, q3: nat, t0: nat, t1: nat, t2: nat, t3: nat)
    requires 4 * q0 <= 3 * n - 4 * WORD * t0
    requires 16 * q1 <= 17 * q0 - 16 * WORD * t1
    requires 256 * q2 <= 257 * q1 - 256 * WORD * t2
    requires 65536 * q3 <= 65537 * q2 - 65536 * WORD * t3
    requires t0 + t1 + t2 + t3 >= 1
    ensures 5 * q3 + 5 * WORD <= 4 * n
  {
    assert 64 * q1 <= 51 * n - 68 * WORD * t0 - 64 * WORD * t1;
    assert 16384 * q2 <= 13107 * n - 17476 * WORD * t0 - 16448 * WORD * t1 - 16384 * WORD * t2;
    assert 0x4000_0000 * q3 <= 858993459 * n - 0x4000_0000 * WORD;
  }

  /** From the limit on some sum is truncated, and the quotient is too small by more than
      the correction can make up. */
  lemma WrapTooSmall(n: nat)
    requires n >= LIMIT
    ensures 10 * Rough(n) + 0x1_4000_0000 <= n
  {
    var q0, q1, q2, q3 := Sum0(n), Sum1(n), Sum2(n), Sum3(n);
    var x0, x1, x2, x3 := n / 2 + n / 4, q0 + q0 / 16, q1 + q1 / 256, q2 + q2 / 65536;
    Truncates(x0);
    Truncates(x1);
    Truncates(x2);
    Truncates(x3);
    assert q3 < WORD;
    hide Sum0, Sum1, Sum2, Sum3, U32;
    if q0 == x0 && q1 == x1 && q2 == x2 && q3 == x3 {
      ChainGrows(n, q0, q1, q2, q3);
      assert false;
    } else {
      var t0, t1, t2, t3 := Lost(q0, x0), Lost(q1, x1), Lost(q2, x2), Lost(q3, x3);
      assert 4 * q0 <= 3 * n - 4 * WORD * t0;
      assert 16 * q1 <= 17 * q0 - 16 * WORD * t1;
      assert 256 * q2 <= 257 * q1 - 256 * WORD * t2;
      assert 65536 * q3 <= 65537 * q2 - 65536 * WORD * t3;
      ChainLoses(n, q0, q1, q2, q3, t0, t1, t2, t3);
    }
  }

  function Lost(q: nat, x: nat): nat {
    if q == x then 0 else 1
  }

  lemma Corrected(n: nat, r: nat)
    requires 0 <= n - 10 * r <= 19
    ensures r + (n - 10 * r + 6) / 16 == n / 10
  {
  }

  lemma Div10Right(n: nat)
    requires n < LIMIT
    ensures Quot10(n) == n / 10 && Left(n, n / 10) == n % 10
  {
    hide U32, Rough, Left;
    RoughClose(n);
    LeftIs(n, Rough(n));
    Corrected(n, Rough(n));
    assert U32(Left(n, Rough(n)) + 6) == n - 10 * Rough(n) + 6;
    LeftIs(n, n / 10);
  }

  lemma Div10Wrong(n: nat)
    requires n >= LIMIT
    ensures Quot10(n) != n / 10
  {
    hide U32, Rough, Left;
    WrapTooSmall(n);
    var fix := U32(Left(n, Rough(n)) + 6) / 16;
    assert fix <= 0x1000_0000;
    Truncates(Rough(n) + fix);
    assert Quot10(n) <= Rough(n) + fix;
  }

  /** The shifts divide by ten exactly when no sum leaves a 32-bit word; in particular for
      every 32-bit number. */
  lemma Div10Exact(n: nat)
    ensures Quot10(n) == n / 10 && Left(n, Quot10(n)) == n % 10 <==> n < LIMIT
  {
    hide Quot10, Left;
    if n < LIMIT {
      Div10Right(n);
    } else {
      Div10Wrong(n);
    }
  }

  method Div10(n: nat) returns (q: nat, mod: nat)
    ensures q == Quot10(n) && mod == Left(n, q)
  {
    hide U32, Left, Rough;
    q := RoughQuotient(n);
    mod := Remaining(n, q);
    q := U32(q + U32(mod + 6) / 16);
    mod := Remaining(n, q);
  }

  method RoughQuotient(n: nat) returns (q: nat)
    ensures q == Rough(n)
  {
    hide U32;
    q := U32(n / 2 + n / 4);
    assert q == Sum0(n);
    q := U32(q + q / 16);
    assert q == Sum1(n);
    q := U32(q + q / 256);
    assert q == Sum2(n);
    q := U32(q + q / 65536);
    assert q == Sum3(n);
    q := q / 8;
  }

  method Remaining(n: nat, q: nat) returns (mod: nat)
    ensures mod == Left(n, q)
  {
    hide U32;
    mod := U32(n - U32(U32(U32(4 * q) + q) * 2));
  }

  // ----- division by the printer's bases -----

  predicate ShiftBase(base: nat) {
    base == 16 || base == 8 || base == HALF
  }

  function Quot(n: nat, base: nat): nat {
    if base == 10 then Quot10(n) else if ShiftBase(base) then n / base else 1
  }

  function Rem(n: nat, base: nat): (r: nat) {
    if base == 10 then Left(n, Quot10(n)) else if ShiftBase(base) then n % base else 3
  }

  /** Any base that is not provided for gets fixed answers. */
  method DoDiv(n: nat, base: nat) returns (q: nat, mod: nat)
    ensures q == Quot(n, base) && mod == Rem(n, base)
    ensures (base == 10 && n < LIMIT) || ShiftBase(base) ==> q == n / base && mod == n % base
  {
    hide Quot10, Left;
    if base == 10 {
      q, mod := Div10(n);
      Div10Exact(n);
    } else if base == 16 {
      mod := n % 16;
      q := n / 16;
    } else if base == 8 {
      mod := n % 8;
      q := n / 8;
    } else if base == HALF {
      mod := n % 0x8000_0000;
      q := n / 0x8000_0000;
    } else {
      mod := 3;
      q := 1;
    }
  }

  // ----- printing -----

  const HEX := "0123456789abcdef"

  function DigitChar(d: nat): char {
    if d < 16 then HEX[d] else '?'
  }

  function Repeat(c: char, k: int): (r: string) {
    if k <= 0 then [] else Repeat(c, k - 1) + [c]
  }

  /** The digits of n, most significant first. */
  function Digits(n: nat, base: nat): (r: string)
    requires base >= 2
    ensures r != []
  {
    if n < base then [DigitChar(n)] else Digits(n / base, base) + [DigitChar(n % base)]
  }

  /** What the printer emits: padding in front of the first digit, then the digits. */
  function Printed(n: nat, base: nat, width: int, pad: char): string
    requires base >= 2 || n < base
  {
    if n >= base then
      QuotSmaller(n, base);
      Printed(Quot(n, base), base, width - 1, pad) + [DigitChar(Rem(n, base))]
    else Repeat(pad, width - 1) + [DigitChar(Rem(n, base))]
  }

  lemma QuotSmaller(n: nat, base: nat)
    requires 2 <= base <= n
    ensures Quot(n, base) < n
  {
    Div10Exact(n);
    hide Quot10, Left;
    if base == 10 && n >= LIMIT {
      assert Quot10(n) < WORD by { Quot10Word(n); }
    }
  }

  lemma Quot10Word(n: nat)
    ensures Quot10(n) < WORD
  {
  }

  /** In the bases 0 and 1 the recursion does not end, except for the number 0 in base 1:
      its argument never gets below the base. */
  lemma NeverEnds(n: nat, base: nat)
    ensures base < 2 && base <= n ==> base <= Quot(n, base)
  {
    hide Quot10;
  }

  method PrintNum(n: nat, base: nat, width: int, pad: char) returns (out: string)
    requires base >= 2 || n < base
    ensures out == Printed(n, base, width, pad)
    decreases n
  {
    var q, mod := DoDiv(n, base);
    if n >= base {
      QuotSmaller(n, base);
      out := PrintNum(q, base, width - 1, pad);
    } else {
      out := [];
      var w := width - 1;
      while w > 0
        invariant width - 1 > 0 ==> 0 <= w <= width - 1
        invariant out == Repeat(pad, if width - 1 > 0 then width - 1 - w else 0)
      {
        out := out + [pad];
        w := w - 1;
      }
    }
    out := out + [DigitChar(mod)];
  }

  /** In the bases eight, ten and sixteen the output is padding and the digits. */
  lemma {:induction false} PrintedDigits(n: nat, base: nat, width: int, pad: char)
    requires base == 8 || (base == 10 && n < LIMIT) || base == 16
    ensures Printed(n, base, width, pad) == Repeat(pad, width - |Digits(n, base)|) + Digits(n, base)
  {
    ExactDivision(n, base);
    if n >= base {
      PrintedStep(n, base, width, pad);
      PrintedDigits(n / base, base, width - 1, pad);
      hide Printed, Digits, Repeat, Quot, Rem, DigitChar;
    } else {
      hide Quot, Rem;
      assert n % base == n;
    }
  }

  lemma ExactDivision(n: nat, base: nat)
    requires base == 8 || (base == 10 && n < LIMIT) || base == 16
    ensures Quot(n, base) == n / base && Rem(n, base) == n % base
  {
    hide Quot10, Left;
    Div10Exact(n);
  }

  lemma PrintedStep(n: nat, base: nat, width: int, pad: char)
    requires 2 <= base <= n && Quot(n, base) == n / base && Rem(n, base) == n % base
    ensures n / base < n
    ensures Printed(n, base, width, pad) == Printed(n / base, base, width - 1, pad) + [DigitChar(n % base)]
    ensures Digits(n, base) == Digits(n / base, base) + [DigitChar(n % base)]
  {
    QuotSmaller(n, base);
    hide Quot, Rem, DigitChar, Repeat;
  }

  /** In any other base up to sixteen the output is right for two numbers at most. */
  lemma OtherBases(n: nat, base: nat, pad: char)
    requires 2 <= base <= 16 && base != 8 && base != 10 && base != 16
    ensures Printed(n, base, 0, pad) == Digits(n, base) <==> base > 3 && (n == 3 || n == 3 * base + 3)
  {
    hide Quot10, Left;
    assert forall d :: 0 <= d < 16 ==> (DigitChar(d) == '3' <==> d == 3);
    if n < base {
      assert Printed(n, base, 0, pad) == "3";
    } else {
      var q, m := n / base, n % base;
      assert Printed(1, base, -1, pad) == "3";
      assert Printed(n, base, 0, pad) == "3" + "3";
      assert Digits(n, base) == Digits(q, base) + [DigitChar(m)];
      assert Digits(q, base) == "3" <==> q == 3 && base > 3;
      assert m == 3 && q == 3 ==> n == 3 * base + 3;
      assert n == 3 * base + 3 && base > 3 ==> q == 3 && m == 3 by {
        if n == 3 * base + 3 && base > 3 { SmallQuotient(base, n); }
      }
      if Printed(n, base, 0, pad) == Digits(n, base) {
        assert |Digits(q, base)| == 1 && Digits(n, base)[0] == '3' && Digits(n, base)[1] == '3';
      }
    }
  }

  lemma SmallQuotient(base: nat, n: nat)
    requires 4 <= base <= 16 && n == 3 * base + 3
    ensures n / base == 3 && n % base == 3
  {
    assert (n / base) * base + n % base == n;
  }

  // ----- parsing -----

  /** The character at i; a string ends with a zero character. */
  function At(s: string, i: nat): char {
    if i < |s| then s[i] else '\0'
  }

  /** The value of a digit or letter, or none (-1). */
  function DigitOf(c: char): (d: int) {
    if '0' <= c <= '9' then c as int - '0' as int
    else if 'a' <= c <= 'z' then c as int - 'a' as int + 10
    else if 'A' <= c <= 'Z' then c as int - 'A' as int + 10
    else -1
  }

  predicate IsDigit(c: char, base: nat) {
    0 <= DigitOf(c) < base
  }

  predicate Blank(c: char) {
    c == ' ' || c == '\t'
  }

  /** The first index from i on whose character is not blank. */
  function SkipBlanks(s: string, i: nat): (r: nat)
    decreases |s| - i
  {
    if i < |s| && Blank(s[i]) then SkipBlanks(s, i + 1) else i
  }

  /** The end of the digits that start at i. */
  function DigitsEnd(s: string, i: nat, base: nat): (r: nat)
    requires i <= |s|
    ensures i <= r <= |s|
    decreases |s| - i
  {
    if i < |s| && IsDigit(s[i], base) then DigitsEnd(s, i + 1, base) else i
  }

  /** The number that digits denote, as an integer and in a signed 32-bit word. */
  function Value(t: string, base: nat): int {
    if t == [] then 0 else Value(t[..|t| - 1], base) * base + DigitOf(t[|t| - 1])
  }

  function WordValue(t: string, base: nat): int {
    if t == [] then 0 else I32(WordValue(t[..|t| - 1], base) * base + DigitOf(t[|t| - 1]))
  }

  function SkipSign(s: string, i: nat): (r: nat)
    requires i <= |s|
    ensures r <= |s|
  {
    if At(s, i) == '+' || At(s, i) == '-' then i + 1 else i
  }

  datatype Prefix = Prefix(start: nat, base: nat)

  function SkipPrefix(s: string, i: nat, base: nat): (r: Prefix)
    requires i <= |s|
    ensures r.start <= |s|
  {
    if (base == 0 || base == 16) && At(s, i) == '0' && At(s, i + 1) == 'x' then Prefix(i + 2, 16)
    else if base == 0 && At(s, i) == '0' then Prefix(i + 1, 8)
    else if base == 0 then Prefix(i, 10)
    else Prefix(i, base)
  }

  datatype Parsed = Parsed(value: int, end: nat)

  function StrToL(s: string, base: nat): Parsed {
    var i := SkipBlanks(s, 0);
    BlanksBound(s, 0);
    var p := SkipPrefix(s, SkipSign(s, i), base);
    var end := DigitsEnd(s, p.start, p.base);
    var v := WordValue(s[p.start..end], p.base);
    Parsed(if At(s, i) == '-' then I32(-v) else v, end)
  }

  lemma {:induction false} BlanksBound(s: string, i: nat)
    requires i <= |s|
    ensures i <= SkipBlanks(s, i) <= |s|
    decreases |s| - i
  {
    if i < |s| && Blank(s[i]) {
      BlanksBound(s, i + 1);
    }
  }

  method Strtol(s: string, base0: nat) returns (value: int, end: nat)
    ensures Parsed(value, end) == StrToL(s, base0)
  {
    hide DigitsEnd, WordValue, I32;
    var i := SkipLeadingBlanks(s);
    var base, neg := base0, false;
    hide SkipBlanks;
    if At(s, i) == '+' {
      i := i + 1;
    } else if At(s, i) == '-' {
      i, neg := i + 1, true;
    }
    if (base == 0 || base == 16) && At(s, i) == '0' && At(s, i + 1) == 'x' {
      i, base := i + 2, 16;
    } else if base == 0 && At(s, i) == '0' {
      i, base := i + 1, 8;
    } else if base == 0 {
      base := 10;
    }
    value, end := ReadDigits(s, i, base);
    if neg {
      value := I32(-value);
    }
  }

  method SkipLeadingBlanks(s: string) returns (i: nat)
    ensures i == SkipBlanks(s, 0) <= |s|
  {
    i := 0;
    while Blank(At(s, i))
      invariant i <= |s| && SkipBlanks(s, i) == SkipBlanks(s, 0)
      decreases |s| - i
    {
      i := i + 1;
    }
  }

  method ReadDigits(s: string, start: nat, base: nat) returns (value: int, end: nat)
    requires start <= |s|
    ensures end == DigitsEnd(s, start, base) && value == WordValue(s[start..end], base)
  {
    end, value := start, 0;
    while IsDigit(At(s, end), base)
      invariant start <= end <= |s| && DigitsEnd(s, end, base) == DigitsEnd(s, start, base)
      invariant value == WordValue(s[start..end], base)
      decreases |s| - end
    {
      assert s[start..end + 1][..end - start] == s[start..end];
      value := I32(value * base + DigitOf(s[end]));
      end := end + 1;
    }
  }

  // ----- the round trip -----

  predicate AllDigits(t: string, base: nat) {
    forall c :: c in t ==> IsDigit(c, base)
  }

  /** Letters stand for ten and up, in either case. */
  lemma LettersAlike(k: nat)
    requires k < 26
    ensures DigitOf(('a' as int + k) as char) == DigitOf(('A' as int + k) as char) == 10 + k
  {
  }

  lemma DigitBack(d: nat, base: nat)
    requires d < base <= 16
    ensures DigitOf(DigitChar(d)) == d && IsDigit(DigitChar(d), base) && !Blank(DigitChar(d))
    ensures DigitChar(d) != '+' && DigitChar(d) != '-' && DigitChar(d) != 'x'
  {
  }

  lemma {:induction false} DigitsBack(n: nat, base: nat)
    requires 2 <= base <= 16
    ensures AllDigits(Digits(n, base), base)
  {
    if n < base {
      DigitBack(n, base);
    } else {
      DigitsBack(n / base, base);
      DigitBack(n % base, base);
      assert Digits(n, base) == Digits(n / base, base) + [DigitChar(n % base)];
      hide Digits, DigitChar, IsDigit;
    }
  }

  /** The digits of a number denote it. */
  lemma {:induction false} DigitsDenote(n: nat, base: nat)
    requires 2 <= base <= 16
    ensures Value(Digits(n, base), base) == n
  {
    if n < base {
      DigitBack(n, base);
      ValueSnoc([], DigitChar(n), base);
      assert [] + [DigitChar(n)] == Digits(n, base);
    } else {
      DigitsDenote(n / base, base);
      DigitsStep(n, base);
    }
  }

  lemma DigitsStep(n: nat, base: nat)
    requires 2 <= base <= 16 && n >= base
    ensures Value(Digits(n, base), base) == Value(Digits(n / base, base), base) * base + n % base
    ensures n == n / base * base + n % base
  {
    var q, m := n / base, n % base;
    assert Digits(n, base) == Digits(q, base) + [DigitChar(m)];
    hide Digits, DigitChar, DigitOf, Value;
    DigitBack(m, base);
    ValueSnoc(Digits(q, base), DigitChar(m), base);
    DivMod(n, base);
  }

  lemma ValueSnoc(t: string, c: char, base: nat)
    ensures Value(t + [c], base) == Value(t, base) * base + DigitOf(c)
  {
    assert (t + [c])[..|t|] == t;
  }

  lemma DivMod(n: nat, base: nat)
    requires base > 0
    ensures n / base * base + n % base == n
  {
  }

  lemma {:induction false} ZerosBefore(k: int, t: string, base: nat)
    requires base >= 2
    ensures Value(Repeat('0', k) + t, base) == Value(t, base)
    decreases |t|, k
  {
    var z := Repeat('0', k);
    if t != [] {
      assert (z + t)[..|z + t| - 1] == z + t[..|t| - 1];
      ZerosBefore(k, t[..|t| - 1], base);
    } else if k > 0 {
      assert z + t == Repeat('0', k - 1) + [] + ['0'];
      assert (z + t)[..|z + t| - 1] == Repeat('0', k - 1) + [];
      ZerosBefore(k - 1, [], base);
      assert DigitOf('0') == 0;
    } else {
      assert z + t == [];
    }
  }

  /** A number that fits a word is read without overflow, since every prefix is smaller. */
  lemma {:induction false} WordValueExact(t: string, base: nat)
    requires base >= 2 && AllDigits(t, base) && Value(t, base) < HALF
    ensures WordValue(t, base) == Value(t, base) >= 0
  {
    if t != [] {
      var front := t[..|t| - 1];
      assert t[|t| - 1] in t;
      PrefixSmaller(front, base, DigitOf(t[|t| - 1]));
      WordValueExact(front, base);
    }
  }

  lemma PrefixSmaller(front: string, base: nat, d: int)
    requires base >= 2 && d >= 0 && AllDigits(front, base)
    ensures 0 <= Value(front, base) <= Value(front, base) * base + d
  {
    ValueNatural(front, base);
    MulGrows(Value(front, base), base);
    hide Value;
  }

  lemma MulGrows(v: int, base: nat)
    requires v >= 0 && base >= 1
    ensures v <= v * base
  {
    assert v * base == v * (base - 1) + v;
  }

  lemma {:induction false} ValueNatural(t: string, base: nat)
    requires AllDigits(t, base)
    ensures Value(t, base) >= 0
  {
    if t != [] {
      var v := Value(t[..|t| - 1], base);
      ValueNatural(t[..|t| - 1], base);
      assert Value(t, base) == v * base + DigitOf(t[|t| - 1]) && IsDigit(t[|t| - 1], base);
      hide Value;
      assert v * base >= 0;
    }
  }

  lemma {:induction false} DigitsToTheEnd(s: string, i: nat, base: nat)
    requires i <= |s| && AllDigits(s[i..], base)
    ensures DigitsEnd(s, i, base) == |s|
    decreases |s| - i
  {
    if i < |s| {
      assert s[i..] == [s[i]] + s[i + 1..];
      DigitsToTheEnd(s, i + 1, base);
    }
  }

  lemma {:induction false} RepeatIs(c: char, k: int)
    ensures |Repeat(c, k)| == (if k > 0 then k else 0) && forall i :: 0 <= i < |Repeat(c, k)| ==> Repeat(c, k)[i] == c
  {
    if k > 0 {
      RepeatIs(c, k - 1);
    }
  }

  lemma {:induction false} SkipAllBlanks(s: string, i: nat, k: nat)
    requires i <= k < |s| && (forall j: int :: i <= j < k ==> Blank(s[j])) && !Blank(s[k])
    ensures SkipBlanks(s, i) == k
    decreases k - i
  {
    if i < k {
      SkipAllBlanks(s, i + 1, k);
    }
  }

  /** A text of blanks and then digits only is read to its end as the value of the digits. */
  lemma ReadsBack(s: string, k: nat, base: nat)
    requires 2 <= base <= 16 && k < |s| && (forall j :: 0 <= j < k ==> Blank(s[j]))
    requires AllDigits(s[k..], base) && Value(s[k..], base) < HALF
    ensures StrToL(s, base) == Parsed(Value(s[k..], base), |s|)
  {
    forall j | k <= j < |s| ensures IsDigit(s[j], base) && !Blank(s[j]) && s[j] != 'x' { assert s[j] == s[k..][j - k]; }
    SkipAllBlanks(s, 0, k);
    assert SkipPrefix(s, SkipSign(s, k), base) == Prefix(k, base);
    DigitsToTheEnd(s, k, base);
    assert s[k..|s|] == s[k..];
    WordValueExact(s[k..], base);
  }

  /** Reading what was printed gives the number back, in the bases eight, ten and sixteen,
      for any width and for padding with blanks or zeros. */
  lemma PrintParse(n: nat, base: nat, width: int, pad: char)
    requires n < HALF && (base == 8 || base == 10 || base == 16) && (pad == ' ' || pad == '0')
    ensures StrToL(Printed(n, base, width, pad), base) == Parsed(n, |Printed(n, base, width, pad)|)
  {
    hide Printed, Digits, Value, StrToL, Repeat, Quot, Rem;
    var s, t := Printed(n, base, width, pad), Digits(n, base);
    PrintedDigits(n, base, width, pad);
    DigitsBack(n, base);
    DigitsDenote(n, base);
    var k := width - |t|;
    RepeatIs(pad, k);
    ZerosBefore(k, t, base);
    if pad == ' ' {
      PaddedBack(Repeat(pad, k), t, base);
    } else {
      ZerosAreDigits(Repeat(pad, k), t, base);
      PaddedBack([], Repeat(pad, k) + t, base);
      assert [] + (Repeat(pad, k) + t) == s;
    }
  }

  lemma PaddedBack(z: string, t: string, base: nat)
    requires 2 <= base <= 16 && t != [] && (forall j :: 0 <= j < |z| ==> Blank(z[j]))
    requires AllDigits(t, base) && Value(t, base) < HALF
    ensures StrToL(z + t, base) == Parsed(Value(t, base), |z + t|)
  {
    hide StrToL, Value;
    assert (z + t)[|z|..] == t;
    ReadsBack(z + t, |z|, base);
  }

  lemma ZerosAreDigits(z: string, t: string, base: nat)
    requires base >= 2 && AllDigits(t, base) && forall j :: 0 <= j < |z| ==> z[j] == '0'
    ensures AllDigits(z + t, base)
  {
    assert IsDigit('0', base);
    hide IsDigit;
  }
}
