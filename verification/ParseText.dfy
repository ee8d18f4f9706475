/** What strtol accepts, as a text of parts: blanks, a sign, a prefix, digits and the rest. */
module ParseText {
  import opened Numbers

  datatype Text = Text(blanks: string, sign: string, prefix: string, digits: string, rest: string)

  function Joined(t: Text): string {
    t.blanks + (t.sign + (t.prefix + (t.digits + t.rest)))
  }

  function First(s: string): char {
    if s == [] then '\0' else s[0]
  }

  /** The base in which the digits are read: the prefix decides if it may, and a text that
      could be taken for one with a prefix is not one without. */
  predicate InBase(t: Text, base: nat, b: nat) {
    var after := t.digits + t.rest;
    if t.prefix == "0x" then (base == 0 || base == 16) && b == 16
    else if t.prefix == "0" then base == 0 && b == 8 && First(after) != 'x'
    else
      && t.prefix == ""
      && if base == 0 then b == 10 && First(after) != '0'
      else b == base && !(base == 16 && |after| >= 2 && after[..2] == "0x")
  }

  ghost predicate Proper(t: Text, base: nat, b: nat) {
    && (forall i :: 0 <= i < |t.blanks| ==> t.blanks[i] == ' ' || t.blanks[i] == '\t')
    && (t.sign == "" || t.sign == "+" || t.sign == "-")
    && (t.sign == "" ==> First(t.prefix + (t.digits + t.rest)) !in {' ', '\t', '+', '-'})
    && InBase(t, base, b) && AllDigits(t.digits, b) && !IsDigit(First(t.rest), b)
  }

  lemma {:induction false} BlanksEnd(s: string, i: nat, k: nat)
    requires i <= k <= |s| && (forall j: int :: i <= j < k ==> Blank(s[j])) && !Blank(At(s, k))
    ensures SkipBlanks(s, i) == k
    decreases k - i
  {
    if i < k {
      BlanksEnd(s, i + 1, k);
    }
  }

  lemma {:induction false} DigitsStop(s: string, i: nat, k: nat, b: nat)
    requires i <= k <= |s| && (forall j: int :: i <= j < k ==> IsDigit(s[j], b)) && !IsDigit(At(s, k), b)
    ensures DigitsEnd(s, i, b) == k
    decreases k - i
  {
    if i < k {
      DigitsStop(s, i + 1, k, b);
    }
  }

  lemma AtTail(front: string, back: string, k: nat)
    ensures At(front + back, |front| + k) == At(back, k) && At(back, 0) == First(back)
  {
  }

  /** Where the digits begin and in which base. */
  lemma PrefixIs(t: Text, base: nat, b: nat)
    requires Proper(t, base, b)
    ensures
      var s, j := Joined(t), |t.blanks| + |t.sign|;
      j <= |s| && SkipPrefix(s, j, base) == Prefix(j + |t.prefix|, b)
  {
    var s, j, tail := Joined(t), |t.blanks| + |t.sign|, t.prefix + (t.digits + t.rest);
    assert s == (t.blanks + t.sign) + tail;
    AtTail(t.blanks + t.sign, tail, 0);
    AtTail(t.blanks + t.sign, tail, 1);
    if t.prefix == "0" {
      AtTail("0", t.digits + t.rest, 0);
    }
  }

  /** A text of these parts is read as its digits in their base, negated behind a minus, up
      to the rest. */
  lemma ReadsText(t: Text, base: nat, b: nat)
    requires Proper(t, base, b)
    ensures
      var v := WordValue(t.digits, b);
      StrToL(Joined(t), base) == Parsed(if t.sign == "-" then I32(-v) else v, |Joined(t)| - |t.rest|)
  {
    hide SkipBlanks, DigitsEnd, WordValue, I32, Proper, Joined, SkipPrefix;
    SignIs(t, base, b);
    PrefixIs(t, base, b);
    DigitsAre(t, base, b);
    BlanksBound(Joined(t), 0);
  }

  /** Where the blanks end and what the sign is. */
  lemma SignIs(t: Text, base: nat, b: nat)
    requires Proper(t, base, b)
    ensures
      var s, i := Joined(t), |t.blanks|;
      i <= |s| && SkipBlanks(s, 0) == i && SkipSign(s, i) == i + |t.sign| && (At(s, i) == '-' <==> t.sign == "-")
  {
    var s, i, tail := Joined(t), |t.blanks|, t.sign + (t.prefix + (t.digits + t.rest));
    AtTail(t.blanks, tail, 0);
    assert t.sign == "" ==> tail == t.prefix + (t.digits + t.rest);
    hide InBase, IsDigit;
    BlanksEnd(s, 0, i);
  }

  /** Where the digits are. */
  lemma DigitsAre(t: Text, base: nat, b: nat)
    requires Proper(t, base, b)
    ensures
      var s, k := Joined(t), |t.blanks| + |t.sign| + |t.prefix|;
      var e := k + |t.digits|;
      e == |s| - |t.rest| && DigitsEnd(s, k, b) == e && s[k..e] == t.digits
  {
    hide InBase, IsDigit;
    var s, k := Joined(t), |t.blanks| + |t.sign| + |t.prefix|;
    var e, front := k + |t.digits|, t.blanks + t.sign + t.prefix;
    assert s == (front + t.digits) + t.rest;
    AtTail(front + t.digits, t.rest, 0);
    assert s[k..e] == t.digits;
    forall j: int | k <= j < e ensures IsDigit(s[j], b) {
      assert s[j] == t.digits[j - k];
      assert t.digits[j - k] in t.digits;
    }
    DigitsStop(s, k, e, b);
  }

  /** Without overflow the value is the number itself. */
  lemma ReadsNumber(t: Text, base: nat, b: nat)
    requires Proper(t, base, b) && b >= 2 && Value(t.digits, b) < HALF
    ensures
      var v := Value(t.digits, b);
      StrToL(Joined(t), base) == Parsed(if t.sign == "-" then -v else v, |Joined(t)| - |t.rest|)
  {
    hide StrToL, Proper, Value, WordValue, Joined;
    ReadsText(t, base, b);
    assert AllDigits(t.digits, b) by { ProperDigits(t, base, b); }
    WordValueExact(t.digits, b);
  }

  lemma ProperDigits(t: Text, base: nat, b: nat)
    requires Proper(t, base, b)
    ensures AllDigits(t.digits, b)
  {
  }

  /** A minus and the digits of n read as -n, with any sign and in any base up to sixteen. */
  lemma SignedParse(n: nat, base: nat, sign: string)
    requires n < HALF && 2 <= base <= 16 && (sign == "" || sign == "+" || sign == "-")
    ensures
      var v := if sign == "-" then -(n as int) else n as int;
      StrToL(sign + Digits(n, base), base) == Parsed(v, |sign| + |Digits(n, base)|)
  {
    hide StrToL, Digits, Value, DigitOf;
    var t := Text("", sign, "", Digits(n, base), "");
    DigitsBack(n, base);
    DigitsDenote(n, base);
    DigitsSome(n, base);
    assert Digits(n, base) + "" == Digits(n, base) && "" + Digits(n, base) == Digits(n, base);
    NoPrefix(Digits(n, base), base);
    ReadsNumber(t, base, base);
    assert Joined(t) == sign + Digits(n, base);
  }

  lemma {:induction false} DigitsSome(n: nat, base: nat)
    requires 2 <= base <= 16
    ensures |Digits(n, base)| > 0
  {
    if n >= base { DigitsSome(n / base, base); }
  }

  lemma NoPrefix(d: string, base: nat)
    requires 2 <= base <= 16 && |d| > 0 && AllDigits(d, base)
    ensures d[0] !in {' ', '\t', '+', '-'} && !(|d| >= 2 && d[..2] == "0x") && !IsDigit('\0', base)
  {
    assert d[0] in d;
    if |d| >= 2 {
      assert d[1] in d;
      assert d[..2][1] == d[1];
    }
  }

  /** 0x and the hexadecimal digits of n read as n, in base sixteen and in base zero. */
  lemma HexParse(n: nat, base: nat)
    requires n < HALF && (base == 0 || base == 16)
    ensures StrToL("0x" + Digits(n, 16), base) == Parsed(n, 2 + |Digits(n, 16)|)
  {
    hide StrToL, Digits, Value, DigitOf;
    var t := Text("", "", "0x", Digits(n, 16), "");
    DigitsBack(n, 16);
    DigitsDenote(n, 16);
    DigitsSome(n, 16);
    NoPrefix(Digits(n, 16), 16);
    ReadsNumber(t, base, 16);
    assert Joined(t) == "0x" + Digits(n, 16);
  }

  /** Base zero: a leading zero means octal. */
  lemma OctalParse(n: nat)
    requires n < HALF
    ensures StrToL("0" + Digits(n, 8), 0) == Parsed(n, 1 + |Digits(n, 8)|)
  {
    hide StrToL, Digits, Value, DigitOf;
    var t := Text("", "", "0", Digits(n, 8), "");
    DigitsBack(n, 8);
    DigitsDenote(n, 8);
    DigitsSome(n, 8);
    NoPrefix(Digits(n, 8), 8);
    NoLetter(Digits(n, 8));
    assert Digits(n, 8) + "" == Digits(n, 8);
    ReadsNumber(t, 0, 8);
    assert Joined(t) == "0" + Digits(n, 8);
  }

  lemma NoLetter(d: string)
    requires |d| > 0 && AllDigits(d, 8)
    ensures d[0] != 'x'
  {
    assert d[0] in d;
  }

  /** The comment also promises the prefix 0X, which is read as the number zero. */
  lemma CapitalPrefix(digits: string)
    ensures StrToL("0X" + digits, 16) == Parsed(0, 1)
  {
    var t := Text("", "", "", "0", "X" + digits);
    assert AllDigits("0", 16);
    assert t.digits + t.rest == "0X" + digits;
    assert Joined(t) == "0X" + digits;
    ReadsText(t, 16, 16);
    assert "0"[..0] == [];
    assert WordValue("0", 16) == 0;
  }
}
