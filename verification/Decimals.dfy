/** Decimal amounts as text: reading and printing lamports and token atoms without
    going through floats (apps/mobius-searcher/src/setup.rs: parse_sol_lamports,
    format_sol; apps/mobius-searcher/src/purse.rs: atoms; crates/core/src/units.rs:
    parse_decimal, format_atoms). */
module Decimals {
  import opened Wrappers

  const U64_LIMIT: nat := 0x1_0000_0000_0000_0000
  const U128_LIMIT: nat := 0x1_0000_0000_0000_0000_0000_0000_0000_0000

  function Pow10(n: nat): (r: nat)
    ensures r >= 1
  {
    if n == 0 then 1 else 10 * Pow10(n - 1)
  }

  predicate IsDigits(s: string) {
    forall i | 0 <= i < |s| :: '0' <= s[i] <= '9'
  }

  function DigitOf(c: char): nat
    requires '0' <= c <= '9'
  {
    c as int - '0' as int
  }

  function CharOf(d: nat): (c: char)
    requires d < 10
    ensures '0' <= c <= '9' && DigitOf(c) == d
  {
    ('0' as int + d) as char
  }

  /** The number a string of digits stands for. */
  function Value(s: string): nat
    requires IsDigits(s)
  {
    if s == [] then 0 else 10 * Value(s[..|s| - 1]) + DigitOf(s[|s| - 1])
  }

  /** `to_string` of an unsigned integer. */
  function Print(n: nat): (s: string)
    ensures s != [] && IsDigits(s)
  {
    if n < 10 then [CharOf(n)] else Print(n / 10) + [CharOf(n % 10)]
  }

  function Zeros(n: nat): (s: string)
    ensures |s| == n && IsDigits(s) && forall i | 0 <= i < n :: s[i] == '0'
  {
    seq(n, _ => '0')
  }

  /** `format!("{:0width$}", n)`. */
  function PadLeft(n: nat, width: nat): (s: string)
    ensures IsDigits(s) && s != []
  {
    var p := Print(n);
    if |p| >= width then p else Zeros(width - |p|) + p
  }

  /** `format!("{s:0<width$}")`. */
  function PadRight(s: string, width: nat): string {
    if |s| >= width then s else s + Zeros(width - |s|)
  }

  /** `str::parse` of a string of digits into an unsigned type below `limit`. */
  function Parse(s: string, limit: nat): Option<nat>
    requires IsDigits(s)
  {
    if s == [] || Value(s) >= limit then None else Some(Value(s))
  }

  function Point(s: string): (i: nat)
    ensures i <= |s| && (forall j | 0 <= j < i :: s[j] != '.') && (i < |s| ==> s[i] == '.')
  {
    if s == [] || s[0] == '.' then 0 else 1 + Point(s[1..])
  }

  /** `split_once('.')`, the part after it empty when there is no point. */
  function Whole(s: string): string {
    s[..Point(s)]
  }

  function Fraction(s: string): string {
    if Point(s) < |s| then s[Point(s) + 1..] else []
  }

  /** `checked_mul` by the scale, then `checked_add`. */
  function Scaled(whole: nat, scale: nat, part: nat, limit: nat): Option<nat> {
    if whole * scale + part < limit then Some(whole * scale + part) else None
  }

  // ------------------------------------------------------------------
  // The functions.
  // ------------------------------------------------------------------

  function ParseSol(s: string): Option<nat> {
    var whole, part := Whole(s), Fraction(s);
    if whole == [] || !IsDigits(whole) || !IsDigits(part) || |part| > 9 then None
    else
      var w := Parse(whole, U64_LIMIT);
      var p := if part == [] then Some(0) else Parse(PadRight(part, 9), U64_LIMIT);
      if w.None? || p.None? then None
      else
        var v := Scaled(w.value, Pow10(9), p.value, U64_LIMIT);
        if v == Some(0) then None else v
  }

  function TrimZeros(s: string): string {
    if s == [] || s[|s| - 1] != '0' then s else TrimZeros(s[..|s| - 1])
  }

  function FormatSol(lamports: nat): string {
    var whole, part := Quotient(lamports, Pow10(9)), Remainder(lamports, Pow10(9));
    if part == 0 then Print(whole) else TrimZeros(Print(whole) + ['.'] + PadLeft(part, 9))
  }

  function Atoms(s: string, decimals: nat): Option<nat> {
    var whole, part := Whole(s), Fraction(s);
    if (whole == [] && part == []) || !IsDigits(whole) || !IsDigits(part) || |part| > decimals then None
    else
      var w := if whole == [] then Some(0) else Parse(whole, U64_LIMIT);
      var p := Parse(PadRight(part, decimals), U64_LIMIT);
      if w.None? || p.None? then None else Scaled(w.value, Pow10(decimals), p.value, U64_LIMIT)
  }

  /** `char::is_whitespace`. */
  predicate IsSpace(c: char) {
    var n := c as int;
    9 <= n <= 13 || n == 32 || n == 0x85 || n == 0xA0 || n == 0x1680 || 0x2000 <= n <= 0x200A
    || n == 0x2028 || n == 0x2029 || n == 0x202F || n == 0x205F || n == 0x3000
  }

  function TrimStart(s: string): string {
    if s != [] && IsSpace(s[0]) then TrimStart(s[1..]) else s
  }

  function TrimEnd(s: string): string {
    if s != [] && IsSpace(s[|s| - 1]) then TrimEnd(s[..|s| - 1]) else s
  }

  function Trim(s: string): string {
    TrimEnd(TrimStart(s))
  }

  /** Above 38 decimals the scale does not fit 128 bits. */
  function ParseDecimal(text: string, decimals: nat): Option<nat>
    requires decimals <= 38
  {
    var s := Trim(text);
    var whole, part := Whole(s), Fraction(s);
    if s == [] || !IsDigits(whole) || !IsDigits(part) || |part| > decimals then None
    else
      var w := if whole == [] then Some(0) else Parse(whole, U128_LIMIT);
      var p := if part == [] then Some(0) else Parse(part, U128_LIMIT);
      if w.None? || p.None? then None
      else
        var v := Scaled(w.value, Pow10(decimals), p.value * Pow10(decimals - |part|), U128_LIMIT);
        if v.None? || v.value >= U64_LIMIT then None else v
  }

  const I64_LIMIT: int := 0x8000_0000_0000_0000

  /** The same with an optional sign, into a signed type. */
  function ParseSigned(text: string, decimals: nat): Option<int>
    requires decimals <= 38
  {
    var t := Trim(text);
    var minus := t != [] && t[0] == '-';
    var v := ParseDecimal(if minus then t[1..] else t, decimals);
    if v.None? || v.value >= I64_LIMIT then None
    else
      var n: int := v.value;
      Some(if minus then -n else n)
  }

  function Quotient(a: nat, n: nat): nat
    requires n >= 1
  {
    a / n
  }

  function Remainder(a: nat, n: nat): (r: nat)
    requires n >= 1
    ensures r < n && Quotient(a, n) * n + r == a
  {
    a % n
  }

  function Magnitude(n: int): nat {
    if n < 0 then -n else n
  }

  function Cut(s: string, keep: nat): string {
    if keep <= |s| then s[..keep] else s
  }

  function FormatAtoms(atoms: int, decimals: nat, maxFrac: nat): string
    requires decimals <= 38
  {
    (if atoms < 0 then ['-'] else []) + FormatMagnitude(Magnitude(atoms), decimals, maxFrac)
  }

  function FormatMagnitude(a: nat, decimals: nat, maxFrac: nat): string
    requires decimals <= 38
  {
    var scale := Pow10(decimals);
    Joined(Print(Quotient(a, scale)), Cut(PadLeft(Remainder(a, scale), decimals), AtMost(maxFrac, decimals)))
  }

  function Joined(whole: string, fraction: string): string {
    if fraction == [] then whole else whole + ['.'] + fraction
  }

  function AtMost(n: nat, most: nat): nat {
    if n < most then n else most
  }

  // ------------------------------------------------------------------
  // Digits and numbers.
  // ------------------------------------------------------------------

  lemma {:induction false} ValueOfZeros(s: string, n: nat)
    requires IsDigits(s)
    ensures IsDigits(s + Zeros(n)) && Value(s + Zeros(n)) == Value(s) * Pow10(n)
  {
    if n == 0 {
      assert s + Zeros(0) == s;
    } else {
      ValueOfZeros(s, n - 1);
      var t := s + Zeros(n);
      assert t[..|t| - 1] == s + Zeros(n - 1);
      assert t[|t| - 1] == '0';
      TenTimes(Value(s), Pow10(n - 1));
    }
  }

  lemma TenTimes(v: nat, p: nat)
    ensures v * (10 * p) == v * p * 10
  {
  }

  lemma {:induction false} ValueOfLeadingZeros(n: nat, s: string)
    requires IsDigits(s)
    ensures IsDigits(Zeros(n) + s) && Value(Zeros(n) + s) == Value(s)
  {
    if s == [] {
      assert Zeros(n) + s == [] + Zeros(n);
      ValueOfZeros([], n);
    } else {
      var k := |s| - 1;
      ValueOfLeadingZeros(n, s[..k]);
      assert (Zeros(n) + s)[..n + k] == Zeros(n) + s[..k];
    }
  }

  lemma {:induction false} PrintThenValue(n: nat)
    ensures Value(Print(n)) == n
  {
    if n >= 10 {
      PrintThenValue(n / 10);
      var s := Print(n);
      assert s[..|s| - 1] == Print(n / 10);
    }
  }

  lemma {:induction false} PrintLength(n: nat, w: nat)
    requires w >= 1 && n < Pow10(w)
    ensures |Print(n)| <= w
  {
    if n >= 10 {
      PrintLength(n / 10, w - 1);
    }
  }

  lemma {:induction false} PadLeftIsExact(n: nat, w: nat)
    requires w >= 1 && n < Pow10(w)
    ensures |PadLeft(n, w)| == w && Value(PadLeft(n, w)) == n
  {
    PrintLength(n, w);
    PrintThenValue(n);
    ValueOfLeadingZeros(w - |Print(n)|, Print(n));
    if |Print(n)| == w {
      assert Zeros(0) + Print(n) == Print(n);
    }
  }

  lemma {:induction false} PadRightScales(s: string, w: nat)
    requires IsDigits(s) && |s| <= w
    ensures IsDigits(PadRight(s, w)) && Value(PadRight(s, w)) == Value(s) * Pow10(w - |s|)
  {
    ValueOfZeros(s, w - |s|);
    assert s + Zeros(0) == s;
  }

  // ------------------------------------------------------------------
  // Text and its parts.
  // ------------------------------------------------------------------

  lemma {:induction false} PointOfDigits(w: string, rest: string)
    requires IsDigits(w) && (rest == [] || rest[0] == '.')
    ensures Point(w + rest) == |w|
  {
    if w == [] {
      assert w + rest == rest;
    } else {
      PointOfDigits(w[1..], rest);
      assert (w + rest)[1..] == w[1..] + rest;
    }
  }

  lemma PartsOf(w: string, p: string)
    requires IsDigits(w)
    ensures Whole(w) == w && Fraction(w) == []
    ensures Whole(w + ['.'] + p) == w && Fraction(w + ['.'] + p) == p
  {
    PointOfDigits(w, []);
    assert w + [] == w;
    PointOfDigits(w, ['.'] + p);
    assert w + (['.'] + p) == w + ['.'] + p;
  }

  /** Nothing is trimmed from a text that starts and ends with no space. */
  lemma NothingToTrim(s: string)
    requires s == [] || (!IsSpace(s[0]) && !IsSpace(s[|s| - 1]))
    ensures Trim(s) == s
  {
  }

  lemma AmountsHaveNoSpace(s: string)
    requires s != [] && IsDigits(Whole(s)) && IsDigits(Fraction(s))
    ensures Trim(s) == s
  {
    var i := Point(s);
    assert s[0] == '.' || s[0] == Whole(s)[0];
    assert s[|s| - 1] == '.' || (i == |s| && s[|s| - 1] == Whole(s)[|s| - 1]) || s[|s| - 1] == Fraction(s)[|s| - i - 2];
    NothingToTrim(s);
  }

  // ------------------------------------------------------------------
  // The three readers agree.
  // ------------------------------------------------------------------

  /** The value two digit strings around a point stand for. */
  function Amount(whole: string, part: string, decimals: nat): nat
    requires IsDigits(whole) && IsDigits(part) && |part| <= decimals
  {
    Value(whole) * Pow10(decimals) + Value(part) * Pow10(decimals - |part|)
  }

  predicate WellFormed(s: string, decimals: nat) {
    IsDigits(Whole(s)) && IsDigits(Fraction(s)) && |Fraction(s)| <= decimals
  }

  /** A part of an amount is no larger than the amount. */
  lemma PartsFit(w: nat, scale: nat, p: nat, limit: nat)
    requires scale >= 1 && w * scale + p < limit
    ensures w < limit && p < limit
  {
    assert w <= w * scale by {
      var k := scale - 1;
      assert w * scale == w + w * k;
      assert w * k >= 0;
    }
  }

  /** The wallet page's reader: exactly the well-formed amounts that fit, except a
      lone point. */
  lemma AtomsReads(s: string, decimals: nat)
    requires 1 <= decimals
    ensures Atoms(s, decimals) ==
      if WellFormed(s, decimals) && (Whole(s) != [] || Fraction(s) != [])
        && Amount(Whole(s), Fraction(s), decimals) < U64_LIMIT
      then Some(Amount(Whole(s), Fraction(s), decimals)) else None
  {
    if WellFormed(s, decimals) {
      PadRightScales(Fraction(s), decimals);
      if Amount(Whole(s), Fraction(s), decimals) < U64_LIMIT {
        PartsFit(Value(Whole(s)), Pow10(decimals), Value(PadRight(Fraction(s), decimals)), U64_LIMIT);
      }
    }
  }

  /** The configuration's reader: the same, around any spaces, and a lone point is
      read as nothing. */
  lemma ParseDecimalReads(text: string, decimals: nat)
    requires decimals <= 38
    ensures ParseDecimal(text, decimals) == (
      var s := Trim(text);
      if s != [] && WellFormed(s, decimals) && Amount(Whole(s), Fraction(s), decimals) < U64_LIMIT
      then Some(Amount(Whole(s), Fraction(s), decimals)) else None)
  {
    var s := Trim(text);
    if WellFormed(s, decimals) && Amount(Whole(s), Fraction(s), decimals) < U64_LIMIT {
      var scale, rest := Pow10(decimals), Pow10(decimals - |Fraction(s)|);
      PartsFit(Value(Whole(s)), scale, Value(Fraction(s)) * rest, U64_LIMIT);
      PartsFit(Value(Fraction(s)), rest, 0, U64_LIMIT);
    }
  }

  lemma ParseSolReads(s: string)
    ensures ParseSol(s) ==
      if WellFormed(s, 9) && Whole(s) != [] && 0 < Amount(Whole(s), Fraction(s), 9) < U64_LIMIT
      then Some(Amount(Whole(s), Fraction(s), 9)) else None
  {
    if WellFormed(s, 9) {
      PadRightScales(Fraction(s), 9);
      if Amount(Whole(s), Fraction(s), 9) < U64_LIMIT {
        PartsFit(Value(Whole(s)), Pow10(9), Value(PadRight(Fraction(s), 9)), U64_LIMIT);
      }
    }
  }

  /** Main result: on every text, the wizard's reader of SOL accepts what the wallet
      page's accepts with nine decimals, apart from zero and from a missing whole
      part, and both return the same lamports; and so does the configuration's. */
  lemma ReadersAgree(s: string, v: nat)
    ensures ParseSol(s) == Some(v) <==> Atoms(s, 9) == Some(v) && v > 0 && Whole(s) != []
    ensures Atoms(s, 9) == Some(v) <==> ParseDecimal(s, 9) == Some(v) && Trim(s) == s && s != ['.']
  {
    AtomsReads(s, 9);
    ParseDecimalReads(s, 9);
    if s != [] && WellFormed(s, 9) {
      AmountsHaveNoSpace(s);
    }
    ParseSolReads(s);
    assert Whole(s) == [] && Fraction(s) == [] && s != [] ==> s == ['.'];
  }

  // ------------------------------------------------------------------
  // Printing and reading undo each other.
  // ------------------------------------------------------------------

  lemma {:induction false} TrimZerosOfFraction(pre: string, d: string)
    requires IsDigits(d) && Value(d) > 0
    ensures var q := TrimZeros(d);
      TrimZeros(pre + d) == pre + q && IsDigits(q) && 0 < |q| <= |d| && PadRight(q, |d|) == d
  {
    var n := |d| - 1;
    assert (pre + d)[..|pre + d| - 1] == pre + d[..n];
    assert (pre + d)[|pre + d| - 1] == d[n];
    if d[n] == '0' {
      TrimZerosOfFraction(pre, d[..n]);
      var q := TrimZeros(d);
      assert d == d[..n] + ['0'];
      assert PadRight(q, n) == d[..n];
      assert q + Zeros(|d| - |q|) == (q + Zeros(n - |q|)) + ['0'];
    }
  }

  lemma SolIsPrintedExactly(x: nat)
    ensures var s := FormatSol(x);
      Whole(s) != [] && WellFormed(s, 9) && Amount(Whole(s), Fraction(s), 9) == x
  {
    var whole, part := Quotient(x, Pow10(9)), Remainder(x, Pow10(9));
    PrintThenValue(whole);
    if part == 0 {
      PartsOf(Print(whole), []);
    } else {
      var d := PadLeft(part, 9);
      var q := TrimZeros(d);
      PadLeftIsExact(part, 9);
      TrimZerosOfFraction(Print(whole) + ['.'], d);
      PartsOf(Print(whole), q);
      PadRightScales(q, 9);
    }
  }

  /** Main result: what is printed as SOL is read back as the same lamports. */
  lemma SolRoundTrip(x: nat)
    requires 0 < x < U64_LIMIT
    ensures ParseSol(FormatSol(x)) == Some(x)
  {
    SolIsPrintedExactly(x);
    ParseSolReads(FormatSol(x));
  }

  lemma {:induction false} FullFraction(a: nat, decimals: nat)
    requires decimals <= 38
    ensures var whole, part := Quotient(a, Pow10(decimals)), Remainder(a, Pow10(decimals));
      FormatAtoms(a, decimals, decimals) ==
        if decimals == 0 then Print(whole) else Print(whole) + ['.'] + PadLeft(part, decimals)
  {
    var part := Remainder(a, Pow10(decimals));
    PlainAmount(a, decimals, decimals);
    if decimals > 0 {
      PadLeftIsExact(part, decimals);
      assert Cut(PadLeft(part, decimals), decimals) == PadLeft(part, decimals);
    }
  }

  lemma PlainAmount(a: nat, decimals: nat, maxFrac: nat)
    requires decimals <= 38
    ensures FormatAtoms(a, decimals, maxFrac) == FormatMagnitude(a, decimals, maxFrac)
  {
    var body := FormatMagnitude(a, decimals, maxFrac);
    assert [] + body == body;
  }

  lemma AtomsArePrintedExactly(a: nat, decimals: nat)
    requires decimals <= 38
    ensures var s := FormatAtoms(a, decimals, decimals);
      s != [] && WellFormed(s, decimals) && Amount(Whole(s), Fraction(s), decimals) == a
  {
    var whole, part := Quotient(a, Pow10(decimals)), Remainder(a, Pow10(decimals));
    FullFraction(a, decimals);
    PrintThenValue(whole);
    if decimals == 0 {
      PartsOf(Print(whole), []);
    } else {
      WithPaddedPart(whole, part, decimals);
    }
  }

  lemma {:induction false} WithPaddedPart(whole: nat, part: nat, decimals: nat)
    requires 0 < decimals <= 38 && part < Pow10(decimals)
    ensures var s := Print(whole) + ['.'] + PadLeft(part, decimals);
      WellFormed(s, decimals) && Amount(Whole(s), Fraction(s), decimals) == whole * Pow10(decimals) + part
  {
    PrintThenValue(whole);
    PadLeftIsExact(part, decimals);
    PartsOf(Print(whole), PadLeft(part, decimals));
  }

  /** Main result: token atoms printed in full are read back as the same atoms. */
  lemma AtomsRoundTrip(a: nat, decimals: nat)
    requires a < U64_LIMIT && decimals <= 38
    ensures ParseDecimal(FormatAtoms(a, decimals, decimals), decimals) == Some(a)
  {
    var s := FormatAtoms(a, decimals, decimals);
    AtomsArePrintedExactly(a, decimals);
    AmountsHaveNoSpace(s);
    ParseDecimalReads(s, decimals);
  }

  // ------------------------------------------------------------------
  // Signs, and fewer digits than there are.
  // ------------------------------------------------------------------

  /** Main result: an amount printed in full, negative ones included, is read back by the
      reader of signed amounts. */
  lemma SignedRoundTrip(a: int, decimals: nat)
    requires -I64_LIMIT < a < I64_LIMIT && decimals <= 38
    ensures ParseSigned(FormatAtoms(a, decimals, decimals), decimals) == Some(a)
  {
    var body := FormatAtoms(Magnitude(a), decimals, decimals);
    AtomsRoundTrip(Magnitude(a), decimals);
    AtomsArePrintedExactly(Magnitude(a), decimals);
    SignIsInFront(a, decimals, decimals);
    SignedReads(body, decimals);
  }

  /** A signed amount is an amount, or one behind a minus sign. */
  lemma SignedReads(body: string, decimals: nat)
    requires decimals <= 38 && body != [] && WellFormed(body, decimals)
    ensures
      && var v := ParseDecimal(body, decimals);
      && var plus, minus := ParseSigned(body, decimals), ParseSigned(['-'] + body, decimals);
      && (v.Some? && v.value < I64_LIMIT ==> plus == Some(v.value) && minus == Some(0 - v.value))
      && (v.None? || v.value >= I64_LIMIT ==> plus.None? && minus.None?)
  {
    AmountsHaveNoSpace(body);
    AmountEnds(body);
    AmountStarts(body, decimals);
    NothingToTrim(['-'] + body);
    assert (['-'] + body)[1..] == body;
  }

  lemma AmountEnds(s: string)
    requires s != [] && IsDigits(Whole(s)) && IsDigits(Fraction(s))
    ensures !IsSpace(s[|s| - 1])
  {
    var i := Point(s);
    assert s[|s| - 1] == '.' || (i == |s| && s[|s| - 1] == Whole(s)[|s| - 1]) || s[|s| - 1] == Fraction(s)[|s| - i - 2];
  }

  lemma SignIsInFront(a: int, decimals: nat, maxFrac: nat)
    requires decimals <= 38
    ensures FormatAtoms(a, decimals, maxFrac) ==
      (if a < 0 then ['-'] else []) + FormatAtoms(Magnitude(a), decimals, maxFrac)
  {
    var body := FormatMagnitude(Magnitude(a), decimals, maxFrac);
    PlainAmount(Magnitude(a), decimals, maxFrac);
    assert [] + body == body;
  }

  lemma AmountStarts(s: string, decimals: nat)
    requires s != [] && WellFormed(s, decimals)
    ensures s[0] != '-'
  {
    assert Point(s) > 0 ==> Whole(s)[0] == s[0];
  }

  lemma {:induction false} Pow10Adds(a: nat, b: nat)
    ensures Pow10(a + b) == Pow10(a) * Pow10(b)
  {
    if a > 0 {
      Pow10Adds(a - 1, b);
    }
  }

  /** The first digits of a number are that number cut down. */
  lemma {:induction false} FirstDigits(s: string, k: nat)
    requires IsDigits(s) && k <= |s|
    ensures
      && var p := Pow10(|s| - k);
      && Value(s[..k]) * p <= Value(s) < (Value(s[..k]) + 1) * p
    decreases |s| - k
  {
    if k == |s| {
      assert s[..k] == s;
    } else {
      FirstDigits(s, k + 1);
      assert s[..k + 1][..k] == s[..k];
      OneDigitLess(Value(s[..k]), DigitOf(s[k]), Pow10(|s| - k - 1), Value(s));
    }
  }

  lemma OneDigitLess(v: nat, d: nat, p: nat, n: nat)
    requires d <= 9 && (10 * v + d) * p <= n < (10 * v + d + 1) * p
    ensures v * (10 * p) <= n < (v + 1) * (10 * p)
  {
    assert (10 * v + d) * p == v * (10 * p) + d * p;
    assert (10 * v + d + 1) * p == v * (10 * p) + d * p + p;
    assert (v + 1) * (10 * p) == v * (10 * p) + 10 * p;
    TimesAtMost(d, 9, p);
  }

  lemma TimesAtMost(d: nat, most: nat, p: nat)
    requires d <= most
    ensures 0 <= d * p <= most * p
  {
    var rest := most - d;
    assert most * p == d * p + rest * p;
  }

  /** Main result: with fewer digits shown than there are, the amount is cut toward zero, never
      rounded up, and shows its sign; as many digits are shown as asked for. */
  lemma {:induction false} AtomsAreCut(a: int, decimals: nat, maxFrac: nat)
    requires decimals <= 38
    ensures
      && var s, keep := FormatAtoms(a, decimals, maxFrac), AtMost(maxFrac, decimals);
      && var body := if a < 0 then s[1..] else s;
      && var cut := Pow10(decimals - keep);
      && s != [] && (s[0] == '-' <==> a < 0) && IsCut(body, Magnitude(a), keep, cut)
  {
    var keep := AtMost(maxFrac, decimals);
    var body := FormatAtoms(Magnitude(a), decimals, maxFrac);
    SignIsInFront(a, decimals, maxFrac);
    MagnitudeIsCut(Magnitude(a), decimals, maxFrac, keep);
    AmountStarts(body, keep);
    BehindTheSign(FormatAtoms(a, decimals, maxFrac), body, a < 0);
  }

  lemma BehindTheSign(s: string, body: string, negative: bool)
    requires body != [] && body[0] != '-' && s == (if negative then ['-'] else []) + body
    ensures s != [] && (s[0] == '-' <==> negative) && (if negative then s[1..] else s) == body
  {
    assert [] + body == body;
    assert (['-'] + body)[1..] == body;
  }

  predicate IsCut(body: string, atoms: nat, keep: nat, cut: nat) {
    && body != [] && WellFormed(body, keep) && Whole(body) != [] && |Fraction(body)| == keep
    && var shown := Amount(Whole(body), Fraction(body), keep);
    && shown * cut <= atoms < (shown + 1) * cut
  }

  lemma {:induction false} MagnitudeIsCut(atoms: nat, decimals: nat, maxFrac: nat, keep: nat)
    requires keep <= decimals <= 38 && keep == AtMost(maxFrac, decimals)
    ensures IsCut(FormatAtoms(atoms, decimals, maxFrac), atoms, keep, Pow10(decimals - keep))
  {
    var whole, part := ShownParts(atoms, decimals, maxFrac, keep);
    BodyIsCut(FormatAtoms(atoms, decimals, maxFrac), atoms, whole, part, decimals, keep);
  }

  function Shown(whole: nat, part: nat, decimals: nat, keep: nat): string {
    if keep == 0 then Print(whole) else Print(whole) + ['.'] + Cut(PadLeft(part, decimals), keep)
  }

  lemma {:induction false} ShownParts(atoms: nat, decimals: nat, maxFrac: nat, keep: nat)
    returns (whole: nat, part: nat)
    requires keep <= decimals <= 38 && keep == AtMost(maxFrac, decimals)
    ensures whole * Pow10(decimals) + part == atoms && part < Pow10(decimals)
    ensures FormatAtoms(atoms, decimals, maxFrac) == Shown(whole, part, decimals, keep)
  {
    whole, part := Quotient(atoms, Pow10(decimals)), Remainder(atoms, Pow10(decimals));
    PlainAmount(atoms, decimals, maxFrac);
    if decimals > 0 {
      PadLeftIsExact(part, decimals);
    }
  }

  lemma {:induction false} BodyIsCut(body: string, atoms: nat, whole: nat, part: nat, decimals: nat, keep: nat)
    requires keep <= decimals && body == Shown(whole, part, decimals, keep)
    requires whole * Pow10(decimals) + part == atoms && part < Pow10(decimals)
    ensures IsCut(body, atoms, keep, Pow10(decimals - keep))
  {
    if keep == 0 {
      NoneShown(whole, part, decimals);
    } else {
      PadLeftIsExact(part, decimals);
      SomeShown(whole, part, decimals, keep);
    }
  }

  lemma {:induction false} NoneShown(whole: nat, part: nat, decimals: nat)
    requires part < Pow10(decimals)
    ensures IsCut(Print(whole), whole * Pow10(decimals) + part, 0, Pow10(decimals))
  {
    PrintThenValue(whole);
    PartsOf(Print(whole), []);
    assert (whole + 1) * Pow10(decimals) == whole * Pow10(decimals) + Pow10(decimals);
    assert Amount(Print(whole), [], 0) == whole;
  }

  lemma {:induction false} SomeShown(whole: nat, part: nat, decimals: nat, keep: nat)
    requires part < Pow10(decimals) && 0 < keep <= decimals && |PadLeft(part, decimals)| == decimals
    ensures
      && var body := Print(whole) + ['.'] + Cut(PadLeft(part, decimals), keep);
      && IsCut(body, whole * Pow10(decimals) + part, keep, Pow10(decimals - keep))
  {
    var d := PadLeft(part, decimals);
    PrintThenValue(whole);
    PadLeftIsExact(part, decimals);
    PartsOf(Print(whole), d[..keep]);
    FirstDigits(d, keep);
    CutAmount(whole, part, Value(d[..keep]), decimals, keep);
    assert Amount(Print(whole), d[..keep], keep) == whole * Pow10(keep) + Value(d[..keep]);
  }

  lemma CutAmount(whole: nat, part: nat, shown: nat, decimals: nat, keep: nat)
    requires keep <= decimals
    requires shown * Pow10(decimals - keep) <= part < (shown + 1) * Pow10(decimals - keep)
    ensures
      && var cut, atoms := Pow10(decimals - keep), whole * Pow10(decimals) + part;
      && (whole * Pow10(keep) + shown) * cut <= atoms < (whole * Pow10(keep) + shown + 1) * cut
  {
    var cut, k := Pow10(decimals - keep), Pow10(keep);
    Pow10Adds(keep, decimals - keep);
    assert whole * (k * cut) == (whole * k) * cut;
    assert (whole * k + shown) * cut == (whole * k) * cut + shown * cut;
    assert (whole * k + (shown + 1)) * cut == (whole * k) * cut + (shown + 1) * cut;
  }

  // ------------------------------------------------------------------
  // The shortest text.
  // ------------------------------------------------------------------

  lemma {:induction false} SameDigits(a: string, b: string)
    requires IsDigits(a) && IsDigits(b) && |a| == |b| && Value(a) == Value(b)
    ensures a == b
  {
    if a == [] {
    } else {
      var n := |a| - 1;
      assert DigitOf(a[n]) == DigitOf(b[n]);
      SameDigits(a[..n], b[..n]);
      assert a == a[..n] + [a[n]] && b == b[..n] + [b[n]];
    }
  }

  lemma {:induction false} PrintIsShortest(s: string)
    requires IsDigits(s) && s != []
    ensures |Print(Value(s))| <= |s|
  {
    var n := |s| - 1;
    if Value(s) >= 10 {
      assert n > 0;
      PrintIsShortest(s[..n]);
      assert Value(s) / 10 == Value(s[..n]);
    }
  }

  lemma {:induction false} TrimmedIsShorter(s: string, n: nat)
    ensures |TrimZeros(s + Zeros(n))| <= |s|
  {
    if n == 0 {
      assert s + Zeros(0) == s;
      TrimShortens(s);
    } else {
      var t := s + Zeros(n);
      assert t[..|t| - 1] == s + Zeros(n - 1);
      TrimmedIsShorter(s, n - 1);
    }
  }

  lemma {:induction false} TrimShortens(s: string)
    ensures |TrimZeros(s)| <= |s|
  {
    if s != [] && s[|s| - 1] == '0' {
      TrimShortens(s[..|s| - 1]);
    }
  }

  /** Main result: of all the texts read as an amount of SOL, the one printed is the shortest. */
  lemma FormatSolIsShortest(s: string, x: nat)
    requires ParseSol(s) == Some(x)
    ensures |FormatSol(x)| <= |s|
  {
    ParseSolReads(s);
    var w, f := Whole(s), Fraction(s);
    var padded := PadRight(f, 9);
    PadRightScales(f, 9);
    assert |padded| == 9;
    ValueBound(padded);
    QuotientIs(Value(w), Value(padded), Pow10(9));
    PrintIsShortest(w);
    if Value(padded) > 0 {
      FractionIsShortest(f, Print(Value(w)) + ['.']);
    }
    assert |s| >= |w| + if f == [] then 0 else 1 + |f|;
  }

  lemma {:induction false} FractionIsShortest(f: string, pre: string)
    requires IsDigits(f) && |f| <= 9 && IsDigits(PadRight(f, 9)) && Value(PadRight(f, 9)) > 0
    requires Value(PadRight(f, 9)) < Pow10(9)
    ensures f != [] && |TrimZeros(pre + PadLeft(Value(PadRight(f, 9)), 9))| <= |pre| + |f|
  {
    var padded := PadRight(f, 9);
    var d := PadLeft(Value(padded), 9);
    assert |padded| == 9;
    PadLeftIsExact(Value(padded), 9);
    SameDigits(d, padded);
    assert padded == f + Zeros(9 - |f|) by {
      assert |f| == 9 ==> f + Zeros(0) == f;
    }
    ValueOfZeros(f, 9 - |f|);
    TrimmedIsShorter(f, 9 - |f|);
    TrimZerosOfFraction(pre, d);
  }

  lemma {:induction false} ValueBound(s: string)
    requires IsDigits(s)
    ensures Value(s) < Pow10(|s|)
  {
    if s == [] {
    } else {
      ValueBound(s[..|s| - 1]);
    }
  }

  lemma QuotientIs(q: nat, r: nat, n: nat)
    requires r < n
    ensures Quotient(q * n + r, n) == q && Remainder(q * n + r, n) == r
  {
    var k, m := Quotient(q * n + r, n), Remainder(q * n + r, n);
    assert (k - q) * n == r - m && (q - k) * n == m - r;
    if k > q {
      AtLeastOnce(k - q, n);
    } else if k < q {
      AtLeastOnce(q - k, n);
    }
  }

  lemma AtLeastOnce(x: int, n: nat)
    requires x >= 1
    ensures x * n >= n
  {
    TimesAtMost(1, x, n);
  }
}
