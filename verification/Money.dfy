/**
 * Exact money. Amounts are 64-bit integers of nano-units (1e-9); the printers and the
 * parser never pass through floating point. `Decimal` says what a decimal string denotes
 * as a real number, and every statement below goes through it.
 */
module Money {
  import opened Wrappers
  import opened Text
  import opened Machine

  const NANO: int := 1_000_000_000

  /** The largest amount the parser takes: a whole part of 1e9 and nine nines. */
  const LIMIT: int := 1_000_000_000_999_999_999

  // ---- what a decimal string denotes -----------------------------------------

  /** 0.d1d2d3... as a real. */
  function FracValue(s: string): real
    requires AllDigits(s)
  {
    if s == "" then 0.0 else (Digit(s[0]) as real + FracValue(s[1..])) / 10.0
  }

  function Body(s: string): string {
    if s != "" && (s[0] == '-' || s[0] == '+') then s[1..] else s
  }

  predicate Negative(s: string) { s != "" && s[0] == '-' }

  function Whole(s: string): string { Cut(Body(s), '.').before }

  function Frac(s: string): string { Cut(Body(s), '.').after }

  predicate IsDecimal(s: string) {
    AllDigits(Whole(s)) && AllDigits(Frac(s)) && (Whole(s) != "" || Frac(s) != "")
  }

  function Signed(neg: bool, x: real): real { if neg then -x else x }

  function Amount(f: string, frac: string): real
    requires AllDigits(f) && AllDigits(frac)
  {
    DigitsValue(f) as real + FracValue(frac)
  }

  function Decimal(s: string): Option<real> {
    if IsDecimal(s) then Some(Signed(Negative(s), Amount(Whole(s), Frac(s)))) else None
  }

  function Units(v: int): real { v as real / 1_000_000_000.0 }

  // ---- the code --------------------------------------------------------------

  datatype BadAmount = BadAmount

  method AllDigitsScan(s: string) returns (ok: bool)
    ensures ok == AllDigits(s)
  {
    for i := 0 to |s|
      invariant forall k | 0 <= k < i :: IsDigit(s[k])
    {
      if s[i] < '0' || s[i] > '9' {
        return false;
      }
    }
    return true;
  }

  /** strings.Repeat of zeros in front, to a width. */
  function Padded(digits: string, width: nat): string {
    if |digits| < width then Zeros(width - |digits|) + digits else digits
  }

  predicate IsZero(c: char) { c == '0' }

  /** The administration surface's printer. */
  function FormatNano(v: Int64): string {
    if v == MIN64 then "-9223372036.854775808"
    else
      var n: int := if v < 0 then -v else v;
      var frac := n % NANO;
      (if v < 0 then "-" else "") + FormatNat(n / NANO)
      + if frac != 0 then "." + TrimRight(Padded(FormatNat(frac), 9), IsZero) else ""
  }

  function ParseNano(s: string): Result<int, BadAmount> {
    if s == "" then Err(BadAmount)
    else
      var neg := s[0] == '-';
      var body := if s[0] == '-' || s[0] == '+' then s[1..] else s;
      if body == "" then Err(BadAmount)
      else
        var c := Cut(body, '.');
        if c.before == "" && !c.found then Err(BadAmount)
        else if c.found && c.before == "" && c.after == "" then Err(BadAmount)
        else if !AllDigits(c.before) || !AllDigits(c.after) then Err(BadAmount)
        else if |c.after| > 9 then Err(BadAmount)
        else if DigitsValue(c.before) > MAX64 then Err(BadAmount)
        else if DigitsValue(c.before) > 1_000_000_000 then Err(BadAmount)
        else
          var out := DigitsValue(c.before) * NANO + DigitsValue(c.after + Zeros(9 - |c.after|));
          Ok(if neg then -out else out)
  }

  /** The alert printer: the digits of 1e9 plus the fraction, without their leading 1. */
  function USD(v: Int64): string {
    var n := if v < 0 then Neg64(v) else v;
    UsdJoin(v < 0, FormatInt(Quo(n, NANO)), FormatInt(NANO + Rem(n, NANO)))
  }

  function UsdJoin(neg: bool, whole: string, tail: string): string {
    var s := whole + "." + TrimRight(if tail == "" then "" else tail[1..], IsZero);
    (if neg then "-" else "") + if s[|s| - 1] == '.' then s[..|s| - 1] else s
  }

  /** The command line's printer: `%d.%09d`, trimmed but with two decimals at least. */
  function FormatCli(v: Int64): string {
    var n := if v < 0 then Neg64(v) else v;
    var frac := Rem(n, NANO);
    CliJoin((if v < 0 then "-" else "") + FormatInt(Quo(n, NANO)),
            if frac < 0 then "-" + Padded(FormatNat(-frac), 8) else Padded(FormatNat(frac), 9))
  }

  function CliJoin(head: string, digits: string): string { CliPad(TrimRight(head + "." + digits, IsZero)) }

  function CliPad(s: string): string {
    var kept := |Cut(s, '.').after|;
    if '.' in s && kept < 2 then s + Zeros(2 - kept) else s
  }

  /** The edit form's value, rounded to the cent. */
  function NanoDollars(v: Int64): string {
    var n := if v < 0 then Neg64(v) else v;
    var cents := Quo(Add64(n, 5_000_000), 10_000_000);
    (if v < 0 then "-" else "") + CentsText(Quo(cents, 100), Rem(cents, 100))
  }

  /** `%d` and `%02d`, whose width counts the sign. */
  function CentsText(dollars: int, cents: int): string {
    FormatInt(dollars) + "." + if cents < 0 then "-" + FormatNat(-cents) else Padded(FormatNat(cents), 2)
  }

  // ---- digits and fractions --------------------------------------------------

  /** Moving the point k places right. */
  function Shift(f: real, k: nat): real
    decreases k
  {
    if k == 0 then f else Shift(f * 10.0, k - 1)
  }

  lemma TenTimes(d: int, p: int)
    ensures 10 * d * p == d * (10 * p)
  {
  }

  lemma {:induction false} ShiftAdd(d: nat, f: real, k: nat)
    ensures Shift(d as real + f, k) == (d * Pow10(k)) as real + Shift(f, k)
    decreases k
  {
    if k > 0 {
      ShiftAdd(10 * d, f * 10.0, k - 1);
      TenTimes(d, Pow10(k - 1));
      assert (d as real + f) * 10.0 == (10 * d) as real + f * 10.0;
    }
  }

  /** A fraction with its point moved past the last digit is the digits. */
  lemma {:induction false} FracShift(s: string)
    requires AllDigits(s)
    ensures Shift(FracValue(s), |s|) == DigitsValue(s) as real
  {
    if s != "" {
      var d, t := s[0], s[1..];
      FracShift(t);
      DigitsValueFront(d, t);
      assert s == [d] + t;
      ShiftAdd(Digit(d), FracValue(t), |t|);
      assert FracValue(s) * 10.0 == Digit(d) as real + FracValue(t);
    }
  }

  lemma ShiftNine(f: real)
    ensures Shift(f, 9) == f * 1_000_000_000.0 && Shift(f, 2) == f * 100.0
  {
  }

  lemma {:induction false} FracZeroTail(s: string)
    requires AllDigits(s)
    ensures AllDigits(s + "0") && FracValue(s + "0") == FracValue(s)
  {
    if s == "" {
      assert (s + "0")[1..] == "";
    } else {
      FracZeroTail(s[1..]);
      assert (s + "0")[1..] == s[1..] + "0";
    }
  }

  lemma {:induction false} FracTrim(s: string)
    requires AllDigits(s)
    ensures AllDigits(TrimRight(s, IsZero)) && FracValue(TrimRight(s, IsZero)) == FracValue(s)
    ensures |TrimRight(s, IsZero)| <= |s|
  {
    if s != "" && IsZero(s[|s| - 1]) {
      var t := s[..|s| - 1];
      FracTrim(t);
      FracZeroTail(t);
      assert s == t + "0";
    }
  }

  lemma {:induction false} FracZeros(s: string, n: nat)
    requires AllDigits(s)
    ensures AllDigits(s + Zeros(n)) && FracValue(s + Zeros(n)) == FracValue(s)
  {
    if n == 0 {
      assert s + Zeros(0) == s;
    } else {
      FracZeros(s, n - 1);
      FracZeroTail(s + Zeros(n - 1));
      assert s + Zeros(n) == s + Zeros(n - 1) + "0";
    }
  }

  lemma {:induction false} ValueBound(s: string)
    requires AllDigits(s)
    ensures DigitsValue(s) < Pow10(|s|)
  {
    if s != "" {
      ValueBound(s[..|s| - 1]);
    }
  }

  lemma {:induction false} FormatNatLength(n: nat, k: nat)
    requires n < Pow10(k) && k >= 1
    ensures |FormatNat(n)| <= k
  {
    if n >= 10 {
      FormatNatLength(n / 10, k - 1);
    }
  }

  lemma {:induction false} LeadingZeros(n: nat, s: string)
    requires AllDigits(s)
    ensures AllDigits(Zeros(n) + s) && DigitsValue(Zeros(n) + s) == DigitsValue(s)
  {
    if n == 0 {
      assert Zeros(0) + s == s;
    } else {
      LeadingZeros(n - 1, s);
      DigitsValueFront('0', Zeros(n - 1) + s);
      assert Zeros(n) + s == ['0'] + (Zeros(n - 1) + s);
    }
  }

  lemma PaddedDigits(d: string, w: nat)
    requires AllDigits(d) && |d| <= w
    ensures var p := Padded(d, w);
            && |p| == w && AllDigits(p) && DigitsValue(p) == DigitsValue(d)
            && Shift(FracValue(p), w) == DigitsValue(d) as real
  {
    LeadingZeros(w - |d|, d);
    assert Padded(d, w) == Zeros(w - |d|) + d;
    FracShift(Padded(d, w));
  }

  lemma PowNine()
    ensures Pow10(9) == NANO && Pow10(2) == 100 && Pow10(10) == 10 * NANO
  {
  }

  // ---- printing --------------------------------------------------------------

  function Compose(neg: bool, f: string, frac: string): string {
    (if neg then "-" else "") + f + if frac == "" then "" else "." + frac
  }

  /** The pieces of sign, digits, and a dot with more digits. */
  lemma PiecesOf(neg: bool, f: string, frac: string)
    requires f != "" && AllDigits(f)
    ensures var s := Compose(neg, f, frac);
            Whole(s) == f && Frac(s) == frac && Negative(s) == neg
  {
    var b := f + if frac == "" then "" else "." + frac;
    var s := Compose(neg, f, frac);
    assert IsDigit(f[0]) && b[0] == f[0];
    assert Body(s) == b by {
      assert s == if neg then "-" + b else b;
    }
    assert '.' !in f;
    if frac == "" {
      CutFacts(b, '.');
      assert b == f;
    } else {
      CutAt(f, '.', frac);
      assert b == f + ['.'] + frac;
    }
  }

  lemma ComposeDecimal(neg: bool, f: string, frac: string)
    requires f != "" && AllDigits(f) && AllDigits(frac)
    ensures var s := Compose(neg, f, frac);
            && Whole(s) == f && Frac(s) == frac && Negative(s) == neg
            && Decimal(s) == Some(Signed(neg, Amount(f, frac)))
  {
    PiecesOf(neg, f, frac);
  }

  /** A whole and a nine-digit fraction of nanos, however the fraction was trimmed. */
  lemma NanoDecimal(neg: bool, n: nat, f: string, frac: string)
    requires f != "" && AllDigits(f) && DigitsValue(f) == n / NANO
    requires AllDigits(frac) && FracValue(frac) * 1_000_000_000.0 == (n % NANO) as real
    ensures Decimal(Compose(neg, f, frac)) == Some(Signed(neg, Units(n)))
  {
    ComposeDecimal(neg, f, frac);
    NanoSum(n, n / NANO, n % NANO, FracValue(frac));
  }

  lemma NanoSum(n: nat, q: nat, r: nat, f: real)
    requires n == q * NANO + r && f * 1_000_000_000.0 == r as real
    ensures q as real + f == Units(n)
  {
  }

  lemma NineDigits(frac: nat)
    requires frac < NANO
    ensures var t := TrimRight(Padded(FormatNat(frac), 9), IsZero);
            && AllDigits(t) && |t| <= 9 && FracValue(t) * 1_000_000_000.0 == frac as real
            && (t == "" <==> frac == 0)
  {
    PowNine();
    FormatNatLength(frac, 9);
    var p := Padded(FormatNat(frac), 9);
    PaddedDigits(FormatNat(frac), 9);
    ShiftNine(FracValue(p));
    FracTrim(p);
    if frac == 0 {
      ZeroFracTrims(p);
    }
  }

  lemma {:induction false} ZeroFracTrims(s: string)
    requires AllDigits(s) && DigitsValue(s) == 0
    ensures TrimRight(s, IsZero) == ""
  {
    if s != "" {
      ZeroFracTrims(s[..|s| - 1]);
    }
  }

  function Abs(v: int): nat { if v < 0 then -v else v }

  lemma SignedUnits(v: int)
    ensures Signed(v < 0, Units(Abs(v))) == Units(v)
  {
  }

  lemma FormatNatStep(n: nat, s: string, d: nat)
    requires n > 0 && d < 10 && FormatNat(n) == s
    ensures FormatNat(10 * n + d) == s + [DigitChar(d)]
  {
    assert (10 * n + d) / 10 == n && (10 * n + d) % 10 == d;
  }

  lemma SmallestWhole()
    ensures FormatNat(9_223_372_036) == "9223372036"
  {
    FormatNatStep(9, "9", 2);
    FormatNatStep(92, "92", 2);
    FormatNatStep(922, "922", 3);
    FormatNatStep(9223, "9223", 3);
    FormatNatStep(92233, "92233", 7);
    FormatNatStep(922337, "922337", 2);
    FormatNatStep(9223372, "9223372", 0);
    FormatNatStep(92233720, "92233720", 3);
    FormatNatStep(922337203, "922337203", 6);
  }

  lemma SmallestFrac()
    ensures FormatNat(854_775_808) == "854775808"
  {
    FormatNatStep(8, "8", 5);
    FormatNatStep(85, "85", 4);
    FormatNatStep(854, "854", 7);
    FormatNatStep(8547, "8547", 7);
    FormatNatStep(85477, "85477", 5);
    FormatNatStep(854775, "854775", 8);
    FormatNatStep(8547758, "8547758", 0);
    FormatNatStep(85477580, "85477580", 8);
  }

  /** The literal the printer keeps for the one value it cannot negate. */
  lemma SmallestText()
    ensures FormatNano(MIN64) == Compose(true, FormatNat(9_223_372_036), "854775808")
  {
    SmallestWhole();
  }

  lemma SmallestValue()
    ensures AllDigits("854775808") && FracValue("854775808") * 1_000_000_000.0 == 854_775_808.0
  {
    SmallestFrac();
    FracShift("854775808");
    ShiftNine(FracValue("854775808"));
  }

  /** What the printer prints is a sign, the whole part and at most nine more digits. */
  lemma FormatPieces(v: Int64) returns (frac: string)
    ensures FormatNano(v) == Compose(v < 0, FormatNat(Abs(v) / NANO), frac)
    ensures AllDigits(frac) && |frac| <= 9 && FracValue(frac) * 1_000_000_000.0 == (Abs(v) % NANO) as real
  {
    if v == MIN64 {
      SmallestText();
      SmallestValue();
      frac := "854775808";
    } else {
      frac := TrimRight(Padded(FormatNat(Abs(v) % NANO), 9), IsZero);
      NineDigits(Abs(v) % NANO);
    }
  }

  /** Printing is exact on every 64-bit amount. */
  lemma FormatExact(v: Int64)
    ensures Decimal(FormatNano(v)) == Some(Units(v))
  {
    var frac := FormatPieces(v);
    NanoDecimal(v < 0, Abs(v), FormatNat(Abs(v) / NANO), frac);
    SignedUnits(v);
  }

  lemma FormatInjective(a: Int64, b: Int64)
    requires FormatNano(a) == FormatNano(b)
    ensures a == b
  {
    FormatExact(a);
    FormatExact(b);
  }

  // ---- parsing ---------------------------------------------------------------

  /** What the parser takes: a decimal of at most nine places whose whole part is at most 1e9. */
  predicate Accepts(s: string) {
    IsDecimal(s) && |Frac(s)| <= 9 && DigitsValue(Whole(s)) <= 1_000_000_000
  }

  lemma ParseCases(s: string)
    ensures ParseNano(s) ==
      if !Accepts(s) then Err(BadAmount)
      else
        var out := DigitsValue(Whole(s)) * NANO + DigitsValue(Frac(s) + Zeros(9 - |Frac(s)|));
        Ok(if Negative(s) then -out else out)
  {
  }

  lemma PaddedFrac(f: string)
    requires AllDigits(f) && |f| <= 9
    ensures var p := f + Zeros(9 - |f|);
            AllDigits(p) && DigitsValue(p) < NANO && FracValue(f) * 1_000_000_000.0 == DigitsValue(p) as real
  {
    var p := f + Zeros(9 - |f|);
    FracZeros(f, 9 - |f|);
    FracShift(p);
    ShiftNine(FracValue(p));
    PowNine();
    ValueBound(p);
  }

  /**
   * Parsing is exact: it accepts just the strings above, an accepted string denotes
   * exactly the amount returned, and the amount is far inside 64 bits.
   */
  lemma ParseExact(s: string)
    ensures ParseNano(s).Ok? <==> Accepts(s)
    ensures ParseNano(s).Ok? ==>
              Decimal(s) == Some(Units(ParseNano(s).value)) && -LIMIT <= ParseNano(s).value <= LIMIT
  {
    ParseCases(s);
    if Accepts(s) {
      PaddedFrac(Frac(s));
      var w, f := DigitsValue(Whole(s)), DigitsValue(Frac(s) + Zeros(9 - |Frac(s)|));
      NanoSum(w * NANO + f, w, f, FracValue(Frac(s)));
    }
  }

  /** An accepted text that denotes an amount parses to that amount. */
  lemma ParseOf(s: string, v: int)
    requires Decimal(s) == Some(Units(v)) && Accepts(s)
    ensures ParseNano(s) == Ok(v)
  {
    ParseExact(s);
  }

  /** The round trip holds exactly up to the parser's ceiling. */
  lemma RoundTrip(v: Int64)
    ensures ParseNano(FormatNano(v)) == Ok(v) <==> -LIMIT <= v <= LIMIT
  {
    var frac := FormatPieces(v);
    ComposeDecimal(v < 0, FormatNat(Abs(v) / NANO), frac);
    FormatExact(v);
    ParseExact(FormatNano(v));
    if -LIMIT <= v <= LIMIT {
      ParseOf(FormatNano(v), v);
    }
  }

  // ---- the other printers ----------------------------------------------------

  lemma TenLong(n: nat)
    requires NANO <= n < 2 * NANO
    ensures |FormatNat(n)| == 10
  {
    PowNine();
    FormatNatLength(n, 10);
    ValueBound(FormatNat(n));
    if |FormatNat(n)| <= 9 {
      PowMonotone(|FormatNat(n)|, 9);
    }
  }

  lemma LeadingOne(s: string, frac: nat)
    requires AllDigits(s) && |s| == 10 && DigitsValue(s) == NANO + frac && frac < NANO
    ensures AllDigits(s[1..]) && DigitsValue(s[1..]) == frac
  {
    PowNine();
    DigitsValueFront(s[0], s[1..]);
    assert s == [s[0]] + s[1..];
    ValueBound(s[1..]);
  }

  lemma {:induction false} PowMonotone(a: nat, b: nat)
    requires a <= b
    ensures Pow10(a) <= Pow10(b)
  {
    if a < b {
      PowMonotone(a, b - 1);
    }
  }

  lemma TrimmedNano(p: string, n: nat)
    requires AllDigits(p) && |p| == 9 && DigitsValue(p) == n
    ensures var t := TrimRight(p, IsZero);
            AllDigits(t) && FracValue(t) * 1_000_000_000.0 == n as real
  {
    FracShift(p);
    ShiftNine(FracValue(p));
    FracTrim(p);
  }

  lemma DropDot(f: string, t: string)
    requires AllDigits(t)
    ensures var s := f + "." + t;
            (if s[|s| - 1] == '.' then s[..|s| - 1] else s) == f + if t == "" then "" else "." + t
  {
  }

  lemma UsdJoinText(neg: bool, f: string, tail: string)
    requires tail != "" && AllDigits(tail[1..])
    ensures var t := TrimRight(tail[1..], IsZero);
            UsdJoin(neg, f, tail) == Compose(neg, f, t)
  {
    var t := TrimRight(tail[1..], IsZero);
    FracTrim(tail[1..]);
    DropDot(f, t);
  }

  lemma Magnitude(v: Int64)
    requires v != MIN64
    ensures (if v < 0 then Neg64(v) else v) == Abs(v)
    ensures Quo(Abs(v), NANO) == Abs(v) / NANO && Rem(Abs(v), NANO) == Abs(v) % NANO
  {
  }

  lemma UsdText(v: Int64)
    requires v != MIN64
    ensures USD(v) == UsdJoin(v < 0, FormatNat(Abs(v) / NANO), FormatNat(NANO + Abs(v) % NANO))
  {
    Magnitude(v);
  }

  lemma UsdTail(frac: nat)
    requires frac < NANO
    ensures var tail := FormatNat(NANO + frac);
            var t := TrimRight(tail[1..], IsZero);
            AllDigits(tail[1..]) && AllDigits(t) && FracValue(t) * 1_000_000_000.0 == frac as real
  {
    TenLong(NANO + frac);
    LeadingOne(FormatNat(NANO + frac), frac);
    TrimmedNano(FormatNat(NANO + frac)[1..], frac);
  }

  lemma UsdJoinDecimal(neg: bool, n: nat, f: string, tail: string)
    requires f != "" && AllDigits(f) && DigitsValue(f) == n / NANO
    requires tail != "" && AllDigits(tail[1..]) && AllDigits(TrimRight(tail[1..], IsZero))
    requires FracValue(TrimRight(tail[1..], IsZero)) * 1_000_000_000.0 == (n % NANO) as real
    ensures Decimal(UsdJoin(neg, f, tail)) == Some(Signed(neg, Units(n)))
  {
    UsdJoinText(neg, f, tail);
    NanoDecimal(neg, n, f, TrimRight(tail[1..], IsZero));
  }

  lemma UsdDecimal(v: Int64)
    requires v != MIN64
    ensures Decimal(USD(v)) == Some(Units(v))
  {
    UsdText(v);
    UsdOf(v < 0, Abs(v));
    SignedUnits(v);
  }

  lemma UsdOf(neg: bool, n: nat)
    ensures Decimal(UsdJoin(neg, FormatNat(n / NANO), FormatNat(NANO + n % NANO))) == Some(Signed(neg, Units(n)))
  {
    UsdTail(n % NANO);
    UsdJoinDecimal(neg, n, FormatNat(n / NANO), FormatNat(NANO + n % NANO));
  }

  lemma TwoSigns(s: string)
    requires |s| > 1 && s[0] == '-' && s[1] == '-'
    ensures !IsDecimal(s)
  {
    CutFacts(Body(s), '.');
    assert Body(s)[0] == '-' && Whole(s)[0] == '-';
  }

  /**
   * The alert printer denotes its amount, except for the one amount whose negation wraps:
   * that prints two signs, which is not a decimal at all.
   */
  lemma UsdExact(v: Int64)
    ensures Decimal(USD(v)) == Some(Units(v)) <==> v != MIN64
  {
    if v == MIN64 {
      assert Quo(v, NANO) < 0;
      TwoSigns(USD(v));
    } else {
      UsdDecimal(v);
    }
  }

  lemma CliTrimmed(head: string, digits: string)
    ensures TrimRight(head + "." + digits, IsZero) == head + ['.'] + TrimRight(digits, IsZero)
  {
    TrimRightAfter(head + ".", digits, IsZero);
  }

  lemma CliPadText(head: string, t: string)
    requires '.' !in head
    ensures CliPad(head + ['.'] + t) == head + ['.'] + t + Zeros(if |t| < 2 then 2 - |t| else 0)
  {
    CutAt(head, '.', t);
    assert (head + ['.'] + t)[|head|] == '.';
  }

  lemma CliJoinText(head: string, digits: string)
    requires '.' !in head
    ensures var t := TrimRight(digits, IsZero);
            CliJoin(head, digits) == head + ['.'] + t + Zeros(if |t| < 2 then 2 - |t| else 0)
  {
    CliTrimmed(head, digits);
    CliPadText(head, TrimRight(digits, IsZero));
  }

  lemma CliText(v: Int64)
    requires v != MIN64
    ensures FormatCli(v) ==
            CliJoin((if v < 0 then "-" else "") + FormatNat(Abs(v) / NANO), Padded(FormatNat(Abs(v) % NANO), 9))
  {
    Magnitude(v);
  }

  lemma CliFrac(frac: nat)
    requires frac < NANO
    ensures var t := TrimRight(Padded(FormatNat(frac), 9), IsZero);
            var u := t + Zeros(if |t| < 2 then 2 - |t| else 0);
            u != "" && AllDigits(u) && FracValue(u) * 1_000_000_000.0 == frac as real
  {
    NineDigits(frac);
    var t := TrimRight(Padded(FormatNat(frac), 9), IsZero);
    FracZeros(t, if |t| < 2 then 2 - |t| else 0);
  }

  lemma NoDot(sign: string, f: string)
    requires AllDigits(f) && (sign == "" || sign == "-")
    ensures '.' !in sign + f
  {
  }

  function CliTail(digits: string): string {
    var t := TrimRight(digits, IsZero);
    t + Zeros(if |t| < 2 then 2 - |t| else 0)
  }

  lemma CliJoinComposed(neg: bool, f: string, digits: string)
    requires AllDigits(f) && CliTail(digits) != ""
    ensures CliJoin((if neg then "-" else "") + f, digits) == Compose(neg, f, CliTail(digits))
  {
    var head := (if neg then "-" else "") + f;
    NoDot(if neg then "-" else "", f);
    CliJoinText(head, digits);
    var t := TrimRight(digits, IsZero);
    var pad := Zeros(if |t| < 2 then 2 - |t| else 0);
    assert head + ['.'] + t + pad == head + ("." + (t + pad));
  }

  lemma CliDecimal(v: Int64)
    requires v != MIN64
    ensures Decimal(FormatCli(v)) == Some(Units(v))
  {
    var f, digits := FormatNat(Abs(v) / NANO), Padded(FormatNat(Abs(v) % NANO), 9);
    CliText(v);
    CliFrac(Abs(v) % NANO);
    CliJoinComposed(v < 0, f, digits);
    NanoDecimal(v < 0, Abs(v), f, CliTail(digits));
    SignedUnits(v);
  }

  lemma CliTwoSigns(f: string, digits: string)
    requires AllDigits(f)
    ensures var s := CliJoin("-" + ("-" + f), digits); |s| > 1 && s[0] == '-' && s[1] == '-'
  {
    NoDot("-", f);
    assert '.' !in "-" + ("-" + f);
    CliJoinText("-" + ("-" + f), digits);
  }

  /** The command line's printer denotes its amount, with the same single exception. */
  lemma CliExact(v: Int64)
    ensures Decimal(FormatCli(v)) == Some(Units(v)) <==> v != MIN64
  {
    if v == MIN64 {
      assert Quo(v, NANO) < 0;
      CliTwoSigns(FormatNat(-Quo(v, NANO)), "-" + Padded(FormatNat(-Rem(v, NANO)), 8));
      TwoSigns(FormatCli(v));
    } else {
      CliDecimal(v);
    }
  }

  // ---- the edit form ---------------------------------------------------------

  /** An amount rounded to the cent, half away from zero. */
  function ToCent(v: int): int {
    var c := (Abs(v) + 5_000_000) / 10_000_000 * 10_000_000;
    if v < 0 then -c else c
  }

  lemma TwoDigits(c: nat, p: string)
    requires c < 100 && p == Padded(FormatNat(c), 2)
    ensures |p| == 2 && AllDigits(p) && FracValue(p) * 1_000_000_000.0 == (c * 10_000_000) as real
  {
    PowNine();
    FormatNatLength(c, 2);
    PaddedDigits(FormatNat(c), 2);
    ShiftNine(FracValue(p));
  }

  lemma CentsDecimal(neg: bool, cents: nat, f: string, p: string)
    requires f != "" && AllDigits(f) && DigitsValue(f) == cents / 100
    requires p == Padded(FormatNat(cents % 100), 2)
    ensures Decimal(Compose(neg, f, p)) == Some(Signed(neg, Units(cents * 10_000_000)))
    ensures |p| == 2 && AllDigits(p)
  {
    TwoDigits(cents % 100, p);
    ComposeDecimal(neg, f, p);
    CentsAre(cents);
    AmountIs(cents * 10_000_000, cents / 100, cents % 100 * 10_000_000, f, p);
  }

  lemma CentsAre(cents: nat)
    ensures cents * 10_000_000 == cents / 100 * NANO + cents % 100 * 10_000_000
  {
  }

  lemma AmountIs(n: nat, q: nat, r: nat, f: string, p: string)
    requires AllDigits(f) && AllDigits(p) && DigitsValue(f) == q && FracValue(p) * 1_000_000_000.0 == r as real
    requires n == q * NANO + r
    ensures Amount(f, p) == Units(n)
  {
    NanoSum(n, q, r, FracValue(p));
  }

  function Cents(v: int): nat { (Abs(v) + 5_000_000) / 10_000_000 }

  /** Rounding up does not leave 64 bits. */
  predicate Roundable(v: Int64) { -MAX64 + 5_000_000 <= v <= MAX64 - 5_000_000 }

  lemma FormCents(v: Int64)
    requires Roundable(v)
    ensures Quo(Add64(if v < 0 then Neg64(v) else v, 5_000_000), 10_000_000) == Cents(v)
    ensures Quo(Cents(v), 100) == Cents(v) / 100 && Rem(Cents(v), 100) == Cents(v) % 100
  {
  }

  lemma DotJoined(sign: string, f: string, p: string)
    ensures sign + (f + "." + p) == sign + f + ("." + p)
  {
  }

  lemma FormText(v: Int64) returns (f: string, p: string)
    requires Roundable(v)
    ensures f == FormatNat(Cents(v) / 100) && p == Padded(FormatNat(Cents(v) % 100), 2)
    ensures NanoDollars(v) == Compose(v < 0, f, p)
    ensures Decimal(NanoDollars(v)) == Some(Signed(v < 0, Units(Cents(v) * 10_000_000))) && |p| == 2 && AllDigits(p)
  {
    f, p := FormatNat(Cents(v) / 100), Padded(FormatNat(Cents(v) % 100), 2);
    CentsDecimal(v < 0, Cents(v), f, p);
    FormCents(v);
    DotJoined(if v < 0 then "-" else "", f, p);
  }

  /** Cents from the bottom of the range. */
  lemma BottomCents(a: int)
    requires MIN64 <= a <= MIN64 + 5_000_000
    ensures -922_337_203_685 <= Quo(a, 10_000_000) <= -922_337_203_684
  {
  }

  lemma BottomDollars(cents: int)
    requires -922_337_203_685 <= cents <= -922_337_203_684
    ensures Quo(cents, 100) < 0 && Rem(cents, 100) < 0
  {
    assert (-cents) / 100 == 9_223_372_036;
  }

  /** Where the addition wraps, dollars and cents both come out negative. */
  lemma WrappedCents(v: Int64)
    requires !Roundable(v)
    ensures var cents := Quo(Add64(if v < 0 then Neg64(v) else v, 5_000_000), 10_000_000);
            Quo(cents, 100) < 0 && Rem(cents, 100) < 0
  {
    var a := Add64(if v < 0 then Neg64(v) else v, 5_000_000);
    BottomCents(a);
    BottomDollars(Quo(a, 10_000_000));
  }

  lemma SecondSign(f: string, p: string)
    requires '.' !in f && p != "" && p[0] == '-'
    ensures !IsDecimal("-" + f + "." + p)
  {
    var s := "-" + f + "." + p;
    assert s[1..] == f + ['.'] + p;
    CutAt(f, '.', p);
    assert Frac(s) == p && !IsDigit(p[0]);
  }

  lemma SignedCents(dollars: int, cents: int)
    requires dollars < 0 && cents < 0
    ensures var s := CentsText(dollars, cents); |s| > 0 && s[0] == '-' && !IsDecimal(s)
  {
    SecondSign(FormatNat(-dollars), "-" + FormatNat(-cents));
    var f, p := FormatNat(-dollars), "-" + FormatNat(-cents);
    assert CentsText(dollars, cents) == "-" + f + "." + p;
  }

  /** An amount the rounding wraps is shown as something that is no decimal at all. */
  lemma FormWrapped(v: Int64)
    requires !Roundable(v)
    ensures !IsDecimal(NanoDollars(v))
  {
    WrappedCents(v);
    var cents := Quo(Add64(if v < 0 then Neg64(v) else v, 5_000_000), 10_000_000);
    SignedCents(Quo(cents, 100), Rem(cents, 100));
    if v < 0 {
      TwoSigns(NanoDollars(v));
    } else {
      assert NanoDollars(v) == CentsText(Quo(cents, 100), Rem(cents, 100));
    }
  }

  lemma CentArithmetic(v: int)
    ensures -5_000_000 <= ToCent(v) - v <= 5_000_000
    ensures ToCent(v) == v <==> v % 10_000_000 == 0
    ensures Signed(v < 0, Units(Cents(v) * 10_000_000)) == Units(ToCent(v))
    ensures Units(ToCent(v)) == Units(v) <==> ToCent(v) == v
  {
  }

  /** The form shows the amount to the nearest cent exactly where rounding up stays in 64 bits. */
  lemma FormNearest(v: Int64)
    ensures Decimal(NanoDollars(v)) == Some(Units(ToCent(v))) <==> Roundable(v)
    ensures -5_000_000 <= ToCent(v) - v <= 5_000_000
    ensures Decimal(NanoDollars(v)) == Some(Units(v)) <==> Roundable(v) && v % 10_000_000 == 0
  {
    CentArithmetic(v);
    if Roundable(v) {
      var _, _ := FormText(v);
    } else {
      FormWrapped(v);
    }
  }

  /** What the form shows is something the parser takes. */
  lemma FormAccepted(v: Int64)
    requires Roundable(v)
    ensures Accepts(NanoDollars(v)) <==> Cents(v) <= 100_000_000_099
  {
    var f, p := FormText(v);
    ComposeDecimal(v < 0, f, p);
    assert Cents(v) / 100 <= 1_000_000_000 <==> Cents(v) <= 100_000_000_099;
  }

  lemma ParsesTo(s: string, v: int)
    requires Decimal(s) == Some(Units(v))
    ensures ParseNano(s) == if Accepts(s) then Ok(v) else Err(BadAmount)
  {
    ParseCases(s);
    if Accepts(s) {
      ParseOf(s, v);
    }
  }

  lemma NotDecimalRefused(s: string)
    requires !IsDecimal(s)
    ensures ParseNano(s) == Err(BadAmount)
  {
  }

  lemma FormParses(v: Int64)
    requires Roundable(v)
    ensures ParseNano(NanoDollars(v)) == if Cents(v) <= 100_000_000_099 then Ok(ToCent(v)) else Err(BadAmount)
  {
    FormNearest(v);
    FormAccepted(v);
    ParsesTo(NanoDollars(v), ToCent(v));
  }

  lemma CentsLimit(v: int)
    requires v % 10_000_000 == 0
    ensures Cents(v) <= 100_000_000_099 <==> -LIMIT <= v <= LIMIT
  {
  }

  /**
   * A ceiling opened in the edit form and saved unchanged comes back as it was exactly
   * when it is a whole number of cents the parser takes; the form's own comment promises
   * it always.
   */
  lemma FormRoundTrip(v: Int64)
    ensures ParseNano(NanoDollars(v)) == Ok(v) <==> v % 10_000_000 == 0 && -LIMIT <= v <= LIMIT
  {
    if Roundable(v) {
      FormParses(v);
      CentArithmetic(v);
      if v % 10_000_000 == 0 {
        CentsLimit(v);
      }
    } else {
      FormWrapped(v);
      NotDecimalRefused(NanoDollars(v));
    }
  }
}
