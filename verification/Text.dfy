/**
 * The string operations the models rest on: splitting and joining, cutting, trimming,
 * and decimal digits. A string is a sequence of code points, unless a module says bytes.
 */
module Text {
  // ---- cutting ---------------------------------------------------------------

  datatype Parts = Parts(before: string, after: string, found: bool)

  /** As strings.Cut: around the first separator. */
  function Cut(s: string, c: char): Parts {
    if s == "" then Parts("", "", false)
    else if s[0] == c then Parts("", s[1..], true)
    else var r := Cut(s[1..], c); Parts([s[0]] + r.before, r.after, r.found)
  }

  lemma {:induction false} CutWhole(s: string, c: char)
    ensures var r := Cut(s, c); s == if r.found then r.before + [c] + r.after else r.before
  {
    if s != "" && s[0] != c {
      CutWhole(s[1..], c);
    }
  }

  lemma {:induction false} CutFinds(s: string, c: char)
    ensures var r := Cut(s, c); (r.found <==> c in s) && c !in r.before && (!r.found ==> r.after == "")
  {
    if s != "" {
      assert s == [s[0]] + s[1..];
      if s[0] != c {
        CutFinds(s[1..], c);
      }
    }
  }

  lemma CutFacts(s: string, c: char)
    ensures var r := Cut(s, c);
            && (r.found <==> c in s) && c !in r.before && (!r.found ==> r.after == "")
            && s == if r.found then r.before + [c] + r.after else r.before
  {
    CutWhole(s, c);
    CutFinds(s, c);
  }

  lemma {:induction false} CutAt(a: string, c: char, b: string)
    requires c !in a
    ensures Cut(a + [c] + b, c) == Parts(a, b, true)
  {
    if a == "" {
      assert a + [c] + b == [c] + b;
    } else {
      assert (a + [c] + b)[1..] == a[1..] + [c] + b;
      CutAt(a[1..], c, b);
      assert a == [a[0]] + a[1..];
    }
  }

  // ---- splitting and joining -------------------------------------------------

  /** As strings.Split with a one-character separator: never empty. */
  function Split(s: string, c: char): (parts: seq<string>)
    ensures parts != []
    decreases |s|
  {
    var r := Cut(s, c);
    CutFacts(s, c);
    if r.found then [r.before] + Split(r.after, c) else [s]
  }

  function Join(parts: seq<string>, c: char): string
    requires parts != []
  {
    if |parts| == 1 then parts[0] else parts[0] + [c] + Join(parts[1..], c)
  }

  lemma {:induction false} SplitHasNone(s: string, c: char)
    ensures forall p | p in Split(s, c) :: c !in p
    decreases |s|
  {
    CutFacts(s, c);
    if Cut(s, c).found {
      SplitHasNone(Cut(s, c).after, c);
    }
  }

  lemma {:induction false} JoinSplit(s: string, c: char)
    ensures Join(Split(s, c), c) == s
    decreases |s|
  {
    CutFacts(s, c);
    var r := Cut(s, c);
    if r.found {
      JoinSplit(r.after, c);
      assert ([r.before] + Split(r.after, c))[1..] == Split(r.after, c);
    }
  }

  lemma SplitWhole(s: string, c: char)
    requires c !in s
    ensures Split(s, c) == [s]
  {
    CutFacts(s, c);
  }

  lemma SplitFirst(a: string, c: char, b: string)
    requires c !in a
    ensures Split(a + [c] + b, c) == [a] + Split(b, c)
  {
    CutAt(a, c, b);
  }

  /** A separator anywhere is a boundary between two splits. */
  lemma Regrouped(x: string, y: string, c: char, b: string)
    ensures x + [c] + y + [c] + b == x + [c] + (y + [c] + b)
  {
  }

  lemma {:induction false} SplitAt(a: string, c: char, b: string)
    ensures Split(a + [c] + b, c) == Split(a, c) + Split(b, c)
    decreases |a|
  {
    CutFacts(a, c);
    var r := Cut(a, c);
    if r.found {
      SplitAt(r.after, c, b);
      SplitFirst(r.before, c, r.after);
      SplitFirst(r.before, c, r.after + [c] + b);
      Regrouped(r.before, r.after, c, b);
    } else {
      SplitFirst(a, c, b);
    }
  }

  lemma {:induction false} SplitJoin(parts: seq<string>, c: char)
    requires parts != [] && forall p | p in parts :: c !in p
    ensures Split(Join(parts, c), c) == parts
  {
    if |parts| == 1 {
      SplitWhole(parts[0], c);
      assert parts == [parts[0]];
    } else {
      SplitJoin(parts[1..], c);
      SplitFirst(parts[0], c, Join(parts[1..], c));
      assert parts == [parts[0]] + parts[1..];
    }
  }

  // ---- trimming --------------------------------------------------------------

  /** unicode.IsSpace. */
  predicate IsSpace(c: char) {
    || c in "\t\n\r " || c == '\U{0B}' || c == '\U{0C}' || c == '\U{85}' || c == '\U{A0}' || c == '\U{1680}'
    || '\U{2000}' <= c <= '\U{200A}' || c == '\U{2028}' || c == '\U{2029}' || c == '\U{202F}'
    || c == '\U{205F}' || c == '\U{3000}'
  }

  predicate IsQuote(c: char) { c == '"' || c == '\'' }

  function TrimLeft(s: string, p: char -> bool): string {
    if s != "" && p(s[0]) then TrimLeft(s[1..], p) else s
  }

  function TrimRight(s: string, p: char -> bool): string {
    if s != "" && p(s[|s| - 1]) then TrimRight(s[..|s| - 1], p) else s
  }

  function Trim(s: string, p: char -> bool): string {
    TrimRight(TrimLeft(s, p), p)
  }

  function TrimSpace(s: string): string { Trim(s, IsSpace) }

  predicate Trimmed(s: string, p: char -> bool) {
    s != "" ==> !p(s[0]) && !p(s[|s| - 1])
  }

  lemma {:induction false} TrimLeftFacts(s: string, p: char -> bool)
    ensures var r := TrimLeft(s, p); |r| <= |s| && r == s[|s| - |r|..] && (r != "" ==> !p(r[0]))
  {
    if s != "" && p(s[0]) {
      TrimLeftFacts(s[1..], p);
    }
  }

  lemma {:induction false} TrimRightFacts(s: string, p: char -> bool)
    ensures var r := TrimRight(s, p); |r| <= |s| && r == s[..|r|] && (r != "" ==> !p(r[|r| - 1]))
  {
    if s != "" && p(s[|s| - 1]) {
      TrimRightFacts(s[..|s| - 1], p);
    }
  }

  lemma TrimFacts(s: string, p: char -> bool)
    ensures Trimmed(Trim(s, p), p)
    ensures forall c | c in Trim(s, p) :: c in s
  {
    TrimLeftFacts(s, p);
    TrimRightFacts(TrimLeft(s, p), p);
  }

  lemma TrimTrimmed(s: string, p: char -> bool)
    ensures Trimmed(s, p) ==> Trim(s, p) == s
    ensures Trim(Trim(s, p), p) == Trim(s, p)
  {
    TrimFacts(s, p);
  }

  /** Trimming the right end ignores what is in front of the last kept character. */
  lemma {:induction false} TrimRightAfter(a: string, b: string, p: char -> bool)
    requires a != "" && !p(a[|a| - 1])
    ensures TrimRight(a + b, p) == a + TrimRight(b, p)
  {
    if b != "" && p(b[|b| - 1]) {
      TrimRightAfter(a, b[..|b| - 1], p);
      assert (a + b)[..|a + b| - 1] == a + b[..|b| - 1];
    }
  }

  lemma {:induction false} TrimRightThenLeft(s: string, p: char -> bool)
    ensures TrimLeft(TrimRight(s, p), p) == Trim(s, p)
  {
    if s != "" {
      if p(s[0]) {
        TrimRightThenLeft(s[1..], p);
        TrimRightTail(s, p);
      } else {
        TrimRightAfter(s[..1], s[1..], p);
        assert s == s[..1] + s[1..];
      }
    }
  }

  lemma {:induction false} TrimRightTail(s: string, p: char -> bool)
    requires s != "" && p(s[0])
    ensures TrimLeft(TrimRight(s, p), p) == TrimLeft(TrimRight(s[1..], p), p)
  {
    if p(s[|s| - 1]) {
      var t := s[..|s| - 1];
      if |s| > 1 {
        TrimRightTail(t, p);
        assert t[1..] == s[1..][..|s| - 2];
        assert TrimRight(s, p) == TrimRight(t, p) && TrimRight(s[1..], p) == TrimRight(t[1..], p);
      } else {
        assert t == "" && s[1..] == "";
        assert TrimRight(s, p) == TrimRight(t, p);
      }
    } else {
      assert TrimRight(s, p) == s && TrimRight(s[1..], p) == s[1..];
    }
  }

  lemma {:induction false} TrimLeftOff(a: string, b: string, p: char -> bool)
    requires forall c | c in a :: p(c)
    ensures TrimLeft(a + b, p) == TrimLeft(b, p)
  {
    if a == "" {
      assert a + b == b;
    } else {
      assert (a + b)[1..] == a[1..] + b;
      TrimLeftOff(a[1..], b, p);
    }
  }

  lemma {:induction false} TrimRightOff(a: string, b: string, p: char -> bool)
    requires forall c | c in b :: p(c)
    ensures TrimRight(a + b, p) == TrimRight(a, p)
  {
    if b == "" {
      assert a + b == a;
    } else {
      assert (a + b)[..|a + b| - 1] == a + b[..|b| - 1];
      TrimRightOff(a, b[..|b| - 1], p);
    }
  }

  /** Trimming takes off what it should at either end, and nothing else. */
  lemma TrimExactly(a: string, m: string, b: string, p: char -> bool)
    requires (forall c | c in a :: p(c)) && (forall c | c in b :: p(c)) && Trimmed(m, p)
    ensures Trim(a + m + b, p) == m
  {
    assert a + m + b == a + (m + b);
    TrimLeftOff(a, m + b, p);
    if m == "" {
      assert m + b == b && b + "" == b;
      TrimLeftOff(b, "", p);
    } else {
      TrimRightOff(m, b, p);
    }
  }

  /** Every string is such a sandwich. */
  lemma {:induction false} TrimParts(s: string, p: char -> bool) returns (a: string, b: string)
    ensures s == a + Trim(s, p) + b && (forall c | c in a :: p(c)) && (forall c | c in b :: p(c))
  {
    var left := TrimLeft(s, p);
    TrimLeftFacts(s, p);
    TrimRightFacts(left, p);
    a, b := s[..|s| - |left|], left[|TrimRight(left, p)|..];
    TrimmedOff(s, left, p);
    TrimmedTail(left, p);
  }

  lemma {:induction false} TrimmedOff(s: string, left: string, p: char -> bool)
    requires left == TrimLeft(s, p)
    ensures |left| <= |s| && forall c | c in s[..|s| - |left|] :: p(c)
  {
    TrimLeftFacts(s, p);
    if s != "" && p(s[0]) {
      TrimLeftFacts(s[1..], p);
      TrimmedOff(s[1..], left, p);
      assert s[..|s| - |left|] == [s[0]] + s[1..][..|s| - 1 - |left|];
    }
  }

  lemma {:induction false} TrimmedTail(s: string, p: char -> bool)
    ensures |TrimRight(s, p)| <= |s| && forall c | c in s[|TrimRight(s, p)|..] :: p(c)
  {
    TrimRightFacts(s, p);
    if s != "" && p(s[|s| - 1]) {
      var t := s[..|s| - 1];
      TrimmedTail(t, p);
      TrimRightFacts(t, p);
      assert s[|TrimRight(s, p)|..] == t[|TrimRight(t, p)|..] + [s[|s| - 1]];
    }
  }

  // ---- decimal digits --------------------------------------------------------

  predicate IsDigit(c: char) { '0' <= c <= '9' }

  predicate AllDigits(s: string) { forall i | 0 <= i < |s| :: IsDigit(s[i]) }

  function Digit(c: char): (d: nat)
    requires IsDigit(c)
    ensures d < 10
  {
    (c - '0') as nat
  }

  function DigitChar(d: nat): (c: char)
    requires d < 10
    ensures IsDigit(c) && Digit(c) == d
  {
    '0' + d as char
  }

  function DigitsValue(s: string): nat
    requires AllDigits(s)
  {
    if s == "" then 0 else DigitsValue(s[..|s| - 1]) * 10 + Digit(s[|s| - 1])
  }

  /** strconv.FormatInt for a non-negative number: no leading zero except for 0 itself. */
  function FormatNat(n: nat): (s: string)
    ensures s != "" && AllDigits(s)
    ensures DigitsValue(s) == n
    ensures n > 0 ==> s[0] != '0'
  {
    if n < 10 then
      assert [DigitChar(n)][..0] == "";
      [DigitChar(n)]
    else
      var s := FormatNat(n / 10) + [DigitChar(n % 10)];
      assert s[..|s| - 1] == FormatNat(n / 10);
      s
  }

  function FormatInt(n: int): string { if n < 0 then "-" + FormatNat(-n) else FormatNat(n) }

  function Pow10(n: nat): (p: nat)
    ensures p >= 1
  {
    if n == 0 then 1 else 10 * Pow10(n - 1)
  }

  function Zeros(n: nat): (s: string)
    ensures |s| == n && AllDigits(s)
  {
    seq(n, _ => '0')
  }

  lemma DigitsValueSnoc(s: string, d: char)
    requires AllDigits(s) && IsDigit(d)
    ensures AllDigits(s + [d]) && DigitsValue(s + [d]) == DigitsValue(s) * 10 + Digit(d)
  {
  }

  lemma Shifted(a: int, p: int, v: int)
    ensures (a * p + v) * 10 == a * (10 * p) + v * 10
  {
  }

  lemma {:induction false} DigitsValueFront(d: char, s: string)
    requires IsDigit(d) && AllDigits(s)
    ensures DigitsValue([d] + s) == Digit(d) * Pow10(|s|) + DigitsValue(s)
  {
    if s == "" {
      DigitsValueSnoc("", d);
      assert [d] + s == "" + [d];
    } else {
      var t, e := s[..|s| - 1], s[|s| - 1];
      assert AllDigits([d] + t) && AllDigits([d] + s);
      DigitsValueFront(d, t);
      DigitsValueSnoc([d] + t, e);
      assert [d] + s == ([d] + t) + [e];
      Shifted(Digit(d), Pow10(|t|), DigitsValue(t));
    }
  }
}
