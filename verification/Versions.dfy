/**
 * Version numbers in model names: splitting a name into a skeleton and its numbers,
 * comparing number lists, and finding the newest listed successor. Strings here are
 * byte strings.
 */
module Versions {
  import opened Text

  const MAX_INT: nat := 9_223_372_036_854_775_807

  type Version = seq<nat>

  // ---- comparing -------------------------------------------------------------

  /** A missing field counts as zero. */
  function At(v: Version, i: nat): nat { if i < |v| then v[i] else 0 }

  function Max(a: nat, b: nat): nat { if a < b then b else a }

  function CompareFrom(a: Version, b: Version, i: nat): int
    decreases Max(|a|, |b|) - i
  {
    if i >= Max(|a|, |b|) then 0
    else if At(a, i) != At(b, i) then (if At(a, i) < At(b, i) then -1 else 1)
    else CompareFrom(a, b, i + 1)
  }

  function Compare(a: Version, b: Version): int { CompareFrom(a, b, 0) }

  /** The order on zero-padded lists: the first differing field decides. */
  ghost predicate Less(a: Version, b: Version) {
    exists i: nat :: DecidesAt(a, b, i)
  }

  predicate DecidesAt(a: Version, b: Version, i: nat) {
    At(a, i) < At(b, i) && forall j: nat | j < i :: At(a, j) == At(b, j)
  }

  ghost predicate Same(a: Version, b: Version) {
    forall i: nat :: At(a, i) == At(b, i)
  }

  lemma {:induction false} CompareFromMeans(a: Version, b: Version, i: nat)
    requires forall j: nat | j < i :: At(a, j) == At(b, j)
    ensures CompareFrom(a, b, i) < 0 ==> Less(a, b)
    ensures CompareFrom(a, b, i) > 0 ==> Less(b, a)
    ensures CompareFrom(a, b, i) == 0 ==> Same(a, b)
    ensures -1 <= CompareFrom(a, b, i) <= 1
    decreases Max(|a|, |b|) - i
  {
    if i < Max(|a|, |b|) {
      if At(a, i) == At(b, i) {
        CompareFromMeans(a, b, i + 1);
      } else {
        assert DecidesAt(a, b, i) || DecidesAt(b, a, i);
      }
    }
  }

  lemma Exclusive(a: Version, b: Version)
    ensures !(Less(a, b) && Less(b, a)) && !(Less(a, b) && Same(a, b))
  {
  }

  /** Comparing decides the padded order: exactly one of less, same, greater. */
  lemma CompareMeans(a: Version, b: Version)
    ensures Compare(a, b) == -1 <==> Less(a, b)
    ensures Compare(a, b) == 1 <==> Less(b, a)
    ensures Compare(a, b) == 0 <==> Same(a, b)
    ensures Compare(a, b) == -Compare(b, a) && -1 <= Compare(a, b) <= 1
  {
    CompareFromMeans(a, b, 0);
    CompareFromMeans(b, a, 0);
    Exclusive(a, b);
    Exclusive(b, a);
  }

  /** It is a total preorder, and strict wherever either step is. */
  lemma CompareTransitive(a: Version, b: Version, c: Version)
    requires Compare(a, b) <= 0 && Compare(b, c) <= 0
    ensures Compare(a, c) <= 0
    ensures Compare(a, c) == 0 <==> Compare(a, b) == 0 && Compare(b, c) == 0
  {
    CompareMeans(a, b);
    CompareMeans(b, c);
    CompareMeans(a, c);
    if Less(a, b) {
      var i: nat :| DecidesAt(a, b, i);
      if Less(b, c) {
        var j: nat :| DecidesAt(b, c, j);
        assert DecidesAt(a, c, if i < j then i else j);
      } else {
        assert DecidesAt(a, c, i);
      }
    } else if Less(b, c) {
      var j: nat :| DecidesAt(b, c, j);
      assert DecidesAt(a, c, j);
    }
  }

  method CompareVersions(a: Version, b: Version) returns (r: int)
    ensures r == Compare(a, b)
  {
    var n := if |a| < |b| then |b| else |a|;
    for i := 0 to n
      invariant Compare(a, b) == CompareFrom(a, b, i)
    {
      var x, y := 0, 0;
      if i < |a| {
        x := a[i];
      }
      if i < |b| {
        y := b[i];
      }
      if x != y {
        return if x < y then -1 else 1;
      }
    }
    return 0;
  }

  // ---- the shape of a name ---------------------------------------------------

  datatype Shape = Shape(skel: string, ver: Version)

  predicate IsDot(c: char) { c == '.' }

  predicate IsRunChar(c: char) { IsDigit(c) || IsDot(c) }

  /** How far a run of digits and dots reaches. */
  function RunLength(s: string): (n: nat)
    ensures n <= |s| && (s != "" && IsRunChar(s[0]) ==> n > 0)
  {
    if s != "" && IsRunChar(s[0]) then 1 + RunLength(s[1..]) else 0
  }

  /** strconv.Atoi with its error dropped: a blank is 0 and an overflow the largest int. */
  function Field(part: string): nat {
    if !AllDigits(part) then 0 else if DigitsValue(part) > MAX_INT then MAX_INT else DigitsValue(part)
  }

  /** A number reads as itself up to the largest int and as that above it; what is not one reads as zero. */
  lemma FieldExactly(n: nat, part: string)
    ensures Field(FormatNat(n)) == if n <= 9_223_372_036_854_775_807 then n else 9_223_372_036_854_775_807
    ensures !AllDigits(part) ==> Field(part) == 0
    ensures Field("") == 0
  {
  }

  function Fields(parts: seq<string>): Version {
    if parts == [] then [] else Fields(parts[..|parts| - 1]) + [Field(parts[|parts| - 1])]
  }

  lemma {:induction false} FieldsLength(parts: seq<string>)
    ensures |Fields(parts)| == |parts|
  {
    if parts != [] {
      FieldsLength(parts[..|parts| - 1]);
    }
  }

  /** Each part gives the number in its place. */
  lemma {:induction false} FieldsAt(parts: seq<string>, i: nat)
    requires i < |parts|
    ensures |Fields(parts)| == |parts| && Fields(parts)[i] == Field(parts[i])
  {
    FieldsLength(parts);
    var init := parts[..|parts| - 1];
    FieldsLength(init);
    if i < |init| {
      FieldsAt(init, i);
    }
  }

  function Run(s: string): string { TrimRight(s[..RunLength(s)], IsDot) }

  lemma RunFacts(s: string)
    ensures |Run(s)| <= RunLength(s) && Run(s) == s[..|Run(s)|]
    ensures s != "" && IsDigit(s[0]) ==> Run(s) != "" && RunLength(s) > 0
  {
    var t := s[..RunLength(s)];
    TrimRightFacts(t, IsDot);
    if s != "" && IsDigit(s[0]) {
      TrimRightAfter(t[..1], t[1..], IsDot);
      assert t == t[..1] + t[1..];
    }
  }

  function ShapeFrom(s: string): Shape
    decreases |s|
  {
    if s == "" then Shape("", [])
    else if !IsDigit(s[0]) then var r := ShapeFrom(s[1..]); Shape([s[0]] + r.skel, r.ver)
    else
      RunFacts(s);
      var r := ShapeFrom(s[RunLength(s)..]);
      Shape("#" + s[|Run(s)|..RunLength(s)] + r.skel, Fields(Split(Run(s), '.')) + r.ver)
  }

  function ShapeOf(name: string): Shape { ShapeFrom(Cut(name, ':').before) }

  method RunEnd(base: string, i: nat) returns (j: nat)
    requires i <= |base|
    ensures j == i + RunLength(base[i..])
  {
    j := i;
    while j < |base| && IsRunChar(base[j])
      invariant i <= j <= |base|
      invariant RunLength(base[i..]) == j - i + RunLength(base[j..])
    {
      assert base[j..][1..] == base[j + 1..];
      j := j + 1;
    }
  }

  method AppendFields(ver: Version, parts: seq<string>) returns (out: Version)
    ensures out == ver + Fields(parts)
  {
    out := ver;
    for k := 0 to |parts|
      invariant out == ver + Fields(parts[..k])
    {
      assert parts[..k + 1][..k] == parts[..k];
      out := out + [Field(parts[k])];
    }
    assert parts[..|parts|] == parts;
  }

  /** A shape being built: what is written so far, then the shape of the rest. */
  predicate Building(whole: Shape, skel: string, ver: Version, rest: Shape) {
    whole == Shape(skel + rest.skel, ver + rest.ver)
  }

  lemma ShapeOfRun(s: string, n: nat, run: string)
    requires s != "" && IsDigit(s[0]) && n == RunLength(s) && run == Run(s)
    ensures |run| <= n && ShapeFrom(s) ==
            Shape("#" + s[|run|..n] + ShapeFrom(s[n..]).skel, Fields(Split(run, '.')) + ShapeFrom(s[n..]).ver)
  {
    RunFacts(s);
  }

  lemma Extended(whole: Shape, skel: string, ver: Version, gap: string, fs: Version, r: Shape)
    requires Building(whole, skel, ver, Shape(gap + r.skel, fs + r.ver))
    ensures Building(whole, skel + gap, ver + fs, r)
  {
  }

  /** The pieces of a run inside a larger text. */
  lemma RunInside(base: string, i: nat, j: nat)
    requires i < j <= |base| && IsDigit(base[i]) && j == i + RunLength(base[i..])
    ensures var run := TrimRight(base[i..j], IsDot);
            |run| <= j - i && ShapeFrom(base[i..]) ==
              Shape("#" + base[i + |run|..j] + ShapeFrom(base[j..]).skel,
                    Fields(Split(run, '.')) + ShapeFrom(base[j..]).ver)
  {
    var s, n := base[i..], j - i;
    var run := TrimRight(base[i..j], IsDot);
    assert s[..n] == base[i..j];
    ShapeOfRun(s, n, run);
    assert s[n..] == base[j..];
    assert s[|run|..n] == base[i + |run|..j];
  }

  /** One turn of the scan: a plain character, or a whole run. */
  method ShapeStep(base: string, skel: string, ver: Version, i: nat, ghost whole: Shape)
    returns (skel': string, ver': Version, i': nat)
    requires i < |base| && Building(whole, skel, ver, ShapeFrom(base[i..]))
    ensures i < i' <= |base| && Building(whole, skel', ver', ShapeFrom(base[i'..]))
  {
    if !IsDigit(base[i]) {
      assert base[i..][1..] == base[i + 1..];
      Extended(whole, skel, ver, [base[i]], [], ShapeFrom(base[i + 1..]));
      return skel + [base[i]], ver + [], i + 1;
    }
    var j := RunEnd(base, i);
    RunInside(base, i, j);
    var run := TrimRight(base[i..j], IsDot);
    var gap := "#" + base[i + |run|..j];
    Extended(whole, skel, ver, gap, Fields(Split(run, '.')), ShapeFrom(base[j..]));
    ver' := AppendFields(ver, Split(run, '.'));
    return skel + gap, ver', j;
  }

  method VersionShape(name: string) returns (skel: string, ver: Version)
    ensures Shape(skel, ver) == ShapeOf(name)
  {
    var base := Cut(name, ':').before;
    skel, ver := "", [];
    var i := 0;
    assert base[0..] == base;
    while i < |base|
      invariant 0 <= i <= |base| && Building(ShapeFrom(base), skel, ver, ShapeFrom(base[i..]))
      decreases |base| - i
    {
      skel, ver, i := ShapeStep(base, skel, ver, i, ShapeFrom(base));
    }
    assert base[|base|..] == "";
  }

  /** The number runs a skeleton leaves out, in order. */
  function Runs(s: string): seq<string>
    decreases |s|
  {
    if s == "" then []
    else if !IsDigit(s[0]) then Runs(s[1..])
    else RunFacts(s); [Run(s)] + Runs(s[RunLength(s)..])
  }

  /** Putting the runs back where the skeleton has its marks. */
  function Fill(skel: string, runs: seq<string>): string {
    if skel == "" then ""
    else if skel[0] == '#' && runs != [] then runs[0] + Fill(skel[1..], runs[1..])
    else [skel[0]] + Fill(skel[1..], runs)
  }

  lemma {:induction false} FillPlain(p: string, skel: string, runs: seq<string>)
    requires '#' !in p
    ensures Fill(p + skel, runs) == p + Fill(skel, runs)
  {
    if p == "" {
      assert p + skel == skel;
    } else {
      FillPlain(p[1..], skel, runs);
      assert (p + skel)[1..] == p[1..] + skel;
      assert p == [p[0]] + p[1..];
    }
  }

  lemma FillRun(run: string, gap: string, skel: string, runs: seq<string>)
    requires '#' !in gap
    ensures Fill("#" + gap + skel, [run] + runs) == run + (gap + Fill(skel, runs))
  {
    var all := "#" + gap + skel;
    assert all[0] == '#' && all[1..] == gap + skel;
    assert ([run] + runs)[0] == run && ([run] + runs)[1..] == runs;
    FillPlain(gap, skel, runs);
  }

  /** The numbers of a list of runs, in order. */
  function Numbers(runs: seq<string>): Version {
    if runs == [] then [] else Fields(Split(runs[0], '.')) + Numbers(runs[1..])
  }

  predicate NoDigit(s: string) { forall i | 0 <= i < |s| :: !IsDigit(s[i]) }

  /** A name without a digit is its own skeleton. */
  lemma {:induction false} PlainShape(s: string)
    requires NoDigit(s)
    ensures ShapeFrom(s) == Shape(s, []) && Runs(s) == [] && Fill(s, []) == s
  {
    if s != "" {
      PlainShape(s[1..]);
      assert s == [s[0]] + s[1..];
    }
  }

  /** The version is the numbers of the runs, and there is a run exactly when there is a digit. */
  lemma {:induction false} VersionOfRuns(s: string)
    ensures ShapeFrom(s).ver == Numbers(Runs(s))
    ensures Runs(s) == [] <==> NoDigit(s)
    ensures Runs(s) != [] ==> Runs(s)[0] != "" && IsDigit(Runs(s)[0][0])
    ensures Runs(s) != [] ==> ShapeFrom(s).ver != [] && '#' in ShapeFrom(s).skel
    decreases |s|
  {
    if s != "" {
      if !IsDigit(s[0]) {
        VersionOfRuns(s[1..]);
        assert s == [s[0]] + s[1..];
      } else {
        RunFacts(s);
        VersionOfRuns(s[RunLength(s)..]);
        FieldsLength(Split(Run(s), '.'));
        assert ShapeFrom(s).skel[0] == '#';
      }
    }
  }

  /** No number stands after a mark of the name's own. */
  predicate MarksLast(s: string) {
    forall i, j | 0 <= i < j < |s| && s[i] == '#' :: !IsDigit(s[j])
  }

  lemma MarksLastTail(s: string, n: nat)
    requires n <= |s| && '#' !in s[..n]
    ensures MarksLast(s) <==> MarksLast(s[n..])
  {
    if MarksLast(s[n..]) {
      forall i, j | 0 <= i < j < |s| && s[i] == '#'
        ensures !IsDigit(s[j])
      {
        assert i >= n;
        assert s[n..][i - n] == '#' && s[n..][j - n] == s[j];
      }
    }
  }

  lemma {:induction false} RunHasNoMark(s: string)
    ensures '#' !in s[..RunLength(s)]
  {
    if s != "" && IsRunChar(s[0]) {
      RunHasNoMark(s[1..]);
      assert s[..RunLength(s)] == [s[0]] + s[1..][..RunLength(s[1..])];
    }
  }

  /**
   * A skeleton loses the numbers and nothing else: filling it gives the name back exactly
   * when no number follows a mark the name itself holds.
   */
  lemma {:induction false} FillBack(s: string)
    ensures Fill(ShapeFrom(s).skel, Runs(s)) == s <==> MarksLast(s)
    decreases |s|
  {
    if s == "" {
    } else if IsDigit(s[0]) {
      FillBackRun(s);
    } else if s[0] == '#' {
      FillBackMark(s);
    } else {
      FillBack(s[1..]);
      FillPlain([s[0]], ShapeFrom(s[1..]).skel, Runs(s[1..]));
      assert s == [s[0]] + s[1..] && s[..1] == [s[0]];
      MarksLastTail(s, 1);
    }
  }

  lemma FillBackMark(s: string)
    requires s != "" && s[0] == '#'
    ensures Fill(ShapeFrom(s).skel, Runs(s)) == s <==> MarksLast(s)
  {
    var t := s[1..];
    VersionOfRuns(t);
    assert ShapeFrom(s).skel == ['#'] + ShapeFrom(t).skel && Runs(s) == Runs(t);
    if NoDigit(t) {
      PlainShape(t);
      assert s == ['#'] + t;
      assert forall j | 0 < j < |s| :: s[j] == t[j - 1];
    } else {
      var j :| 0 <= j < |t| && IsDigit(t[j]);
      assert s[j + 1] == t[j];
      assert Fill(ShapeFrom(s).skel, Runs(s))[0] == Runs(t)[0][0];
    }
  }

  lemma {:induction false} FillBackRun(s: string)
    requires s != "" && IsDigit(s[0])
    ensures Fill(ShapeFrom(s).skel, Runs(s)) == s <==> MarksLast(s)
    decreases |s|, 0
  {
    RunFacts(s);
    RunHasNoMark(s);
    var n, run := RunLength(s), Run(s);
    FillBack(s[n..]);
    assert forall c | c in s[|run|..n] :: c in s[..n];
    FillRun(run, s[|run|..n], ShapeFrom(s[n..]).skel, Runs(s[n..]));
    var filled := Fill(ShapeFrom(s[n..]).skel, Runs(s[n..]));
    SameTail(s, |run|, n, filled);
    MarksLastTail(s, n);
  }

  lemma SameTail(s: string, m: nat, n: nat, t: string)
    requires m <= n <= |s|
    ensures s[..m] + (s[m..n] + t) == s <==> t == s[n..]
  {
    assert s == s[..m] + (s[m..n] + s[n..]);
    assert (s[..m] + (s[m..n] + t))[n..] == t;
  }

  /** Tags are not versions: nothing after the first colon matters. */
  lemma TagsIgnored(base: string, tag: string)
    requires ':' !in base
    ensures ShapeOf(base + ":" + tag) == ShapeOf(base)
  {
    CutAt(base, ':', tag);
    CutFacts(base, ':');
    assert base + ":" + tag == base + [':'] + tag;
  }

  // ---- names made of numbers -------------------------------------------------

  function Texts(ns: Version): (r: seq<string>)
    ensures |r| == |ns| && forall i | 0 <= i < |ns| :: r[i] == FormatNat(ns[i])
  {
    seq(|ns|, i requires 0 <= i < |ns| => FormatNat(ns[i]))
  }

  /** The numbers with dots between them. */
  function Dotted(ns: Version): string
    requires ns != []
  {
    Join(Texts(ns), '.')
  }

  /** Digits and dots, a digit at either end. */
  predicate RunText(s: string) {
    s != "" && IsDigit(s[0]) && IsDigit(s[|s| - 1]) && forall i | 0 <= i < |s| :: IsRunChar(s[i])
  }

  lemma {:induction false} JoinedRun(parts: seq<string>)
    requires parts != [] && forall i | 0 <= i < |parts| :: parts[i] != "" && AllDigits(parts[i])
    ensures RunText(Join(parts, '.'))
  {
    if |parts| > 1 {
      JoinedRun(parts[1..]);
      var rest := Join(parts[1..], '.');
      var all := Join(parts, '.');
      assert all == parts[0] + ['.'] + rest;
      assert all[|all| - 1] == rest[|rest| - 1];
    }
  }

  lemma {:induction false} RunReaches(x: string, q: string)
    requires (forall i | 0 <= i < |x| :: IsRunChar(x[i])) && (q != "" ==> !IsRunChar(q[0]))
    ensures RunLength(x + q) == |x|
  {
    if x == "" {
      assert x + q == q;
    } else {
      assert (x + q)[1..] == x[1..] + q;
      RunReaches(x[1..], q);
    }
  }

  lemma {:induction false} PlainBefore(p: string, s: string)
    requires NoDigit(p)
    ensures ShapeFrom(p + s) == Shape(p + ShapeFrom(s).skel, ShapeFrom(s).ver)
  {
    if p == "" {
      assert p + s == s;
    } else {
      assert (p + s)[1..] == p[1..] + s;
      PlainBefore(p[1..], s);
      assert p == [p[0]] + p[1..];
    }
  }

  lemma RunThenPlain(x: string, q: string)
    requires RunText(x) && NoDigit(q) && (q != "" ==> q[0] != '.')
    ensures ShapeFrom(x + q) == Shape("#" + q, Fields(Split(x, '.')))
  {
    var s := x + q;
    RunReaches(x, q);
    assert s[..|x|] == x && s[|x|..] == q && s[|x|..|x|] == "";
    assert TrimRight(x, IsDot) == x;
    ShapeOfRun(s, |x|, x);
    PlainShape(q);
  }

  /** A name written from numbers reads back as those numbers, in order, and the rest as its skeleton. */
  lemma NumbersReadBack(p: string, ns: Version, q: string)
    requires ns != [] && forall i | 0 <= i < |ns| :: ns[i] <= MAX_INT
    requires NoDigit(p) && NoDigit(q) && (q != "" ==> q[0] != '.') && ':' !in p + q
    ensures ShapeOf(p + (Dotted(ns) + q)) == Shape(p + ("#" + q), ns)
  {
    var parts, x := Texts(ns), Dotted(ns);
    JoinedRun(parts);
    SplitJoin(parts, '.');
    FieldsLength(parts);
    forall i | 0 <= i < |ns|
      ensures Fields(parts)[i] == ns[i]
    {
      FieldsAt(parts, i);
    }
    assert Fields(parts) == ns;
    RunThenPlain(x, q);
    PlainBefore(p, x + q);
    CutFacts(p + (x + q), ':');
    assert ':' !in p + (x + q);
  }

  /** So of two such names one succeeds the other exactly when its numbers are greater. */
  lemma SuccessorByNumbers(p: string, a: Version, b: Version, q: string)
    requires a != [] && b != []
    requires (forall i | 0 <= i < |a| :: a[i] <= MAX_INT) && (forall i | 0 <= i < |b| :: b[i] <= MAX_INT)
    requires NoDigit(p) && NoDigit(q) && (q != "" ==> q[0] != '.') && ':' !in p + q
    ensures Successor(p + (Dotted(a) + q), p + (Dotted(b) + q)) <==> Less(a, b)
  {
    NumbersReadBack(p, a, q);
    NumbersReadBack(p, b, q);
    CompareMeans(b, a);
  }

  // ---- the newest successor --------------------------------------------------

  predicate Family(name: string, m: string) {
    ShapeOf(m).skel == ShapeOf(name).skel && ShapeOf(m).ver != []
  }

  datatype Best = Best(name: string, ver: Version)

  function Consider(name: string, b: Best, m: string): Best {
    var v := ShapeOf(m).ver;
    if !Family(name, m) then b
    else if Compare(v, b.ver) > 0 || (b.name != "" && Compare(v, b.ver) == 0 && |m| < |b.name|) then Best(m, v)
    else b
  }

  function Search(name: string, listed: seq<string>): Best {
    if listed == [] then Best("", ShapeOf(name).ver)
    else Consider(name, Search(name, listed[..|listed| - 1]), listed[|listed| - 1])
  }

  function Newer(name: string, listed: seq<string>): string {
    if ShapeOf(name).ver == [] then "" else Search(name, listed).name
  }

  method NewerListed(name: string, listed: seq<string>) returns (best: string)
    ensures best == Newer(name, listed)
  {
    var skel, ver := VersionShape(name);
    if ver == [] {
      return "";
    }
    best := "";
    var bestVer := ver;
    for i := 0 to |listed|
      invariant Best(best, bestVer) == Search(name, listed[..i])
    {
      assert listed[..i + 1][..i] == listed[..i];
      var s, v := VersionShape(listed[i]);
      if s == skel && v != [] {
        var c := CompareVersions(v, bestVer);
        if c > 0 || (best != "" && c == 0 && |listed[i]| < |best|) {
          best, bestVer := listed[i], v;
        }
      }
    }
    assert listed[..|listed|] == listed;
  }

  /** A listed name of the family, strictly newer than the given one. */
  predicate Successor(name: string, m: string) {
    Family(name, m) && Compare(ShapeOf(m).ver, ShapeOf(name).ver) > 0
  }

  /** One beats another when it is newer, or as new and shorter. */
  predicate Beats(m: string, b: string) {
    var c := Compare(ShapeOf(m).ver, ShapeOf(b).ver);
    c > 0 || (c == 0 && |m| < |b|)
  }

  /** What the search holds after a prefix of the listing. */
  ghost predicate Chosen(name: string, listed: seq<string>, b: Best) {
    if b.name == "" then
      b.ver == ShapeOf(name).ver && forall m | m in listed :: !Successor(name, m)
    else
      && b.ver == ShapeOf(b.name).ver && Successor(name, b.name)
      && (forall m | m in listed && Successor(name, m) :: !Beats(m, b.name))
      && (exists i :: 0 <= i < |listed| && listed[i] == b.name && FirstAt(name, listed, b.name, i))
  }

  /** Everything listed before position i that belongs is beaten by the name there. */
  predicate FirstAt(name: string, listed: seq<string>, b: string, i: nat)
    requires i <= |listed|
  {
    forall j | 0 <= j < i && Successor(name, listed[j]) :: Beats(b, listed[j])
  }

  lemma BlankHasNoVersion()
    ensures ShapeOf("").ver == []
  {
  }

  lemma ConsiderStep(name: string, listed: seq<string>, b: Best, m: string)
    requires Chosen(name, listed, b)
    ensures Chosen(name, listed + [m], Consider(name, b, m))
  {
    BlankHasNoVersion();
    var all := listed + [m];
    var v := ShapeOf(m).ver;
    CompareMeans(v, ShapeOf(name).ver);
    if b.name == "" {
      if Consider(name, b, m).name == m && m != "" && Family(name, m) && Compare(v, b.ver) > 0 {
        CompareMeans(v, v);
        assert FirstAt(name, all, m, |listed|) by {
          assert forall j | 0 <= j < |listed| :: all[j] in listed;
        }
        assert all[|listed|] == m;
      }
    } else {
      CompareMeans(v, b.ver);
      var i :| 0 <= i < |listed| && listed[i] == b.name && FirstAt(name, listed, b.name, i);
      if Family(name, m) && Beats(m, b.name) {
        Replaced(name, listed, b.name, m);
      } else {
        assert all[i] == b.name && FirstAt(name, all, b.name, i);
        if Successor(name, m) {
          assert !Beats(m, b.name);
        }
      }
    }
  }

  /** A name that beats the best so far beats everything it beat. */
  lemma Replaced(name: string, listed: seq<string>, b: string, m: string)
    requires Successor(name, b) && Family(name, m) && Beats(m, b)
    requires forall x | x in listed && Successor(name, x) :: !Beats(x, b)
    ensures Successor(name, m)
    ensures forall x | x in listed + [m] && Successor(name, x) :: !Beats(x, m)
    ensures FirstAt(name, listed + [m], m, |listed|)
  {
    CompareMeans(ShapeOf(m).ver, ShapeOf(b).ver);
    CompareMeans(ShapeOf(b).ver, ShapeOf(name).ver);
    CompareTransitive(ShapeOf(name).ver, ShapeOf(b).ver, ShapeOf(m).ver);
    CompareMeans(ShapeOf(name).ver, ShapeOf(m).ver);
    CompareMeans(ShapeOf(m).ver, ShapeOf(m).ver);
    forall x | x in listed && Successor(name, x)
      ensures Beats(m, x) && !Beats(x, m)
    {
      var vx, vb, vm := ShapeOf(x).ver, ShapeOf(b).ver, ShapeOf(m).ver;
      CompareMeans(vx, vb);
      CompareTransitive(vx, vb, vm);
      CompareMeans(vx, vm);
    }
  }

  lemma {:induction false} SearchChosen(name: string, listed: seq<string>)
    ensures Chosen(name, listed, Search(name, listed))
  {
    if listed != [] {
      var before := listed[..|listed| - 1];
      SearchChosen(name, before);
      ConsiderStep(name, before, Search(name, before), listed[|listed| - 1]);
      assert before + [listed[|listed| - 1]] == listed;
    }
  }

  /** A name with neither a number nor a mark has no successor anywhere. */
  lemma UnversionedAlone(name: string, m: string)
    requires ShapeOf(name).ver == [] && '#' !in name
    ensures !Successor(name, m)
  {
    var base := Cut(name, ':').before;
    CutFacts(name, ':');
    assert forall c | c in base :: c in name;
    VersionOfRuns(base);
    PlainShape(base);
    VersionOfRuns(Cut(m, ':').before);
  }

  /**
   * The answer is "" exactly when the name has no version or nothing listed in the family
   * is strictly newer; else it is listed, newest, shortest among the newest, and the first
   * of those. Only a name with a mark of its own can have no version and a successor.
   */
  lemma NewestSuccessor(name: string, listed: seq<string>)
    ensures var r := Newer(name, listed);
            && (r == "" <==> ShapeOf(name).ver == [] || forall m | m in listed :: !Successor(name, m))
            && ('#' !in name ==> (r == "" <==> forall m | m in listed :: !Successor(name, m)))
            && (r != "" ==>
                && r in listed && Successor(name, r)
                && (forall m | m in listed && Successor(name, m) :: !Beats(m, r))
                && (exists i :: 0 <= i < |listed| && listed[i] == r && FirstAt(name, listed, r, i)))
  {
    SearchChosen(name, listed);
    if ShapeOf(name).ver == [] && '#' !in name {
      forall m | m in listed
        ensures !Successor(name, m)
      {
        UnversionedAlone(name, m);
      }
    }
  }

  /** Such a name: it reads as the skeleton of the listed one, which is not suggested. */
  lemma MarkedName()
    ensures Successor("#", "3") && Newer("#", ["3"]) == ""
  {
    PlainShape("#");
    assert Cut("#", ':').before == "#" && Cut("3", ':').before == "3";
    ThreeShape();
    CompareMeans([3], []);
    assert DecidesAt([], [3], 0);
  }

  lemma ThreeShape()
    ensures ShapeFrom("3") == Shape("#", [3])
  {
    assert RunLength("3") == 1 && "3"[..1] == "3";
    assert Run("3") == "3";
    SplitWhole("3", '.');
    assert Fields(["3"]) == [Field("3")] && DigitsValue("3") == 3;
    assert ShapeFrom("3"[1..]) == Shape("", []);
  }

  /** Asking again about the answer gives nothing: it has no successor itself. */
  lemma NewestIsLast(name: string, listed: seq<string>)
    ensures Newer(Newer(name, listed), listed) == ""
  {
    BlankHasNoVersion();
    var r := Newer(name, listed);
    if r != "" {
      NewestSuccessor(name, listed);
      forall m | m in listed
        ensures !Successor(r, m)
      {
        if Successor(r, m) {
          var vn, vr, vm := ShapeOf(name).ver, ShapeOf(r).ver, ShapeOf(m).ver;
          CompareMeans(vr, vn);
          CompareMeans(vm, vr);
          CompareTransitive(vn, vr, vm);
          CompareMeans(vn, vm);
          assert Successor(name, m) && Beats(m, r);
        }
      }
      NewestSuccessor(r, listed);
    }
  }
}
