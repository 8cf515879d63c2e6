/**
 * Moving every literal secret of an imported configuration to an environment reference,
 * under variable names no credential's key already refers to. Strings here are byte strings.
 */
module Redaction {
  import opened Text

  datatype SecretRef = SecretRef(env: string, file: string, external: string, inline: string)

  datatype Credential = Credential(id: string, provider: string, key: SecretRef)

  /** One line of the report, and the literal it stands for. */
  datatype Found = Found(id: string, provider: string, env: string, literal: string)

  // ---- identifiers -----------------------------------------------------------

  /** What an environment variable name may hold. */
  predicate IsEnvChar(c: char) { 'A' <= c <= 'Z' || '0' <= c <= '9' || c == '_' }

  predicate IsEnvName(s: string) { s != "" && forall i | 0 <= i < |s| :: IsEnvChar(s[i]) }

  function EnvChar(c: char): (r: char)
    ensures IsEnvChar(r)
  {
    if 'a' <= c <= 'z' then 'A' + (c - 'a')
    else if 'A' <= c <= 'Z' || '0' <= c <= '9' then c
    else '_'
  }

  function EnvIdent(s: string): (r: string)
    ensures IsEnvName(r)
  {
    if s == "" then "IMPORTED" else seq(|s|, i requires 0 <= i < |s| => EnvChar(s[i]))
  }

  /** A letter goes to upper case, a digit stays, and anything else is an underscore. */
  lemma EnvIdentExactly(s: string, i: nat)
    requires i < |s|
    ensures |EnvIdent(s)| == |s| && EnvIdent("") == "IMPORTED"
    ensures 'a' <= s[i] <= 'z' ==> EnvIdent(s)[i] as int == s[i] as int - 32
    ensures 'A' <= s[i] <= 'Z' || '0' <= s[i] <= '9' ==> EnvIdent(s)[i] == s[i]
    ensures s[i] < '0' || '9' < s[i] < 'A' || 'Z' < s[i] < 'a' || 'z' < s[i] ==> EnvIdent(s)[i] == '_'
  {
  }

  method EnvIdentOf(s: string) returns (r: string)
    ensures r == EnvIdent(s)
  {
    r := "";
    for i := 0 to |s|
      invariant |r| == i && forall k | 0 <= k < i :: r[k] == EnvChar(s[k])
    {
      var c := s[i];
      if 'a' <= c <= 'z' {
        r := r + ['A' + (c - 'a')];
      } else if 'A' <= c <= 'Z' || '0' <= c <= '9' {
        r := r + [c];
      } else {
        r := r + ['_'];
      }
    }
    if r == "" {
      return "IMPORTED";
    }
  }

  function Base(provider: string): string { "DORANG_" + EnvIdent(provider) + "_API_KEY" }

  /** The k-th name tried: the base, then the base with _2, _3, ... */
  function Candidate(base: string, k: nat): string {
    if k <= 1 then base else base + "_" + FormatNat(k)
  }

  /** What the names tried look like: a fixed beginning, the provider, a fixed end, and a number from 2 on. */
  lemma NameExactly(provider: string, k: nat)
    ensures var name := Candidate(Base(provider), k);
            var fixed := 7 + |EnvIdent(provider)| + 8;
            && |name| >= fixed && name[..7] == "DORANG_" && name[7..fixed - 8] == EnvIdent(provider)
            && name[fixed - 8..fixed] == "_API_KEY"
            && (k <= 1 ==> |name| == fixed)
            && (k > 1 ==> |name| > fixed && name[fixed] == '_' && AllDigits(name[fixed + 1..])
                          && DigitsValue(name[fixed + 1..]) == k)
  {
    var base, ident := Base(provider), EnvIdent(provider);
    BaseExactly(ident);
    if k > 1 {
      Numbered(base, FormatNat(k), ident);
    }
  }

  lemma BaseExactly(ident: string)
    ensures var base := "DORANG_" + ident + "_API_KEY";
            base[..7] == "DORANG_" && base[7..|base| - 8] == ident && base[|base| - 8..] == "_API_KEY"
  {
  }

  lemma Numbered(base: string, n: string, ident: string)
    requires |base| == 7 + |ident| + 8
    ensures var name := base + "_" + n;
            && name[..7] == base[..7] && name[7..|base| - 8] == base[7..|base| - 8]
            && name[|base| - 8..|base|] == base[|base| - 8..] && name[|base|] == '_' && name[|base| + 1..] == n
  {
  }

  lemma CandidatesDiffer(base: string, j: nat, k: nat)
    requires 1 <= j < k
    ensures Candidate(base, j) != Candidate(base, k)
  {
    var p := base + "_";
    assert FormatNat(j) != FormatNat(k);
    assert Candidate(base, k)[|p|..] == FormatNat(k);
    if j > 1 {
      assert Candidate(base, j)[|p|..] == FormatNat(j);
    }
  }

  lemma CandidateIsName(provider: string, k: nat)
    ensures IsEnvName(Candidate(Base(provider), k))
  {
    assert IsEnvName(EnvIdent(provider)) && AllDigits(FormatNat(k));
  }

  /** The names tried before the k-th. */
  ghost function Tried(base: string, k: nat): set<string> {
    if k <= 1 then {} else Tried(base, k - 1) + {Candidate(base, k - 1)}
  }

  lemma {:induction false} TriedAre(base: string, k: nat, x: string)
    ensures x in Tried(base, k) <==> exists j :: 1 <= j < k && x == Candidate(base, j)
  {
    if k > 1 {
      TriedAre(base, k - 1, x);
    }
  }

  /** The names tried are all different, so there are as many as tries. */
  lemma {:induction false} TriedSize(base: string, k: nat)
    requires k >= 1
    ensures |Tried(base, k)| == k - 1
  {
    if k > 1 {
      TriedSize(base, k - 1);
      TriedAre(base, k - 1, Candidate(base, k - 1));
      forall j | 1 <= j < k - 1
        ensures Candidate(base, j) != Candidate(base, k - 1)
      {
        CandidatesDiffer(base, j, k - 1);
      }
    }
  }

  lemma Within(a: set<string>, b: set<string>)
    requires a <= b
    ensures |a| <= |b|
  {
    assert b == a + (b - a);
  }

  /**
   * The first free name, for every finite set of used ones: each name tried before it is
   * taken, so the search ends after at most one more try than there are names.
   */
  method ImportEnvName(provider: string, used: set<string>) returns (name: string, used': set<string>, ghost k: nat)
    ensures 1 <= k <= |used| + 1 && name == Candidate(Base(provider), k)
    ensures name !in used && used' == used + {name}
    ensures forall j | 1 <= j < k :: Candidate(Base(provider), j) in used
  {
    var base := Base(provider);
    name, k := base, 1;
    var n := 2;
    while name in used
      invariant 1 <= k == n - 1 <= |used| + 1 && name == Candidate(base, k) && Tried(base, k) <= used
      decreases |used| + 1 - k
    {
      TriedSize(base, k + 1);
      Within(Tried(base, k + 1), used);
      name := base + "_" + FormatNat(n);
      n, k := n + 1, k + 1;
    }
    forall j | 1 <= j < k
      ensures Candidate(base, j) in used
    {
      TriedAre(base, k, Candidate(base, j));
    }
    used' := used + {name};
  }

  // ---- the redaction ---------------------------------------------------------

  /** The variables the credentials already name as their keys. */
  function Named(cs: seq<Credential>): set<string> {
    set i | 0 <= i < |cs| && cs[i].key.env != "" :: cs[i].key.env
  }

  /** The literals of a configuration, in order. */
  function Literals(cs: seq<Credential>): seq<string> {
    if cs == [] then []
    else Literals(cs[..|cs| - 1]) + if cs[|cs| - 1].key.inline != "" then [cs[|cs| - 1].key.inline] else []
  }

  /** What one credential may become: itself, or a reference to a variable. */
  predicate Redacted(was: Credential, now: Credential) {
    if was.key.inline == "" then now == was
    else now == was.(key := SecretRef(now.key.env, "", "", "")) && IsEnvName(now.key.env)
  }

  /** The variables given out are none the credentials named, and differ from one another. */
  predicate AllNew(was: seq<Credential>, now: seq<Credential>)
    requires |was| == |now|
  {
    && (forall i | 0 <= i < |was| && was[i].key.inline != "" :: now[i].key.env !in Named(was))
    && (forall i, j | 0 <= i < j < |was| && was[i].key.inline != "" && was[j].key.inline != "" ::
          now[i].key.env != now[j].key.env)
  }

  /** The name stands for a variable named before, or given out before the n-th credential. */
  ghost predicate Taken(was: seq<Credential>, now: seq<Credential>, n: nat, name: string)
    requires n <= |was| == |now|
  {
    name in Named(was) || exists i :: 0 <= i < n && was[i].key.inline != "" && now[i].key.env == name
  }

  /** Each literal gets the first name of its provider that is not taken. */
  ghost predicate FirstFree(was: seq<Credential>, now: seq<Credential>, n: nat)
    requires n < |was| == |now|
  {
    exists k: nat :: FreeAt(was, now, n, k)
  }

  ghost predicate FreeAt(was: seq<Credential>, now: seq<Credential>, n: nat, k: nat)
    requires n < |was| == |now|
  {
    var base := Base(was[n].provider);
    && k >= 1 && now[n].key.env == Candidate(base, k) && !Taken(was, now, n, Candidate(base, k))
    && forall j | 1 <= j < k :: Taken(was, now, n, Candidate(base, j))
  }

  method NamedVariables(cs: array<Credential>) returns (used: set<string>)
    ensures used == Named(cs[..])
  {
    used := {};
    for i := 0 to cs.Length
      invariant used == Named(cs[..i])
    {
      assert cs[..i + 1] == cs[..i] + [cs[i]];
      NamedSnoc(cs[..i], cs[i]);
      if cs[i].key.env != "" {
        used := used + {cs[i].key.env};
      }
    }
    assert cs[..cs.Length] == cs[..];
  }

  lemma NamedSnoc(cs: seq<Credential>, c: Credential)
    ensures Named(cs + [c]) == Named(cs) + if c.key.env != "" then {c.key.env} else {}
  {
    var all := cs + [c];
    forall v | v in Named(cs)
      ensures v in Named(all)
    {
      var i :| 0 <= i < |cs| && cs[i].key.env != "" && cs[i].key.env == v;
      assert all[i].key.env == v;
    }
    if c.key.env != "" {
      assert all[|cs|].key.env == c.key.env;
    }
  }

  /** A report line stands for one of the first n credentials. */
  ghost predicate Reported(was: seq<Credential>, now: seq<Credential>, n: nat, f: Found)
    requires n <= |was| == |now|
  {
    exists i :: 0 <= i < n && was[i].key.inline == f.literal &&
                f.env == now[i].key.env && f.id == now[i].id && f.provider == now[i].provider
  }

  /** The first n credentials are done; `used` holds every name given out or there before. */
  ghost predicate Done(was: seq<Credential>, now: seq<Credential>, n: nat, used: set<string>)
    requires n <= |was| == |now|
  {
    && now[n..] == was[n..] && Named(was) <= used
    && (forall j | 0 <= j < n :: now[j].key.inline == "" && Redacted(was[j], now[j]))
    && (forall j | 0 <= j < n && was[j].key.inline != "" :: now[j].key.env !in Named(was) && now[j].key.env in used)
    && (forall a, b | 0 <= a < b < n && was[a].key.inline != "" && was[b].key.inline != "" ::
          now[a].key.env != now[b].key.env)
  }

  lemma DoneLiteral(was: seq<Credential>, now: seq<Credential>, n: nat, used: set<string>, name: string)
    requires n < |was| == |now| && Done(was, now, n, used)
    requires was[n].key.inline != "" && name !in used && IsEnvName(name)
    ensures Done(was, now[n := was[n].(key := SecretRef(name, "", "", ""))], n + 1, used + {name})
  {
  }

  lemma DonePlain(was: seq<Credential>, now: seq<Credential>, n: nat, used: set<string>)
    requires n < |was| == |now| && Done(was, now, n, used) && was[n].key.inline == ""
    ensures Done(was, now, n + 1, used)
  {
  }

  /** What is used is exactly what is taken, and the first n names were each the first free. */
  ghost predicate Picked(was: seq<Credential>, now: seq<Credential>, n: nat, used: set<string>)
    requires n <= |was| == |now|
  {
    && (forall x :: x in used <==> Taken(was, now, n, x))
    && (forall i | 0 <= i < n && was[i].key.inline != "" :: FirstFree(was, now, i))
  }

  lemma TakenKept(was: seq<Credential>, before: seq<Credential>, now: seq<Credential>, n: nat, name: string)
    requires n <= |was| == |before| == |now| && before[..n] == now[..n]
    ensures Taken(was, before, n, name) <==> Taken(was, now, n, name)
  {
    assert forall i | 0 <= i < n :: before[i] == before[..n][i] && now[i] == now[..n][i];
  }

  lemma FreeKept(was: seq<Credential>, before: seq<Credential>, now: seq<Credential>, n: nat)
    requires n < |was| == |before| == |now| && before[..n + 1] == now[..n + 1] && FirstFree(was, before, n)
    ensures FirstFree(was, now, n)
  {
    var k: nat :| FreeAt(was, before, n, k);
    assert before[n] == before[..n + 1][n] && now[n] == now[..n + 1][n];
    assert before[..n] == before[..n + 1][..n] && now[..n] == now[..n + 1][..n];
    forall j | 1 <= j <= k
      ensures Taken(was, before, n, Candidate(Base(was[n].provider), j)) <==>
              Taken(was, now, n, Candidate(Base(was[n].provider), j))
    {
      TakenKept(was, before, now, n, Candidate(Base(was[n].provider), j));
    }
    assert FreeAt(was, now, n, k);
  }

  /** One more name, the first free one. */
  lemma PickedLiteral(was: seq<Credential>, before: seq<Credential>, n: nat, used: set<string>, name: string, k: nat)
    requires n < |was| == |before| && Picked(was, before, n, used) && was[n].key.inline != ""
    requires k >= 1 && name == Candidate(Base(was[n].provider), k) && name !in used
    requires forall j | 1 <= j < k :: Candidate(Base(was[n].provider), j) in used
    ensures Picked(was, before[n := was[n].(key := SecretRef(name, "", "", ""))], n + 1, used + {name})
  {
    var now := before[n := was[n].(key := SecretRef(name, "", "", ""))];
    assert before[..n] == now[..n];
    forall x
      ensures x in used <==> Taken(was, now, n, x)
    {
      TakenKept(was, before, now, n, x);
    }
    assert FreeAt(was, now, n, k);
    forall i | 0 <= i < n && was[i].key.inline != ""
      ensures FirstFree(was, now, i)
    {
      assert before[..i + 1] == before[..n][..i + 1] && now[..i + 1] == now[..n][..i + 1];
      FreeKept(was, before, now, i);
    }
    TakenMore(was, now, n, used, name);
  }

  lemma TakenMore(was: seq<Credential>, now: seq<Credential>, n: nat, used: set<string>, name: string)
    requires n < |was| == |now| && was[n].key.inline != "" && now[n].key.env == name
    requires forall x :: x in used <==> Taken(was, now, n, x)
    ensures forall x :: x in used + {name} <==> Taken(was, now, n + 1, x)
  {
    forall x
      ensures x in used + {name} <==> Taken(was, now, n + 1, x)
    {
      assert x in used <==> Taken(was, now, n, x);
    }
  }

  lemma PickedPlain(was: seq<Credential>, now: seq<Credential>, n: nat, used: set<string>)
    requires n < |was| == |now| && Picked(was, now, n, used) && was[n].key.inline == ""
    ensures Picked(was, now, n + 1, used)
  {
    forall x
      ensures x in used <==> Taken(was, now, n + 1, x)
    {
      assert x in used <==> Taken(was, now, n, x);
    }
  }

  lemma ReportsKept(was: seq<Credential>, before: seq<Credential>, now: seq<Credential>, n: nat, found: seq<Found>)
    requires n < |was| == |before| == |now| && before[..n] == now[..n]
    requires forall f | f in found :: Reported(was, before, n, f)
    ensures forall f | f in found :: Reported(was, now, n + 1, f)
  {
  }

  function LiteralsOf(found: seq<Found>): seq<string> {
    if found == [] then [] else LiteralsOf(found[..|found| - 1]) + [found[|found| - 1].literal]
  }

  /** The first n credentials are done and the report accounts for them. */
  ghost predicate DoneSoFar(was: seq<Credential>, now: seq<Credential>, n: nat, used: set<string>, found: seq<Found>)
    requires n <= |was| == |now|
  {
    && Done(was, now, n, used) && Picked(was, now, n, used)
    && (forall f | f in found :: Reported(was, now, n, f)) && LiteralsOf(found) == Literals(was[..n])
  }

  lemma PlainDone(was: seq<Credential>, now: seq<Credential>, n: nat, used: set<string>, found: seq<Found>)
    requires n < |was| == |now| && DoneSoFar(was, now, n, used, found) && was[n].key.inline == ""
    ensures DoneSoFar(was, now, n + 1, used, found)
  {
    assert was[..n + 1][..n] == was[..n];
    DonePlain(was, now, n, used);
    PickedPlain(was, now, n, used);
    ReportsKept(was, now, now, n, found);
  }

  lemma LiteralDone(was: seq<Credential>, before: seq<Credential>, n: nat, used: set<string>, found: seq<Found>,
                    name: string, k: nat)
    requires n < |was| == |before| && DoneSoFar(was, before, n, used, found) && was[n].key.inline != ""
    requires k >= 1 && name == Candidate(Base(was[n].provider), k) && name !in used
    requires forall j | 1 <= j < k :: Candidate(Base(was[n].provider), j) in used
    ensures var now := before[n := was[n].(key := SecretRef(name, "", "", ""))];
            var line := Found(was[n].id, was[n].provider, name, was[n].key.inline);
            DoneSoFar(was, now, n + 1, used + {name}, found + [line])
  {
    CandidateIsName(was[n].provider, k);
    DoneLiteral(was, before, n, used, name);
    PickedLiteral(was, before, n, used, name, k);
    LiteralReported(was, before, n, found, name);
    LiteralsMore(was, n, found, Found(was[n].id, was[n].provider, name, was[n].key.inline));
  }

  lemma LiteralReported(was: seq<Credential>, before: seq<Credential>, n: nat, found: seq<Found>, name: string)
    requires n < |was| == |before| && forall f | f in found :: Reported(was, before, n, f)
    ensures var now := before[n := was[n].(key := SecretRef(name, "", "", ""))];
            var line := Found(was[n].id, was[n].provider, name, was[n].key.inline);
            forall f | f in found + [line] :: Reported(was, now, n + 1, f)
  {
    var now := before[n := was[n].(key := SecretRef(name, "", "", ""))];
    var line := Found(was[n].id, was[n].provider, name, was[n].key.inline);
    ReportsKept(was, before, now, n, found);
    assert Reported(was, now, n + 1, line) by {
      assert was[n].key.inline == line.literal && now[n].key.env == name;
    }
  }

  lemma LiteralsMore(was: seq<Credential>, n: nat, found: seq<Found>, line: Found)
    requires n < |was| && LiteralsOf(found) == Literals(was[..n])
    requires was[n].key.inline != "" && line.literal == was[n].key.inline
    ensures LiteralsOf(found + [line]) == Literals(was[..n + 1])
  {
    assert was[..n + 1][..n] == was[..n];
    assert (found + [line])[..|found|] == found;
  }

  /** Redact the i-th credential in place, if it holds a literal. */
  method RedactOne(cs: array<Credential>, i: nat, used: set<string>, found: seq<Found>, ghost was: seq<Credential>)
    returns (found': seq<Found>, used': set<string>)
    requires i < cs.Length == |was| && DoneSoFar(was, cs[..], i, used, found)
    modifies cs
    ensures DoneSoFar(was, cs[..], i + 1, used', found')
  {
    var c := cs[i];
    ghost var before := cs[..];
    assert c == before[i..][0] == was[i..][0] == was[i];
    if c.key.inline == "" {
      PlainDone(was, before, i, used, found);
      return found, used;
    }
    var name, more, k := ImportEnvName(c.provider, used);
    LiteralDone(was, before, i, used, found, name, k);
    cs[i] := c.(key := SecretRef(name, "", "", ""));
    assert cs[..] == before[i := cs[i]];
    return found + [Found(c.id, c.provider, name, c.key.inline)], more;
  }

  /**
   * After the redaction no credential holds a literal, the others are untouched, every
   * variable given out is a valid name, unused before and used once, and the report
   * accounts for the literals in order.
   */
  method RedactImportedCredentials(cs: array<Credential>) returns (found: seq<Found>)
    modifies cs
    ensures forall i | 0 <= i < cs.Length :: cs[i].key.inline == "" && Redacted(old(cs[i]), cs[i])
    ensures AllNew(old(cs[..]), cs[..])
    ensures forall i | 0 <= i < cs.Length && old(cs[i]).key.inline != "" :: FirstFree(old(cs[..]), cs[..], i)
    ensures LiteralsOf(found) == Literals(old(cs[..]))
    ensures forall f | f in found :: Reported(old(cs[..]), cs[..], cs.Length, f)
  {
    var used := NamedVariables(cs);
    found := [];
    ghost var was := cs[..];
    for i := 0 to cs.Length
      invariant DoneSoFar(was, cs[..], i, used, found)
    {
      found, used := RedactOne(cs, i, used, found, was);
    }
    assert was[..cs.Length] == was;
    forall i | 0 <= i < cs.Length
      ensures cs[i].key.inline == "" && Redacted(was[i], cs[i])
    {
      assert cs[..][i] == cs[i];
    }
  }
}
