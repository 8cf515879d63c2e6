/**
 * Where the cluster's promises end: for each, the runs that break it and the exact
 * condition on the configuration or the clocks under which no run does.
 */
module AlertLimits {
  import opened Machine
  import opened AlertVerdict
  import opened AlertRows
  import opened AlertEngine
  import opened AlertCluster

  // ---- clocks ----------------------------------------------------------------

  /** Every observation of the run was stamped at `t` or later. */
  predicate BeginsFrom(run: seq<Step>, t: Instant) {
    forall i | 0 <= i < |run| && run[i].Begin? :: run[i].now >= t
  }

  /** Two nodes see the same condition low at the same instant. */
  function BothLow(t: Instant): seq<Step> { Visit(0, "k", Direct(true), t) + Visit(1, "k", Direct(true), t) }

  /** What a visit that raises, or resolves, leaves of its key. */
  lemma Raises(o: Options, drivers: seq<string>, w: World, n: NodeId, fig: Figure, now: Instant)
    requires w.flights == map[] && VerdictOf(o, fig) == Low && RaiseWins(w.rows, "k", RemindBefore(o, now))
    ensures var v := Exec(o, drivers, w, Visit(n, "k", fig, now));
            && v.flights == map[] && LowIn(v.rows, "k") && v.rows["k"].lastSent == Micros(now)
            && |v.claims| == |w.claims| + 1 && v.claims[..|w.claims|] == w.claims
            && v.claims[|w.claims|].key == "k" && v.claims[|w.claims|].low
  {
    Visited(o, drivers, w, n, "k", fig, now);
  }

  lemma Resolves(o: Options, drivers: seq<string>, w: World, n: NodeId, fig: Figure, now: Instant)
    requires w.flights == map[] && VerdictOf(o, fig) == OK && LowIn(w.rows, "k")
    ensures var v := Exec(o, drivers, w, Visit(n, "k", fig, now));
            && v.flights == map[] && !LowIn(v.rows, "k")
            && |v.claims| == |w.claims| + 1 && v.claims[..|w.claims|] == w.claims
            && v.claims[|w.claims|].key == "k" && v.claims[|w.claims|].fig == fig
  {
    Visited(o, drivers, w, n, "k", fig, now);
  }

  /** By a clock not past the epoch the second of them is announced too. */
  lemma BothAnnounced(o: Options, drivers: seq<string>, t: Instant)
    requires o.remind <= 0 && Micros(t) <= 0
    ensures var cs := ClaimsOf(Exec(o, drivers, START, BothLow(t)).claims, "k"); |cs| == 2 && cs[0].low && cs[1].low
  {
    var r1, r2 := Visit(0, "k", Direct(true), t), Visit(1, "k", Direct(true), t);
    Raises(o, drivers, START, 0, Direct(true), t);
    var w := Exec(o, drivers, START, r1);
    Raises(o, drivers, w, 1, Direct(true), t);
    var v := Exec(o, drivers, w, r2);
    ExecConcat(o, drivers, START, r1, r2);
    assert v.claims[0] == v.claims[..1][0];
    OnlyClaims(v.claims);
  }

  lemma {:induction false} OnlyClaims(claims: seq<Announced>)
    requires forall i | 0 <= i < |claims| :: claims[i].key == "k"
    ensures ClaimsOf(claims, "k") == claims
  {
    if claims != [] {
      OnlyClaims(claims[..|claims| - 1]);
    }
  }

  ghost predicate AlwaysAlternates(o: Options, drivers: seq<string>, t: Instant) {
    forall run, key | BeginsFrom(run, t) :: Alternating(Exec(o, drivers, START, run), key)
  }

  ghost predicate NeverFlaps(o: Options, drivers: seq<string>, t: Instant) {
    forall run, key | BeginsFrom(run, t) :: Unflapping(o, ClaimsOf(Exec(o, drivers, START, run).claims, key))
  }

  /**
   * Reminders off: announcements alternate in every run by clocks from `t` on, and never
   * flap, exactly when `t` is past the epoch at the table's resolution, because the epoch
   * is the cutoff a raise passes when no reminder is configured.
   */
  lemma AlternatesExactly(o: Options, drivers: seq<string>, t: Instant)
    requires o.remind <= 0 && o.retryAfter > 0
    ensures AlwaysAlternates(o, drivers, t) <==> Micros(t) > 0
    ensures NeverFlaps(o, drivers, t) <==> Micros(t) > 0
  {
    if Micros(t) > 0 {
      forall run, key | BeginsFrom(run, t)
        ensures Alternating(Exec(o, drivers, START, run), key)
        ensures Unflapping(o, ClaimsOf(Exec(o, drivers, START, run).claims, key))
      {
        TimelyFrom(run, t);
        Alternates(o, drivers, run, key);
        NoFlapping(o, drivers, run, key);
      }
    } else {
      BothAnnounced(o, drivers, t);
      assert BeginsFrom(BothLow(t), t);
      NotAlternating(o, Exec(o, drivers, START, BothLow(t)));
    }
  }

  lemma TimelyFrom(run: seq<Step>, t: Instant)
    requires BeginsFrom(run, t) && Micros(t) > 0
    ensures Timely(run)
  {
    forall i | 0 <= i < |run| && run[i].Begin?
      ensures Micros(run[i].now) > 0
    {
      MicrosMonotone(t, run[i].now);
    }
  }

  lemma NotAlternating(o: Options, w: World)
    requires var cs := ClaimsOf(w.claims, "k"); |cs| == 2 && cs[0].low && cs[1].low
    ensures !Alternating(w, "k") && !Unflapping(o, ClaimsOf(w.claims, "k"))
  {
    var cs := ClaimsOf(w.claims, "k");
    assert cs[0].low && cs[1].low;
  }

  // ---- floors ----------------------------------------------------------------

  /** After a low, a balance in dollars comes back only at half again the floor, its share judged OK. */
  predicate Clears(o: Options, cs: seq<Announced>) {
    forall i, j | 0 <= i < j < |cs| && cs[i].low && cs[j].low && cs[i + 1].fig.Balance? && cs[i + 1].fig.usd ::
      var f := cs[i + 1].fig;
      && (o.floorNano > 0 ==> 2 * f.remaining >= 3 * o.floorNano - 1)
      && (f.total > 0 ==> Judge(o, f.remaining as real, f.total as real) == OK)
  }

  lemma UnflappingClears(o: Options, cs: seq<Announced>)
    requires Unflapping(o, cs) && FloorFits(o)
    ensures Clears(o, cs)
  {
    forall i, j | 0 <= i < j < |cs| && cs[i].low && cs[j].low && cs[i + 1].fig.Balance? && cs[i + 1].fig.usd
      ensures o.floorNano > 0 ==> 2 * cs[i + 1].fig.remaining >= 3 * o.floorNano - 1
      ensures cs[i + 1].fig.total > 0 ==> Judge(o, cs[i + 1].fig.remaining as real, cs[i + 1].fig.total as real) == OK
    {
      BalanceClear(o, cs[i + 1].fig.remaining, cs[i + 1].fig.total);
    }
  }

  /** Under the floor, at the floor, and under it again. */
  function Dip(floor: Int64): seq<Step>
    requires floor > 0
  {
    var low, ok := Balance(floor - 1, 0, true), Balance(floor, 0, true);
    Visit(0, "k", low, 1000) + Visit(1, "k", ok, 1000) + Visit(2, "k", low, 1000)
  }

  /** A floor whose half again wraps lets the balance recover at the floor itself. */
  lemma DipAnnounced(o: Options, drivers: seq<string>)
    requires o.floorNano > 0 && !FloorFits(o)
    ensures var cs := ClaimsOf(Exec(o, drivers, START, Dip(o.floorNano)).claims, "k");
            |cs| == 3 && cs[0].low && cs[2].low && cs[1].fig == Balance(o.floorNano, 0, true)
  {
    DipVerdicts(o);
    LowOkLow(o, drivers, Balance(o.floorNano - 1, 0, true), Balance(o.floorNano, 0, true));
  }

  lemma DipVerdicts(o: Options)
    requires o.floorNano > 0 && !FloorFits(o)
    ensures VerdictOf(o, Balance(o.floorNano - 1, 0, true)) == Low && VerdictOf(o, Balance(o.floorNano, 0, true)) == OK
  {
  }

  lemma LowOkLow(o: Options, drivers: seq<string>, low: Figure, ok: Figure)
    requires VerdictOf(o, low) == Low && VerdictOf(o, ok) == OK
    ensures var run := Visit(0, "k", low, 1000) + Visit(1, "k", ok, 1000) + Visit(2, "k", low, 1000);
            var cs := ClaimsOf(Exec(o, drivers, START, run).claims, "k");
            |cs| == 3 && cs[0].low && cs[2].low && cs[1].fig == ok
  {
    var r1, r2, r3 := Visit(0, "k", low, 1000), Visit(1, "k", ok, 1000), Visit(2, "k", low, 1000);
    Raises(o, drivers, START, 0, low, 1000);
    var w1 := Exec(o, drivers, START, r1);
    Resolves(o, drivers, w1, 1, ok, 1000);
    var w2 := Exec(o, drivers, w1, r2);
    Raises(o, drivers, w2, 2, low, 1000);
    var w3 := Exec(o, drivers, w2, r3);
    ExecConcat(o, drivers, START, r1, r2);
    ExecConcat(o, drivers, START, r1 + r2, r3);
    ThreeClaims(w1.claims, w2.claims, w3.claims);
  }

  lemma ThreeClaims(a: seq<Announced>, b: seq<Announced>, c: seq<Announced>)
    requires |a| == 1 && |b| == 2 && |c| == 3 && b[..1] == a && c[..2] == b
    requires a[0].key == "k" && b[1].key == "k" && c[2].key == "k"
    ensures ClaimsOf(c, "k") == c && c[0] == a[0] && c[1] == b[1]
  {
    assert c[0] == c[..2][0] && c[1] == c[..2][1] && b[0] == b[..1][0];
    OnlyClaims(c);
  }

  ghost predicate AlwaysClears(o: Options, drivers: seq<string>) {
    forall run, key | Timely(run) :: Clears(o, ClaimsOf(Exec(o, drivers, START, run).claims, key))
  }

  /**
   * End to end for a balance in dollars: between two lows it stood at half again the floor
   * or more, and its share was OK, in every run exactly when half again the floor fits.
   */
  lemma BalanceClears(o: Options, drivers: seq<string>)
    requires o.remind <= 0 && o.retryAfter > 0
    ensures AlwaysClears(o, drivers) <==> FloorFits(o)
  {
    if FloorFits(o) {
      forall run, key | Timely(run)
        ensures Clears(o, ClaimsOf(Exec(o, drivers, START, run).claims, key))
      {
        NoFlapping(o, drivers, run, key);
        UnflappingClears(o, ClaimsOf(Exec(o, drivers, START, run).claims, key));
      }
    } else {
      DipAnnounced(o, drivers);
      assert Micros(1000) > 0;
      assert Timely(Dip(o.floorNano));
      NotClear(o, ClaimsOf(Exec(o, drivers, START, Dip(o.floorNano)).claims, "k"));
    }
  }

  lemma NotClear(o: Options, cs: seq<Announced>)
    requires o.floorNano > 1 && |cs| == 3 && cs[0].low && cs[2].low && cs[1].fig == Balance(o.floorNano, 0, true)
    ensures !Clears(o, cs)
  {
    assert 0 < 2 && cs[0].low && cs[2].low && cs[0 + 1].fig.Balance?;
  }
}
