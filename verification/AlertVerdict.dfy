/**
 * How one figure is judged: normalising the thresholds, the share rule, the balance
 * rule, and which rule a probed figure goes through. Amounts are reals where the
 * engine uses float64.
 */
module AlertVerdict {
  import opened Wrappers
  import opened Machine

  datatype Options = Options(
    percent: real, recoverPercent: real, floorNano: Int64,
    remind: int, retryAfter: int, recheck: int)

  const NANOS_PER_MINUTE: int := 60_000_000_000

  /** The defaults an engine is built with. Durations are nanoseconds. */
  function Normalised(o: Options): (n: Options)
    ensures 0.0 < n.percent && 0 < n.retryAfter && 0 < n.recheck
    ensures n.percent == o.percent || (o.percent <= 0.0 && n.percent == 5.0)
    ensures n.percent < o.recoverPercent <= 100.0 ==> n.recoverPercent == o.recoverPercent
    ensures o.recoverPercent <= n.percent <= 50.0 ==> n.recoverPercent == 2.0 * n.percent
    ensures o.recoverPercent > 100.0 ==> n.recoverPercent == 100.0
    ensures n.retryAfter == o.retryAfter || (o.retryAfter <= 0 && n.retryAfter == 300_000_000_000)
    ensures n.recheck == o.recheck || (o.recheck <= 0 && n.recheck == 60_000_000_000)
    ensures n.percent < 100.0 ==> n.percent < n.recoverPercent <= 100.0
    ensures n.remind == o.remind && n.floorNano == o.floorNano
  {
    var p := if o.percent <= 0.0 then 5.0 else o.percent;
    var r0 := if o.recoverPercent <= p then p * 2.0 else o.recoverPercent;
    Options(p, if r0 > 100.0 then 100.0 else r0, o.floorNano, o.remind,
            if o.retryAfter <= 0 then 5 * NANOS_PER_MINUTE else o.retryAfter,
            if o.recheck <= 0 then NANOS_PER_MINUTE else o.recheck)
  }

  datatype Verdict = Hold | Low | OK

  /** The order a rising figure moves through. */
  function Rank(v: Verdict): int {
    match v
    case Low => 0
    case Hold => 1
    case OK => 2
  }

  function Share(left: real, limit: real): real
    requires limit > 0.0
  {
    (if left < 0.0 then 0.0 else left) / limit * 100.0
  }

  function Judge(o: Options, left: real, limit: real): Verdict {
    if limit <= 0.0 then OK
    else
      var pct := Share(left, limit);
      if pct <= o.percent then Low
      else if pct > o.recoverPercent || pct >= 100.0 then OK
      else Hold
  }

  /** Half again the floor, in 64 bits. */
  function HalfAgain(floor: Int64): Int64 { Add64(floor, Quo(floor, 2)) }

  function JudgeBalance(o: Options, remaining: Int64, total: Int64): Verdict {
    var hasPct := total > 0;
    var pv := if hasPct then Judge(o, remaining as real, total as real) else Hold;
    if (o.floorNano > 0 && remaining < o.floorNano) || pv == Low then Low
    else if (o.floorNano == 0 || remaining >= HalfAgain(o.floorNano))
         && (pv == OK || (!hasPct && o.floorNano > 0)) then OK
    else Hold
  }

  /**
   * What a probe, a budget or an upstream reply can report about a condition. `Direct`
   * is a source that already knows (a plan refusal, or its next success).
   */
  datatype Figure =
    | Window(left: real, limit: real)
    | Balance(remaining: Int64, total: Int64, usd: bool)
    | Direct(low: bool)

  function VerdictOf(o: Options, f: Figure): Verdict {
    match f
    case Window(left, limit) => Judge(o, left, limit)
    case Balance(r, t, usd) =>
      if usd then JudgeBalance(o, r, t)
      else if t <= 0 then Hold
      else Judge(o, r as real, t as real)
    case Direct(low) => if low then Low else OK
  }

  /** Judged by its share alone: a window, or a balance in a unit that is not money. */
  predicate ByShare(f: Figure) { f.Window? || (f.Balance? && !f.usd) }

  function ShareOf(f: Figure): Option<real> {
    match f
    case Window(left, limit) => if limit > 0.0 then Some(Share(left, limit)) else None
    case Balance(r, t, usd) => if !usd && t > 0 then Some(Share(r as real, t as real)) else None
    case Direct(_) => None
  }

  // ---- what the verdicts mean ------------------------------------------------

  lemma {:induction false} ShareMonotone(a: real, b: real, limit: real)
    requires limit > 0.0 && a <= b
    ensures Share(a, limit) <= Share(b, limit)
  {
  }

  function Left(left: real): real { if left < 0.0 then 0.0 else left }

  /** At or under the low threshold, in the figures themselves. */
  predicate ShareLow(o: Options, left: real, limit: real) { 100.0 * Left(left) <= o.percent * limit }

  /** Above the recovery threshold, or full. */
  predicate ShareClear(o: Options, left: real, limit: real) {
    100.0 * Left(left) > o.recoverPercent * limit || left >= limit
  }

  lemma ShareTimes(left: real, limit: real, pct: real)
    requires limit > 0.0
    ensures Share(left, limit) * limit == 100.0 * Left(left)
    ensures Share(left, limit) <= pct <==> 100.0 * Left(left) <= pct * limit
    ensures Share(left, limit) < pct <==> 100.0 * Left(left) < pct * limit
  {
    var s := Share(left, limit);
    assert Left(left) / limit * limit == Left(left);
    assert s * limit == 100.0 * Left(left);
    Times(s, pct, limit);
    Times(pct, s, limit);
  }

  lemma Times(a: real, b: real, c: real)
    requires c > 0.0
    ensures a <= b <==> a * c <= b * c
  {
    if a > b {
      assert (a - b) * c > 0.0;
    } else {
      assert (b - a) * c >= 0.0;
    }
  }

  /**
   * The verdict of a window on its figures: without a limit OK; else low at or under the
   * low threshold, OK when not low and above the recovery threshold or full, held between.
   */
  lemma JudgeExactly(o: Options, left: real, limit: real)
    ensures limit <= 0.0 ==> Judge(o, left, limit) == OK
    ensures limit > 0.0 ==> (Judge(o, left, limit) == Low <==> ShareLow(o, left, limit))
    ensures limit > 0.0 ==>
              (Judge(o, left, limit) == OK <==> !ShareLow(o, left, limit) && ShareClear(o, left, limit))
  {
    if limit > 0.0 {
      ShareTimes(left, limit, o.percent);
      ShareTimes(left, limit, o.recoverPercent);
      ShareTimes(left, limit, 100.0);
      Times(Left(left), limit, 100.0);
    }
  }

  /** The share of a balance, where the provider states what was credited. */
  predicate BalanceShareLow(o: Options, r: Int64, t: Int64) { t > 0 && ShareLow(o, r as real, t as real) }

  predicate BalanceShareOk(o: Options, r: Int64, t: Int64) {
    t > 0 && !ShareLow(o, r as real, t as real) && ShareClear(o, r as real, t as real)
  }

  /**
   * The verdict of a dollar balance on its figures. A positive floor that fits: OK exactly
   * at half again the floor with its share, if any, OK. No floor: its share alone decides.
   */
  lemma BalanceExactly(o: Options, r: Int64, t: Int64)
    ensures JudgeBalance(o, r, t) == Low <==> (o.floorNano > 0 && r < o.floorNano) || BalanceShareLow(o, r, t)
    ensures o.floorNano > 0 && FloorFits(o) ==>
              (JudgeBalance(o, r, t) == OK <==>
                 2 * r >= 3 * o.floorNano - 1 && (t > 0 ==> BalanceShareOk(o, r, t)))
    ensures o.floorNano == 0 ==> (JudgeBalance(o, r, t) == OK <==> BalanceShareOk(o, r, t))
    ensures o.floorNano < 0 ==>
              (JudgeBalance(o, r, t) == OK <==> r >= HalfAgain(o.floorNano) && BalanceShareOk(o, r, t))
  {
    JudgeExactly(o, r as real, t as real);
  }

  /** Which rule a figure goes through. */
  lemma FigureExactly(o: Options, r: Int64, t: Int64, left: real, limit: real, low: bool)
    ensures VerdictOf(o, Balance(r, t, true)) == JudgeBalance(o, r, t)
    ensures t <= 0 ==> VerdictOf(o, Balance(r, t, false)) == Hold
    ensures t > 0 ==> VerdictOf(o, Balance(r, t, false)) == Judge(o, r as real, t as real)
    ensures VerdictOf(o, Window(left, limit)) == Judge(o, left, limit)
    ensures VerdictOf(o, Direct(low)) == if low then Low else OK
  {
  }

  /** More left never looks worse. */
  lemma JudgeMonotone(o: Options, a: real, b: real, limit: real)
    requires a <= b
    ensures Rank(Judge(o, a, limit)) <= Rank(Judge(o, b, limit))
  {
    if limit > 0.0 {
      ShareMonotone(a, b, limit);
    }
  }

  lemma BalanceMonotone(o: Options, a: Int64, b: Int64, total: Int64)
    requires a <= b
    ensures Rank(JudgeBalance(o, a, total)) <= Rank(JudgeBalance(o, b, total))
  {
    JudgeMonotone(o, a as real, b as real, total as real);
  }

  /**
   * The hysteresis band. With a threshold under 100 a share that was low and is now OK
   * has climbed across the whole band between the two thresholds.
   */
  lemma BandCrossed(raw: Options, low: Figure, ok: Figure)
    requires raw.percent < 100.0 && ByShare(low) && ShareOf(ok).Some?
    requires VerdictOf(Normalised(raw), low) == Low && VerdictOf(Normalised(raw), ok) == OK
    ensures var o := Normalised(raw);
            && ShareOf(low).Some?
            && o.percent < o.recoverPercent
            && ShareOf(ok).value - ShareOf(low).value >= o.recoverPercent - o.percent
            && (ShareOf(ok).value > o.recoverPercent || ShareOf(ok).value >= 100.0)
  {
  }

  /** A USD balance is OK only clear of both thresholds, and low exactly when under one. */
  lemma BalanceClear(o: Options, r: Int64, t: Int64)
    ensures JudgeBalance(o, r, t) == OK ==>
      && (o.floorNano > 0 ==> r >= o.floorNano && (FloorFits(o) ==> 2 * r >= 3 * o.floorNano - 1))
      && (t > 0 ==> Judge(o, r as real, t as real) == OK)
      && (t > 0 || o.floorNano > 0)
    ensures JudgeBalance(o, r, t) == Low <==>
      || (o.floorNano > 0 && r < o.floorNano)
      || (t > 0 && Judge(o, r as real, t as real) == Low)
  {
  }

  /** Half again the floor does not leave 64 bits. */
  predicate FloorFits(o: Options) { o.floorNano <= 6_148_914_691_236_517_205 }

  /** A balance judged OK is half again the floor or more. */
  ghost predicate ClearOfFloor(o: Options) {
    forall r: Int64, t: Int64 | JudgeBalance(o, r, t) == OK :: 2 * r >= 3 * o.floorNano - 1
  }

  /** That holds exactly for floors whose half again fits; above them the sum wraps below zero. */
  lemma FloorExactly(o: Options)
    requires o.floorNano > 0
    ensures ClearOfFloor(o) <==> FloorFits(o)
    ensures FloorFits(o) <==> o.floorNano + o.floorNano / 2 <= MAX64
  {
    if FloorFits(o) {
      forall r: Int64, t: Int64 | JudgeBalance(o, r, t) == OK
        ensures 2 * r >= 3 * o.floorNano - 1
      {
        BalanceClear(o, r, t);
      }
    } else {
      assert JudgeBalance(o, o.floorNano, 0) == OK;
    }
  }

  /** There is a band to hold in exactly when the threshold is under 100. */
  lemma BandExists(raw: Options)
    ensures (exists left: real, limit: real :: Judge(Normalised(raw), left, limit) == Hold)
       <==> raw.percent < 100.0
  {
    var o := Normalised(raw);
    if raw.percent < 100.0 {
      var pct := if o.recoverPercent < 100.0 then o.recoverPercent else (o.percent + 100.0) / 2.0;
      assert Share(pct, 100.0) == pct;
      assert Judge(o, pct, 100.0) == Hold;
    }
  }
}
