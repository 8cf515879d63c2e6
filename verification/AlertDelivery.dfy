/**
 * Who sends what, in every run of the cluster: each announcement is first sent once,
 * each retry round belongs to one sweep, and a recorded delivery is never repeated.
 */
module AlertDelivery {
  import opened Wrappers
  import opened AlertVerdict
  import opened AlertRows
  import opened AlertEngine
  import opened AlertCluster

  /** Announcement numbers only grow. */
  lemma NumbersGrow(o: Options, drivers: seq<string>, w: World, s: Step)
    ensures var v := Apply(o, drivers, w, s);
            forall k | k in w.rows :: k in v.rows && v.rows[k].number >= w.rows[k].number
  {
    if Quiet(s) {
      QuietStep(o, drivers, w, s);
    } else if s.Ask? {
      AskNumbers(o, drivers, w, s);
    }
  }

  // ---- first sends -----------------------------------------------------------

  /** Some first send of this announcement has happened. */
  ghost predicate Spoken(sends: seq<Sent>, key: Key, number: nat) {
    exists x :: x in sends && x.key == key && x.number == number
  }

  predicate Distinct(sends: seq<Sent>) {
    forall i, j | 0 <= i < j < |sends| :: sends[i].key != sends[j].key || sends[i].number != sends[j].number
  }

  predicate Issued(rows: Rows, key: Key, number: nat) {
    key in rows && 1 <= number <= rows[key].number
  }

  ghost predicate SendsInv(w: World) {
    && Distinct(w.sends)
    && (forall x | x in w.sends :: Issued(w.rows, x.key, x.number))
    && (forall op | op in w.flights && Waiting(w.flights[op]) ::
          && Issued(w.rows, w.flights[op].obs.key, w.flights[op].number)
          && !Spoken(w.sends, w.flights[op].obs.key, w.flights[op].number))
    && (forall a, b | a in w.flights && b in w.flights && a != b && Waiting(w.flights[a]) && Waiting(w.flights[b]) ::
          w.flights[a].obs.key != w.flights[b].obs.key || w.flights[a].number != w.flights[b].number)
  }

  lemma AskNumbers(o: Options, drivers: seq<string>, w: World, s: Step)
    requires s.Ask?
    ensures var v := DoAsk(o, drivers, w, s);
            forall k | k in w.rows :: k in v.rows && v.rows[k].number >= w.rows[k].number
  {
  }

  lemma AskSends(o: Options, drivers: seq<string>, w: World, s: Step)
    requires SendsInv(w) && s.Ask?
    ensures SendsInv(DoAsk(o, drivers, w, s))
  {
    var v := DoAsk(o, drivers, w, s);
    AskNumbers(o, drivers, w, s);
    var asking := s.op in w.flights && w.flights[s.op].Asking? && s.reply != Failed(false);
    if asking && Wins(o, w.rows, w.flights[s.op].obs) {
      var k := w.flights[s.op].obs.key;
      assert v.rows[k].number == 1 + if k in w.rows then w.rows[k].number else 0;
      assert forall op | op in v.flights && Waiting(v.flights[op]) && op != s.op :: v.flights[op] == w.flights[op];
    }
  }

  lemma FinishSends(w: World, s: Step)
    requires SendsInv(w) && s.Finish?
    ensures SendsInv(DoFinish(w, s))
  {
  }

  lemma SendsStep(o: Options, drivers: seq<string>, w: World, s: Step)
    requires SendsInv(w)
    ensures SendsInv(Apply(o, drivers, w, s))
  {
    if s.Ask? {
      AskSends(o, drivers, w, s);
    } else if s.Finish? {
      FinishSends(w, s);
    } else {
      DecidingKept(o, drivers, w, s);
      NumbersGrow(o, drivers, w, s);
      assert Apply(o, drivers, w, s).sends == w.sends;
    }
  }

  /** No announcement is first sent twice, and only announcements the table issued are sent. */
  lemma {:induction false} SentOnce(o: Options, drivers: seq<string>, run: seq<Step>)
    ensures SendsInv(Exec(o, drivers, START, run))
    decreases |run|
  {
    if run != [] {
      SentOnce(o, drivers, run[..|run| - 1]);
      SendsStep(o, drivers, Exec(o, drivers, START, run[..|run| - 1]), run[|run| - 1]);
    }
  }

  // ---- every announcement is sent --------------------------------------------

  /** A waiting flight, and every message sent, is the announcement of its number, in its state. */
  predicate OfClaim(claims: seq<Announced>, key: Key, number: nat, state: Label) {
    var cs := ClaimsOf(claims, key);
    1 <= number <= |cs| && cs[number - 1].number == number && cs[number - 1].state == state
  }

  ghost predicate MeansInv(w: World) {
    && (forall x | x in w.sends :: OfClaim(w.claims, x.key, x.number, x.state))
    && (forall op | op in w.flights && Waiting(w.flights[op]) ::
          var f := w.flights[op]; OfClaim(w.claims, f.obs.key, f.number, LabelOf(f.seen, f.obs.low)))
  }

  lemma OfClaimLater(claims: seq<Announced>, c: Announced, key: Key, number: nat, state: Label)
    requires OfClaim(claims, key, number, state)
    ensures OfClaim(claims + [c], key, number, state)
  {
    ClaimsOfAppend(claims, c, key);
  }

  lemma AskMeans(o: Options, drivers: seq<string>, w: World, s: Step)
    requires TableInv(o, w) && MeansInv(w) && s.Ask?
    ensures MeansInv(DoAsk(o, drivers, w, s))
  {
    var v := DoAsk(o, drivers, w, s);
    AskOutcome(o, drivers, w, s);
    if v.claims != w.claims {
      var f, c := w.flights[s.op], v.claims[|w.claims|];
      AskTells(o, drivers, w, s);
      forall x | x in v.sends
        ensures OfClaim(v.claims, x.key, x.number, x.state)
      {
        OfClaimLater(w.claims, c, x.key, x.number, x.state);
      }
      forall op | op in v.flights && Waiting(v.flights[op])
        ensures var g := v.flights[op]; OfClaim(v.claims, g.obs.key, g.number, LabelOf(g.seen, g.obs.low))
      {
        var g := v.flights[op];
        if op == s.op {
          NewIsLast(o, v, f.obs.key, c, w.claims);
        } else {
          OfClaimLater(w.claims, c, g.obs.key, g.number, LabelOf(g.seen, g.obs.low));
        }
      }
    }
  }

  lemma NewIsLast(o: Options, v: World, key: Key, c: Announced, before: seq<Announced>)
    requires RowsTell(o, v) && v.claims == before + [c] && c.key == key
    ensures OfClaim(v.claims, key, c.number, c.state)
  {
    ClaimsOfAppend(before, c, key);
    assert RowTells(o, ClaimsOf(v.claims, key), key, RowOf(v.rows, key));
  }

  lemma MeansStep(o: Options, drivers: seq<string>, w: World, s: Step)
    requires TableInv(o, w) && MeansInv(w)
    ensures MeansInv(Apply(o, drivers, w, s))
  {
    if s.Ask? {
      AskMeans(o, drivers, w, s);
    } else {
      DecidingKept(o, drivers, w, s);
      ClaimsKept(o, drivers, w, s);
    }
  }

  lemma ClaimsKept(o: Options, drivers: seq<string>, w: World, s: Step)
    requires !s.Ask?
    ensures Apply(o, drivers, w, s).claims == w.claims
    ensures !s.Finish? ==> Apply(o, drivers, w, s).sends == w.sends
    ensures !s.Restart? ==> Apply(o, drivers, w, s).lost == w.lost
  {
  }

  /** In every run each message says what was announced under its number. */
  lemma {:induction false} SentAsAnnounced(o: Options, drivers: seq<string>, run: seq<Step>)
    requires o.retryAfter > 0
    ensures MeansInv(Exec(o, drivers, START, run))
    decreases |run|
  {
    if run != [] {
      SentAsAnnounced(o, drivers, run[..|run| - 1]);
      TableRun(o, drivers, run[..|run| - 1]);
      MeansStep(o, drivers, Exec(o, drivers, START, run[..|run| - 1]), run[|run| - 1]);
    }
  }

  /** Sent, about to be sent, or lost with an answer or a node. */
  ghost predicate Accounted(w: World, key: Key, number: nat) {
    || Spoken(w.sends, key, number)
    || (exists op :: op in w.flights && Waiting(w.flights[op])
                     && w.flights[op].obs.key == key && w.flights[op].number == number)
    || Unsent(key, number) in w.lost
  }

  ghost predicate AllAccounted(w: World) {
    && (forall c | c in w.claims :: Accounted(w, c.key, c.number))
    && (forall op | op in w.flights && Waiting(w.flights[op]) :: w.flights[op].node in w.nodes)
  }

  lemma NodesStay(o: Options, drivers: seq<string>, w: World, s: Step)
    ensures forall n | n in w.nodes :: n in Apply(o, drivers, w, s).nodes
  {
  }

  lemma FinishAccounts(w: World, s: Step, key: Key, number: nat)
    requires s.Finish? && Accounted(w, key, number)
    ensures Accounted(DoFinish(w, s), key, number)
  {
    var v := DoFinish(w, s);
    if Spoken(w.sends, key, number) {
      var x :| x in w.sends && x.key == key && x.number == number;
      assert x in v.sends;
    } else if op :| op in w.flights && Waiting(w.flights[op])
                    && w.flights[op].obs.key == key && w.flights[op].number == number {
      if op in v.flights {
        assert v.flights[op] == w.flights[op];
      } else {
        assert v.sends[|w.sends|] in v.sends;
      }
    }
  }

  lemma RestartAccounts(w: World, n: NodeId, key: Key, number: nat)
    requires Accounted(w, key, number)
    ensures Accounted(DoRestart(w, n), key, number)
  {
    var v := DoRestart(w, n);
    if !Spoken(w.sends, key, number) && Unsent(key, number) !in w.lost {
      var op :| op in w.flights && Waiting(w.flights[op])
                && w.flights[op].obs.key == key && w.flights[op].number == number;
      if op in v.flights {
        assert v.flights[op] == w.flights[op];
      } else {
        assert op in OnNode(w.flights, n);
      }
    }
  }

  lemma WaitingKept(o: Options, drivers: seq<string>, w: World, s: Step, op: OpId)
    requires !s.Finish? && !s.Restart? && op in w.flights && Waiting(w.flights[op])
    ensures var v := Apply(o, drivers, w, s); op in v.flights && v.flights[op] == w.flights[op]
  {
  }

  lemma SendsKept(o: Options, drivers: seq<string>, w: World, s: Step)
    requires !s.Finish? && !s.Restart?
    ensures var v := Apply(o, drivers, w, s); v.sends == w.sends && w.lost <= v.lost
  {
  }

  lemma OtherAccounts(o: Options, drivers: seq<string>, w: World, s: Step, key: Key, number: nat)
    requires !s.Finish? && !s.Restart? && Accounted(w, key, number)
    ensures Accounted(Apply(o, drivers, w, s), key, number)
  {
    SendsKept(o, drivers, w, s);
    if op :| op in w.flights && Waiting(w.flights[op])
             && w.flights[op].obs.key == key && w.flights[op].number == number {
      WaitingKept(o, drivers, w, s, op);
    }
  }

  lemma AskAccounts(o: Options, drivers: seq<string>, w: World, s: Step)
    requires s.Ask? && DoAsk(o, drivers, w, s).claims != w.claims
    ensures var v := DoAsk(o, drivers, w, s);
            var c := v.claims[|w.claims|];
            v.claims == w.claims + [c] && Accounted(v, c.key, c.number)
  {
    var v := DoAsk(o, drivers, w, s);
    if s.reply.Answered? {
      assert s.op in v.flights && Waiting(v.flights[s.op]);
    }
  }

  lemma AccountStep(o: Options, drivers: seq<string>, w: World, s: Step)
    requires AllAccounted(w)
    ensures forall c | c in Apply(o, drivers, w, s).claims :: Accounted(Apply(o, drivers, w, s), c.key, c.number)
  {
    var v := Apply(o, drivers, w, s);
    forall c | c in v.claims
      ensures Accounted(v, c.key, c.number)
    {
      if s.Ask? && v.claims != w.claims {
        AskAccounts(o, drivers, w, s);
      } else if !s.Ask? {
        ClaimsKept(o, drivers, w, s);
      }
      if c in w.claims {
        if s.Finish? {
          FinishAccounts(w, s, c.key, c.number);
        } else if s.Restart? {
          RestartAccounts(w, s.node, c.key, c.number);
        } else {
          OtherAccounts(o, drivers, w, s, c.key, c.number);
        }
      }
    }
  }

  lemma WaitingOnNode(o: Options, drivers: seq<string>, w: World, s: Step)
    requires forall op | op in w.flights && w.flights[op].Asking? :: w.flights[op].node in w.nodes
    requires forall op | op in w.flights && Waiting(w.flights[op]) :: w.flights[op].node in w.nodes
    ensures var v := Apply(o, drivers, w, s);
            && (forall op | op in v.flights && v.flights[op].Asking? :: v.flights[op].node in v.nodes)
            && (forall op | op in v.flights && Waiting(v.flights[op]) :: v.flights[op].node in v.nodes)
  {
    NodesStay(o, drivers, w, s);
  }

  /**
   * No announcement is forgotten: in every run each is sent, low or recovered, or its
   * message is about to be, or its answer or its node was lost. Only then is it left to
   * the sweeps.
   */
  lemma {:induction false} EveryClaimSent(o: Options, drivers: seq<string>, run: seq<Step>)
    ensures var w := Exec(o, drivers, START, run);
            AllAccounted(w) && forall op | op in w.flights && w.flights[op].Asking? :: w.flights[op].node in w.nodes
    decreases |run|
  {
    if run != [] {
      EveryClaimSent(o, drivers, run[..|run| - 1]);
      var w := Exec(o, drivers, START, run[..|run| - 1]);
      AccountStep(o, drivers, w, run[|run| - 1]);
      WaitingOnNode(o, drivers, w, run[|run| - 1]);
    }
  }

  /** Finishing a claim that was won sends exactly its message, once. */
  lemma FinishSpeaks(o: Options, drivers: seq<string>, run: seq<Step>, op: OpId)
    requires o.retryAfter > 0
    requires var w := Exec(o, drivers, START, run); op in w.flights && w.flights[op].Deciding?
    ensures var w := Exec(o, drivers, START, run);
            var v := Apply(o, drivers, w, Finish(op));
            var f := w.flights[op];
            if f.won then
              && |v.sends| == |w.sends| + 1 && v.sends[..|w.sends|] == w.sends
              && var x := v.sends[|w.sends|];
              x.key == f.obs.key && x.number == f.number && OfClaim(w.claims, x.key, x.number, x.state)
            else v.sends == w.sends
  {
    EveryClaimSent(o, drivers, run);
    SentAsAnnounced(o, drivers, run);
  }

  // ---- retry rounds ----------------------------------------------------------

  /** One retry round: an announcement and the attempt it follows. */
  predicate SameRound(a: Retry, b: Retry) {
    a.key == b.key && a.number == b.number && a.last == b.last
  }

  predicate RoundsDistinct(retries: seq<Retry>) {
    forall i, j | 0 <= i < j < |retries| :: !SameRound(retries[i], retries[j])
  }

  /** The row has moved past the round. */
  predicate Closed(rows: Rows, r: Retry) {
    && r.key in rows
    && (rows[r.key].number > r.number || (rows[r.key].number == r.number && rows[r.key].lastSent > r.last))
  }

  predicate RoundsInv(w: World) {
    RoundsDistinct(w.retries) && forall r | r in w.retries :: Closed(w.rows, r)
  }

  lemma RetryRounds(o: Options, w: World, s: Step)
    requires RoundsInv(w) && SweepsDue(o, w) && s.ClaimRetry? && o.retryAfter >= 1000
    ensures RoundsInv(DoClaimRetry(w, s))
  {
    var v := DoClaimRetry(w, s);
    if v.retries != w.retries {
      var f := w.flights[s.op];
      assert f.queue[0] in f.queue;
      MicrosMonotone(f.now - o.retryAfter, f.now);
      forall i, j | 0 <= i < j < |v.retries|
        ensures !SameRound(v.retries[i], v.retries[j])
      {
        assert v.retries[i] in w.retries;
      }
    }
  }

  lemma RoundsStep(o: Options, drivers: seq<string>, w: World, s: Step)
    requires RoundsInv(w) && SweepsDue(o, w) && o.retryAfter >= 1000
    ensures RoundsInv(Apply(o, drivers, w, s))
  {
    if Quiet(s) {
      QuietStep(o, drivers, w, s);
    } else if s.ClaimRetry? {
      RetryRounds(o, w, s);
    } else {
      var v := Apply(o, drivers, w, s);
      assert v.retries == w.retries;
      forall r | r in v.retries
        ensures Closed(v.rows, r)
      {
        assert Closed(w.rows, r);
      }
    }
  }

  lemma {:induction false} RoundsRun(o: Options, drivers: seq<string>, run: seq<Step>)
    requires o.retryAfter >= 1000
    ensures RoundsInv(Exec(o, drivers, START, run))
    decreases |run|
  {
    if run != [] {
      RoundsRun(o, drivers, run[..|run| - 1]);
      TableRun(o, drivers, run[..|run| - 1]);
      RoundsStep(o, drivers, Exec(o, drivers, START, run[..|run| - 1]), run[|run| - 1]);
    }
  }

  /** One announcement, still owed to every transport. */
  function Opening(): seq<Step> { Visit(0, "k", Direct(true), 1_000_000) }

  /** Two sweeps that list it within the microsecond of the attempt they follow. */
  function Sweeps(): seq<Step> {
    var item := [Owed("k", 1, 1000, LowNews)];
    [ListOwed(1, 0, 1_000_999, item), ListOwed(2, 0, 1_000_999, item)]
    + [ClaimRetry(1, true, Answered), ClaimRetry(2, true, Answered)]
  }

  ghost predicate Opened(w: World, drivers: seq<string>) {
    && "k" in w.rows && w.rows["k"].number == 1 && w.rows["k"].lastSent == 1000 && w.rows["k"].pending == drivers
    && w.rows["k"].payload == LowNews
    && 0 in w.nodes && w.flights == map[] && w.retries == []
  }

  lemma OpeningOpens(o: Options, drivers: seq<string>)
    ensures Opened(Exec(o, drivers, START, Opening()), drivers)
  {
    Visited(o, drivers, START, 0, "k", Direct(true), 1_000_000);
    assert Micros(1_000_000) == 1000;
  }

  lemma BothList(o: Options, drivers: seq<string>, w: World)
    requires Opened(w, drivers) && Owes(drivers) && 0 < o.retryAfter < 1000
    ensures var f := Sweeping(0, 1_000_999, [Owed("k", 1, 1000, LowNews)]);
            Exec(o, drivers, w, Sweeps()[..2]) == w.(flights := map[1 := f, 2 := f])
  {
  }

  lemma BothClaim(o: Options, drivers: seq<string>, w: World)
    requires Opened(w.(flights := map[]), drivers) && Owes(drivers)
    requires var f := Sweeping(0, 1_000_999, [Owed("k", 1, 1000, LowNews)]); w.flights == map[1 := f, 2 := f]
    ensures !RoundsDistinct(Exec(o, drivers, w, Sweeps()[2..]).retries)
  {
    var r := Sweeps();
    assert r[2..] == [r[2], r[3]];
    ExecTwo(o, drivers, w, r[2], r[3]);
    ClaimsTwice(drivers, w);
    var u := Exec(o, drivers, w, r[2..]);
    assert SameRound(u.retries[0], u.retries[1]);
  }

  /** The second claim finds the attempt at the time it listed, in the table's microseconds. */
  lemma ClaimsTwice(drivers: seq<string>, w: World)
    requires Opened(w.(flights := map[]), drivers) && Owes(drivers)
    requires var f := Sweeping(0, 1_000_999, [Owed("k", 1, 1000, LowNews)]); w.flights == map[1 := f, 2 := f]
    ensures var u := DoClaimRetry(DoClaimRetry(w, ClaimRetry(1, true, Answered)), ClaimRetry(2, true, Answered));
            var r := Retry(0, "k", 1, 1000, LowNews, drivers, true);
            u.retries == [r, r]
  {
    assert Micros(1_000_999) == 1000;
  }

  lemma SweepsCollide(o: Options, drivers: seq<string>, w: World)
    requires Opened(w, drivers) && Owes(drivers) && 0 < o.retryAfter < 1000
    ensures !RoundsDistinct(Exec(o, drivers, w, Sweeps()).retries)
  {
    var r := Sweeps();
    assert r == r[..2] + r[2..];
    BothList(o, drivers, w);
    BothClaim(o, drivers, Exec(o, drivers, w, r[..2]));
    ExecConcat(o, drivers, w, r[..2], r[2..]);
  }

  /**
   * Each retry round is claimed by at most one sweep, across all nodes and runs, exactly
   * when the retry interval is at least the table's microsecond.
   */
  lemma OneSweepPerRound(o: Options, drivers: seq<string>)
    requires Owes(drivers) && o.retryAfter > 0
    ensures (forall run :: RoundsDistinct(Exec(o, drivers, START, run).retries)) <==> o.retryAfter >= 1000
  {
    if o.retryAfter >= 1000 {
      forall run
        ensures RoundsDistinct(Exec(o, drivers, START, run).retries)
      {
        RoundsRun(o, drivers, run);
      }
    } else {
      OpeningOpens(o, drivers);
      SweepsCollide(o, drivers, Exec(o, drivers, START, Opening()));
      ExecConcat(o, drivers, START, Opening(), Sweeps());
      assert !RoundsDistinct(Exec(o, drivers, START, Opening() + Sweeps()).retries);
    }
  }

  // ---- recorded deliveries ---------------------------------------------------

  /** `v` remembers the record `a`, and its retries after `w`'s spare the transport it names. */
  predicate Spares(w: World, v: World, a: Ack) {
    && a in v.acks && w.retries <= v.retries
    && forall i | |w.retries| <= i < |v.retries| && v.retries[i].key == a.key && v.retries[i].number == a.number ::
         a.driver !in v.retries[i].owed
  }

  lemma {:induction false} NeverResent(o: Options, drivers: seq<string>, w: World, run: seq<Step>, a: Ack)
    requires o.retryAfter > 0 && TableInv(o, w) && a in w.acks && a.driver != ""
    ensures TableInv(o, Exec(o, drivers, w, run)) && Spares(w, Exec(o, drivers, w, run), a)
    decreases |run|
  {
    if run != [] {
      var before := run[..|run| - 1];
      NeverResent(o, drivers, w, before, a);
      SparesStep(o, drivers, w, Exec(o, drivers, w, before), run[|run| - 1], a);
    }
  }

  lemma SparesStep(o: Options, drivers: seq<string>, w: World, u: World, s: Step, a: Ack)
    requires o.retryAfter > 0 && TableInv(o, u) && Spares(w, u, a) && a.driver != ""
    ensures TableInv(o, Apply(o, drivers, u, s)) && Spares(w, Apply(o, drivers, u, s), a)
  {
    TableStep(o, drivers, u, s);
    NextRetry(o, drivers, u, s, a);
  }

  lemma NextRetry(o: Options, drivers: seq<string>, u: World, s: Step, a: Ack)
    requires TableInv(o, u) && a in u.acks && a.driver != ""
    ensures var v := Apply(o, drivers, u, s);
            && a in v.acks && |u.retries| <= |v.retries| <= |u.retries| + 1 && u.retries == v.retries[..|u.retries|]
            && (|v.retries| > |u.retries|
                && v.retries[|u.retries|].key == a.key && v.retries[|u.retries|].number == a.number
                ==> a.driver !in v.retries[|u.retries|].owed)
  {
    if Quiet(s) {
      QuietStep(o, drivers, u, s);
    } else if s.ClaimRetry? && a.key in u.rows {
      assert StillOwed(ClaimsOf(u.claims, a.key), a.key, RowOf(u.rows, a.key), u.acks);
      assert RowTells(o, ClaimsOf(u.claims, a.key), a.key, RowOf(u.rows, a.key));
      assert a.driver !in u.rows[a.key].pending || u.rows[a.key].number != a.number;
    }
  }

  /**
   * A transport whose delivery of an announcement is on record is in no later retry of
   * it, whoever sweeps and whenever the record was made.
   */
  lemma DeliveredOnce(o: Options, drivers: seq<string>, run: seq<Step>, more: seq<Step>, a: Ack)
    requires o.retryAfter > 0 && a.driver != "" && a in Exec(o, drivers, START, run).acks
    ensures Spares(Exec(o, drivers, START, run), Exec(o, drivers, START, run + more), a)
  {
    TableRun(o, drivers, run);
    NeverResent(o, drivers, Exec(o, drivers, START, run), more, a);
    ExecConcat(o, drivers, START, run, more);
  }

  // ---- a retry repeats its announcement --------------------------------------

  /** What a sweep holds for an announcement that is still the row's is what the row holds. */
  predicate SweepsTrue(w: World) {
    forall op | op in w.flights && w.flights[op].Sweeping? ::
      forall p | p in w.flights[op].queue :: QueueTrue(w.rows, p)
  }

  predicate QueueTrue(rows: Rows, p: Owed) {
    && p.key in rows && p.number <= rows[p.key].number
    && (rows[p.key].number == p.number ==> rows[p.key].payload == p.state)
  }

  lemma SameOrNewer(o: Options, drivers: seq<string>, w: World, s: Step)
    ensures var v := Apply(o, drivers, w, s);
            forall k | k in w.rows ::
              && k in v.rows && v.rows[k].number >= w.rows[k].number
              && (v.rows[k].number == w.rows[k].number ==> v.rows[k].payload == w.rows[k].payload)
  {
    if Quiet(s) {
      QuietStep(o, drivers, w, s);
    }
  }

  /** Where the queue of a sweep comes from. */
  lemma QueueFrom(o: Options, drivers: seq<string>, w: World, s: Step, op: OpId, p: Owed)
    requires var v := Apply(o, drivers, w, s); op in v.flights && v.flights[op].Sweeping? && p in v.flights[op].queue
    ensures || (op in w.flights && w.flights[op].Sweeping? && p in w.flights[op].queue)
            || (s.ListOwed? && OwedListing(w.rows, s.pend, s.now - o.retryAfter) && p in s.pend)
  {
  }

  lemma SweepsTrueStep(o: Options, drivers: seq<string>, w: World, s: Step)
    requires SweepsTrue(w)
    ensures SweepsTrue(Apply(o, drivers, w, s))
  {
    SameOrNewer(o, drivers, w, s);
    var v := Apply(o, drivers, w, s);
    forall op, p | op in v.flights && v.flights[op].Sweeping? && p in v.flights[op].queue
      ensures QueueTrue(v.rows, p)
    {
      QueueFrom(o, drivers, w, s, op, p);
      assert QueueTrue(w.rows, p);
    }
  }

  /** The announcement with the retry's number has the retry's state. */
  predicate Repeats(claims: seq<Announced>, r: Retry) {
    var cs := ClaimsOf(claims, r.key);
    1 <= r.number <= |cs| && cs[r.number - 1].number == r.number && cs[r.number - 1].state == r.state
  }

  ghost predicate RepeatsInv(w: World) {
    SweepsTrue(w) && forall r | r in w.retries :: Repeats(w.claims, r)
  }

  lemma RepeatsLater(claims: seq<Announced>, c: Announced, r: Retry)
    requires Repeats(claims, r)
    ensures Repeats(claims + [c], r)
  {
    ClaimsOfAppend(claims, c, r.key);
  }

  lemma ClaimRepeats(o: Options, w: World, s: Step)
    requires TableInv(o, w) && RepeatsInv(w) && s.ClaimRetry?
    ensures forall r | r in DoClaimRetry(w, s).retries :: Repeats(w.claims, r)
  {
    var v := DoClaimRetry(w, s);
    if v.retries != w.retries {
      var p := w.flights[s.op].queue[0];
      assert p in w.flights[s.op].queue && QueueTrue(w.rows, p);
      assert RowTells(o, ClaimsOf(w.claims, p.key), p.key, RowOf(w.rows, p.key));
    }
  }

  lemma RepeatsStep(o: Options, drivers: seq<string>, w: World, s: Step)
    requires TableInv(o, w) && RepeatsInv(w)
    ensures RepeatsInv(Apply(o, drivers, w, s))
  {
    SweepsTrueStep(o, drivers, w, s);
    var v := Apply(o, drivers, w, s);
    if s.ClaimRetry? {
      ClaimRepeats(o, w, s);
    } else if s.Ask? && v.claims != w.claims {
      var c := v.claims[|w.claims|];
      forall r | r in v.retries
        ensures Repeats(v.claims, r)
      {
        RepeatsLater(w.claims, c, r);
      }
    } else if Quiet(s) {
      QuietStep(o, drivers, w, s);
    }
  }

  /** In every run, what a sweep resends is the announcement it retries. */
  lemma {:induction false} RetriesRepeat(o: Options, drivers: seq<string>, run: seq<Step>)
    requires o.retryAfter > 0
    ensures RepeatsInv(Exec(o, drivers, START, run))
    decreases |run|
  {
    if run != [] {
      RetriesRepeat(o, drivers, run[..|run| - 1]);
      TableRun(o, drivers, run[..|run| - 1]);
      RepeatsStep(o, drivers, Exec(o, drivers, START, run[..|run| - 1]), run[|run| - 1]);
    }
  }

  /** An acknowledgement of an announcement that is no longer the row's changes no row. */
  lemma OldAckIgnored(o: Options, drivers: seq<string>, w: World, s: Step)
    requires s.WriteAck? && s.op in w.flights && w.flights[s.op].Acking?
    requires w.flights[s.op].key in w.rows ==> w.flights[s.op].number != w.rows[w.flights[s.op].key].number
    ensures Apply(o, drivers, w, s).rows == w.rows && Apply(o, drivers, w, s).acks == w.acks
  {
  }

  /** The row owes its key's last announcement to `d`: it went there and no delivery is on record. */
  ghost predicate OwesExactly(w: World, key: Key) {
    var cs := ClaimsOf(w.claims, key);
    && (key in w.rows <==> cs != [])
    && (key in w.rows ==>
          && w.rows[key].number == cs[|cs| - 1].number
          && forall d | d != "" ::
               d in w.rows[key].pending <==> d in cs[|cs| - 1].owed && Ack(key, w.rows[key].number, d) !in w.acks)
  }

  lemma OwedIn(o: Options, w: World, key: Key)
    requires TableInv(o, w)
    ensures OwesExactly(w, key)
  {
  }

  /** What is owed is exactly what is undelivered, in every reachable state. */
  lemma OwedExactly(o: Options, drivers: seq<string>, run: seq<Step>, key: Key)
    requires o.retryAfter > 0
    ensures OwesExactly(Exec(o, drivers, START, run), key)
  {
    TableRun(o, drivers, run);
    OwedIn(o, Exec(o, drivers, START, run), key);
  }
}
