/**
 * What the fields of an alert row that no decision reads still say, in every run: since
 * when the condition is low, which event it is, and to whom the announcement is owed.
 */
module AlertHistory {
  import opened Wrappers
  import opened AlertVerdict
  import opened AlertRows
  import opened AlertEngine
  import opened AlertCluster

  // ---- since when ------------------------------------------------------------

  /** Where the latest spell begins: a low after no low, and lows from there, a recovery at most at the end. */
  predicate SpellAt(cs: seq<Announced>, i: nat) {
    && i < |cs| && cs[i].low && (i > 0 ==> !cs[i - 1].low)
    && forall j | i <= j < |cs| - 1 :: cs[j].low
  }

  /** The row's time is that of the announcement that began the latest spell. */
  ghost predicate SinceTells(cs: seq<Announced>, row: Option<Row>) {
    row.Some? ==> exists i: nat :: SpellAt(cs, i) && row.value.since == Micros(cs[i].now)
  }

  ghost predicate SinceInv(w: World) {
    forall key :: SinceTells(ClaimsOf(w.claims, key), RowOf(w.rows, key))
  }

  lemma AskedSince(o: Options, cs: seq<Announced>, rows: Rows, f: Flight, drivers: seq<string>, c: Announced)
    requires f.Asking? && RowTells(o, cs, f.obs.key, RowOf(rows, f.obs.key)) && Wins(o, rows, f.obs)
    requires SinceTells(cs, RowOf(rows, f.obs.key)) && c.low == f.obs.low && c.now == f.obs.now
    ensures SinceTells(cs + [c], RowOf(Asked(o, rows, f.seen, f.obs, drivers), f.obs.key))
  {
    var all := cs + [c];
    if LowIn(rows, f.obs.key) {
      var i: nat :| SpellAt(cs, i) && rows[f.obs.key].since == Micros(cs[i].now);
      assert forall j | i <= j < |all| - 1 :: all[j].low by {
        assert cs[|cs| - 1].low;
      }
      assert SpellAt(all, i);
    } else {
      assert SpellAt(all, |cs|);
    }
  }

  lemma SinceStep(o: Options, drivers: seq<string>, w: World, s: Step)
    requires RowsTell(o, w) && SinceInv(w)
    ensures SinceInv(Apply(o, drivers, w, s))
  {
    var v := Apply(o, drivers, w, s);
    if s.Ask? {
      AskOutcome(o, drivers, w, s);
    } else {
      SinceKept(o, drivers, w, s);
    }
    forall key
      ensures SinceTells(ClaimsOf(v.claims, key), RowOf(v.rows, key))
    {
      assert SinceTells(ClaimsOf(w.claims, key), RowOf(w.rows, key));
      if s.Ask? && v.claims != w.claims {
        var f, c := w.flights[s.op], v.claims[|w.claims|];
        ClaimsOfAppend(w.claims, c, key);
        if key == f.obs.key {
          assert RowTells(o, ClaimsOf(w.claims, key), key, RowOf(w.rows, key));
          AskedSince(o, ClaimsOf(w.claims, key), w.rows, f, drivers, c);
        } else {
          OtherRows(o, w.rows, f, drivers, key);
        }
      }
    }
  }

  lemma OtherRows(o: Options, rows: Rows, f: Flight, drivers: seq<string>, key: Key)
    requires f.Asking? && key != f.obs.key
    ensures RowOf(Asked(o, rows, f.seen, f.obs, drivers), key) == RowOf(rows, key)
  {
  }

  lemma SinceKept(o: Options, drivers: seq<string>, w: World, s: Step)
    requires !s.Ask?
    ensures var v := Apply(o, drivers, w, s);
            && v.claims == w.claims && v.rows.Keys == w.rows.Keys
            && forall k | k in w.rows :: v.rows[k].since == w.rows[k].since
  {
    if Quiet(s) {
      QuietStep(o, drivers, w, s);
    }
  }

  /** In every run a row says since when its latest spell lasts, reminders and retries aside. */
  lemma {:induction false} SinceRun(o: Options, drivers: seq<string>, run: seq<Step>)
    requires o.retryAfter > 0
    ensures SinceInv(Exec(o, drivers, START, run))
    decreases |run|
  {
    if run != [] {
      var before := run[..|run| - 1];
      SinceRun(o, drivers, before);
      TableRun(o, drivers, before);
      SinceStep(o, drivers, Exec(o, drivers, START, before), run[|run| - 1]);
    }
  }

  // ---- which event -----------------------------------------------------------

  /** A step makes a row with the event of its observation, and never changes one. */
  lemma EventStep(o: Options, drivers: seq<string>, w: World, s: Step, key: Key)
    ensures var v := Apply(o, drivers, w, s);
            && (key in w.rows ==> key in v.rows && v.rows[key].event == w.rows[key].event)
            && (key !in w.rows && key in v.rows ==>
                  && s.Ask? && s.op in w.flights && w.flights[s.op].Asking?
                  && w.flights[s.op].obs.key == key && v.rows[key].event == w.flights[s.op].obs.event)
  {
    if Quiet(s) {
      QuietStep(o, drivers, w, s);
    }
  }

  /** The event of a row is the one it was made with, however the run goes on. */
  lemma {:induction false} EventFixed(o: Options, drivers: seq<string>, w: World, run: seq<Step>, key: Key)
    requires key in w.rows
    ensures var v := Exec(o, drivers, w, run); key in v.rows && v.rows[key].event == w.rows[key].event
    decreases |run|
  {
    if run != [] {
      var before := run[..|run| - 1];
      EventFixed(o, drivers, w, before, key);
      EventStep(o, drivers, Exec(o, drivers, w, before), run[|run| - 1], key);
    }
  }

  // ---- to whom ---------------------------------------------------------------

  /** A list of transports without one loses that one and the blanks, and keeps the order of the others. */
  lemma {:induction false} WithoutParts(a: seq<string>, b: seq<string>, item: string)
    ensures Without(a + b, item) == Without(a, item) + Without(b, item)
    ensures forall x :: Without([x], item) == if x == "" || x == item then [] else [x]
  {
    if a == [] {
      assert a + b == b;
    } else {
      assert (a + b)[1..] == a[1..] + b;
      WithoutParts(a[1..], b, item);
    }
  }

  /** With no transport configured: the one blank name, or none. */
  predicate NoTransport(drivers: seq<string>) { drivers == [] || drivers == [""] }

  predicate NothingOwed(w: World) {
    w.retries == [] && forall k | k in w.rows :: NoTransport(w.rows[k].pending)
  }

  lemma NothingOwedStep(o: Options, drivers: seq<string>, w: World, s: Step)
    requires NoTransport(drivers) && NothingOwed(w)
    ensures NothingOwed(Apply(o, drivers, w, s))
  {
    if Quiet(s) {
      QuietStep(o, drivers, w, s);
    } else if s.WriteAck? && s.op in w.flights && w.flights[s.op].Acking? {
      var f := w.flights[s.op];
      assert NoTransport(f.read) ==> Without(f.read, f.driver) == [];
    }
  }

  /** Without a transport nothing is ever sent again. */
  lemma {:induction false} NeverRetried(o: Options, drivers: seq<string>, run: seq<Step>)
    requires NoTransport(drivers)
    ensures NothingOwed(Exec(o, drivers, START, run))
    decreases |run|
  {
    if run != [] {
      var before := run[..|run| - 1];
      NeverRetried(o, drivers, before);
      NothingOwedStep(o, drivers, Exec(o, drivers, START, before), run[|run| - 1]);
    }
  }

  /** Recording a delivery: at once when it is not owed, and through a conditional write when it is. */
  lemma ReadAckExactly(o: Options, drivers: seq<string>, w: World, s: Step)
    requires s.ReadAck? && s.op !in w.flights && s.key in w.rows && w.rows[s.key].number == s.number
    ensures var v := Apply(o, drivers, w, s);
            var owed := w.rows[s.key].pending;
            && v.rows == w.rows && v.claims == w.claims
            && (s.driver !in owed && "" !in owed ==>
                  v.flights == w.flights && v.acks == w.acks + {Ack(s.key, s.number, s.driver)})
            && (s.driver in owed ==>
                  v.acks == w.acks && v.flights == w.flights[s.op := Acking(s.key, s.number, s.driver, owed)])
  {
    WithoutSame(w.rows[s.key].pending, s.driver);
  }

  /** The write takes effect, its answer lost or not, exactly when the row still holds what was read. */
  lemma WriteAckExactly(o: Options, drivers: seq<string>, w: World, s: Step)
    requires s.WriteAck? && s.op in w.flights && w.flights[s.op].Acking?
    ensures var v := Apply(o, drivers, w, s);
            var f := w.flights[s.op];
            && v.flights == w.flights - {s.op} && v.claims == w.claims
            && if s.reply != Failed(false) && f.key in w.rows && w.rows[f.key].number == f.number
                  && w.rows[f.key].pending == f.read
               then && v.rows == w.rows[f.key := w.rows[f.key].(pending := Without(f.read, f.driver))]
                    && v.acks == w.acks + {Ack(f.key, f.number, f.driver)}
               else v.rows == w.rows && v.acks == w.acks
  {
  }

  lemma {:induction false} WithoutSame(list: seq<string>, item: string)
    ensures item !in list && "" !in list ==> Without(list, item) == list
  {
    if list != [] {
      WithoutSame(list[1..], item);
    }
  }
}
