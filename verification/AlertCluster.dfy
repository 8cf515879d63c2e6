/**
 * Any number of nodes around one alert_state table. Every access to the table and every
 * locked access to a cache is its own step, so observations, primings, sweeps and
 * delivery records interleave freely, on one node as well as across nodes, with clocks
 * that need not agree, statements that fail before or after they commit, and restarts.
 */
module AlertCluster {
  import opened Wrappers
  import opened AlertVerdict
  import opened AlertRows
  import opened AlertEngine

  type NodeId = nat
  type OpId = nat

  /** Work between two steps. */
  datatype Flight =
    | Asking(node: NodeId, fig: Figure, obs: Observation, seen: Option<Cached>)
    | Deciding(node: NodeId, obs: Observation, seen: Option<Cached>, won: bool, number: nat)
    | Priming(node: NodeId, todo: seq<Active>, absent: bool)
    | Sweeping(node: NodeId, now: Instant, queue: seq<Owed>)
    | Acking(key: Key, number: nat, driver: string, read: seq<string>)

  // What happened, for the statements below; no step reads these.
  datatype Announced = Announced(
    key: Key, number: nat, low: bool, state: Label, now: Instant, node: NodeId, fig: Figure, owed: seq<string>)
  datatype Check = Check(node: NodeId, key: Key, now: Instant, low: bool)
  datatype Sent = Sent(node: NodeId, key: Key, number: nat, state: Label)
  datatype Unsent = Unsent(key: Key, number: nat)
  datatype Retry = Retry(node: NodeId, key: Key, number: nat, last: int, state: Label, owed: seq<string>, sent: bool)
  datatype Ack = Ack(key: Key, number: nat, driver: string)

  datatype World = World(
    rows: Rows,
    nodes: map<NodeId, Node>,
    flights: map<OpId, Flight>,
    claims: seq<Announced>,
    checks: set<Check>,
    sends: seq<Sent>,
    lost: set<Unsent>,
    retries: seq<Retry>,
    acks: set<Ack>)

  const START: World := World(map[], map[], map[], [], {}, [], {}, [], {})

  datatype Step =
    | Restart(node: NodeId)
    | Begin(op: OpId, node: NodeId, key: Key, event: string, fig: Figure, now: Instant)
    | Ask(op: OpId, reply: Reply)
    | Finish(op: OpId)
    | ListActive(op: OpId, node: NodeId, act: seq<Active>)
    | PeekPrime(op: OpId)
    | PutPrime(op: OpId)
    | ListOwed(op: OpId, node: NodeId, now: Instant, pend: seq<Owed>)
    | ClaimRetry(op: OpId, usable: bool, reply: Reply)
    | ReadAck(op: OpId, key: Key, number: nat, driver: string)
    | WriteAck(op: OpId, reply: Reply)

  // ---- the steps -------------------------------------------------------------

  function Drop(w: World, op: OpId): World { w.(flights := w.flights - {op}) }

  /** A claim won, whose message is still to be sent. */
  predicate Waiting(f: Flight) { f.Deciding? && f.won }

  /** A node that stops forgets the messages it was about to send. */
  function DoRestart(w: World, n: NodeId): World {
    var gone := OnNode(w.flights, n);
    w.(nodes := w.nodes[n := BLANK], flights := w.flights - gone,
       lost := w.lost + set op | op in gone && Waiting(w.flights[op]) ::
                 Unsent(w.flights[op].obs.key, w.flights[op].number))
  }

  function OnNode(fs: map<OpId, Flight>, n: NodeId): set<OpId> {
    set op | op in fs && !fs[op].Acking? && fs[op].node == n
  }

  /** A figure in the hold band is not observed at all. */
  function DoBegin(o: Options, w: World, s: Step): World
    requires s.Begin?
  {
    var v := VerdictOf(o, s.fig);
    if s.op in w.flights || s.node !in w.nodes || v == Hold then w
    else
      var obs := Observation(s.key, s.event, v == Low, s.now);
      var seen := Entry(w.nodes[s.node], s.key);
      if Skips(o, true, seen, obs) then w
      else w.(flights := w.flights[s.op := Asking(s.node, s.fig, obs, seen)])
  }

  function DoAsk(o: Options, drivers: seq<string>, w: World, s: Step): World
    requires s.Ask?
  {
    if s.op !in w.flights || !w.flights[s.op].Asking? then w
    else if s.reply == Failed(false) then Drop(w, s.op)
    else
      var f := w.flights[s.op];
      var k := f.obs.key;
      var won := Wins(o, w.rows, f.obs);
      var rows := Asked(o, w.rows, f.seen, f.obs, drivers);
      AskedAgrees(o, w.rows, f.seen, f.obs, drivers);
      var number := if won then rows[k].number else 0;
      var news := Announced(k, number, f.obs.low, LabelOf(f.seen, f.obs.low), f.obs.now, f.node, f.fig, drivers);
      w.(rows := rows,
         checks := if s.reply.Failed? then w.checks else w.checks + {Check(f.node, k, f.obs.now, LowIn(rows, k))},
         claims := if won then w.claims + [news] else w.claims,
         lost := if won && s.reply.Failed? then w.lost + {Unsent(k, number)} else w.lost,
         flights := if s.reply.Failed? then w.flights - {s.op}
                    else w.flights[s.op := Deciding(f.node, f.obs, f.seen, won, number)])
  }

  function DoFinish(w: World, s: Step): World
    requires s.Finish?
  {
    if s.op !in w.flights || !w.flights[s.op].Deciding? || w.flights[s.op].node !in w.nodes then w
    else
      var f := w.flights[s.op];
      w.(nodes := w.nodes[f.node := Put(w.nodes[f.node], f.obs.key, Settled(f.seen, f.obs, f.won))],
         sends := if f.won
                  then w.sends + [Sent(f.node, f.obs.key, f.number, LabelOf(f.seen, f.obs.low))] else w.sends,
         flights := w.flights - {s.op})
  }

  /** A listing holds rows that are low when it is read; a limit only shortens it. */
  predicate ActiveListing(rows: Rows, act: seq<Active>) {
    forall a | a in act :: LowIn(rows, a.key) && rows[a.key].lastSent == a.lastSent
  }

  predicate OwedListing(rows: Rows, pend: seq<Owed>, before: Instant) {
    forall p | p in pend ::
      && p.key in rows && rows[p.key].number == p.number && rows[p.key].lastSent == p.last
      && Owes(rows[p.key].pending) && rows[p.key].payload == p.state && p.last <= Micros(before)
  }

  function DoListActive(w: World, s: Step): World
    requires s.ListActive?
  {
    if s.op in w.flights || s.node !in w.nodes || !ActiveListing(w.rows, s.act) then w
    else w.(flights := w.flights[s.op := Priming(s.node, s.act, false)])
  }

  function DoPeekPrime(w: World, s: Step): World
    requires s.PeekPrime?
  {
    if s.op !in w.flights || !w.flights[s.op].Priming? || w.flights[s.op].node !in w.nodes then w
    else
      var f := w.flights[s.op];
      if f.absent then w
      else if f.todo == [] then Drop(w, s.op)
      else if KnownLow(Entry(w.nodes[f.node], f.todo[0].key)) then
        w.(flights := w.flights[s.op := f.(todo := f.todo[1..])])
      else w.(flights := w.flights[s.op := f.(absent := true)])
  }

  function DoPutPrime(w: World, s: Step): World
    requires s.PutPrime?
  {
    if s.op !in w.flights || !w.flights[s.op].Priming? || w.flights[s.op].node !in w.nodes then w
    else
      var f := w.flights[s.op];
      if !f.absent || f.todo == [] then w
      else
        var a := f.todo[0];
        w.(nodes := w.nodes[f.node := Put(w.nodes[f.node], a.key, Cached(true, a.lastSent * 1000, None))],
           flights := w.flights[s.op := Priming(f.node, f.todo[1..], false)])
  }

  function DoListOwed(o: Options, w: World, s: Step): World
    requires s.ListOwed?
  {
    if s.op in w.flights || s.node !in w.nodes || !OwedListing(w.rows, s.pend, s.now - o.retryAfter) then w
    else w.(flights := w.flights[s.op := Sweeping(s.node, s.now, s.pend)])
  }

  /** `usable` is false for an item whose event or payload no longer parses. */
  function DoClaimRetry(w: World, s: Step): World
    requires s.ClaimRetry?
  {
    if s.op !in w.flights || !w.flights[s.op].Sweeping? then w
    else
      var f := w.flights[s.op];
      if f.queue == [] then Drop(w, s.op)
      else
        var p := f.queue[0];
        var next := w.(flights := w.flights[s.op := f.(queue := f.queue[1..])]);
        if !s.usable || s.reply == Failed(false) then next
        else if !RetryWins(w.rows, p.key, p.number, p.last) then next
        else next.(rows := Retried(w.rows, p.key, p.number, p.last, f.now),
                   retries := w.retries + [Retry(f.node, p.key, p.number, p.last, p.state,
                                                 w.rows[p.key].pending, s.reply.Answered?)])
  }

  function DoReadAck(w: World, s: Step): World
    requires s.ReadAck?
  {
    if s.op in w.flights || s.key !in w.rows || w.rows[s.key].number != s.number then w
    else if Without(w.rows[s.key].pending, s.driver) == w.rows[s.key].pending then
      w.(acks := w.acks + {Ack(s.key, s.number, s.driver)})
    else w.(flights := w.flights[s.op := Acking(s.key, s.number, s.driver, w.rows[s.key].pending)])
  }

  /** A lost write is read again by another ReadAck; a failed one may have committed. */
  function DoWriteAck(w: World, s: Step): World
    requires s.WriteAck?
  {
    if s.op !in w.flights || !w.flights[s.op].Acking? then w
    else
      var f := w.flights[s.op];
      if s.reply == Failed(false) || !AckWins(w.rows, f.key, f.number, f.read) then Drop(w, s.op)
      else
        Drop(w, s.op).(rows := Acked(w.rows, f.key, f.number, f.driver, f.read),
                       acks := w.acks + {Ack(f.key, f.number, f.driver)})
  }

  function Apply(o: Options, drivers: seq<string>, w: World, s: Step): World {
    match s
    case Restart(n) => DoRestart(w, n)
    case Begin(_, _, _, _, _, _) => DoBegin(o, w, s)
    case Ask(_, _) => DoAsk(o, drivers, w, s)
    case Finish(_) => DoFinish(w, s)
    case ListActive(_, _, _) => DoListActive(w, s)
    case PeekPrime(_) => DoPeekPrime(w, s)
    case PutPrime(_) => DoPutPrime(w, s)
    case ListOwed(_, _, _, _) => DoListOwed(o, w, s)
    case ClaimRetry(_, _, _) => DoClaimRetry(w, s)
    case ReadAck(_, _, _, _) => DoReadAck(w, s)
    case WriteAck(_, _) => DoWriteAck(w, s)
  }

  function Exec(o: Options, drivers: seq<string>, w: World, run: seq<Step>): World
    decreases |run|
  {
    if run == [] then w else Apply(o, drivers, Exec(o, drivers, w, run[..|run| - 1]), run[|run| - 1])
  }

  /** Three steps with nothing between them are the engine's own Observe. */
  lemma UninterruptedObserve(o: Options, drivers: seq<string>, w: World, b: Step, reply: Reply)
    requires b.Begin? && b.op !in w.flights && b.node in w.nodes && VerdictOf(o, b.fig) != Hold
    ensures var obs := Observation(b.key, b.event, VerdictOf(o, b.fig) == Low, b.now);
            var out := Stored(o, w.nodes[b.node], w.rows, obs, drivers, reply);
            var v := DoFinish(DoAsk(o, drivers, DoBegin(o, w, b), Ask(b.op, reply)), Finish(b.op));
            && v.nodes == w.nodes[b.node := out.node] && v.rows == out.rows && v.flights == w.flights
            && v.sends == w.sends + if out.news.Some?
                                    then [Sent(b.node, b.key, out.news.value.number, out.news.value.state)] else []
  {
    var v := DoFinish(DoAsk(o, drivers, DoBegin(o, w, b), Ask(b.op, reply)), Finish(b.op));
    assert v.flights == w.flights;
  }

  /** A run as a fold of any step function. */
  function Fold<W, S>(f: (W, S) -> W, w: W, run: seq<S>): W
    decreases |run|
  {
    if run == [] then w else f(Fold(f, w, run[..|run| - 1]), run[|run| - 1])
  }

  lemma {:induction false} FoldConcat<W, S>(f: (W, S) -> W, w: W, r1: seq<S>, r2: seq<S>)
    ensures Fold(f, w, r1 + r2) == Fold(f, Fold(f, w, r1), r2)
    decreases |r2|
  {
    if r2 == [] {
      assert r1 + r2 == r1;
    } else {
      assert (r1 + r2)[..|r1 + r2| - 1] == r1 + r2[..|r2| - 1];
      FoldConcat(f, w, r1, r2[..|r2| - 1]);
    }
  }

  function Applying(o: Options, drivers: seq<string>): (World, Step) -> World {
    (w, s) => Apply(o, drivers, w, s)
  }

  lemma {:induction false} ExecFolds(o: Options, drivers: seq<string>, w: World, run: seq<Step>)
    ensures Exec(o, drivers, w, run) == Fold(Applying(o, drivers), w, run)
    decreases |run|
  {
    if run != [] {
      ExecFolds(o, drivers, w, run[..|run| - 1]);
    }
  }

  lemma ExecConcat(o: Options, drivers: seq<string>, w: World, r1: seq<Step>, r2: seq<Step>)
    ensures Exec(o, drivers, w, r1 + r2) == Exec(o, drivers, Exec(o, drivers, w, r1), r2)
  {
    ExecFolds(o, drivers, w, r1);
    ExecFolds(o, drivers, w, r1 + r2);
    ExecFolds(o, drivers, Exec(o, drivers, w, r1), r2);
    FoldConcat(Applying(o, drivers), w, r1, r2);
  }

  lemma ExecMore(o: Options, drivers: seq<string>, w: World, run: seq<Step>, s: Step)
    ensures Exec(o, drivers, w, run + [s]) == Apply(o, drivers, Exec(o, drivers, w, run), s)
  {
    assert (run + [s])[..|run|] == run;
  }

  lemma ExecMoreTwo(o: Options, drivers: seq<string>, w: World, run: seq<Step>, s1: Step, s2: Step)
    ensures Exec(o, drivers, w, run + [s1, s2]) ==
            Apply(o, drivers, Apply(o, drivers, Exec(o, drivers, w, run), s1), s2)
  {
    AppendTwo(run, s1, s2);
    ExecMore(o, drivers, w, run, s1);
    ExecMore(o, drivers, w, run + [s1], s2);
  }

  lemma AppendTwo(run: seq<Step>, s1: Step, s2: Step)
    ensures run + [s1, s2] == run + [s1] + [s2]
  {
  }

  lemma ExecOne(o: Options, drivers: seq<string>, w: World, s: Step)
    ensures Exec(o, drivers, w, [s]) == Apply(o, drivers, w, s)
  {
    assert [s][..0] == [];
  }

  lemma ExecTwo(o: Options, drivers: seq<string>, w: World, s1: Step, s2: Step)
    ensures Exec(o, drivers, w, [s1, s2]) == Apply(o, drivers, Apply(o, drivers, w, s1), s2)
  {
    ExecOne(o, drivers, w, s1);
    assert [s1, s2][..1] == [s1];
  }

  /** A node that has just started observes one figure, asks the table, and stops. */
  function Visit(n: NodeId, key: Key, fig: Figure, now: Instant): seq<Step> {
    [Restart(n), Begin(0, n, key, "e", fig, now)] + [Ask(0, Answered), Restart(n)]
  }

  lemma VisitBegins(o: Options, drivers: seq<string>, w: World, n: NodeId, key: Key, fig: Figure, now: Instant)
    requires w.flights == map[] && key != "" && VerdictOf(o, fig) != Hold
    ensures var obs := Observation(key, "e", VerdictOf(o, fig) == Low, now);
            Exec(o, drivers, w, [Restart(n), Begin(0, n, key, "e", fig, now)]) ==
            w.(nodes := w.nodes[n := BLANK], flights := map[0 := Asking(n, fig, obs, None)])
  {
    ExecTwo(o, drivers, w, Restart(n), Begin(0, n, key, "e", fig, now));
  }

  lemma Visited(o: Options, drivers: seq<string>, w: World, n: NodeId, key: Key, fig: Figure, now: Instant)
    requires w.flights == map[] && key != "" && VerdictOf(o, fig) != Hold
    ensures var obs := Observation(key, "e", VerdictOf(o, fig) == Low, now);
            var v := Exec(o, drivers, w, Visit(n, key, fig, now));
            && v.flights == map[] && n in v.nodes && v.retries == w.retries
            && v.rows == Asked(o, w.rows, None, obs, drivers)
            && (Wins(o, w.rows, obs) ==>
                  && key in v.rows
                  && v.claims == w.claims + [Claimant(Asking(n, fig, obs, None), v.rows[key].number, drivers)])
  {
    var r := Visit(n, key, fig, now);
    assert r[..2] == [r[0], r[1]] && r[2..] == [r[2], r[3]] && r == r[..2] + r[2..];
    ExecConcat(o, drivers, w, r[..2], r[2..]);
    VisitBegins(o, drivers, w, n, key, fig, now);
    ExecTwo(o, drivers, Exec(o, drivers, w, r[..2]), r[2], r[3]);
  }

  // ---- a priming that nothing interrupts -------------------------------------

  function Primes(op: OpId, n: nat): seq<Step> {
    if n == 0 then [] else Primes(op, n - 1) + [PeekPrime(op), PutPrime(op)]
  }

  function LoadRun(op: OpId, node: NodeId, act: seq<Active>): seq<Step> {
    [ListActive(op, node, act)] + Primes(op, |act|) + [PeekPrime(op)]
  }

  /** A world in the middle of a priming whose first i items are done. */
  predicate PrimedSoFar(w: World, v: World, op: OpId, n: NodeId, act: seq<Active>, i: nat)
    requires n in w.nodes && i <= |act|
  {
    v == w.(nodes := w.nodes[n := PrimedAll(w.nodes[n], act[..i])],
            flights := w.flights[op := Priming(n, act[i..], false)])
  }

  lemma OnePrime(w: World, v: World, op: OpId, n: NodeId, act: seq<Active>, i: nat)
    requires n in w.nodes && i < |act| && PrimedSoFar(w, v, op, n, act, i)
    ensures PrimedSoFar(w, DoPutPrime(DoPeekPrime(v, PeekPrime(op)), PutPrime(op)), op, n, act, i + 1)
  {
    assert act[i..][1..] == act[i + 1..] && act[..i + 1][..i] == act[..i] && act[i..][0] == act[i];
  }

  lemma PrimeApplied(o: Options, drivers: seq<string>, w: World, u: World, op: OpId, n: NodeId,
                     act: seq<Active>, i: nat)
    requires n in w.nodes && i < |act| && PrimedSoFar(w, u, op, n, act, i)
    ensures PrimedSoFar(w, Apply(o, drivers, Apply(o, drivers, u, PeekPrime(op)), PutPrime(op)), op, n, act, i + 1)
  {
    OnePrime(w, u, op, n, act, i);
  }

  lemma {:induction false} PrimesRun(o: Options, drivers: seq<string>, w: World, v: World, op: OpId, n: NodeId,
                                     act: seq<Active>, i: nat)
    requires n in w.nodes && i <= |act| && v == w.(flights := w.flights[op := Priming(n, act, false)])
    ensures PrimedSoFar(w, Exec(o, drivers, v, Primes(op, i)), op, n, act, i)
    decreases i
  {
    if i == 0 {
      assert w.nodes[n := w.nodes[n]] == w.nodes && act[..0] == [] && act[0..] == act;
    } else {
      PrimesRun(o, drivers, w, v, op, n, act, i - 1);
      var u := Exec(o, drivers, v, Primes(op, i - 1));
      PrimeApplied(o, drivers, w, u, op, n, act, i - 1);
      ExecMoreTwo(o, drivers, v, Primes(op, i - 1), PeekPrime(op), PutPrime(op));
    }
  }

  /** Listing and priming with nothing between are the engine's own Load. */
  lemma UninterruptedLoad(o: Options, drivers: seq<string>, w: World, op: OpId, n: NodeId, act: seq<Active>)
    requires op !in w.flights && n in w.nodes && ActiveListing(w.rows, act)
    ensures Exec(o, drivers, w, LoadRun(op, n, act)) == w.(nodes := w.nodes[n := PrimedAll(w.nodes[n], act)])
  {
    var head := [ListActive(op, n, act)];
    var w1 := w.(flights := w.flights[op := Priming(n, act, false)]);
    ExecOne(o, drivers, w, head[0]);
    ExecConcat(o, drivers, w, head, Primes(op, |act|));
    PrimesRun(o, drivers, w, w1, op, n, act, |act|);
    assert act[..|act|] == act && act[|act|..] == [];
    ExecConcat(o, drivers, w, head + Primes(op, |act|), [PeekPrime(op)]);
    ExecOne(o, drivers, Exec(o, drivers, w, head + Primes(op, |act|)), PeekPrime(op));
    assert w.flights[op := Priming(n, [], false)] - {op} == w.flights;
  }

  // ---- a sweep that nothing interrupts ---------------------------------------

  function Claims(op: OpId, luck: Luck, n: nat): seq<Step> {
    if n == 0 then [] else Claims(op, luck, n - 1) + [ClaimRetry(op, luck.usable(n - 1), luck.replies(n - 1))]
  }

  function SweepRun(op: OpId, node: NodeId, now: Instant, pend: seq<Owed>, luck: Luck): seq<Step> {
    [ListOwed(op, node, now, pend)] + Claims(op, luck, |pend|) + [ClaimRetry(op, true, Answered)]
  }

  /** The messages of the retries that were answered. */
  function Messages(retries: seq<Retry>): seq<News> {
    if retries == [] then []
    else
      var r := retries[|retries| - 1];
      Messages(retries[..|retries| - 1])
      + if r.sent then [News(r.key, r.number, r.state != Recovered, r.state, Some(r.owed))] else []
  }

  /** A world in the middle of a sweep whose first i items are done. */
  predicate SweptSoFar(w: World, v: World, op: OpId, n: NodeId, now: Instant, pend: seq<Owed>, luck: Luck, i: nat)
    requires i <= |pend|
  {
    && v.flights == w.flights[op := Sweeping(n, now, pend[i..])]
    && v == w.(rows := Swept(w.rows, pend[..i], now, luck).0, retries := v.retries, flights := v.flights)
    && Messages(v.retries) == Messages(w.retries) + Swept(w.rows, pend[..i], now, luck).1
  }

  lemma MessagesSnoc(retries: seq<Retry>, r: Retry)
    ensures Messages(retries + [r]) == Messages(retries) + Messages([r])
    ensures Messages([r]) ==
            if r.sent then [News(r.key, r.number, r.state != Recovered, r.state, Some(r.owed))] else []
  {
    assert (retries + [r])[..|retries|] == retries && [r][..0] == [];
  }

  /** One claim of a sweep, whatever else is under way. */
  lemma ClaimDoes(v: World, op: OpId, n: NodeId, now: Instant, queue: seq<Owed>, luck: Luck, i: nat)
    requires op in v.flights && v.flights[op] == Sweeping(n, now, queue) && queue != []
    ensures var u := DoClaimRetry(v, ClaimRetry(op, luck.usable(i), luck.replies(i)));
            && u == v.(rows := SweptRows(v.rows, queue[0], now, luck, i), retries := u.retries,
                       flights := v.flights[op := Sweeping(n, now, queue[1..])])
            && Messages(u.retries) == Messages(v.retries) + SweptNews(v.rows, queue[0], luck, i)
  {
    var u := DoClaimRetry(v, ClaimRetry(op, luck.usable(i), luck.replies(i)));
    if Claimed(v.rows, queue[0], luck, i) {
      MessagesSnoc(v.retries, u.retries[|v.retries|]);
      assert u.retries == v.retries + [u.retries[|v.retries|]];
    }
  }

  lemma MessagesAdd(a: seq<News>, b: seq<News>, c: seq<News>)
    ensures a + b + c == a + (b + c)
  {
  }

  lemma OneClaim(w: World, v: World, op: OpId, n: NodeId, now: Instant, pend: seq<Owed>, luck: Luck, i: nat)
    requires i < |pend| && SweptSoFar(w, v, op, n, now, pend, luck, i)
    ensures var u := DoClaimRetry(v, ClaimRetry(op, luck.usable(i), luck.replies(i)));
            SweptSoFar(w, u, op, n, now, pend, luck, i + 1)
  {
    ClaimDoes(v, op, n, now, pend[i..], luck, i);
    SweptSnoc(w.rows, pend, now, luck, i);
    assert pend[i..][1..] == pend[i + 1..] && pend[i..][0] == pend[i];
    MessagesAdd(Messages(w.retries), Swept(w.rows, pend[..i], now, luck).1, SweptNews(v.rows, pend[i], luck, i));
  }

  lemma ClaimApplied(o: Options, drivers: seq<string>, w: World, u: World, op: OpId, n: NodeId, now: Instant,
                     pend: seq<Owed>, luck: Luck, i: nat)
    requires i < |pend| && SweptSoFar(w, u, op, n, now, pend, luck, i)
    ensures var step := ClaimRetry(op, luck.usable(i), luck.replies(i));
            SweptSoFar(w, Apply(o, drivers, u, step), op, n, now, pend, luck, i + 1)
  {
    OneClaim(w, u, op, n, now, pend, luck, i);
  }

  lemma SweepStarts(w: World, v: World, op: OpId, n: NodeId, now: Instant, pend: seq<Owed>, luck: Luck)
    requires v == w.(flights := w.flights[op := Sweeping(n, now, pend)])
    ensures SweptSoFar(w, v, op, n, now, pend, luck, 0)
  {
    assert pend[..0] == [] && pend[0..] == pend;
  }

  lemma {:induction false} ClaimsRun(o: Options, drivers: seq<string>, w: World, v: World, op: OpId, n: NodeId,
                                     now: Instant, pend: seq<Owed>, luck: Luck, i: nat)
    requires i <= |pend| && v == w.(flights := w.flights[op := Sweeping(n, now, pend)])
    ensures SweptSoFar(w, Exec(o, drivers, v, Claims(op, luck, i)), op, n, now, pend, luck, i)
    decreases i
  {
    if i == 0 {
      SweepStarts(w, v, op, n, now, pend, luck);
    } else {
      ClaimsRun(o, drivers, w, v, op, n, now, pend, luck, i - 1);
      var step := ClaimRetry(op, luck.usable(i - 1), luck.replies(i - 1));
      ClaimApplied(o, drivers, w, Exec(o, drivers, v, Claims(op, luck, i - 1)), op, n, now, pend, luck, i - 1);
      ExecMore(o, drivers, v, Claims(op, luck, i - 1), step);
    }
  }

  lemma SweepEnds(w: World, v: World, op: OpId, n: NodeId, now: Instant, pend: seq<Owed>, luck: Luck)
    requires op !in w.flights && SweptSoFar(w, v, op, n, now, pend, luck, |pend|)
    ensures var u := DoClaimRetry(v, ClaimRetry(op, true, Answered));
            var (rows, out) := Swept(w.rows, pend, now, luck);
            u == w.(rows := rows, retries := u.retries) && Messages(u.retries) == Messages(w.retries) + out
  {
    assert pend[..|pend|] == pend && pend[|pend|..] == [];
    assert w.flights[op := Sweeping(n, now, [])] - {op} == w.flights;
  }

  /** Listing and claiming with nothing between are the retries of the engine's own Sweep. */
  lemma UninterruptedSweep(o: Options, drivers: seq<string>, w: World, op: OpId, n: NodeId, now: Instant,
                           pend: seq<Owed>, luck: Luck)
    requires op !in w.flights && n in w.nodes && OwedListing(w.rows, pend, now - o.retryAfter)
    ensures var v := Exec(o, drivers, w, SweepRun(op, n, now, pend, luck));
            var (rows, out) := Swept(w.rows, pend, now, luck);
            v == w.(rows := rows, retries := v.retries) && Messages(v.retries) == Messages(w.retries) + out
  {
    var head, last := [ListOwed(op, n, now, pend)], ClaimRetry(op, true, Answered);
    var w1 := w.(flights := w.flights[op := Sweeping(n, now, pend)]);
    ExecOne(o, drivers, w, head[0]);
    ExecConcat(o, drivers, w, head, Claims(op, luck, |pend|));
    ClaimsRun(o, drivers, w, w1, op, n, now, pend, luck, |pend|);
    var v := Exec(o, drivers, w, head + Claims(op, luck, |pend|));
    SweepEnds(w, v, op, n, now, pend, luck);
    ExecConcat(o, drivers, w, head + Claims(op, luck, |pend|), [last]);
    ExecOne(o, drivers, v, last);
  }

  /** The listing of a sweep when its limit cuts nothing off. */
  ghost predicate FullListing(rows: Rows, pend: seq<Owed>, before: Instant) {
    OwedListing(rows, pend, before) && forall key | Due(rows, key, before) :: ListsKey(pend, key)
  }

  /**
   * What is owed is resent: a sweep that nothing interrupts, whose listing holds every due
   * row and whose claims are answered, resends every due announcement to all it is owed to.
   */
  lemma SweepResends(o: Options, drivers: seq<string>, w: World, op: OpId, n: NodeId, now: Instant,
                     pend: seq<Owed>, luck: Luck, key: Key)
    requires op !in w.flights && n in w.nodes && FullListing(w.rows, pend, now - o.retryAfter) && Smooth(luck)
    requires Due(w.rows, key, now - o.retryAfter)
    ensures var v := Exec(o, drivers, w, SweepRun(op, n, now, pend, luck));
            exists out :: Messages(v.retries) == Messages(w.retries) + out && Resent(w.rows, key) in out
  {
    UninterruptedSweep(o, drivers, w, op, n, now, pend, luck);
    forall i | 0 <= i < |pend| && pend[i].key == key
      ensures pend[i].number == w.rows[key].number && pend[i].last == w.rows[key].lastSent
      ensures pend[i].state == w.rows[key].payload
    {
      assert pend[i] in pend;
    }
    SweptSends(w.rows, pend, now, luck, key);
  }

  // ---- one key's announcements -----------------------------------------------

  function ClaimsOf(claims: seq<Announced>, key: Key): seq<Announced> {
    if claims == [] then []
    else
      var rest := ClaimsOf(claims[..|claims| - 1], key);
      var c := claims[|claims| - 1];
      if c.key == key then rest + [c] else rest
  }

  lemma ClaimsOfAppend(claims: seq<Announced>, c: Announced, key: Key)
    ensures ClaimsOf(claims + [c], key) == ClaimsOf(claims, key) + if c.key == key then [c] else []
  {
  }

  function RowOf(rows: Rows, key: Key): Option<Row> {
    if key in rows then Some(rows[key]) else None
  }

  /** What one key's announcements and its row always say about each other. */
  ghost predicate RowTells(o: Options, cs: seq<Announced>, key: Key, row: Option<Row>) {
    && (row.Some? <==> cs != [])
    && (forall i | 0 <= i < |cs| :: cs[i].key == key && cs[i].number == i + 1)
    && (row.Some? ==>
        && row.value.number == |cs| && row.value.low == cs[|cs| - 1].low && cs[0].low
        && row.value.payload == cs[|cs| - 1].state
        && row.value.lastSent >= Micros(cs[|cs| - 1].now))
    && (forall i | 0 < i < |cs| :: NextNews(o, cs[i - 1], cs[i]))
  }

  /** The transports a row still owes: those announced to, less the recorded deliveries. */
  ghost predicate StillOwed(cs: seq<Announced>, key: Key, row: Option<Row>, acks: set<Ack>) {
    row.Some? && cs != [] ==>
      var r, last := row.value, cs[|cs| - 1];
      forall d {:trigger d in r.pending} | d != "" ::
        d in r.pending <==> d in last.owed && Ack(key, r.number, d) !in acks
  }

  /** A recovery follows a low; a low that follows a low is a reminder that was due. */
  predicate NextNews(o: Options, a: Announced, b: Announced) {
    if b.low then a.low ==> Micros(RemindBefore(o, b.now)) >= Micros(a.now) else a.low
  }

  // ---- invariants ------------------------------------------------------------

  ghost predicate RowsTell(o: Options, w: World) {
    forall key ::
      && RowTells(o, ClaimsOf(w.claims, key), key, RowOf(w.rows, key))
      && StillOwed(ClaimsOf(w.claims, key), key, RowOf(w.rows, key), w.acks)
  }

  /** No delivery of an announcement still to come has been recorded. */
  predicate AcksPast(w: World) {
    forall a | a in w.acks :: a.key in w.rows && a.number <= w.rows[a.key].number
  }

  /** A sweep only carries announcements that were due when it listed them. */
  predicate SweepsDue(o: Options, w: World) {
    forall op | op in w.flights && w.flights[op].Sweeping? ::
      forall p | p in w.flights[op].queue :: p.last <= Micros(w.flights[op].now - o.retryAfter)
  }

  ghost predicate TableInv(o: Options, w: World) {
    RowsTell(o, w) && AcksPast(w) && SweepsDue(o, w)
  }

  lemma MicrosMonotone(a: Instant, b: Instant)
    requires a <= b
    ensures Micros(a) <= Micros(b)
    ensures a + 1000 <= b ==> Micros(a) < Micros(b)
  {
  }

  /** The announcement a winning Ask makes. */
  function Claimant(f: Flight, number: nat, drivers: seq<string>): Announced
    requires f.Asking?
  {
    Announced(f.obs.key, number, f.obs.low, LabelOf(f.seen, f.obs.low), f.obs.now, f.node, f.fig, drivers)
  }

  lemma AskedTells(o: Options, cs: seq<Announced>, rows: Rows, acks: set<Ack>, f: Flight,
                   drivers: seq<string>, c: Announced)
    requires f.Asking?
    requires RowTells(o, cs, f.obs.key, RowOf(rows, f.obs.key))
    requires StillOwed(cs, f.obs.key, RowOf(rows, f.obs.key), acks)
    requires Wins(o, rows, f.obs)
    requires c == Claimant(f, |cs| + 1, drivers)
    requires forall a | a in acks && a.key == f.obs.key :: a.number <= |cs|
    ensures var row := RowOf(Asked(o, rows, f.seen, f.obs, drivers), f.obs.key);
            RowTells(o, cs + [c], f.obs.key, row) && StillOwed(cs + [c], f.obs.key, row, acks)
            && row.value.number == |cs| + 1
  {
  }

  /** An Ask that won: the row is written and one announcement recorded. */
  predicate Announces(o: Options, drivers: seq<string>, w: World, v: World, f: Flight) {
    && f.Asking? && Wins(o, w.rows, f.obs) && v.rows == Asked(o, w.rows, f.seen, f.obs, drivers)
    && |v.claims| == |w.claims| + 1
    && v.claims == w.claims + [Claimant(f, v.claims[|w.claims|].number, drivers)]
  }

  lemma AskOutcome(o: Options, drivers: seq<string>, w: World, s: Step)
    requires s.Ask?
    ensures var v := DoAsk(o, drivers, w, s);
            || (v.rows == w.rows && v.claims == w.claims)
            || (s.op in w.flights && Announces(o, drivers, w, v, w.flights[s.op]))
  {
  }

  /** The row and the record of every key before an Ask that wins give those after it. */
  lemma AnnouncedTells(o: Options, drivers: seq<string>, w: World, v: World, f: Flight, key: Key)
    requires RowsTell(o, w) && AcksPast(w) && Announces(o, drivers, w, v, f) && v.acks == w.acks
    requires f.obs.key in v.rows && v.claims[|w.claims|].number == v.rows[f.obs.key].number
    ensures RowTells(o, ClaimsOf(v.claims, key), key, RowOf(v.rows, key))
    ensures StillOwed(ClaimsOf(v.claims, key), key, RowOf(v.rows, key), v.acks)
  {
    var k, cs := f.obs.key, ClaimsOf(w.claims, f.obs.key);
    assert RowTells(o, cs, k, RowOf(w.rows, k));
    ClaimsOfAppend(w.claims, v.claims[|w.claims|], key);
    if key == k {
      AskedTells(o, cs, w.rows, w.acks, f, drivers, Claimant(f, |cs| + 1, drivers));
    } else {
      assert RowOf(v.rows, key) == RowOf(w.rows, key);
      assert RowTells(o, ClaimsOf(w.claims, key), key, RowOf(w.rows, key));
    }
  }

  lemma AskTells(o: Options, drivers: seq<string>, w: World, s: Step)
    requires TableInv(o, w) && s.Ask?
    ensures RowsTell(o, DoAsk(o, drivers, w, s)) && AcksPast(DoAsk(o, drivers, w, s))
  {
    var v := DoAsk(o, drivers, w, s);
    AskOutcome(o, drivers, w, s);
    if v.claims != w.claims {
      forall key
        ensures RowTells(o, ClaimsOf(v.claims, key), key, RowOf(v.rows, key))
        ensures StillOwed(ClaimsOf(v.claims, key), key, RowOf(v.rows, key), v.acks)
      {
        AnnouncedTells(o, drivers, w, v, w.flights[s.op], key);
      }
    }
  }

  lemma RetryTells(o: Options, w: World, s: Step)
    requires TableInv(o, w) && s.ClaimRetry? && o.retryAfter > 0
    ensures RowsTell(o, DoClaimRetry(w, s)) && AcksPast(DoClaimRetry(w, s))
  {
  }

  lemma AckedStillOwed(cs: seq<Announced>, key: Key, row: Row, acks: set<Ack>, driver: string)
    requires StillOwed(cs, key, Some(row), acks)
    ensures var left := row.(pending := Without(row.pending, driver));
            StillOwed(cs, key, Some(left), acks + {Ack(key, row.number, driver)})
  {
  }

  function DoAck(w: World, s: Step): World
    requires s.ReadAck? || s.WriteAck?
  {
    if s.ReadAck? then DoReadAck(w, s) else DoWriteAck(w, s)
  }

  /** One more delivery on record, and out of what the row owes. */
  predicate Recorded(w: World, v: World, k: Key, d: string) {
    && v.claims == w.claims && k in w.rows
    && v.acks == w.acks + {Ack(k, w.rows[k].number, d)}
    && v.rows == w.rows[k := w.rows[k].(pending := Without(w.rows[k].pending, d))]
  }

  lemma AckRecords(w: World, s: Step) returns (k: Key, d: string)
    requires s.ReadAck? || s.WriteAck?
    ensures var v := DoAck(w, s);
            (v.claims == w.claims && v.rows == w.rows && v.acks == w.acks) || Recorded(w, v, k, d)
  {
    var acking := s.WriteAck? && s.op in w.flights && w.flights[s.op].Acking?;
    var f := if acking then w.flights[s.op] else Acking("", 0, "", []);
    k, d := if s.ReadAck? then s.key else f.key, if s.ReadAck? then s.driver else f.driver;
    var v := DoAck(w, s);
    if s.ReadAck? && v.acks != w.acks {
      assert w.rows[k := w.rows[k]] == w.rows;
    }
  }

  lemma RecordedTells(o: Options, w: World, v: World, k: Key, d: string, key: Key)
    requires RowsTell(o, w) && Recorded(w, v, k, d)
    ensures RowTells(o, ClaimsOf(v.claims, key), key, RowOf(v.rows, key))
    ensures StillOwed(ClaimsOf(v.claims, key), key, RowOf(v.rows, key), v.acks)
  {
    assert RowTells(o, ClaimsOf(w.claims, key), key, RowOf(w.rows, key));
    if key == k {
      AckedStillOwed(ClaimsOf(w.claims, key), key, w.rows[key], w.acks, d);
    }
  }

  lemma AckTells(o: Options, w: World, s: Step)
    requires TableInv(o, w) && (s.ReadAck? || s.WriteAck?)
    ensures RowsTell(o, DoAck(w, s)) && AcksPast(DoAck(w, s))
  {
    var v := DoAck(w, s);
    var k, d := AckRecords(w, s);
    if v.rows != w.rows || v.acks != w.acks {
      forall key
        ensures RowTells(o, ClaimsOf(v.claims, key), key, RowOf(v.rows, key))
        ensures StillOwed(ClaimsOf(v.claims, key), key, RowOf(v.rows, key), v.acks)
      {
        RecordedTells(o, w, v, k, d, key);
      }
    }
  }

  /** The steps that touch neither the table nor the record of it. */
  predicate Quiet(s: Step) { !s.Ask? && !s.ClaimRetry? && !s.ReadAck? && !s.WriteAck? }

  lemma QuietStep(o: Options, drivers: seq<string>, w: World, s: Step)
    requires Quiet(s)
    ensures var v := Apply(o, drivers, w, s);
            && v.rows == w.rows && v.claims == w.claims && v.acks == w.acks
            && v.retries == w.retries && v.checks == w.checks
  {
  }

  lemma DueStep(o: Options, drivers: seq<string>, w: World, s: Step)
    requires SweepsDue(o, w)
    ensures SweepsDue(o, Apply(o, drivers, w, s))
  {
    var v := Apply(o, drivers, w, s);
    forall op | op in v.flights && v.flights[op].Sweeping?
      ensures forall p | p in v.flights[op].queue :: p.last <= Micros(v.flights[op].now - o.retryAfter)
    {
      if op !in w.flights || v.flights[op] != w.flights[op] {
        assert s.ListOwed? || s.ClaimRetry?;
      }
    }
  }

  lemma TableStep(o: Options, drivers: seq<string>, w: World, s: Step)
    requires TableInv(o, w) && o.retryAfter > 0
    ensures TableInv(o, Apply(o, drivers, w, s))
  {
    DueStep(o, drivers, w, s);
    if Quiet(s) {
      QuietStep(o, drivers, w, s);
    } else if s.Ask? {
      AskTells(o, drivers, w, s);
    } else if s.ClaimRetry? {
      RetryTells(o, w, s);
    } else {
      AckTells(o, w, s);
    }
  }

  lemma {:induction false} TableRun(o: Options, drivers: seq<string>, run: seq<Step>)
    requires o.retryAfter > 0
    ensures TableInv(o, Exec(o, drivers, START, run))
    decreases |run|
  {
    if run != [] {
      TableRun(o, drivers, run[..|run| - 1]);
      TableStep(o, drivers, Exec(o, drivers, START, run[..|run| - 1]), run[|run| - 1]);
    }
  }

  // ---- what a run announces --------------------------------------------------

  /** Every observation of the run was stamped by a clock past the epoch. */
  predicate Timely(run: seq<Step>) {
    forall i | 0 <= i < |run| && run[i].Begin? :: Micros(run[i].now) > 0
  }

  function Judged(low: bool): Verdict { if low then Low else OK }

  /** Every claim, made or about to be asked for, comes from a figure judged that way. */
  predicate Sourced(o: Options, w: World) {
    && (forall op | op in w.flights && w.flights[op].Asking? ::
          VerdictOf(o, w.flights[op].fig) == Judged(w.flights[op].obs.low))
    && (forall c | c in w.claims :: VerdictOf(o, c.fig) == Judged(c.low))
  }

  predicate Stamped(w: World) {
    && (forall op | op in w.flights && w.flights[op].Asking? :: Micros(w.flights[op].obs.now) > 0)
    && (forall c | c in w.claims :: Micros(c.now) > 0)
  }

  /** A question under way was under way before, or is the one just begun. */
  lemma AskingFrom(o: Options, drivers: seq<string>, w: World, s: Step, op: OpId)
    requires var v := Apply(o, drivers, w, s); op in v.flights && v.flights[op].Asking?
    ensures var f := Apply(o, drivers, w, s).flights[op];
            || (op in w.flights && w.flights[op] == f)
            || (s.Begin? && VerdictOf(o, f.fig) == Judged(f.obs.low) && f.obs.now == s.now)
  {
  }

  /** A new announcement is of a question under way. */
  lemma ClaimFrom(o: Options, drivers: seq<string>, w: World, s: Step, c: Announced)
    requires c in Apply(o, drivers, w, s).claims
    ensures || c in w.claims
            || (s.Ask? && s.op in w.flights && w.flights[s.op].Asking?
                && c.fig == w.flights[s.op].fig && c.low == w.flights[s.op].obs.low && c.now == w.flights[s.op].obs.now)
  {
    if s.Ask? {
      AskOutcome(o, drivers, w, s);
    } else if Quiet(s) {
      QuietStep(o, drivers, w, s);
    }
  }

  lemma SourceStep(o: Options, drivers: seq<string>, w: World, s: Step)
    requires Sourced(o, w)
    ensures Sourced(o, Apply(o, drivers, w, s))
    ensures Stamped(w) && (s.Begin? ==> Micros(s.now) > 0) ==> Stamped(Apply(o, drivers, w, s))
  {
    var v := Apply(o, drivers, w, s);
    forall op | op in v.flights && v.flights[op].Asking?
      ensures VerdictOf(o, v.flights[op].fig) == Judged(v.flights[op].obs.low)
      ensures Stamped(w) && (s.Begin? ==> Micros(s.now) > 0) ==> Micros(v.flights[op].obs.now) > 0
    {
      AskingFrom(o, drivers, w, s, op);
    }
    forall c | c in v.claims
      ensures VerdictOf(o, c.fig) == Judged(c.low) && (Stamped(w) ==> Micros(c.now) > 0)
    {
      ClaimFrom(o, drivers, w, s, c);
    }
  }

  lemma {:induction false} SourceRun(o: Options, drivers: seq<string>, run: seq<Step>)
    ensures Sourced(o, Exec(o, drivers, START, run))
    ensures Timely(run) ==> Stamped(Exec(o, drivers, START, run))
    decreases |run|
  {
    if run != [] {
      var before := run[..|run| - 1];
      SourceRun(o, drivers, before);
      SourceStep(o, drivers, Exec(o, drivers, START, before), run[|run| - 1]);
      assert Timely(run) ==> Timely(before);
    }
  }

  lemma ClaimsOfWithin(claims: seq<Announced>, key: Key)
    ensures forall c :: c in ClaimsOf(claims, key) ==> c in claims && c.key == key
  {
  }

  /** Numbered 1, 2, 3, ..., low, recovered, low, ..., and the row is at the last of them. */
  predicate Alternating(w: World, key: Key) {
    var cs := ClaimsOf(w.claims, key);
    && (forall i | 0 <= i < |cs| :: cs[i].number == i + 1 && cs[i].low == (i % 2 == 0))
    && (key in w.rows <==> cs != [])
    && (key in w.rows ==> w.rows[key].number == |cs| && w.rows[key].low == (|cs| % 2 == 1))
  }

  /**
   * Reminders off. However many nodes observe a condition, however they interleave,
   * fail and restart, its announcements alternate and the row holds the last of them.
   * So there is one per crossing.
   */
  lemma Alternates(o: Options, drivers: seq<string>, run: seq<Step>, key: Key)
    requires o.remind <= 0 && o.retryAfter > 0 && Timely(run)
    ensures Alternating(Exec(o, drivers, START, run), key)
  {
    TableRun(o, drivers, run);
    SourceRun(o, drivers, run);
    AlternatesIn(o, Exec(o, drivers, START, run), key);
  }

  lemma AlternatesIn(o: Options, w: World, key: Key)
    requires TableInv(o, w) && Stamped(w) && o.remind <= 0
    ensures Alternating(w, key)
  {
    var cs := ClaimsOf(w.claims, key);
    ClaimsOfWithin(w.claims, key);
    assert RowTells(o, cs, key, RowOf(w.rows, key));
    AlternatesFrom(o, cs, key, RowOf(w.rows, key));
  }

  lemma AlternatesFrom(o: Options, cs: seq<Announced>, key: Key, row: Option<Row>)
    requires RowTells(o, cs, key, row) && o.remind <= 0
    requires forall c | c in cs :: Micros(c.now) > 0
    ensures forall i | 0 <= i < |cs| :: cs[i].low == (i % 2 == 0)
  {
    var n := 0;
    while n < |cs|
      invariant n <= |cs|
      invariant forall i | 0 <= i < n :: cs[i].low == (i % 2 == 0)
    {
      if n > 0 {
        assert NextNews(o, cs[n - 1], cs[n]) && cs[n - 1] in cs;
      }
      n := n + 1;
    }
  }

  /** The step announces the key exactly when it changes the row's low flag, and then as changed. */
  predicate Crosses(w: World, v: World, key: Key) {
    var a, b := ClaimsOf(w.claims, key), ClaimsOf(v.claims, key);
    if LowIn(v.rows, key) == LowIn(w.rows, key) then b == a
    else |b| == |a| + 1 && a == b[..|a|] && b[|a|].low == LowIn(v.rows, key)
  }

  /** With reminders off only a crossing wins. */
  lemma WinCrosses(o: Options, cs: seq<Announced>, rows: Rows, obs: Observation)
    requires RowTells(o, cs, obs.key, RowOf(rows, obs.key)) && o.remind <= 0 && Wins(o, rows, obs)
    requires forall c | c in cs :: Micros(c.now) > 0
    ensures LowIn(rows, obs.key) != obs.low
  {
    assert cs != [] ==> cs[|cs| - 1] in cs;
  }

  lemma AnnouncedCrosses(o: Options, drivers: seq<string>, w: World, v: World, f: Flight, key: Key)
    requires TableInv(o, w) && Stamped(w) && o.remind <= 0 && Announces(o, drivers, w, v, f)
    ensures Crosses(w, v, key)
  {
    var cs := ClaimsOf(w.claims, f.obs.key);
    ClaimsOfAppend(w.claims, v.claims[|w.claims|], key);
    ClaimsOfWithin(w.claims, f.obs.key);
    assert RowTells(o, cs, f.obs.key, RowOf(w.rows, f.obs.key));
    WinCrosses(o, cs, w.rows, f.obs);
    AskedAgrees(o, w.rows, f.seen, f.obs, drivers);
  }

  lemma StepCrosses(o: Options, drivers: seq<string>, w: World, s: Step, key: Key)
    requires TableInv(o, w) && Stamped(w) && o.remind <= 0
    ensures Crosses(w, Apply(o, drivers, w, s), key)
  {
    if Quiet(s) {
      QuietStep(o, drivers, w, s);
    } else if s.Ask? {
      AskOutcome(o, drivers, w, s);
      var v := DoAsk(o, drivers, w, s);
      if v.claims != w.claims {
        AnnouncedCrosses(o, drivers, w, v, w.flights[s.op], key);
      }
    } else {
      LowsKept(o, drivers, w, s, key);
    }
  }

  lemma LowsKept(o: Options, drivers: seq<string>, w: World, s: Step, key: Key)
    requires s.ClaimRetry? || s.ReadAck? || s.WriteAck?
    ensures var v := Apply(o, drivers, w, s); v.claims == w.claims && LowIn(v.rows, key) == LowIn(w.rows, key)
  {
  }

  /** Reminders off: in every run a step announces a key exactly when it changes the key's row. */
  lemma AnnouncesCrossings(o: Options, drivers: seq<string>, run: seq<Step>, s: Step, key: Key)
    requires o.remind <= 0 && o.retryAfter > 0 && Timely(run)
    ensures var w := Exec(o, drivers, START, run); Crosses(w, Apply(o, drivers, w, s), key)
  {
    TableRun(o, drivers, run);
    SourceRun(o, drivers, run);
    StepCrosses(o, drivers, Exec(o, drivers, START, run), s, key);
  }

  /** After every low announcement but the last there is a recovery, from a figure judged OK. */
  predicate Unflapping(o: Options, cs: seq<Announced>) {
    forall i, j | 0 <= i < j < |cs| && cs[i].low && cs[j].low ::
      && VerdictOf(o, cs[i].fig) == Low
      && i + 1 < j && !cs[i + 1].low && VerdictOf(o, cs[i + 1].fig) == OK
  }

  lemma SourcedAt(o: Options, w: World, key: Key, i: nat)
    requires Sourced(o, w) && i < |ClaimsOf(w.claims, key)|
    ensures var c := ClaimsOf(w.claims, key)[i]; VerdictOf(o, c.fig) == Judged(c.low)
  {
    ClaimsOfWithin(w.claims, key);
    assert ClaimsOf(w.claims, key)[i] in w.claims;
  }

  lemma UnflappingIn(o: Options, w: World, key: Key)
    requires Alternating(w, key) && Sourced(o, w)
    ensures Unflapping(o, ClaimsOf(w.claims, key))
  {
    var cs := ClaimsOf(w.claims, key);
    forall i, j | 0 <= i < j < |cs| && cs[i].low && cs[j].low
      ensures VerdictOf(o, cs[i].fig) == Low && i + 1 < j && !cs[i + 1].low && VerdictOf(o, cs[i + 1].fig) == OK
    {
      SourcedAt(o, w, key, i);
      SourcedAt(o, w, key, i + 1);
    }
  }

  /** No flapping; and every announcement comes from a figure judged so, never from a held one. */
  lemma NoFlapping(o: Options, drivers: seq<string>, run: seq<Step>, key: Key)
    requires o.remind <= 0 && o.retryAfter > 0 && Timely(run)
    ensures Unflapping(o, ClaimsOf(Exec(o, drivers, START, run).claims, key))
    ensures Sourced(o, Exec(o, drivers, START, run))
  {
    Alternates(o, drivers, run, key);
    SourceRun(o, drivers, run);
    UnflappingIn(o, Exec(o, drivers, START, run), key);
  }

  /** Between two lows of a condition judged by its share, the share climbed across the whole band. */
  predicate Climbs(o: Options, cs: seq<Announced>) {
    forall i, j | 0 <= i < j < |cs| && cs[i].low && cs[j].low && ByShare(cs[i].fig) && ShareOf(cs[i + 1].fig).Some? ::
      && ShareOf(cs[i].fig).Some?
      && ShareOf(cs[i + 1].fig).value - ShareOf(cs[i].fig).value >= o.recoverPercent - o.percent
  }

  lemma UnflappingClimbs(raw: Options, cs: seq<Announced>)
    requires raw.percent < 100.0 && Unflapping(Normalised(raw), cs)
    ensures Climbs(Normalised(raw), cs)
  {
    forall i, j | 0 <= i < j < |cs| && cs[i].low && cs[j].low && ByShare(cs[i].fig) && ShareOf(cs[i + 1].fig).Some?
      ensures ShareOf(cs[i].fig).Some?
      ensures ShareOf(cs[i + 1].fig).value - ShareOf(cs[i].fig).value
              >= Normalised(raw).recoverPercent - Normalised(raw).percent
    {
      BandCrossed(raw, cs[i].fig, cs[i + 1].fig);
    }
  }

  /** End to end for a window or a unit balance, and the band it has to cross is not empty. */
  lemma ShareClimbs(raw: Options, drivers: seq<string>, run: seq<Step>, key: Key)
    requires raw.percent < 100.0 && raw.remind <= 0 && Timely(run)
    ensures Climbs(Normalised(raw), ClaimsOf(Exec(Normalised(raw), drivers, START, run).claims, key))
    ensures Normalised(raw).percent < Normalised(raw).recoverPercent
  {
    NoFlapping(Normalised(raw), drivers, run, key);
    UnflappingClimbs(raw, ClaimsOf(Exec(Normalised(raw), drivers, START, run).claims, key));
    BandExists(raw);
  }

  /** Two lows with no recovery between them are Remind apart, up to the table's microsecond. */
  predicate Spaced(o: Options, cs: seq<Announced>) {
    forall i | 0 < i < |cs| && cs[i - 1].low && cs[i].low :: cs[i].now - cs[i - 1].now > o.remind - 1000
  }

  lemma SpacedIn(o: Options, w: World, key: Key)
    requires TableInv(o, w) && o.remind > 0
    ensures Spaced(o, ClaimsOf(w.claims, key))
  {
  }

  /** Reminders on: spaced by the clocks that made them, however many nodes raise and retry. */
  lemma RemindersSpaced(o: Options, drivers: seq<string>, run: seq<Step>, key: Key)
    requires o.remind > 0 && o.retryAfter > 0
    ensures Spaced(o, ClaimsOf(Exec(o, drivers, START, run).claims, key))
  {
    TableRun(o, drivers, run);
    SpacedIn(o, Exec(o, drivers, START, run), key);
  }

  // ---- caches ----------------------------------------------------------------

  /** Both halves of cache soundness, for one node. */
  predicate Sound(w: World, n: NodeId)
    requires n in w.nodes
  {
    && Counted(w.nodes[n])
    && forall k | k in w.nodes[n].cache && w.nodes[n].cache[k].checked.Some? ::
         Check(n, k, w.nodes[n].cache[k].checked.value, w.nodes[n].cache[k].low) in w.checks
  }

  predicate CachesSound(w: World) {
    && (forall n | n in w.nodes :: Sound(w, n))
    && (forall op | op in w.flights && w.flights[op].Deciding? ::
          var f := w.flights[op]; Check(f.node, f.obs.key, f.obs.now, f.obs.low) in w.checks)
  }

  lemma AskSound(o: Options, drivers: seq<string>, w: World, s: Step)
    requires CachesSound(w) && s.Ask?
    ensures CachesSound(DoAsk(o, drivers, w, s))
  {
  }

  lemma PutSound(w: World, v: World, n: NodeId, key: Key, c: Cached)
    requires CachesSound(w) && n in w.nodes
    requires v.nodes == w.nodes[n := Put(w.nodes[n], key, c)] && v.checks == w.checks
    requires c.checked.Some? ==> Check(n, key, c.checked.value, c.low) in w.checks
    ensures forall m | m in v.nodes :: Sound(v, m)
  {
    forall m | m in v.nodes
      ensures Sound(v, m)
    {
      assert Sound(w, m);
      if m == n {
        PutCounts(w.nodes[n], key, c);
      }
    }
  }

  lemma DecidingKept(o: Options, drivers: seq<string>, w: World, s: Step)
    requires !s.Ask?
    ensures var v := Apply(o, drivers, w, s);
            forall op | op in v.flights && v.flights[op].Deciding? :: op in w.flights && v.flights[op] == w.flights[op]
  {
  }

  lemma FinishSound(w: World, s: Step)
    requires CachesSound(w) && s.Finish?
    ensures forall m | m in DoFinish(w, s).nodes :: Sound(DoFinish(w, s), m)
  {
    var v := DoFinish(w, s);
    if v != w {
      var f := w.flights[s.op];
      PutSound(w, v, f.node, f.obs.key, Settled(f.seen, f.obs, f.won));
    }
  }

  lemma PrimeSound(w: World, s: Step)
    requires CachesSound(w) && s.PutPrime?
    ensures forall m | m in DoPutPrime(w, s).nodes :: Sound(DoPutPrime(w, s), m)
  {
    var v := DoPutPrime(w, s);
    if v != w {
      var f := w.flights[s.op];
      PutSound(w, v, f.node, f.todo[0].key, Cached(true, f.todo[0].lastSent * 1000, None));
    }
  }

  lemma OtherNodes(o: Options, drivers: seq<string>, w: World, s: Step)
    requires !s.Ask? && !s.Finish? && !s.PutPrime?
    ensures var v := Apply(o, drivers, w, s);
            v.checks == w.checks && v.nodes == if s.Restart? then w.nodes[s.node := BLANK] else w.nodes
  {
  }

  lemma NodesSound(o: Options, drivers: seq<string>, w: World, s: Step)
    requires CachesSound(w) && !s.Ask?
    ensures var v := Apply(o, drivers, w, s); forall m | m in v.nodes :: Sound(v, m)
  {
    if s.Finish? {
      FinishSound(w, s);
    } else if s.PutPrime? {
      PrimeSound(w, s);
    } else {
      OtherNodes(o, drivers, w, s);
      assert LowKeys(BLANK.cache) == {};
      var v := Apply(o, drivers, w, s);
      forall m | m in v.nodes
        ensures Sound(v, m)
      {
        assert m in w.nodes ==> Sound(w, m);
      }
    }
  }

  lemma SoundStep(o: Options, drivers: seq<string>, w: World, s: Step)
    requires CachesSound(w)
    ensures CachesSound(Apply(o, drivers, w, s))
  {
    if s.Ask? {
      AskSound(o, drivers, w, s);
    } else {
      NodesSound(o, drivers, w, s);
      DecidingKept(o, drivers, w, s);
      if Quiet(s) {
        QuietStep(o, drivers, w, s);
      }
    }
  }

  lemma {:induction false} SoundRun(o: Options, drivers: seq<string>, run: seq<Step>)
    ensures CachesSound(Exec(o, drivers, START, run))
    decreases |run|
  {
    if run != [] {
      SoundRun(o, drivers, run[..|run| - 1]);
      SoundStep(o, drivers, Exec(o, drivers, START, run[..|run| - 1]), run[|run| - 1]);
    }
  }

  /**
   * An observation a node keeps to itself is backed by the table: this node asked less
   * than Recheck ago, by its own clock, and the row then agreed with the observation.
   */
  lemma SkipsAreBacked(o: Options, drivers: seq<string>, run: seq<Step>, n: NodeId, obs: Observation)
    requires var w := Exec(o, drivers, START, run);
             n in w.nodes && obs.key != "" && Skips(o, true, Entry(w.nodes[n], obs.key), obs)
    ensures exists t: Instant ::
              Check(n, obs.key, t, obs.low) in Exec(o, drivers, START, run).checks && obs.now - t < o.recheck
  {
    SoundRun(o, drivers, run);
    var w := Exec(o, drivers, START, run);
    assert Sound(w, n);
    var e := w.nodes[n].cache[obs.key];
    assert Check(n, obs.key, e.checked.value, e.low) in w.checks;
  }

  /** AnyLow is exact in every reachable state. */
  lemma AnyLowInRuns(o: Options, drivers: seq<string>, run: seq<Step>, n: NodeId)
    requires n in Exec(o, drivers, START, run).nodes
    ensures var node := Exec(o, drivers, START, run).nodes[n];
            node.lows > 0 <==> exists k :: k in node.cache && node.cache[k].low
  {
    SoundRun(o, drivers, run);
    assert Sound(Exec(o, drivers, START, run), n);
    AnyLowExact(Exec(o, drivers, START, run).nodes[n]);
  }
}
