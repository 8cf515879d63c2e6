/**
 * One process's half of the alert state machine: the cache, the test that decides
 * whether to ask the table, and what is cached and announced afterwards.
 */
module AlertEngine {
  import opened Wrappers
  import opened AlertVerdict
  import opened AlertRows

  /** `checked` is None for an entry the table has not confirmed to an observation. */
  datatype Cached = Cached(low: bool, lastSent: Instant, checked: Option<Instant>)

  datatype Node = Node(cache: map<Key, Cached>, lows: int)

  datatype Observation = Observation(key: Key, event: string, low: bool, now: Instant)

  /** One message handed to the notifier; `only` restricts a retry to transports owed. */
  datatype News = News(key: Key, number: nat, low: bool, state: Label, only: Option<seq<string>>)

  datatype Active = Active(key: Key, lastSent: int)

  datatype Owed = Owed(key: Key, number: nat, last: int, state: Label)

  /** How a table statement ends for its caller; `written` says whether it committed. */
  datatype Reply = Answered | Failed(written: bool)

  const BLANK: Node := Node(map[], 0)

  // ---- one observation -------------------------------------------------------

  function Entry(node: Node, key: Key): Option<Cached> {
    if key in node.cache then Some(node.cache[key]) else None
  }

  predicate KnownLow(e: Option<Cached>) { e.Some? && e.value.low }

  /** Without a table the cache is the only state there is, and always fresh. */
  predicate Fresh(o: Options, stored: bool, e: Option<Cached>, now: Instant) {
    e.Some? && (stored ==> e.value.checked.Some? && now - e.value.checked.value < o.recheck)
  }

  predicate Skips(o: Options, stored: bool, e: Option<Cached>, obs: Observation) {
    || obs.key == ""
    || (Fresh(o, stored, e, obs.now) &&
        if obs.low then e.value.low && (o.remind <= 0 || obs.now - e.value.lastSent < o.remind)
        else !e.value.low)
  }

  function LabelOf(e: Option<Cached>, low: bool): Label {
    if !low then Recovered else if KnownLow(e) then Reminder else LowNews
  }

  function RemindBefore(o: Options, now: Instant): Instant {
    if o.remind > 0 then now - o.remind else 0
  }

  function Settled(e: Option<Cached>, obs: Observation, won: bool): Cached {
    if !obs.low then Cached(false, 0, Some(obs.now))
    else Cached(true, if !won && KnownLow(e) then e.value.lastSent else obs.now, Some(obs.now))
  }

  function Put(node: Node, key: Key, c: Cached): Node {
    var was := KnownLow(Entry(node, key));
    Node(node.cache[key := c],
         node.lows + (if c.low && !was then 1 else if !c.low && was then -1 else 0))
  }

  /** The statement an observation that is not skipped runs on the table. */
  function Asked(o: Options, rows: Rows, e: Option<Cached>, obs: Observation, drivers: seq<string>): Rows {
    if obs.low then Raised(rows, obs.key, obs.event, obs.now, RemindBefore(o, obs.now), drivers, LabelOf(e, true))
    else Resolved(rows, obs.key, obs.now, drivers, Recovered)
  }

  predicate Wins(o: Options, rows: Rows, obs: Observation) {
    if obs.low then RaiseWins(rows, obs.key, RemindBefore(o, obs.now)) else LowIn(rows, obs.key)
  }

  /** Win or lose, the row agrees with the observation once the statement has run. */
  lemma AskedAgrees(o: Options, rows: Rows, e: Option<Cached>, obs: Observation, drivers: seq<string>)
    ensures LowIn(Asked(o, rows, e, obs, drivers), obs.key) == obs.low
    ensures Wins(o, rows, obs) ==> obs.key in Asked(o, rows, e, obs, drivers)
  {
  }

  datatype Outcome = Outcome(node: Node, rows: Rows, news: Option<News>)

  /** A whole observation against the table, run without interruption. */
  function Stored(o: Options, node: Node, rows: Rows, obs: Observation, drivers: seq<string>, reply: Reply): Outcome {
    var e := Entry(node, obs.key);
    if Skips(o, true, e, obs) then Outcome(node, rows, None)
    else
      var after := Asked(o, rows, e, obs, drivers);
      match reply
      case Failed(written) => Outcome(node, if written then after else rows, None)
      case Answered =>
        var won := Wins(o, rows, obs);
        AskedAgrees(o, rows, e, obs, drivers);
        Outcome(Put(node, obs.key, Settled(e, obs, won)), after,
                if won then Some(News(obs.key, after[obs.key].number, obs.low, LabelOf(e, obs.low), None)) else None)
  }

  /**
   * What an answered observation leaves in the cache, by what happens to the next of the
   * same kind: it is skipped until a recheck is due and, while low, until a reminder is,
   * counted from this observation unless it lost its claim to another node.
   */
  lemma NextSkipped(o: Options, node: Node, rows: Rows, obs: Observation, drivers: seq<string>, later: Observation)
    requires obs.key != "" && !Skips(o, true, Entry(node, obs.key), obs)
    requires later.key == obs.key && later.low == obs.low
    ensures var e := Entry(node, obs.key);
            var after := Stored(o, node, rows, obs, drivers, Answered).node;
            var told := if Wins(o, rows, obs) || !KnownLow(e) then obs.now else e.value.lastSent;
            Skips(o, true, Entry(after, obs.key), later) <==>
            later.now - obs.now < o.recheck && (obs.low ==> o.remind <= 0 || later.now - told < o.remind)
  {
  }

  /** The same observation with no table: the cache decides. */
  function InMemory(o: Options, node: Node, obs: Observation): Outcome {
    var e := Entry(node, obs.key);
    if Skips(o, false, e, obs) then Outcome(node, map[], None)
    else
      var won := obs.low || KnownLow(e);
      Outcome(Put(node, obs.key, Settled(e, obs, won)), map[],
              if won then Some(News(obs.key, 0, obs.low, LabelOf(e, obs.low), None)) else None)
  }

  // ---- the low counter -------------------------------------------------------

  function LowKeys(cache: map<Key, Cached>): set<Key> {
    set k | k in cache && cache[k].low
  }

  predicate Counted(node: Node) {
    node.lows == |LowKeys(node.cache)|
  }

  lemma PutCounts(node: Node, key: Key, c: Cached)
    requires Counted(node)
    ensures Counted(Put(node, key, c))
  {
    var before, after := LowKeys(node.cache), LowKeys(Put(node, key, c).cache);
    if c.low {
      assert after == before + {key};
    } else {
      assert after == before - {key};
    }
  }

  /** AnyLow is exact: the counter is positive just when some cached condition is low. */
  lemma AnyLowExact(node: Node)
    requires Counted(node)
    ensures node.lows > 0 <==> exists k :: k in node.cache && node.cache[k].low
  {
    if node.lows > 0 {
      var k :| k in LowKeys(node.cache);
    } else if k :| k in node.cache && node.cache[k].low {
      assert k in LowKeys(node.cache);
    }
  }

  // ---- priming and sweeping --------------------------------------------------

  function Primed(node: Node, a: Active): Node {
    if KnownLow(Entry(node, a.key)) then node
    else Put(node, a.key, Cached(true, a.lastSent * 1000, None))
  }

  function PrimedAll(node: Node, act: seq<Active>): Node {
    if act == [] then node else Primed(PrimedAll(node, act[..|act| - 1]), act[|act| - 1])
  }

  predicate Listed(act: seq<Active>, key: Key) { exists i :: 0 <= i < |act| && act[i].key == key }

  /**
   * Priming makes every listed condition known low and touches no other: what was known
   * low stays as it was, the rest becomes what the listing says, unconfirmed.
   */
  lemma {:induction false} PrimedFacts(node: Node, act: seq<Active>, key: Key)
    ensures Listed(act, key) ==> KnownLow(Entry(PrimedAll(node, act), key))
    ensures !Listed(act, key) || KnownLow(Entry(node, key)) ==> Entry(PrimedAll(node, act), key) == Entry(node, key)
    ensures Listed(act, key) && !KnownLow(Entry(node, key)) ==>
      exists i :: 0 <= i < |act| && act[i].key == key
                  && Entry(PrimedAll(node, act), key) == Some(Cached(true, act[i].lastSent * 1000, None))
  {
    if act != [] {
      var n := |act| - 1;
      PrimedFacts(node, act[..n], key);
      assert Listed(act[..n], key) ==> Listed(act, key);
      assert act[n].key == key ==> Listed(act, key);
      assert Listed(act, key) ==> Listed(act[..n], key) || act[n].key == key;
    }
  }

  /** What befalls each item of a sweep: whether it still parses, and how its claim ends. */
  datatype Luck = Luck(usable: nat -> bool, replies: nat -> Reply)

  predicate Claimed(rows: Rows, p: Owed, luck: Luck, i: nat) {
    luck.usable(i) && luck.replies(i) != Failed(false) && RetryWins(rows, p.key, p.number, p.last)
  }

  function SweptRows(rows: Rows, p: Owed, now: Instant, luck: Luck, i: nat): Rows {
    if Claimed(rows, p, luck, i) then Retried(rows, p.key, p.number, p.last, now) else rows
  }

  /** A claim whose answer is lost is not sent. */
  function SweptNews(rows: Rows, p: Owed, luck: Luck, i: nat): seq<News> {
    if Claimed(rows, p, luck, i) && luck.replies(i).Answered?
    then [News(p.key, p.number, p.state != Recovered, p.state, Some(rows[p.key].pending))]
    else []
  }

  /** The rows and the messages after retrying a listing in order. */
  function Swept(rows: Rows, items: seq<Owed>, now: Instant, luck: Luck): (Rows, seq<News>) {
    if items == [] then (rows, [])
    else
      var n := |items| - 1;
      var (r, out) := Swept(rows, items[..n], now, luck);
      (SweptRows(r, items[n], now, luck, n), out + SweptNews(r, items[n], luck, n))
  }

  lemma SweptSnoc(rows: Rows, items: seq<Owed>, now: Instant, luck: Luck, i: nat)
    requires i < |items|
    ensures var (r, out) := Swept(rows, items[..i], now, luck);
            Swept(rows, items[..i + 1], now, luck) ==
            (SweptRows(r, items[i], now, luck, i), out + SweptNews(r, items[i], luck, i))
  {
    assert items[..i + 1][..i] == items[..i];
  }

  /** A message of a sweep is for an announcement the table holds, and goes where it is owed. */
  predicate SentAsOwed(rows: Rows, m: News) {
    && m.key in rows && m.number == rows[m.key].number
    && m.only == Some(rows[m.key].pending) && Owes(rows[m.key].pending)
  }

  /** A sweep moves attempt times and nothing else, and sends only what is owed where it is owed. */
  lemma {:induction false} SweptFacts(rows: Rows, items: seq<Owed>, now: Instant, luck: Luck)
    ensures var (r, out) := Swept(rows, items, now, luck);
            && r.Keys == rows.Keys
            && (forall k | k in rows :: r[k] == rows[k].(lastSent := r[k].lastSent))
            && (forall k | k in rows :: r[k].lastSent == rows[k].lastSent || r[k].lastSent == Micros(now))
            && (forall m | m in out :: SentAsOwed(rows, m))
  {
    if items != [] {
      SweptFacts(rows, items[..|items| - 1], now, luck);
    }
  }

  /** Everything due: owed to somebody, and last attempted no later than `before`. */
  predicate Due(rows: Rows, key: Key, before: Instant) {
    key in rows && Owes(rows[key].pending) && rows[key].lastSent <= Micros(before)
  }

  predicate ListsKey(items: seq<Owed>, key: Key) { exists i :: 0 <= i < |items| && items[i].key == key }

  /** The items listed for a key are its row's announcement and attempt. */
  predicate Matches(rows: Rows, items: seq<Owed>, key: Key) {
    key in rows && forall i | 0 <= i < |items| && items[i].key == key ::
      items[i].number == rows[key].number && items[i].last == rows[key].lastSent && items[i].state == rows[key].payload
  }

  /** The message that resends a row's announcement to all it is owed to. */
  function Resent(rows: Rows, key: Key): News
    requires key in rows
  {
    var r := rows[key];
    News(key, r.number, r.payload != Recovered, r.payload, Some(r.pending))
  }

  /** Every claim is answered and every item still parses. */
  ghost predicate Smooth(luck: Luck) { forall i: nat :: luck.usable(i) && luck.replies(i) == Answered }

  lemma {:induction false} SweptSends(rows: Rows, items: seq<Owed>, now: Instant, luck: Luck, key: Key)
    requires Smooth(luck) && Matches(rows, items, key) && Owes(rows[key].pending)
    ensures var (r, out) := Swept(rows, items, now, luck);
            if ListsKey(items, key) then Resent(rows, key) in out else key in r && r[key] == rows[key]
  {
    if items != [] {
      var n := |items| - 1;
      var init := items[..n];
      SweptSends(rows, init, now, luck, key);
      assert ListsKey(init, key) ==> ListsKey(items, key);
      assert ListsKey(items, key) ==> ListsKey(init, key) || items[n].key == key;
      assert luck.usable(n) && luck.replies(n) == Answered;
    }
  }

  // ---- the engine object -----------------------------------------------------

  class Engine {
    const o: Options
    const drivers: seq<string>
    const table: Table?
    var cache: map<Key, Cached>
    var lows: int
    var sent: seq<News>

    ghost function State(): Node
      reads this
    {
      Node(cache, lows)
    }

    ghost predicate Valid()
      reads this
    {
      Counted(State())
    }

    constructor (raw: Options, drivers: seq<string>, table: Table?)
      ensures Valid() && State() == BLANK && sent == []
      ensures this.o == Normalised(raw) && this.drivers == drivers && this.table == table
    {
      this.o, this.drivers, this.table := Normalised(raw), drivers, table;
      cache, lows, sent := map[], 0, [];
      new;
      assert LowKeys(cache) == {};
    }

    method AnyLow() returns (any: bool)
      requires Valid()
      ensures any <==> exists k :: k in cache && cache[k].low
    {
      AnyLowExact(State());
      any := lows > 0;
    }

    method Set(key: Key, st: Cached)
      requires Valid()
      modifies this`cache, this`lows
      ensures Valid() && State() == Put(old(State()), key, st)
    {
      PutCounts(State(), key, st);
      var had := key in cache && cache[key].low;
      cache := cache[key := st];
      if st.low && !had {
        lows := lows + 1;
      } else if !st.low && had {
        lows := lows - 1;
      }
    }

    /** The statement an observation runs on the table. */
    method Ask(obs: Observation, state: Label) returns (claim: Claim)
      requires table != null
      modifies table
      ensures forall e | LabelOf(e, obs.low) == state :: table.rows == Asked(o, old(table.rows), e, obs, drivers)
      ensures Wins(o, old(table.rows), obs) ==> obs.key in table.rows
      ensures claim == if Wins(o, old(table.rows), obs) then Won(table.rows[obs.key].number) else Lost
    {
      if obs.low {
        var cutoff := if o.remind > 0 then obs.now - o.remind else 0;
        claim := table.AlertRaise(obs.key, obs.event, obs.now, cutoff, drivers, state);
      } else {
        claim := table.AlertResolve(obs.key, obs.now, drivers, state);
      }
    }

    /** With no table the reply is never consulted. */
    method Observe(obs: Observation, reply: Reply)
      requires Valid()
      modifies this, table
      ensures Valid()
      ensures table == null ==>
        var out := InMemory(o, old(State()), obs);
        State() == out.node && sent == old(sent) + if out.news.Some? then [out.news.value] else []
      ensures table != null ==>
        var out := Stored(o, old(State()), old(table.rows), obs, drivers, reply);
        && State() == out.node && table.rows == out.rows
        && sent == old(sent) + if out.news.Some? then [out.news.value] else []
    {
      if obs.key == "" {
        return;
      }
      var known := obs.key in cache;
      var st := if known then cache[obs.key] else Cached(false, 0, None);
      var current := known && (table == null || (st.checked.Some? && obs.now - st.checked.value < o.recheck));
      if !obs.low && current && !st.low {
        return;
      }
      if obs.low && current && st.low && (o.remind <= 0 || obs.now - st.lastSent < o.remind) {
        return;
      }
      var state := if !obs.low then Recovered else if known && st.low then Reminder else LowNews;
      var announce, number := if obs.low then true else known && st.low, 0;
      if table != null {
        if reply == Failed(false) {
          return;
        }
        var claim := Ask(obs, state);
        if reply.Failed? {
          return;
        }
        announce, number := claim.Won?, if claim.Won? then claim.number else 0;
      }
      if !obs.low {
        Set(obs.key, Cached(false, 0, Some(obs.now)));
      } else {
        var lastSent := if !announce && known && st.low then st.lastSent else obs.now;
        Set(obs.key, Cached(true, lastSent, Some(obs.now)));
      }
      if announce {
        sent := sent + [News(obs.key, number, obs.low, state, None)];
      }
    }

    method Load(act: seq<Active>)
      requires Valid()
      modifies this`cache, this`lows
      ensures Valid() && State() == PrimedAll(old(State()), act)
      ensures forall key :: Listed(act, key) ==> key in cache && cache[key].low
      ensures forall key :: !Listed(act, key) || KnownLow(Entry(old(State()), key)) ==>
                              Entry(State(), key) == Entry(old(State()), key)
    {
      for i := 0 to |act|
        invariant Valid() && State() == PrimedAll(old(State()), act[..i])
      {
        assert act[..i + 1][..i] == act[..i];
        if !(act[i].key in cache && cache[act[i].key].low) {
          Set(act[i].key, Cached(true, act[i].lastSent * 1000, None));
        }
      }
      assert act[..|act|] == act;
      forall key
        ensures Listed(act, key) ==> KnownLow(Entry(State(), key))
        ensures !Listed(act, key) || KnownLow(Entry(old(State()), key)) ==>
                  Entry(State(), key) == Entry(old(State()), key)
      {
        PrimedFacts(old(State()), act, key);
      }
    }

    /** `act` and `pend` are the two listings the sweep reads. */
    method Sweep(act: seq<Active>, pend: seq<Owed>, now: Instant, luck: Luck)
      requires Valid()
      modifies this, table
      ensures Valid()
      ensures table == null ==> State() == old(State()) && sent == old(sent)
      ensures table != null ==>
        && State() == PrimedAll(old(State()), act)
        && table.rows == Swept(old(table.rows), pend, now, luck).0
        && sent == old(sent) + Swept(old(table.rows), pend, now, luck).1
        && forall m | m in sent[|old(sent)|..] :: SentAsOwed(old(table.rows), m)
    {
      if table == null {
        return;
      }
      Load(act);
      for i := 0 to |pend|
        invariant Valid() && State() == PrimedAll(old(State()), act)
        invariant table.rows == Swept(old(table.rows), pend[..i], now, luck).0
        invariant sent == old(sent) + Swept(old(table.rows), pend[..i], now, luck).1
      {
        SweptSnoc(old(table.rows), pend, now, luck, i);
        var p := pend[i];
        if luck.usable(i) && luck.replies(i) != Failed(false) {
          var owed := table.AlertRetryClaim(p.key, p.number, p.last, now);
          if owed.Some? && luck.replies(i).Answered? {
            sent := sent + [News(p.key, p.number, p.state != Recovered, p.state, owed)];
          }
        }
      }
      assert pend[..|pend|] == pend;
      SweptFacts(old(table.rows), pend, now, luck);
    }
  }

  // ---- one process: the table adds nothing within it -------------------------

  /** What a reader of the announcements sees. */
  datatype Shown = Shown(key: Key, state: Label)

  function ShownOf(news: Option<News>): seq<Shown> {
    if news.Some? then [Shown(news.value.key, news.value.state)] else []
  }

  function RunInMemory(o: Options, node: Node, run: seq<Observation>): seq<Shown>
    decreases |run|
  {
    if run == [] then []
    else var out := InMemory(o, node, run[0]); ShownOf(out.news) + RunInMemory(o, out.node, run[1..])
  }

  function RunStored(o: Options, node: Node, rows: Rows, run: seq<Observation>, drivers: seq<string>): seq<Shown>
    decreases |run|
  {
    if run == [] then []
    else
      var out := Stored(o, node, rows, run[0], drivers, Answered);
      ShownOf(out.news) + RunStored(o, out.node, out.rows, run[1..], drivers)
  }

  /** Clocks that read a time after the epoch, at the table's resolution. */
  predicate AfterEpoch(run: seq<Observation>) {
    forall i | 0 <= i < |run| :: Micros(run[i].now) > 0
  }

  /** The simulation: both caches and the table hold the same conditions low. */
  ghost predicate Agree(mem: Node, node: Node, rows: Rows) {
    && (forall k {:trigger Entry(mem, k)} :: KnownLow(Entry(mem, k)) == LowIn(rows, k))
    && (forall k :: k in node.cache ==> node.cache[k].low == LowIn(rows, k))
    && (forall k :: k in rows ==> rows[k].lastSent > 0)
  }

  lemma AgreeStep(o: Options, p: Options, mem: Node, node: Node, rows: Rows, obs: Observation, drivers: seq<string>)
    requires o.remind <= 0 && p.remind <= 0 && Micros(obs.now) > 0 && Agree(mem, node, rows)
    ensures var a, b := InMemory(p, mem, obs), Stored(o, node, rows, obs, drivers, Answered);
            ShownOf(a.news) == ShownOf(b.news) && Agree(a.node, b.node, b.rows)
  {
    var a, b := InMemory(p, mem, obs), Stored(o, node, rows, obs, drivers, Answered);
    assert KnownLow(Entry(mem, obs.key)) == LowIn(rows, obs.key);
    SameNews(o, p, mem, node, rows, obs, drivers);
    forall k
      ensures KnownLow(Entry(a.node, k)) == LowIn(b.rows, k)
      ensures k in b.node.cache ==> b.node.cache[k].low == LowIn(b.rows, k)
      ensures k in b.rows ==> b.rows[k].lastSent > 0
    {
      assert KnownLow(Entry(mem, k)) == LowIn(rows, k);
    }
  }

  lemma SameNews(o: Options, p: Options, mem: Node, node: Node, rows: Rows, obs: Observation, drivers: seq<string>)
    requires o.remind <= 0 && p.remind <= 0 && KnownLow(Entry(mem, obs.key)) == LowIn(rows, obs.key)
    requires obs.key in node.cache ==> node.cache[obs.key].low == LowIn(rows, obs.key)
    requires obs.key in rows ==> rows[obs.key].lastSent > 0
    ensures ShownOf(InMemory(p, mem, obs).news) == ShownOf(Stored(o, node, rows, obs, drivers, Answered).news)
  {
  }

  /**
   * Reminders off, one process, from nothing: the engine without a table announces what
   * the engine with one does, whatever either trusts its cache for.
   */
  lemma {:induction false} SameAnnouncements(o: Options, p: Options, mem: Node, node: Node, rows: Rows,
                                             run: seq<Observation>, drivers: seq<string>)
    requires o.remind <= 0 && p.remind <= 0 && AfterEpoch(run) && Agree(mem, node, rows)
    ensures RunInMemory(p, mem, run) == RunStored(o, node, rows, run, drivers)
    decreases |run|
  {
    if run != [] {
      AgreeStep(o, p, mem, node, rows, run[0], drivers);
      var a, b := InMemory(p, mem, run[0]), Stored(o, node, rows, run[0], drivers, Answered);
      SameAnnouncements(o, p, a.node, b.node, b.rows, run[1..], drivers);
    }
  }

  lemma SameFromNothing(o: Options, p: Options, run: seq<Observation>, drivers: seq<string>)
    requires o.remind <= 0 && p.remind <= 0 && AfterEpoch(run)
    ensures RunInMemory(p, BLANK, run) == RunStored(o, BLANK, map[], run, drivers)
  {
    SameAnnouncements(o, p, BLANK, BLANK, map[], run, drivers);
  }

  /** A condition seen low at `t`, and again once the cache is no longer trusted. */
  function TwiceLow(o: Options, t: Instant): seq<Observation> {
    var later := if o.recheck > 0 then t + o.recheck else t;
    [Observation("k", "e", true, t), Observation("k", "e", true, later)]
  }

  lemma TwiceDiffers(o: Options, p: Options, t: Instant, drivers: seq<string>)
    requires o.remind <= 0 && p.remind <= 0 && Micros(t) <= 0
    ensures RunInMemory(p, BLANK, TwiceLow(o, t)) == [Shown("k", LowNews)]
    ensures RunStored(o, BLANK, map[], TwiceLow(o, t), drivers) == [Shown("k", LowNews), Shown("k", Reminder)]
  {
    var run := TwiceLow(o, t);
    var a, b := InMemory(p, BLANK, run[0]), Stored(o, BLANK, map[], run[0], drivers, Answered);
    assert run[1..] == [run[1]] && run[1..][1..] == [];
    assert RunInMemory(p, a.node, run[1..]) == [];
    assert b.rows["k"].lastSent == Micros(t);
    var c := Stored(o, b.node, b.rows, run[1], drivers, Answered);
    assert c.news.Some?;
    assert RunStored(o, b.node, b.rows, run[1..], drivers) == ShownOf(c.news) + [];
  }

  predicate From(run: seq<Observation>, t: Instant) { forall i | 0 <= i < |run| :: run[i].now >= t }

  /**
   * The engine without a table announces what the engine with one does on every run whose
   * clock starts at `t`, exactly when `t` is past the epoch at the table's resolution.
   */
  lemma SameExactly(o: Options, p: Options, drivers: seq<string>, t: Instant)
    requires o.remind <= 0 && p.remind <= 0
    ensures (forall run | From(run, t) :: RunInMemory(p, BLANK, run) == RunStored(o, BLANK, map[], run, drivers))
       <==> Micros(t) > 0
  {
    if Micros(t) > 0 {
      forall run | From(run, t)
        ensures RunInMemory(p, BLANK, run) == RunStored(o, BLANK, map[], run, drivers)
      {
        SameFromNothing(o, p, run, drivers);
      }
    } else {
      TwiceDiffers(o, p, t, drivers);
      assert From(TwiceLow(o, t), t);
    }
  }

  // ---- what one process announces, from the observations alone ----------------

  /**
   * When the spell of lows a key is in was last announced, by the flags and times of the
   * observations: none while the last of them was not low.
   */
  function Spell(o: Options, run: seq<Observation>, key: Key): Option<Instant> {
    if run == [] then None
    else
      var before, obs := Spell(o, run[..|run| - 1], key), run[|run| - 1];
      if obs.key != key then before
      else if !obs.low then None
      else if before.None? || (o.remind > 0 && obs.now - before.value >= o.remind) then Some(obs.now)
      else before
  }

  /** Low news when a spell begins, a reminder when one is due in it, a recovery when it ends. */
  function SpellNews(o: Options, run: seq<Observation>): seq<Shown> {
    if run == [] then []
    else
      var before, obs := Spell(o, run[..|run| - 1], run[|run| - 1].key), run[|run| - 1];
      SpellNews(o, run[..|run| - 1])
      + if obs.key == "" then []
        else if obs.low && before.None? then [Shown(obs.key, LowNews)]
        else if obs.low && o.remind > 0 && obs.now - before.value >= o.remind then [Shown(obs.key, Reminder)]
        else if !obs.low && before.Some? then [Shown(obs.key, Recovered)]
        else []
  }

  /** The cache knows a key low just in a spell, and since when it was announced. */
  lemma {:induction false} CacheKnowsSpell(o: Options, run: seq<Observation>, key: Key)
    requires key != ""
    ensures var e := Entry(MemoryNode(o, BLANK, run), key);
            && (KnownLow(e) <==> Spell(o, run, key).Some?)
            && (KnownLow(e) ==> e.value.lastSent == Spell(o, run, key).value)
  {
    if run != [] {
      CacheKnowsSpell(o, run[..|run| - 1], key);
    }
  }

  lemma {:induction false} RunSnoc(o: Options, node: Node, run: seq<Observation>, obs: Observation)
    ensures RunInMemory(o, node, run + [obs]) ==
            RunInMemory(o, node, run) + ShownOf(InMemory(o, MemoryFrom(o, node, run), obs).news)
    decreases |run|
  {
    if run == [] {
      assert run + [obs] == [obs] && [obs][1..] == [];
      assert RunInMemory(o, node, [obs]) == ShownOf(InMemory(o, node, obs).news) + [];
    } else {
      var out := InMemory(o, node, run[0]);
      assert (run + [obs])[1..] == run[1..] + [obs];
      RunSnoc(o, out.node, run[1..], obs);
    }
  }

  function MemoryFrom(o: Options, node: Node, run: seq<Observation>): Node
    decreases |run|
  {
    if run == [] then node else MemoryFrom(o, InMemory(o, node, run[0]).node, run[1..])
  }

  lemma {:induction false} MemoryFromSnoc(o: Options, node: Node, run: seq<Observation>, obs: Observation)
    ensures MemoryFrom(o, node, run + [obs]) == InMemory(o, MemoryFrom(o, node, run), obs).node
    decreases |run|
  {
    if run == [] {
      assert run + [obs] == [obs] && [obs][1..] == [];
    } else {
      assert (run + [obs])[1..] == run[1..] + [obs];
      MemoryFromSnoc(o, InMemory(o, node, run[0]).node, run[1..], obs);
    }
  }

  lemma {:induction false} MemoryFromIs(o: Options, node: Node, run: seq<Observation>)
    ensures MemoryFrom(o, node, run) == MemoryNode(o, node, run)
  {
    if run != [] {
      var init, obs := run[..|run| - 1], run[|run| - 1];
      assert run == init + [obs];
      MemoryFromIs(o, node, init);
      MemoryFromSnoc(o, node, init, obs);
    }
  }

  /** Without a table the messages of every run are exactly the news of its spells. */
  lemma {:induction false} MessagesExactly(o: Options, run: seq<Observation>)
    ensures RunInMemory(o, BLANK, run) == SpellNews(o, run)
  {
    if run != [] {
      var init, obs := run[..|run| - 1], run[|run| - 1];
      assert run == init + [obs];
      MessagesExactly(o, init);
      RunSnoc(o, BLANK, init, obs);
      MemoryFromIs(o, BLANK, init);
      if obs.key != "" {
        CacheKnowsSpell(o, init, obs.key);
      }
    }
  }

  /** The flag of a key's last observation. */
  function WasLow(run: seq<Observation>, key: Key): bool {
    run != [] && if run[|run| - 1].key == key then run[|run| - 1].low else WasLow(run[..|run| - 1], key)
  }

  /** One message for each observation whose flag differs from the key's last one. */
  function Crossings(run: seq<Observation>): seq<Shown> {
    if run == [] then []
    else
      var obs := run[|run| - 1];
      Crossings(run[..|run| - 1])
      + if obs.key != "" && obs.low != WasLow(run[..|run| - 1], obs.key)
        then [Shown(obs.key, if obs.low then LowNews else Recovered)] else []
  }

  lemma {:induction false} SpellIsLow(o: Options, run: seq<Observation>, key: Key)
    ensures Spell(o, run, key).Some? <==> WasLow(run, key)
  {
    if run != [] {
      SpellIsLow(o, run[..|run| - 1], key);
    }
  }

  lemma {:induction false} CrossingsAreSpells(o: Options, run: seq<Observation>)
    requires o.remind <= 0
    ensures SpellNews(o, run) == Crossings(run)
  {
    if run != [] {
      CrossingsAreSpells(o, run[..|run| - 1]);
      SpellIsLow(o, run[..|run| - 1], run[|run| - 1].key);
    }
  }

  /**
   * Reminders off: one process, with a table or without, announces exactly the crossings of
   * the observed flag, low and recovered alike.
   */
  lemma AnnouncesObserved(o: Options, p: Options, run: seq<Observation>, drivers: seq<string>)
    requires o.remind <= 0 && p.remind <= 0
    ensures RunInMemory(p, BLANK, run) == Crossings(run)
    ensures AfterEpoch(run) ==> RunStored(o, BLANK, map[], run, drivers) == Crossings(run)
  {
    MessagesExactly(p, run);
    CrossingsAreSpells(p, run);
    if AfterEpoch(run) {
      SameFromNothing(o, p, run, drivers);
    }
  }

  function NumberOf(rows: Rows, key: Key): nat { if key in rows then rows[key].number else 0 }

  /** A message says what the table numbered: it is sent exactly when the number moves, and as the row then reads. */
  predicate Tells(before: Rows, after: Rows, key: Key, news: Option<News>) {
    if NumberOf(after, key) == NumberOf(before, key) then news.None?
    else
      && NumberOf(after, key) == NumberOf(before, key) + 1 && news.Some? && key in after
      && news.value == News(key, after[key].number, after[key].low, after[key].payload, None)
  }

  /** With a table, reminders on or off: an answered observation sends exactly what it was numbered for. */
  lemma SendsNumbered(o: Options, node: Node, rows: Rows, obs: Observation, drivers: seq<string>)
    ensures var out := Stored(o, node, rows, obs, drivers, Answered);
            && Tells(rows, out.rows, obs.key, out.news)
            && forall k | k != obs.key :: NumberOf(out.rows, k) == NumberOf(rows, k)
  {
  }

  /** And a due reminder is numbered: the row is low, last sent Remind ago, and the cache has nothing newer. */
  lemma ReminderNumbered(o: Options, node: Node, rows: Rows, obs: Observation, drivers: seq<string>)
    requires obs.key != "" && obs.low && LowIn(rows, obs.key) && o.remind > 0
    requires rows[obs.key].lastSent <= Micros(obs.now - o.remind)
    requires obs.key in node.cache && node.cache[obs.key].low ==> obs.now - node.cache[obs.key].lastSent >= o.remind
    ensures var out := Stored(o, node, rows, obs, drivers, Answered);
            NumberOf(out.rows, obs.key) == NumberOf(rows, obs.key) + 1 && out.rows[obs.key].lastSent == Micros(obs.now)
  {
  }

  // ---- reminders without a table ---------------------------------------------

  function MemoryNode(o: Options, node: Node, run: seq<Observation>): Node {
    if run == [] then node else InMemory(o, MemoryNode(o, node, run[..|run| - 1]), run[|run| - 1]).node
  }

  /** Whether the i-th observation of a run announces. */
  function NewsAt(o: Options, run: seq<Observation>, i: nat): Option<News>
    requires i < |run|
  {
    InMemory(o, MemoryNode(o, BLANK, run[..i]), run[i]).news
  }

  /** Nothing announces a recovery of the key between two positions. */
  predicate OneSpell(run: seq<Observation>, key: Key, i: nat, j: nat)
    requires i <= j <= |run|
  {
    forall m | i < m < j :: run[m].key == key ==> run[m].low
  }

  lemma {:induction false} SpellKeepsTime(o: Options, run: seq<Observation>, i: nat, j: nat)
    requires i < j <= |run| && run[i].low && NewsAt(o, run, i).Some?
    requires OneSpell(run, run[i].key, i, j)
    requires forall m | i < m < j && run[m].key == run[i].key :: NewsAt(o, run, m).None?
    ensures Entry(MemoryNode(o, BLANK, run[..j]), run[i].key) == Some(Cached(true, run[i].now, Some(run[i].now)))
    decreases j - i
  {
    assert run[..j][..j - 1] == run[..j - 1];
    if j > i + 1 {
      SpellKeepsTime(o, run, i, j - 1);
      assert run[..j][j - 1] == run[j - 1];
      if run[j - 1].key == run[i].key {
        assert NewsAt(o, run, j - 1).None?;
      }
    }
  }

  /**
   * In one low spell, two successive low announcements of the engine without a table are
   * at least Remind apart; with reminders off the second never comes.
   */
  lemma RemindersApart(o: Options, run: seq<Observation>, i: nat, j: nat)
    requires i < j < |run| && run[i].key == run[j].key && run[i].low && run[j].low
    requires NewsAt(o, run, i).Some? && NewsAt(o, run, j).Some?
    requires OneSpell(run, run[i].key, i, j)
    requires forall m | i < m < j && run[m].key == run[i].key :: NewsAt(o, run, m).None?
    ensures o.remind > 0 && run[j].now - run[i].now >= o.remind
    ensures NewsAt(o, run, j).value.state == Reminder
  {
    SpellKeepsTime(o, run, i, j);
  }
}
