/**
 * The two bounded recorders, each against the plain list of everything recorded: the
 * health history and the live traffic buffer.
 */
module RingBuffers {
  import opened Wrappers

  // ---- rings -----------------------------------------------------------------

  function Last<T>(log: seq<T>, size: nat): seq<T> {
    if |log| <= size then log else log[|log| - size..]
  }

  /** What a ring of slots says, oldest first. */
  function Unrolled<T>(slots: seq<T>, next: nat, full: bool): seq<T>
    requires next <= |slots|
  {
    if full then slots[next..] + slots[..next] else slots[..next]
  }

  lemma ModOnce(x: nat, n: nat)
    requires 0 < n && x < 2 * n
    ensures x % n == if x < n then x else x - n
  {
  }

  lemma LastAfter<T>(log: seq<T>, size: nat, e: T)
    requires 0 < size <= |log|
    ensures Last(log + [e], size) == Last(log, size)[1..] + [e]
  {
  }

  lemma FullWrite<T>(slots: seq<T>, next: nat, e: T)
    requires next < |slots|
    ensures var slots' := slots[next := e];
            var next' := if next + 1 == |slots| then 0 else next + 1;
            Unrolled(slots', next', true) == Unrolled(slots, next, true)[1..] + [e]
  {
  }

  lemma FillWrite<T>(slots: seq<T>, next: nat, e: T)
    requires next < |slots|
    ensures var slots' := slots[next := e];
            Unrolled(slots', if next + 1 == |slots| then 0 else next + 1, next + 1 == |slots|) == slots[..next] + [e]
  {
  }

  /** One write at `next` is one more event, the oldest dropped once the ring is full. */
  lemma RingWrite<T>(slots: seq<T>, next: nat, full: bool, log: seq<T>, e: T)
    requires next < |slots| && Unrolled(slots, next, full) == Last(log, |slots|)
    requires full ==> |log| >= |slots|
    ensures var slots' := slots[next := e];
            var next' := if next + 1 == |slots| then 0 else next + 1;
            Unrolled(slots', next', full || next' == 0) == Last(log + [e], |slots|)
  {
    if full {
      FullWrite(slots, next, e);
      LastAfter(log, |slots|, e);
    } else {
      FillWrite(slots, next, e);
      assert log == slots[..next];
    }
  }

  /** Where the i-th newest event of a ring sits. */
  lemma RingNewest<T>(slots: seq<T>, next: nat, full: bool, i: nat)
    requires 0 < |slots| && next < |slots| && i < |Unrolled(slots, next, full)|
    ensures var all := Unrolled(slots, next, full);
            var at := if i < next then next - 1 - i else next - 1 - i + |slots|;
            0 <= at < |slots| && all[|all| - 1 - i] == slots[at]
  {
  }

  // ---- stable newest-first order ---------------------------------------------

  datatype HealthEvent = HealthEvent(
    ts: int, subjectKind: string, subject: string, state: string, reason: string, status: int, latencyMs: int)

  /** After every event at least as new. */
  function Insert(sorted: seq<HealthEvent>, e: HealthEvent): seq<HealthEvent> {
    if sorted == [] || sorted[|sorted| - 1].ts >= e.ts then sorted + [e]
    else Insert(sorted[..|sorted| - 1], e) + [sorted[|sorted| - 1]]
  }

  function NewestFirst(s: seq<HealthEvent>): seq<HealthEvent> {
    if s == [] then [] else Insert(NewestFirst(s[..|s| - 1]), s[|s| - 1])
  }

  predicate Descending(s: seq<HealthEvent>) {
    forall i, j | 0 <= i < j < |s| :: s[i].ts >= s[j].ts
  }

  /** The events of one instant, in order. */
  function AtInstant(s: seq<HealthEvent>, t: int): seq<HealthEvent> {
    if s == [] then []
    else AtInstant(s[..|s| - 1], t) + if s[|s| - 1].ts == t then [s[|s| - 1]] else []
  }

  lemma AtInstantSnoc(s: seq<HealthEvent>, e: HealthEvent, t: int)
    ensures AtInstant(s + [e], t) == AtInstant(s, t) + if e.ts == t then [e] else []
  {
  }

  lemma {:induction false} InsertFacts(s: seq<HealthEvent>, e: HealthEvent)
    requires Descending(s)
    ensures Descending(Insert(s, e)) && |Insert(s, e)| == |s| + 1
    ensures forall x | x in Insert(s, e) :: x == e || x in s
  {
    if s != [] && s[|s| - 1].ts < e.ts {
      var init, last := s[..|s| - 1], s[|s| - 1];
      InsertFacts(init, e);
      var r := Insert(init, e);
      forall x | x in r
        ensures x.ts >= last.ts
      {
        assert x == e || x in init;
      }
    }
  }

  lemma {:induction false} InsertKeeps(s: seq<HealthEvent>, e: HealthEvent, t: int)
    ensures AtInstant(Insert(s, e), t) == AtInstant(s, t) + if e.ts == t then [e] else []
  {
    if s == [] || s[|s| - 1].ts >= e.ts {
      AtInstantSnoc(s, e, t);
    } else {
      var init, last := s[..|s| - 1], s[|s| - 1];
      InsertKeeps(init, e, t);
      AtInstantSnoc(Insert(init, e), last, t);
    }
  }

  /** Newest first, and events of one instant keep the order they were recorded in. */
  lemma {:induction false} NewestFirstStable(s: seq<HealthEvent>)
    ensures Descending(NewestFirst(s)) && |NewestFirst(s)| == |s|
    ensures forall t :: SameInstants(NewestFirst(s), s, t)
  {
    if s != [] {
      var init, last := s[..|s| - 1], s[|s| - 1];
      NewestFirstStable(init);
      InsertFacts(NewestFirst(init), last);
      assert s == init + [last];
      forall t
        ensures SameInstants(NewestFirst(s), s, t)
      {
        assert SameInstants(NewestFirst(init), init, t);
        InsertKeeps(NewestFirst(init), last, t);
      }
    }
  }

  predicate SameInstants(r: seq<HealthEvent>, s: seq<HealthEvent>, t: int) {
    AtInstant(r, t) == AtInstant(s, t)
  }

  lemma LastIsOldest(s: seq<HealthEvent>, t: int)
    requires s != [] && Descending(s) && AtInstant(s, t) != []
    ensures s[|s| - 1].ts <= t
  {
  }

  lemma LastOf(s: seq<HealthEvent>, r: seq<HealthEvent>)
    requires s != [] && r != [] && Descending(s) && Descending(r)
    requires forall t :: SameInstants(r, s, t)
    ensures r[|r| - 1] == s[|s| - 1]
  {
    var t, u := s[|s| - 1].ts, r[|r| - 1].ts;
    assert SameInstants(r, s, t) && SameInstants(r, s, u);
    LastIsOldest(r, t);
    LastIsOldest(s, u);
    var a := AtInstant(s, t);
    assert a[|a| - 1] == s[|s| - 1];
  }

  lemma CancelLast<T>(a: seq<T>, b: seq<T>, x: seq<T>)
    requires a + x == b + x
    ensures a == b
  {
    assert a == (a + x)[..|a|] && b == (b + x)[..|b|];
  }

  lemma SomeInstant(r: seq<HealthEvent>)
    ensures r != [] ==> exists t :: !SameInstants(r, [], t) && !SameInstants([], r, t)
  {
    if r != [] {
      assert !SameInstants(r, [], r[|r| - 1].ts) && !SameInstants([], r, r[|r| - 1].ts);
    }
  }

  /** Order and stability leave one answer: any stable sort gives this list. */
  lemma {:induction false} StableUnique(s: seq<HealthEvent>, r: seq<HealthEvent>)
    requires Descending(s) && Descending(r)
    requires forall t :: SameInstants(r, s, t)
    ensures r == s
  {
    if s == [] || r == [] {
      SomeInstant(r);
      SomeInstant(s);
    } else {
      LastOf(s, r);
      var s', r', last := s[..|s| - 1], r[..|r| - 1], s[|s| - 1];
      forall t
        ensures SameInstants(r', s', t)
      {
        assert SameInstants(r, s, t);
        CancelLast(AtInstant(r', t), AtInstant(s', t), if last.ts == t then [last] else []);
      }
      StableUnique(s', r');
      assert s == s' + [last] && r == r' + [last];
    }
  }

  // ---- the health history ----------------------------------------------------

  const DEFAULT_HISTORY_SIZE: nat := 4096
  const DEFAULT_PAGE_SIZE: nat := 100

  /** A zero time is None. */
  datatype HealthQuery = HealthQuery(start: Option<int>, end: Option<int>, subject: string, limit: int)

  datatype QueryError = UnboundedRange

  predicate Bounded(q: HealthQuery) {
    q.start.Some? && q.end.Some? && q.start.value < q.end.value
  }

  predicate Wanted(q: HealthQuery, e: HealthEvent)
    requires Bounded(q)
  {
    q.start.value <= e.ts < q.end.value && (q.subject != "" ==> e.subject == q.subject)
  }

  function Matching(q: HealthQuery, s: seq<HealthEvent>): (r: seq<HealthEvent>)
    requires Bounded(q)
  {
    if s == [] then []
    else Matching(q, s[..|s| - 1]) + if Wanted(q, s[|s| - 1]) then [s[|s| - 1]] else []
  }

  /** Inside the range, and of the subject when one is asked for. */
  predicate Fits(q: HealthQuery, e: HealthEvent) {
    && (q.start.Some? ==> q.start.value <= e.ts) && (q.end.Some? ==> e.ts < q.end.value)
    && (q.subject == "" || q.subject == e.subject)
  }

  predicate Ascending(at: seq<nat>) { forall i, j | 0 <= i < j < |at| :: at[i] < at[j] }

  /** What matches is what fits, each recorded event once and in the order recorded. */
  lemma {:induction false} MatchingInOrder(q: HealthQuery, s: seq<HealthEvent>) returns (at: seq<nat>)
    requires Bounded(q)
    ensures |at| == |Matching(q, s)| && Ascending(at)
    ensures forall i | 0 <= i < |at| :: at[i] < |s| && Matching(q, s)[i] == s[at[i]]
    ensures forall j: nat | j < |s| :: j in at <==> Fits(q, s[j])
  {
    at := [];
    if s != [] {
      var n := |s| - 1;
      var init := s[..n];
      at := MatchingInOrder(q, init);
      assert forall j: nat | j < n :: init[j] == s[j];
      if Fits(q, s[n]) {
        at := at + [n];
      }
    }
  }

  /**
   * A page of the history: of the events that fit, the newest as many as asked for, or a
   * hundred when no number is, newest first.
   */
  lemma PageOfHistory(q: HealthQuery, s: seq<HealthEvent>)
    requires Bounded(q)
    ensures var all := NewestFirst(Matching(q, s));
            var page := Cut(all, Limit(q));
            var asked := if q.limit <= 0 then 100 else q.limit;
            && page <= all && Descending(all) && |all| == |Matching(q, s)|
            && |page| == (if |all| <= asked then |all| else asked)
            && (forall e :: e in all <==> e in s && Fits(q, e))
  {
    NewestFirstStable(Matching(q, s));
    forall e
      ensures e in NewestFirst(Matching(q, s)) <==> e in s && Fits(q, e)
    {
      NewestHas(Matching(q, s), e);
      MatchingHas(q, s, e);
    }
  }

  lemma {:induction false} MatchingHas(q: HealthQuery, s: seq<HealthEvent>, e: HealthEvent)
    requires Bounded(q)
    ensures e in Matching(q, s) <==> e in s && Fits(q, e)
  {
    if s != [] {
      MatchingHas(q, s[..|s| - 1], e);
      assert s == s[..|s| - 1] + [s[|s| - 1]];
    }
  }

  lemma NewestHas(m: seq<HealthEvent>, e: HealthEvent)
    ensures e in NewestFirst(m) <==> e in m
  {
    NewestFirstStable(m);
    assert SameInstants(NewestFirst(m), m, e.ts);
    InInstant(NewestFirst(m), e);
    InInstant(m, e);
  }

  lemma {:induction false} InInstant(s: seq<HealthEvent>, e: HealthEvent)
    ensures e in s <==> e in AtInstant(s, e.ts)
  {
    if s != [] {
      InInstant(s[..|s| - 1], e);
      assert s == s[..|s| - 1] + [s[|s| - 1]];
    }
  }

  function Limit(q: HealthQuery): nat { if q.limit <= 0 then DEFAULT_PAGE_SIZE else q.limit }

  function Cut<T>(s: seq<T>, n: nat): seq<T> { if |s| > n then s[..n] else s }

  class MemoryHealthHistory {
    const events: array<HealthEvent>
    var next: nat
    var full: bool
    const since: int
    ghost var log: seq<HealthEvent>

    ghost predicate Valid()
      reads this, events
    {
      && 0 < events.Length && next < events.Length
      && (full ==> |log| >= events.Length)
      && Unrolled(events[..], next, full) == Last(log, events.Length)
    }

    constructor (size: int, now: int)
      ensures Valid() && log == [] && since == now && fresh(events)
      ensures events.Length == if size <= 0 then 4096 else size
    {
      var n := if size <= 0 then DEFAULT_HISTORY_SIZE else size;
      events := new HealthEvent[n](_ => HealthEvent(0, "", "", "", "", 0, 0));
      next, full, since, log := 0, false, now, [];
    }

    method Record(e: HealthEvent)
      requires Valid()
      modifies this, events
      ensures Valid() && log == old(log) + [e]
    {
      RingWrite(events[..], next, full, log, e);
      ModOnce(next + 1, events.Length);
      events[next] := e;
      assert events[..] == old(events[..])[next := e];
      next := (next + 1) % events.Length;
      if next == 0 {
        full := true;
      }
      log := log + [e];
    }

    method History(q: HealthQuery) returns (r: Result<seq<HealthEvent>, QueryError>)
      requires Valid()
      ensures r == if !Bounded(q) then Err(UnboundedRange)
                   else Ok(Cut(NewestFirst(Matching(q, Last(log, events.Length))), Limit(q)))
      ensures r.Err? <==> q.start.None? || q.end.None? || q.end.value <= q.start.value
    {
      if q.start.None? || q.end.None? || q.end.value <= q.start.value {
        return Err(UnboundedRange);
      }
      var n := if full then events.Length else next;
      var out: seq<HealthEvent> := [];
      ghost var all := Unrolled(events[..], next, full);
      for i := 0 to n
        invariant out == Matching(q, all[..i])
      {
        ModOnce(next + i, events.Length);
        var e := if full then events[(next + i) % events.Length] else events[i];
        assert e == all[i];
        assert all[..i + 1][..i] == all[..i];
        if !(e.ts < q.start.value || e.ts >= q.end.value) && !(q.subject != "" && e.subject != q.subject) {
          out := out + [e];
        }
      }
      assert all[..n] == all;
      out := NewestFirst(out);
      var limit := if q.limit <= 0 then DEFAULT_PAGE_SIZE else q.limit;
      return Ok(if |out| > limit then out[..limit] else out);
    }
  }

  // ---- live traffic ----------------------------------------------------------

  const ROWS: nat := 256
  const LABEL_BYTES: nat := 256
  const FIFTEEN_MINUTES: int := 15 * 60 * 1_000_000_000

  /** `labels` are the ten text fields, `figures` the numbers carried along. */
  datatype LiveRequest = LiveRequest(sequence: nat, at: int, labels: seq<string>, figures: seq<int>)

  function CapLabels(labels: seq<string>): (r: seq<string>)
    ensures |r| == |labels|
    ensures forall i | 0 <= i < |r| :: r[i] <= labels[i] && |r[i]| == if |labels[i]| <= 256 then |labels[i]| else 256
  {
    if labels == [] then [] else CapLabels(labels[..|labels| - 1]) + [Cut(labels[|labels| - 1], LABEL_BYTES)]
  }

  predicate Numbered(log: seq<LiveRequest>) {
    forall i | 0 <= i < |log| :: log[i].sequence == i + 1
  }

  /** Newest first, those no older than the cutoff. */
  function RecentOf(log: seq<LiveRequest>, cutoff: int): seq<LiveRequest> {
    if log == [] then []
    else (if log[|log| - 1].at >= cutoff then [log[|log| - 1]] else []) + RecentOf(log[..|log| - 1], cutoff)
  }

  class TrafficBuffer {
    const rows: array<LiveRequest>
    var next: nat
    var count: nat
    var sequence: nat
    ghost var log: seq<LiveRequest>

    ghost predicate Valid()
      reads this, rows
    {
      && rows.Length == ROWS && next < ROWS && count <= ROWS && sequence == |log|
      && count == (if |log| < ROWS then |log| else ROWS)
      && Unrolled(rows[..], next, count == ROWS) == Last(log, ROWS)
      && Numbered(log)
    }

    constructor ()
      ensures Valid() && log == [] && fresh(rows)
    {
      rows := new LiveRequest[ROWS](_ => LiveRequest(0, 0, [], []));
      next, count, sequence, log := 0, 0, 0, [];
    }

    method Record(r: LiveRequest)
      requires Valid()
      modifies this, rows
      ensures Valid() && log == old(log) + [r.(sequence := |old(log)| + 1, labels := CapLabels(r.labels))]
    {
      Put(r.(sequence := sequence + 1, labels := CapLabels(r.labels)));
    }

    method Put(row: LiveRequest)
      requires Valid() && row.sequence == sequence + 1
      modifies this, rows
      ensures Valid() && log == old(log) + [row]
    {
      RingWrite(rows[..], next, count == ROWS, log, row);
      ModOnce(next + 1, ROWS);
      assert count < ROWS ==> next == count;
      sequence := sequence + 1;
      rows[next] := row;
      assert rows[..] == old(rows[..])[next := row];
      next := (next + 1) % rows.Length;
      count := if count + 1 < rows.Length then count + 1 else rows.Length;
      log := log + [row];
    }

    /** The i-th newest row kept. */
    method RowBack(i: nat) returns (r: LiveRequest)
      requires Valid() && i < count
      ensures r == Last(log, ROWS)[count - 1 - i]
    {
      RingNewest(rows[..], next, count == ROWS, i);
      ModOnce(next - 1 - i + ROWS, ROWS);
      r := rows[(next - 1 - i + rows.Length) % rows.Length];
    }

    method Recent(now: int) returns (out: seq<LiveRequest>)
      requires Valid()
      ensures out == RecentOf(Last(log, ROWS), now - FIFTEEN_MINUTES)
    {
      out := [];
      ghost var all := Last(log, ROWS);
      ghost var cutoff := now - FIFTEEN_MINUTES;
      assert all[..count] == all;
      for i := 0 to count
        invariant RecentOf(all, cutoff) == out + RecentOf(all[..count - i], cutoff)
      {
        var r := RowBack(i);
        Collected(all, count - i, cutoff, out, RecentOf(all, cutoff));
        if r.at >= now - FIFTEEN_MINUTES {
          out := out + [r];
        }
      }
    }
  }

  lemma Collected(log: seq<LiveRequest>, n: nat, cutoff: int, out: seq<LiveRequest>, whole: seq<LiveRequest>)
    requires 0 < n <= |log| && whole == out + RecentOf(log[..n], cutoff)
    ensures whole == (if log[n - 1].at >= cutoff then out + [log[n - 1]] else out) + RecentOf(log[..n - 1], cutoff)
  {
    RecentStep(log, n, cutoff);
  }

  lemma RecentStep(log: seq<LiveRequest>, n: nat, cutoff: int)
    requires 0 < n <= |log|
    ensures RecentOf(log[..n], cutoff) ==
            (if log[n - 1].at >= cutoff then [log[n - 1]] else []) + RecentOf(log[..n - 1], cutoff)
  {
    assert log[..n][..n - 1] == log[..n - 1];
  }

  lemma {:induction false} RecentFacts(log: seq<LiveRequest>, cutoff: int)
    ensures forall r :: r in RecentOf(log, cutoff) <==> r in log && r.at >= cutoff
  {
    if log != [] {
      RecentFacts(log[..|log| - 1], cutoff);
      assert log == log[..|log| - 1] + [log[|log| - 1]];
    }
  }

  predicate Rising(s: seq<LiveRequest>) {
    forall i, j | 0 <= i < j < |s| :: s[i].sequence < s[j].sequence
  }

  predicate Falling(s: seq<LiveRequest>) {
    forall i, j | 0 <= i < j < |s| :: s[i].sequence > s[j].sequence
  }

  lemma FallsFrom(x: LiveRequest, rest: seq<LiveRequest>)
    requires Falling(rest) && forall y | y in rest :: y.sequence < x.sequence
    ensures Falling([x] + rest)
  {
  }

  /** Recent is newest first, by strictly falling sequence numbers. */
  lemma {:induction false} RecentFalls(log: seq<LiveRequest>, cutoff: int)
    requires Rising(log)
    ensures Falling(RecentOf(log, cutoff))
  {
    if log != [] {
      var init, last := log[..|log| - 1], log[|log| - 1];
      RecentFalls(init, cutoff);
      RecentFacts(init, cutoff);
      var rest := RecentOf(init, cutoff);
      assert forall y | y in init :: y.sequence < last.sequence;
      FallsFrom(last, rest);
      assert RecentOf(log, cutoff) == (if last.at >= cutoff then [last] else []) + rest;
    }
  }

  /**
   * What a reader of the live view gets, whatever was recorded: the requests among the
   * last 256 no older than fifteen minutes, each once, newest first.
   */
  lemma RecentView(log: seq<LiveRequest>, now: int)
    requires Numbered(log)
    ensures var r := RecentOf(Last(log, ROWS), now - FIFTEEN_MINUTES);
            && (forall x :: x in r <==> x in log && x.sequence > |log| - 256 && x.at >= now - 900_000_000_000)
            && Falling(r)
  {
    var kept := Last(log, ROWS);
    RecentFacts(kept, now - FIFTEEN_MINUTES);
    RecentFalls(kept, now - FIFTEEN_MINUTES);
    forall x
      ensures x in kept <==> x in log && x.sequence > |log| - 256
    {
      KeptExactly(log, x);
    }
  }

  lemma KeptExactly(log: seq<LiveRequest>, x: LiveRequest)
    requires Numbered(log)
    ensures x in Last(log, ROWS) <==> x in log && x.sequence > |log| - 256
  {
    var kept := Last(log, ROWS);
    if x in log && x.sequence > |log| - 256 {
      var i :| 0 <= i < |log| && log[i] == x;
      assert kept[|kept| - |log| + i] == x;
    }
    if x in kept {
      var i :| 0 <= i < |kept| && kept[i] == x;
      assert log[|log| - |kept| + i] == x;
    }
  }
}
