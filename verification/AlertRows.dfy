/**
 * The alert_state table. Every write that decides whether to announce is a conditional
 * statement on one row, so the row is the claim.
 *
 * Clocks are nanoseconds since the Unix epoch; the table keeps microseconds.
 */
module AlertRows {
  import opened Wrappers

  type Key = string
  type Instant = int

  /** The `state` field an announcement is rendered with. */
  datatype Label = LowNews | Reminder | Recovered

  datatype Row = Row(
    event: string, low: bool, since: int, lastSent: int, number: nat,
    pending: seq<string>, payload: Label)

  type Rows = map<Key, Row>

  datatype Claim = Lost | Won(number: nat)

  /** Nano to micro, rounding down; Dafny's division by a positive number floors. */
  function Micros(t: Instant): int { t / 1000 }

  function LowIn(rows: Rows, key: Key): bool {
    key in rows && rows[key].low
  }

  predicate RaiseWins(rows: Rows, key: Key, remindBefore: Instant) {
    key in rows && rows[key].low ==> rows[key].lastSent <= Micros(remindBefore)
  }

  function Raised(rows: Rows, key: Key, event: string, now: Instant, remindBefore: Instant,
                  pending: seq<string>, payload: Label): Rows
  {
    if !RaiseWins(rows, key, remindBefore) then rows
    else if key !in rows then
      rows[key := Row(event, true, Micros(now), Micros(now), 1, pending, payload)]
    else
      var r := rows[key];
      var since := if r.low then r.since else Micros(now);
      rows[key := Row(r.event, true, since, Micros(now), r.number + 1, pending, payload)]
  }

  function Resolved(rows: Rows, key: Key, now: Instant, pending: seq<string>, payload: Label): Rows {
    if !LowIn(rows, key) then rows
    else rows[key := rows[key].(low := false, lastSent := Micros(now), number := rows[key].number + 1,
                                pending := pending, payload := payload)]
  }

  /** removeItem: the list without one transport (and without blanks). */
  function Without(list: seq<string>, item: string): (r: seq<string>)
    ensures forall v :: v in r <==> v in list && v != "" && v != item
  {
    if list == [] then []
    else if list[0] != "" && list[0] != item then [list[0]] + Without(list[1..], item)
    else Without(list[1..], item)
  }

  /** The table keeps the list as text, and one blank name is the empty text: nothing owed. */
  predicate Owes(list: seq<string>) { list != [] && list != [""] }

  predicate RetryWins(rows: Rows, key: Key, number: nat, last: int) {
    key in rows && rows[key].number == number && rows[key].lastSent == last && Owes(rows[key].pending)
  }

  function Retried(rows: Rows, key: Key, number: nat, last: int, now: Instant): Rows {
    if RetryWins(rows, key, number, last) then rows[key := rows[key].(lastSent := Micros(now))] else rows
  }

  /** The conditional write AlertDelivered ends in, given the list it read. */
  predicate AckWins(rows: Rows, key: Key, number: nat, read: seq<string>) {
    key in rows && rows[key].number == number && rows[key].pending == read
  }

  function Acked(rows: Rows, key: Key, number: nat, driver: string, read: seq<string>): Rows {
    if AckWins(rows, key, number, read) then rows[key := rows[key].(pending := Without(read, driver))] else rows
  }

  /** The table itself: what one statement at a time does to it. */
  class Table {
    var rows: Rows

    constructor ()
      ensures rows == map[]
    {
      rows := map[];
    }

    method AlertRaise(key: Key, event: string, now: Instant, remindBefore: Instant,
                      pending: seq<string>, payload: Label) returns (claim: Claim)
      modifies this
      ensures rows == Raised(old(rows), key, event, now, remindBefore, pending, payload)
      ensures claim == if RaiseWins(old(rows), key, remindBefore) then Won(rows[key].number) else Lost
      ensures LowIn(rows, key)
    {
      if key !in rows {
        rows := rows[key := Row(event, true, Micros(now), Micros(now), 1, pending, payload)];
        return Won(1);
      }
      var r := rows[key];
      if !r.low || r.lastSent <= Micros(remindBefore) {
        var since := if r.low then r.since else Micros(now);
        rows := rows[key := Row(r.event, true, since, Micros(now), r.number + 1, pending, payload)];
        return Won(r.number + 1);
      }
      return Lost;
    }

    method AlertResolve(key: Key, now: Instant, pending: seq<string>, payload: Label) returns (claim: Claim)
      modifies this
      ensures rows == Resolved(old(rows), key, now, pending, payload)
      ensures claim == if LowIn(old(rows), key) then Won(rows[key].number) else Lost
      ensures !LowIn(rows, key)
    {
      if key !in rows || !rows[key].low {
        return Lost;
      }
      rows := rows[key := rows[key].(low := false, lastSent := Micros(now), number := rows[key].number + 1,
                                     pending := pending, payload := payload)];
      return Won(rows[key].number);
    }

    method AlertRetryClaim(key: Key, number: nat, last: int, now: Instant) returns (owed: Option<seq<string>>)
      modifies this
      ensures rows == Retried(old(rows), key, number, last, now)
      ensures owed == if RetryWins(old(rows), key, number, last) then Some(old(rows)[key].pending) else None
    {
      if key !in rows || rows[key].number != number || rows[key].lastSent != last || !Owes(rows[key].pending) {
        return None;
      }
      owed := Some(rows[key].pending);
      rows := rows[key := rows[key].(lastSent := Micros(now))];
    }
  }
}
