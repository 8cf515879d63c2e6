/**
 * The administration UI's session table: what each locked operation does to it, and what
 * that means over whole runs: a stashed secret is shown once, and a session that has
 * ended stays ended.
 */
module Sessions {
  import opened Wrappers

  // ---- the table -------------------------------------------------------------

  datatype Scope = Scope(global: bool, teams: set<string>)

  predicate AllowsTeam(s: Scope, team: string) { s.global || (team != "" && team in s.teams) }

  /** A one-shot slot: `tag` is the identity of what was put there. */
  datatype Slot = Slot(tag: nat, deadline: int)

  datatype Session = Session(
    actorKind: string, actorId: string, scope: Scope, csrf: string, expires: int,
    secret: Option<Slot>, flash: Option<nat>)

  datatype Principal = Principal(kind: string, id: string, scope: Scope)

  type Table = map<string, Session>

  const REVEAL_TTL: int := 2 * 60 * 1_000_000_000

  /** Everything that has not expired. */
  function Swept(t: Table, now: int): Table { map k | k in t && now < t[k].expires :: t[k] }

  function Opened(t: Table, id: string, csrf: string, p: Principal, now: int, ttl: int): Table {
    Swept(t, now)[id := Session(p.kind, p.id, p.scope, csrf, now + ttl, None, None)]
  }

  /** A lookup drops the session it finds expired. */
  function LookedUp(t: Table, id: string, now: int): Table {
    if id in t && t[id].expires <= now then t - {id} else t
  }

  predicate Live(t: Table, id: string, now: int) { id != "" && id in t && now < t[id].expires }

  function Stashed(t: Table, id: string, tag: nat, now: int): Table {
    if id in t && id != "" then t[id := t[id].(secret := Some(Slot(tag, now + REVEAL_TTL)))] else t
  }

  function Taken(t: Table, id: string): Table {
    if id in t && id != "" then t[id := t[id].(secret := None)] else t
  }

  function Shown(t: Table, id: string, now: int): Option<nat> {
    if id != "" && id in t && t[id].secret.Some? && now < t[id].secret.value.deadline
    then Some(t[id].secret.value.tag)
    else None
  }

  function Flashed(t: Table, id: string, tag: nat): Table {
    if id in t && id != "" then t[id := t[id].(flash := Some(tag))] else t
  }

  function Unflashed(t: Table, id: string): Table {
    if id in t && id != "" then t[id := t[id].(flash := None)] else t
  }

  function FlashOf(t: Table, id: string): Option<nat> {
    if id != "" && id in t then t[id].flash else None
  }

  class SessionTable {
    var sessions: Table
    const ttl: int

    constructor (ttl: int)
      ensures sessions == map[] && this.ttl == ttl
    {
      sessions, this.ttl := map[], ttl;
    }

    method NewSession(id: string, csrf: string, p: Principal, now: int)
      modifies this
      ensures sessions == Opened(old(sessions), id, csrf, p, now, ttl)
    {
      var todo := sessions.Keys;
      ghost var was := sessions;
      while todo != {}
        invariant todo <= was.Keys
        invariant sessions == map k | k in was && (k in todo || now < was[k].expires) :: was[k]
        decreases |todo|
      {
        var k :| k in todo;
        todo := todo - {k};
        if sessions[k].expires <= now {
          sessions := sessions - {k};
        }
      }
      sessions := sessions[id := Session(p.kind, p.id, p.scope, csrf, now + ttl, None, None)];
    }

    method LookupSession(id: string, now: int) returns (found: Option<Session>)
      modifies this
      ensures sessions == if id == "" then old(sessions) else LookedUp(old(sessions), id, now)
      ensures found == if Live(old(sessions), id, now) then Some(old(sessions)[id]) else None
    {
      if id == "" || id !in sessions {
        return None;
      }
      var sess := sessions[id];
      if !(now < sess.expires) {
        sessions := sessions - {id};
        return None;
      }
      return Some(sess);
    }

    method DropSession(id: string)
      modifies this
      ensures sessions == old(sessions) - {id}
    {
      sessions := sessions - {id};
    }

    method StashReveal(id: string, tag: nat, now: int)
      modifies this
      ensures sessions == Stashed(old(sessions), id, tag, now)
    {
      if id == "" || id !in sessions {
        return;
      }
      sessions := sessions[id := sessions[id].(secret := Some(Slot(tag, now + REVEAL_TTL)))];
    }

    method TakeReveal(id: string, now: int) returns (shown: Option<nat>)
      modifies this
      ensures sessions == Taken(old(sessions), id) && shown == Shown(old(sessions), id, now)
    {
      if id == "" || id !in sessions || sessions[id].secret.None? {
        assert id != "" && id in sessions ==> sessions[id].(secret := None) == sessions[id];
        assert sessions == Taken(sessions, id);
        return None;
      }
      var rv := sessions[id].secret.value;
      sessions := sessions[id := sessions[id].(secret := None)];
      if !(now < rv.deadline) {
        return None;
      }
      return Some(rv.tag);
    }

    /** An empty message is no message: `tag` is None. */
    method SetFlash(id: string, tag: Option<nat>)
      modifies this
      ensures sessions == if tag.None? then old(sessions) else Flashed(old(sessions), id, tag.value)
    {
      if id == "" || tag.None? || id !in sessions {
        return;
      }
      sessions := sessions[id := sessions[id].(flash := tag)];
    }

    method TakeFlash(id: string) returns (shown: Option<nat>)
      modifies this
      ensures sessions == Unflashed(old(sessions), id) && shown == FlashOf(old(sessions), id)
    {
      if id == "" || id !in sessions || sessions[id].flash.None? {
        assert id != "" && id in sessions ==> sessions[id].(flash := None) == sessions[id];
        assert sessions == Unflashed(sessions, id);
        return None;
      }
      shown := sessions[id].flash;
      sessions := sessions[id := sessions[id].(flash := None)];
    }
  }

  // ---- who a session still serves --------------------------------------------

  /** A key as its row says; expiry None is never. */
  datatype Key = Key(blocked: bool, pended: bool, expires: Option<int>, team: string)

  /** What re-asking the key store gives: no store at all, no such key or no answer, or the row. */
  datatype KeyAnswer = NoStore | Missing | Row(key: Key)

  predicate StillServes(sess: Session, a: KeyAnswer, now: int) {
    || sess.actorKind != "key" || sess.actorId == "" || a.NoStore?
    || (a.Row? && !a.key.blocked && !a.key.pended && (a.key.expires.Some? ==> now < a.key.expires.value)
        && AllowsTeam(sess.scope, a.key.team))
  }

  /** A session without a token is proved by nothing. */
  predicate Proves(sess: Session, token: string) { sess.csrf != "" && token == sess.csrf }

  // ---- runs ------------------------------------------------------------------

  type ReqId = nat

  /** A request between its lookup and its decision. */
  datatype Flight = Flight(sid: string, sess: Option<Session>, at: int)

  datatype Via = Cookie(sid: string, token: string, csrf: string, at: int, expires: int) | Header

  datatype Grant = Grant(req: ReqId, safe: bool, via: Via)

  datatype Stash = Stash(sid: string, at: int)

  datatype Show = Show(sid: string, tag: nat, at: int)

  datatype World = World(
    table: Table, flights: map<ReqId, Flight>,
    minted: map<string, string>, asked: set<ReqId>, stashes: map<nat, Stash>, notes: map<nat, string>,
    grants: seq<Grant>, shows: seq<Show>, flashes: seq<nat>)

  const START: World := World(map[], map[], map[], {}, map[], map[], [], [], [])

  datatype Step =
    | SignIn(sid: string, csrf: string, who: Principal, now: int, ttl: int)
    | SignOut(sid: string)
    | Arrive(req: ReqId, sid: string, now: int)
    | Decide(req: ReqId, safe: bool, token: string, answer: KeyAnswer, header: bool, now: int)
    | Put(sid: string, tag: nat, now: int)
    | Take(sid: string, now: int)
    | Note(sid: string, tag: nat)
    | Read(sid: string)

  /** Ids, tokens and tags are fresh when they are made: random values do not repeat. */
  predicate Allowed(w: World, s: Step) {
    match s
    case SignIn(sid, _, _, _, _) => sid != "" && sid !in w.minted
    case Arrive(req, _, _) => req !in w.asked
    case Put(_, tag, _) => tag !in w.stashes
    case Note(_, tag) => tag !in w.notes
    case _ => true
  }

  function DoDecide(w: World, s: Step): World
    requires s.Decide?
  {
    if s.req !in w.flights then w
    else
      var f := w.flights[s.req];
      var w' := w.(flights := w.flights - {s.req});
      var byHeader := if s.header && s.safe then w.grants + [Grant(s.req, true, Header)] else w.grants;
      if f.sess.None? then w'.(grants := byHeader)
      else if !StillServes(f.sess.value, s.answer, s.now) then
        w'.(table := w.table - {f.sid}, grants := byHeader)
      else if !s.safe && !Proves(f.sess.value, s.token) then w'
      else
        w'.(grants := w.grants + [Grant(s.req, s.safe,
              Cookie(f.sid, s.token, f.sess.value.csrf, f.at, f.sess.value.expires))])
  }

  function Apply(w: World, s: Step): World {
    match s
    case SignIn(sid, csrf, who, now, ttl) =>
      w.(table := Opened(w.table, sid, csrf, who, now, ttl), minted := w.minted[sid := csrf])
    case SignOut(sid) => w.(table := w.table - {sid})
    case Arrive(req, sid, now) =>
      w.(table := LookedUp(w.table, sid, now), asked := w.asked + {req},
         flights := w.flights[req := Flight(sid, if Live(w.table, sid, now) then Some(w.table[sid]) else None, now)])
    case Decide(_, _, _, _, _, _) => DoDecide(w, s)
    case Put(sid, tag, now) =>
      w.(table := Stashed(w.table, sid, tag, now), stashes := w.stashes[tag := Stash(sid, now)])
    case Take(sid, now) =>
      w.(table := Taken(w.table, sid),
         shows := w.shows
                  + if Shown(w.table, sid, now).Some? then [Show(sid, Shown(w.table, sid, now).value, now)] else [])
    case Note(sid, tag) => w.(table := Flashed(w.table, sid, tag), notes := w.notes[tag := sid])
    case Read(sid) =>
      w.(table := Unflashed(w.table, sid),
         flashes := w.flashes + if FlashOf(w.table, sid).Some? then [FlashOf(w.table, sid).value] else [])
  }

  /** A step that is not allowed does not happen. */
  function Next(w: World, s: Step): World { if Allowed(w, s) then Apply(w, s) else w }

  function Exec(w: World, run: seq<Step>): World
    decreases |run|
  {
    if run == [] then w else Next(Exec(w, run[..|run| - 1]), run[|run| - 1])
  }

  // ---- a secret is shown once ------------------------------------------------

  predicate Holds(t: Table, sid: string, tag: nat) {
    sid in t && t[sid].secret.Some? && t[sid].secret.value.tag == tag
  }

  ghost predicate WasShown(shows: seq<Show>, tag: nat) { exists x :: x in shows && x.tag == tag }

  predicate ShownOnce(shows: seq<Show>) {
    forall i, j | 0 <= i < j < |shows| :: shows[i].tag != shows[j].tag
  }

  /** Shown to the session it was stashed in, before its deadline. */
  predicate Rightly(w: World, x: Show) {
    x.tag in w.stashes && w.stashes[x.tag].sid == x.sid && x.at < w.stashes[x.tag].at + REVEAL_TTL
  }

  /** A slot's content is on record as put there, and has not been shown. */
  ghost predicate SlotOnRecord(w: World, sid: string) {
    sid in w.table && w.table[sid].secret.Some? ==>
      var r := w.table[sid].secret.value;
      r.tag in w.stashes && w.stashes[r.tag] == Stash(sid, r.deadline - REVEAL_TTL) && !WasShown(w.shows, r.tag)
  }

  ghost predicate SlotsInv(w: World) {
    && ShownOnce(w.shows)
    && (forall x | x in w.shows :: Rightly(w, x))
    && (forall sid :: SlotOnRecord(w, sid))
  }

  /** Steps that leave every slot as it was, or empty it. */
  predicate Emptier(t: Table, t': Table) {
    forall sid | sid in t' && t'[sid].secret.Some? :: sid in t && t[sid].secret == t'[sid].secret
  }

  lemma SlotKept(w: World, s: Step, sid: string)
    requires !s.Put? && sid in Apply(w, s).table && Apply(w, s).table[sid].secret.Some?
    ensures sid in w.table && w.table[sid].secret == Apply(w, s).table[sid].secret
  {
  }

  lemma ShowsKept(w: World, s: Step)
    requires !s.Put?
    ensures Apply(w, s).stashes == w.stashes && (!s.Take? ==> Apply(w, s).shows == w.shows)
  {
  }

  lemma EmptierSteps(w: World, s: Step)
    requires !s.Put?
    ensures Emptier(w.table, Apply(w, s).table) && Apply(w, s).stashes == w.stashes
    ensures !s.Take? ==> Apply(w, s).shows == w.shows
  {
    ShowsKept(w, s);
    forall sid | sid in Apply(w, s).table && Apply(w, s).table[sid].secret.Some?
      ensures sid in w.table && w.table[sid].secret == Apply(w, s).table[sid].secret
    {
      SlotKept(w, s, sid);
    }
  }

  lemma TakeSlots(w: World, s: Step)
    requires SlotsInv(w) && s.Take?
    ensures SlotsInv(Apply(w, s))
  {
    var v := Apply(w, s);
    assert SlotOnRecord(w, s.sid);
    if v.shows != w.shows {
      var x := v.shows[|w.shows|];
      assert v.shows == w.shows + [x];
      forall sid
        ensures SlotOnRecord(v, sid)
      {
        assert SlotOnRecord(w, sid);
      }
      forall i, j | 0 <= i < j < |v.shows|
        ensures v.shows[i].tag != v.shows[j].tag
      {
        assert v.shows[i] in w.shows;
      }
    } else {
      forall sid
        ensures SlotOnRecord(v, sid)
      {
        assert SlotOnRecord(w, sid);
      }
    }
  }

  lemma SlotsStep(w: World, s: Step)
    requires SlotsInv(w)
    ensures SlotsInv(Next(w, s))
  {
    if Allowed(w, s) {
      var v := Apply(w, s);
      if s.Take? {
        TakeSlots(w, s);
      } else {
        if s.Put? {
          assert !WasShown(w.shows, s.tag);
        } else {
          EmptierSteps(w, s);
        }
        forall sid
          ensures SlotOnRecord(v, sid)
        {
          assert SlotOnRecord(w, sid);
        }
      }
    }
  }

  /**
   * One-time reveal, over every run: no secret is shown twice, and each is shown only to
   * the session it was stashed in and before its deadline.
   */
  lemma {:induction false} RevealedOnce(run: seq<Step>)
    ensures SlotsInv(Exec(START, run))
    decreases |run|
  {
    if run != [] {
      RevealedOnce(run[..|run| - 1]);
      SlotsStep(Exec(START, run[..|run| - 1]), run[|run| - 1]);
    }
  }

  /** Stashed at some time, and in no slot now: taken, replaced, dropped or swept. */
  ghost predicate Gone(w: World, tag: nat) {
    tag in w.stashes && forall sid :: !Holds(w.table, sid, tag)
  }

  lemma GoneStep(w: World, s: Step, tag: nat)
    requires Gone(w, tag)
    ensures var v := Next(w, s);
            && Gone(v, tag) && w.shows <= v.shows
            && forall i | |w.shows| <= i < |v.shows| :: v.shows[i].tag != tag
  {
    var v := Next(w, s);
    if Allowed(w, s) && !s.Put? {
      EmptierSteps(w, s);
      forall sid
        ensures !Holds(v.table, sid, tag)
      {
        assert !Holds(w.table, sid, tag);
      }
      if s.Take? {
        assert !Holds(w.table, s.sid, tag);
      }
    } else {
      forall sid
        ensures !Holds(v.table, sid, tag)
      {
        assert !Holds(w.table, sid, tag);
      }
    }
  }

  /** A secret that has left its slot for any reason is never shown afterwards. */
  lemma {:induction false} GoneForGood(w: World, run: seq<Step>, tag: nat)
    requires Gone(w, tag)
    ensures var v := Exec(w, run);
            && Gone(v, tag) && w.shows <= v.shows
            && forall i | |w.shows| <= i < |v.shows| :: v.shows[i].tag != tag
    decreases |run|
  {
    if run != [] {
      GoneForGood(w, run[..|run| - 1], tag);
      GoneStep(Exec(w, run[..|run| - 1]), run[|run| - 1], tag);
    }
  }

  lemma GoneIf(w: World, v: World, sid: string, tag: nat)
    requires SlotsInv(w) && Holds(w.table, sid, tag) && tag in v.stashes && !Holds(v.table, sid, tag)
    requires forall x :: Holds(v.table, x, tag) ==> Holds(w.table, x, tag)
    ensures Gone(v, tag)
  {
    assert SlotOnRecord(w, sid);
    forall x
      ensures !Holds(v.table, x, tag)
    {
      assert SlotOnRecord(w, x);
    }
  }

  /**
   * The ways a secret leaves its slot: replaced, taken, or its session signed out, started
   * again, swept or seen expired, or found without a key that still carries it.
   */
  predicate Empties(w: World, s: Step, sid: string)
    requires sid in w.table
  {
    match s
    case Put(x, tag, _) => x == sid
    case SignOut(x) => x == sid
    case Take(x, _) => x == sid
    case SignIn(x, _, _, now, _) => x == sid || w.table[sid].expires <= now
    case Arrive(_, x, now) => x == sid && w.table[sid].expires <= now
    case Decide(req, _, _, answer, _, now) => EndsBy(w, req, answer, now, sid)
    case _ => false
  }

  /** A decision that ends the session: its key, asked again, no longer carries it. */
  predicate EndsBy(w: World, req: ReqId, answer: KeyAnswer, now: int, sid: string) {
    && req in w.flights && w.flights[req].sid == sid && w.flights[req].sess.Some?
    && AnswerUnfit(w.flights[req].sess.value, answer, now)
  }

  /** A secret is still in its slot after a step exactly when the step is none of those. */
  lemma HeldExactly(w: World, s: Step, sid: string, tag: nat)
    requires SlotsInv(w) && Holds(w.table, sid, tag) && sid != "" && Allowed(w, s)
    ensures Empties(w, s, sid) ==> Gone(Apply(w, s), tag)
    ensures !Empties(w, s, sid) ==>
              sid in Apply(w, s).table && Apply(w, s).table[sid].secret == w.table[sid].secret
  {
    assert SlotOnRecord(w, sid);
    if Empties(w, s, sid) {
      EmptiedSlot(w, s, sid, tag);
      if s.Put? {
        assert forall x :: Holds(Apply(w, s).table, x, tag) ==> Holds(w.table, x, tag);
      } else {
        EmptierSteps(w, s);
      }
      GoneIf(w, Apply(w, s), sid, tag);
    }
  }

  lemma EmptiedSlot(w: World, s: Step, sid: string, tag: nat)
    requires Holds(w.table, sid, tag) && tag in w.stashes && sid != "" && Allowed(w, s) && Empties(w, s, sid)
    ensures !Holds(Apply(w, s).table, sid, tag)
  {
  }

  /** No step of the run empties the slot. */
  ghost predicate LeftAlone(w: World, run: seq<Step>, sid: string)
    decreases |run|
  {
    run == [] || (var u := Exec(w, run[..|run| - 1]);
                  var s := run[|run| - 1];
                  LeftAlone(w, run[..|run| - 1], sid) && sid in u.table && (Allowed(u, s) ==> !Empties(u, s, sid)))
  }

  lemma {:induction false} HeldThrough(w: World, run: seq<Step>, sid: string, tag: nat)
    requires SlotsInv(w) && Holds(w.table, sid, tag) && sid != "" && LeftAlone(w, run, sid)
    ensures SlotsInv(Exec(w, run))
    ensures sid in Exec(w, run).table && Exec(w, run).table[sid].secret == w.table[sid].secret
    decreases |run|
  {
    if run != [] {
      var u, s := Exec(w, run[..|run| - 1]), run[|run| - 1];
      HeldThrough(w, run[..|run| - 1], sid, tag);
      SlotsStep(u, s);
      if Allowed(u, s) {
        HeldExactly(u, s, sid, tag);
      }
    }
  }

  /**
   * However many other steps pass, a stashed secret that none of them empties is shown to
   * the next that takes it, if that is within two minutes, and else to nobody.
   */
  lemma StashedIsShown(w: World, sid: string, tag: nat, at: int, run: seq<Step>, now: int)
    requires SlotsInv(w) && sid != "" && sid in w.table && tag !in w.stashes
    requires LeftAlone(Apply(w, Put(sid, tag, at)), run, sid)
    ensures var u := Exec(Apply(w, Put(sid, tag, at)), run);
            Apply(u, Take(sid, now)).shows ==
            u.shows + if now < at + 120_000_000_000 then [Show(sid, tag, now)] else []
  {
    SlotsStep(w, Put(sid, tag, at));
    HeldThrough(Apply(w, Put(sid, tag, at)), run, sid, tag);
  }

  // ---- a flash is shown once -------------------------------------------------

  ghost predicate FlashOnRecord(w: World, sid: string) {
    sid in w.table && w.table[sid].flash.Some? ==>
      w.table[sid].flash.value in w.notes && w.notes[w.table[sid].flash.value] == sid
      && w.table[sid].flash.value !in w.flashes
  }

  ghost predicate FlashInv(w: World) {
    && (forall i, j | 0 <= i < j < |w.flashes| :: w.flashes[i] != w.flashes[j])
    && (forall t | t in w.flashes :: t in w.notes)
    && (forall sid :: FlashOnRecord(w, sid))
  }

  lemma FlashKept(w: World, s: Step, sid: string)
    requires !s.Note? && sid in Apply(w, s).table && Apply(w, s).table[sid].flash.Some?
    ensures sid in w.table && w.table[sid].flash == Apply(w, s).table[sid].flash
    ensures s.Read? ==> sid != s.sid || s.sid == ""
  {
  }

  lemma ReadFlash(w: World, s: Step)
    requires FlashInv(w) && s.Read?
    ensures FlashInv(Apply(w, s))
  {
    var v := Apply(w, s);
    assert FlashOnRecord(w, s.sid);
    forall sid
      ensures FlashOnRecord(v, sid)
    {
      assert FlashOnRecord(w, sid);
      if sid in v.table && v.table[sid].flash.Some? {
        FlashKept(w, s, sid);
      }
    }
  }

  lemma FlashStep(w: World, s: Step)
    requires FlashInv(w)
    ensures FlashInv(Next(w, s))
  {
    if Allowed(w, s) {
      var v := Apply(w, s);
      if s.Read? {
        ReadFlash(w, s);
      } else {
        assert v.flashes == w.flashes;
        forall sid
          ensures FlashOnRecord(v, sid)
        {
          assert FlashOnRecord(w, sid);
          if !s.Note? && sid in v.table && v.table[sid].flash.Some? {
            FlashKept(w, s, sid);
          }
        }
      }
    }
  }

  /** Each notice is shown at most once, over every run. */
  lemma {:induction false} FlashedOnce(run: seq<Step>)
    ensures FlashInv(Exec(START, run))
    decreases |run|
  {
    if run != [] {
      FlashedOnce(run[..|run| - 1]);
      FlashStep(Exec(START, run[..|run| - 1]), run[|run| - 1]);
    }
  }

  /** A notice is shown to the next reader of its session. */
  lemma NoteThenRead(w: World, sid: string, tag: nat)
    requires sid != "" && sid in w.table
    ensures Apply(Apply(w, Note(sid, tag)), Read(sid)).flashes == w.flashes + [tag]
  {
  }

  // ---- a session that ended stays ended --------------------------------------

  /** Signed in at some time, and no longer in the table. */
  predicate Ended(w: World, sid: string) { sid in w.minted && sid !in w.table }

  /** Requests for the session that had been looked up already. */
  predicate Inside(w: World, sid: string, req: ReqId) {
    req in w.flights && w.flights[req].sid == sid && w.flights[req].sess.Some?
  }

  predicate ByCookie(g: Grant, sid: string) { g.via.Cookie? && g.via.sid == sid }

  /** From `w` on, only requests inside at that moment are still granted through the session. */
  ghost predicate OnlyInside(w: World, v: World, sid: string) {
    && Ended(v, sid) && |w.grants| <= |v.grants| && w.grants == v.grants[..|w.grants|]
    && (forall req | Inside(v, sid, req) :: Inside(w, sid, req))
    && (forall i | |w.grants| <= i < |v.grants| && ByCookie(v.grants[i], sid) :: Inside(w, sid, v.grants[i].req))
  }

  lemma EndedKept(u: World, s: Step, sid: string)
    requires Ended(u, sid)
    ensures Ended(Next(u, s), sid)
  {
  }

  lemma InsideKept(u: World, s: Step, sid: string, req: ReqId)
    requires Ended(u, sid) && Inside(Next(u, s), sid, req)
    ensures Inside(u, sid, req)
  {
  }

  lemma NextGrant(u: World, s: Step, sid: string)
    ensures var v := Next(u, s);
            && |u.grants| <= |v.grants| <= |u.grants| + 1 && u.grants == v.grants[..|u.grants|]
            && (|v.grants| > |u.grants| && ByCookie(v.grants[|u.grants|], sid) ==>
                  Inside(u, sid, v.grants[|u.grants|].req))
  {
    if s.Decide? {
      DecideGrant(u, s, sid);
    } else {
      assert Next(u, s).grants == u.grants;
    }
  }

  lemma DecideGrant(u: World, s: Step, sid: string)
    requires s.Decide?
    ensures var v := DoDecide(u, s);
            && |u.grants| <= |v.grants| <= |u.grants| + 1 && u.grants == v.grants[..|u.grants|]
            && (|v.grants| > |u.grants| && ByCookie(v.grants[|u.grants|], sid) ==>
                  Inside(u, sid, v.grants[|u.grants|].req))
  {
    if s.req in u.flights {
      FateMet(u, s);
    }
  }

  lemma EndedStep(w: World, u: World, s: Step, sid: string)
    requires OnlyInside(w, u, sid)
    ensures OnlyInside(w, Next(u, s), sid)
  {
    EndedKept(u, s, sid);
    NextGrant(u, s, sid);
    var v := Next(u, s);
    forall req | Inside(v, sid, req)
      ensures Inside(w, sid, req)
    {
      InsideKept(u, s, sid, req);
    }
    GrantsThen(w, u, v.grants, sid);
  }

  lemma GrantsThen(w: World, u: World, grants: seq<Grant>, sid: string)
    requires OnlyInside(w, u, sid)
    requires |u.grants| <= |grants| <= |u.grants| + 1 && u.grants == grants[..|u.grants|]
    requires |grants| > |u.grants| && ByCookie(grants[|u.grants|], sid) ==> Inside(u, sid, grants[|u.grants|].req)
    ensures w.grants == grants[..|w.grants|]
    ensures forall i | |w.grants| <= i < |grants| && ByCookie(grants[i], sid) :: Inside(w, sid, grants[i].req)
  {
    assert grants[..|w.grants|] == u.grants[..|w.grants|];
    assert forall i | 0 <= i < |u.grants| :: grants[i] == u.grants[i];
  }

  /**
   * Monotone: whatever happens to the key afterwards, a session that has ended
   * authorises no request that arrives after it ended.
   */
  lemma {:induction false} StaysEnded(w: World, run: seq<Step>, sid: string)
    requires Ended(w, sid)
    ensures OnlyInside(w, Exec(w, run), sid)
    decreases |run|
  {
    if run != [] {
      StaysEnded(w, run[..|run| - 1], sid);
      EndedStep(w, Exec(w, run[..|run| - 1]), run[|run| - 1], sid);
    }
  }

  /** The row, as it is read, no longer carries the session. */
  predicate RowUnfit(scope: Scope, k: Key, now: int) {
    || k.blocked || k.pended || (k.expires.Some? && k.expires.value <= now)
    || (!scope.global && (k.team == "" || k.team !in scope.teams))
  }

  /** What the key store's answer says against a session. */
  predicate AnswerUnfit(sess: Session, a: KeyAnswer, now: int) {
    && sess.actorKind == "key" && sess.actorId != ""
    && (a == Missing || (a.Row? && RowUnfit(sess.scope, a.key, now)))
  }

  /** What ends a session: its key seen missing, blocked, pended, expired or out of scope. */
  lemma SeenUnfit(w: World, s: Step)
    requires s.Decide? && s.req in w.flights && w.flights[s.req].sess.Some?
    requires w.flights[s.req].sid in w.minted && AnswerUnfit(w.flights[s.req].sess.value, s.answer, s.now)
    ensures Ended(Apply(w, s), w.flights[s.req].sid)
    ensures forall g | g in Apply(w, s).grants && g !in w.grants :: g.via == Header && g.safe
  {
  }

  /** How a request fares, from what it carries and what its lookup and its key's row said. */
  datatype Fate = ByCookieOf(sid: string) | ByKeyHeader | Nothing

  function FateOf(f: Flight, s: Step): Fate
    requires s.Decide?
  {
    if f.sess.Some? && !AnswerUnfit(f.sess.value, s.answer, s.now) then
      if s.safe || (f.sess.value.csrf != "" && s.token == f.sess.value.csrf) then ByCookieOf(f.sid) else Nothing
    else if s.header && s.safe then ByKeyHeader else Nothing
  }

  /** The grants are the earlier ones, and one for the request when its fate is not nothing. */
  predicate Meets(before: seq<Grant>, after: seq<Grant>, req: ReqId, safe: bool, fate: Fate) {
    if fate.Nothing? then after == before
    else
      && |after| == |before| + 1 && before <= after
      && after[|before|].req == req && after[|before|].safe == safe
      && (fate.ByKeyHeader? ==> after[|before|].via.Header?)
      && (fate.ByCookieOf? ==> ByCookie(after[|before|], fate.sid))
  }

  /** Only an arrival adds a lookup, and only a decision takes one away. */
  lemma FlightsAfter(u: World, s: Step)
    ensures s.Arrive? ==> Apply(u, s).asked == u.asked + {s.req}
    ensures s.Arrive? ==> forall r | r in u.flights && r != s.req ::
              r in Apply(u, s).flights && Apply(u, s).flights[r] == u.flights[r]
    ensures s.Decide? ==> Apply(u, s).asked == u.asked && Apply(u, s).flights == u.flights - {s.req}
    ensures !s.Arrive? && !s.Decide? ==> Apply(u, s).asked == u.asked && Apply(u, s).flights == u.flights
  {
    if s.Decide? {
      DecideFlights(u, s);
    }
  }

  lemma DecideFlights(u: World, s: Step)
    requires s.Decide?
    ensures DoDecide(u, s).asked == u.asked && DoDecide(u, s).flights == u.flights - {s.req}
  {
  }

  lemma FlightKept(u: World, s: Step, req: ReqId)
    requires req in u.flights && req in u.asked && (s.Decide? ==> s.req != req)
    ensures req in Next(u, s).asked && req in Next(u, s).flights && Next(u, s).flights[req] == u.flights[req]
  {
    FlightsAfter(u, s);
  }

  /** A lookup stays with its request until the request is decided. */
  lemma {:induction false} FlightWaits(w: World, run: seq<Step>, req: ReqId)
    requires req in w.flights && req in w.asked
    requires forall s | s in run :: s.Decide? ==> s.req != req
    ensures req in Exec(w, run).asked && req in Exec(w, run).flights
    ensures Exec(w, run).flights[req] == w.flights[req]
    decreases |run|
  {
    if run != [] {
      var init := run[..|run| - 1];
      assert forall s | s in init :: s in run;
      FlightWaits(w, init, req);
      FlightKept(Exec(w, init), run[|run| - 1], req);
    }
  }

  /**
   * A request, whatever happens between its lookup and its decision. It is granted through
   * the session exactly when the session was there and live at the lookup, the key behind
   * it is fit, and an unsafe method carries the session's own token; a header credential
   * counts exactly when no fit session is carried and the method is safe. An unfit key ends
   * the session, and nothing else about a decision does.
   */
  lemma DecidedExactly(w: World, sid: string, at: int, run: seq<Step>, s: Step)
    requires s.Decide? && s.req !in w.asked
    requires forall x | x in run :: x.Decide? ==> x.req != s.req
    ensures var u := Exec(Apply(w, Arrive(s.req, sid, at)), run);
            var live := sid != "" && sid in w.table && at < w.table[sid].expires;
            var carried := if live then Some(w.table[sid]) else None;
            && Meets(u.grants, Apply(u, s).grants, s.req, s.safe, FateOf(Flight(sid, carried, at), s))
            && (Apply(u, s).table ==
                if carried.Some? && AnswerUnfit(carried.value, s.answer, s.now) then u.table - {sid} else u.table)
  {
    var v := Apply(w, Arrive(s.req, sid, at));
    FlightWaits(v, run, s.req);
    DecidedFlight(Exec(v, run), s);
  }

  lemma DecidedFlight(u: World, s: Step)
    requires s.Decide? && s.req in u.flights
    ensures var f := u.flights[s.req];
            && Meets(u.grants, Apply(u, s).grants, s.req, s.safe, FateOf(f, s))
            && (Apply(u, s).table ==
                if f.sess.Some? && AnswerUnfit(f.sess.value, s.answer, s.now) then u.table - {f.sid} else u.table)
  {
    if u.flights[s.req].sess.Some? {
      ServesExactly(u.flights[s.req].sess.value, s.answer, s.now);
    }
    FateMet(u, s);
  }

  lemma ServesExactly(sess: Session, a: KeyAnswer, now: int)
    ensures StillServes(sess, a, now) <==> !AnswerUnfit(sess, a, now)
  {
  }

  lemma FateMet(u: World, s: Step)
    requires s.Decide? && s.req in u.flights
    ensures Meets(u.grants, DoDecide(u, s).grants, s.req, s.safe, FateOf(u.flights[s.req], s))
  {
    if u.flights[s.req].sess.Some? {
      ServesExactly(u.flights[s.req].sess.value, s.answer, s.now);
    }
  }

  /**
   * Signing in starts one session, live for the time to live, with the scope and the
   * identity it was started with and empty slots, and drops exactly the expired ones.
   */
  lemma SignedIn(w: World, sid: string, csrf: string, who: Principal, now: int, ttl: int, at: int)
    requires sid != ""
    ensures var t := Apply(w, SignIn(sid, csrf, who, now, ttl)).table;
            && (Live(t, sid, at) <==> at < now + ttl)
            && t[sid].csrf == csrf && t[sid].secret.None? && t[sid].flash.None?
            && (forall a, d ::
                  AnswerUnfit(t[sid], a, d) <==>
                  && who.kind == "key" && who.id != ""
                  && (a == Missing || (a.Row? && RowUnfit(who.scope, a.key, d))))
            && (forall x | x != sid :: x in t <==> x in w.table && now < w.table[x].expires)
            && (forall x | x != sid && x in t :: t[x] == w.table[x])
  {
  }

  lemma SeenExpired(w: World, req: ReqId, sid: string, now: int)
    requires sid in w.minted && sid in w.table && w.table[sid].expires <= now
    ensures Ended(Apply(w, Arrive(req, sid, now)), sid)
    ensures !Inside(Apply(w, Arrive(req, sid, now)), sid, req)
  {
  }

  // ---- what an unsafe request proved -----------------------------------------

  /** The session was live when it was looked up and the request carried its own token. */
  predicate Earned(w: World, g: Grant) {
    match g.via
    case Header => g.safe
    case Cookie(sid, token, csrf, at, expires) =>
      && sid in w.minted && w.minted[sid] == csrf && at < expires
      && (!g.safe ==> csrf != "" && token == csrf)
  }

  predicate GrantsInv(w: World) {
    && (forall g | g in w.grants :: Earned(w, g))
    && (forall sid | sid in w.table :: sid in w.minted && w.table[sid].csrf == w.minted[sid])
    && (forall req | req in w.flights :: FlightHonest(w, w.flights[req]))
  }

  lemma TokensKept(w: World, s: Step)
    requires GrantsInv(w)
    ensures var v := Next(w, s);
            && (forall sid | sid in w.minted :: sid in v.minted && v.minted[sid] == w.minted[sid])
            && (forall sid | sid in v.table :: sid in v.minted && v.table[sid].csrf == v.minted[sid])
  {
    var v := Next(w, s);
    MintedKept(w, s);
    forall sid | sid in v.table
      ensures sid in v.minted && v.table[sid].csrf == v.minted[sid]
    {
      TokenKept(w, s, sid);
    }
  }

  lemma MintedKept(w: World, s: Step)
    ensures forall sid | sid in w.minted :: sid in Next(w, s).minted && Next(w, s).minted[sid] == w.minted[sid]
    ensures !s.SignIn? ==> Next(w, s).minted == w.minted
  {
  }

  lemma TokenKept(w: World, s: Step, sid: string)
    requires sid in Next(w, s).table && forall x | x in w.table :: x in w.minted && w.table[x].csrf == w.minted[x]
    ensures sid in Next(w, s).minted && Next(w, s).table[sid].csrf == Next(w, s).minted[sid]
  {
    MintedKept(w, s);
  }

  predicate FlightHonest(w: World, f: Flight) {
    f.sess.Some? ==> f.sid in w.minted && w.minted[f.sid] == f.sess.value.csrf && f.at < f.sess.value.expires
  }

  lemma FlightsKept(w: World, s: Step)
    requires GrantsInv(w)
    ensures var v := Next(w, s);
            forall req | req in v.flights :: FlightHonest(v, v.flights[req])
  {
    MintedKept(w, s);
    var v := Next(w, s);
    forall req | req in v.flights
      ensures FlightHonest(v, v.flights[req])
    {
      if req in w.flights && v.flights[req] == w.flights[req] {
        assert FlightHonest(w, w.flights[req]);
      } else {
        NewFlight(w, s, req);
      }
    }
  }

  lemma NewFlight(w: World, s: Step, req: ReqId)
    requires req in Next(w, s).flights && !(req in w.flights && Next(w, s).flights[req] == w.flights[req])
    ensures s.Arrive? && Allowed(w, s) && Next(w, s).minted == w.minted
    ensures Next(w, s).flights[req] ==
            Flight(s.sid, if Live(w.table, s.sid, s.now) then Some(w.table[s.sid]) else None, s.now)
  {
  }

  lemma GrantsStep(w: World, s: Step)
    requires GrantsInv(w)
    ensures GrantsInv(Next(w, s))
  {
    TokensKept(w, s);
    FlightsKept(w, s);
    NextGrant(w, s, "");
    var v := Next(w, s);
    forall g | g in v.grants
      ensures Earned(v, g)
    {
      if g in w.grants {
        assert Earned(w, g);
      } else {
        assert FlightHonest(w, w.flights[s.req]);
      }
    }
  }

  /**
   * Every viewer made for an unsafe method comes from a session that was live when the
   * request arrived, and from a request that carried the token minted with it; a header
   * credential only ever reads.
   */
  lemma {:induction false} UnsafeEarned(run: seq<Step>)
    ensures GrantsInv(Exec(START, run))
    decreases |run|
  {
    if run != [] {
      UnsafeEarned(run[..|run| - 1]);
      GrantsStep(Exec(START, run[..|run| - 1]), run[|run| - 1]);
    }
  }
}
