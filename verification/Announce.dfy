/**
 * A mutation of the administration surface as a protocol: enumerate the keys it reaches,
 * write it durably, announce every key, write one audit row. Any step can fail; nodes
 * fill their credential caches at any time in between.
 */
module Announce {
  import opened Wrappers
  import opened Text

  type NodeId = nat
  type KeyId = string

  // ---- resolving a subject to its keys ---------------------------------------

  const MAX_ANNOUNCED: nat := 10_000

  datatype Refusal = StoreFailed | TooManyKeys

  function Smaller(a: nat, b: nat): nat { if a < b then a else b }

  /** A page of a listing that does not change between calls. */
  function Page(listing: seq<KeyId>, offset: nat, limit: nat): seq<KeyId> {
    listing[Smaller(offset, |listing|)..Smaller(offset + limit, |listing|)]
  }

  /** The first whole number of pages that reaches the bound, counting from m keys. */
  function FullPages(limit: nat, m: nat): (n: nat)
    requires limit > 0
    ensures m <= n && MAX_ANNOUNCED <= n
    ensures n == m || n < MAX_ANNOUNCED + limit
    decreases MAX_ANNOUNCED - m
  {
    if m >= MAX_ANNOUNCED then m else FullPages(limit, m + limit)
  }

  /** What the paging loop can be asked: call number, offset. None is a store error. */
  type Lister = (nat, nat) -> Option<seq<KeyId>>

  ghost predicate Stable(list: Lister, listing: seq<KeyId>, limit: nat) {
    forall c: nat, o: nat :: list(c, o) == Some(Page(listing, o, limit))
  }

  /** The loop from a number of calls on, with the ids collected so far. */
  function Enumerate(list: Lister, limit: nat, calls: nat, ids: seq<KeyId>): Result<seq<KeyId>, Refusal>
    requires limit > 0
    decreases if |ids| < MAX_ANNOUNCED then MAX_ANNOUNCED - |ids| else 0
  {
    var answer := list(calls, |ids|);
    if answer.None? then Err(StoreFailed)
    else
      var all := ids + answer.value;
      if |answer.value| < limit then Ok(all)
      else if |all| >= MAX_ANNOUNCED then Err(TooManyKeys)
      else Enumerate(list, limit, calls + 1, all)
  }

  /** ownedKeys: nothing to resolve when no announcement will be sent. */
  function Owned(wired: bool, list: Lister, limit: nat): Result<seq<KeyId>, Refusal>
    requires limit > 0
  {
    if wired then Enumerate(list, limit, 0, []) else Ok([])
  }

  /**
   * The paging loop. It ends whatever the store answers, because every full page brings
   * the bound closer; `read` counts the ids it took in.
   */
  method OwnedKeys(wired: bool, list: Lister, limit: nat) returns (r: Result<seq<KeyId>, Refusal>, read: nat)
    requires limit > 0
    ensures r == Owned(wired, list, limit)
    ensures (forall c: nat, o: nat :: list(c, o).Some? ==> |list(c, o).value| <= limit) ==> read < MAX_ANNOUNCED + limit
    ensures r == Err(TooManyKeys) ==> read >= MAX_ANNOUNCED
  {
    if !wired {
      return Ok([]), 0;
    }
    var ids: seq<KeyId> := [];
    var calls, offset := 0, 0;
    while true
      invariant offset == |ids| < MAX_ANNOUNCED
      invariant Enumerate(list, limit, 0, []) == Enumerate(list, limit, calls, ids)
      decreases MAX_ANNOUNCED - offset
    {
      var answer := list(calls, offset);
      if answer.None? {
        return Err(StoreFailed), |ids|;
      }
      var page := answer.value;
      ids := ids + page;
      if |page| < limit {
        return Ok(ids), |ids|;
      }
      if |ids| >= MAX_ANNOUNCED {
        return Err(TooManyKeys), |ids|;
      }
      calls, offset := calls + 1, offset + |page|;
    }
  }

  /** Every page read so far, one after another. */
  function Pages(pages: seq<seq<KeyId>>): seq<KeyId> {
    if pages == [] then [] else Pages(pages[..|pages| - 1]) + pages[|pages| - 1]
  }

  /** The store's first answers were these full pages, none of which reached the bound. */
  ghost predicate Answered(list: Lister, limit: nat, pages: seq<seq<KeyId>>) {
    forall i | 0 <= i < |pages| :: FullAnswer(list, limit, pages[..i], pages[i])
  }

  predicate FullAnswer(list: Lister, limit: nat, before: seq<seq<KeyId>>, page: seq<KeyId>) {
    && list(|before|, |Pages(before)|) == Some(page)
    && |page| >= limit && |Pages(before)| + |page| < MAX_ANNOUNCED
  }

  lemma {:induction false} AfterPages(list: Lister, limit: nat, pages: seq<seq<KeyId>>)
    requires limit > 0 && Answered(list, limit, pages)
    ensures Enumerate(list, limit, 0, []) == Enumerate(list, limit, |pages|, Pages(pages))
  {
    if pages != [] {
      var n := |pages| - 1;
      AnsweredBefore(list, limit, pages, n);
      AfterPages(list, limit, pages[..n]);
      assert FullAnswer(list, limit, pages[..n], pages[n]);
    }
  }

  lemma AnsweredBefore(list: Lister, limit: nat, pages: seq<seq<KeyId>>, n: nat)
    requires n <= |pages| && Answered(list, limit, pages)
    ensures Answered(list, limit, pages[..n])
  {
    var init := pages[..n];
    forall i | 0 <= i < |init|
      ensures FullAnswer(list, limit, init[..i], init[i])
    {
      assert init[..i] == pages[..i];
    }
  }

  /**
   * What a store answers decides, whatever it answers: after any number of full pages a
   * failure refuses, a short page ends the listing with all that was read, and a full one
   * that reaches the bound refuses.
   */
  lemma OwnedExactly(list: Lister, limit: nat, pages: seq<seq<KeyId>>)
    requires limit > 0 && Answered(list, limit, pages)
    ensures var answer := list(|pages|, |Pages(pages)|);
            && (answer.None? ==> Owned(true, list, limit) == Err(StoreFailed))
            && (answer.Some? && |answer.value| < limit ==> Owned(true, list, limit) == Ok(Pages(pages) + answer.value))
            && (answer.Some? && |answer.value| >= limit && |Pages(pages)| + |answer.value| >= MAX_ANNOUNCED ==>
                  Owned(true, list, limit) == Err(TooManyKeys))
    ensures Owned(false, list, limit) == Ok([])
  {
    AfterPages(list, limit, pages);
  }

  lemma PageOf(listing: seq<KeyId>, ids: seq<KeyId>, limit: nat)
    requires ids <= listing && limit > 0
    ensures var page := Page(listing, |ids|, limit);
            && ids + page <= listing
            && (|page| < limit ==> ids + page == listing && |listing| < |ids| + limit)
            && (|page| >= limit ==> |page| == limit && |ids| + limit <= |listing|)
  {
  }

  lemma {:induction false} EnumerateStable(list: Lister, listing: seq<KeyId>, limit: nat, calls: nat, ids: seq<KeyId>)
    requires limit > 0 && Stable(list, listing, limit) && ids <= listing && |ids| < MAX_ANNOUNCED
    ensures Enumerate(list, limit, calls, ids) ==
            if |listing| < FullPages(limit, |ids| + limit) then Ok(listing) else Err(TooManyKeys)
    decreases MAX_ANNOUNCED - |ids|
  {
    assert list(calls, |ids|) == Some(Page(listing, |ids|, limit));
    PageOf(listing, ids, limit);
    var all := ids + Page(listing, |ids|, limit);
    if |Page(listing, |ids|, limit)| >= limit && |all| < MAX_ANNOUNCED {
      EnumerateStable(list, listing, limit, calls + 1, all);
    }
  }

  /**
   * On a stable listing the loop returns every key once, in order, exactly when there are
   * fewer than the first whole number of pages that reaches 10,000; else it refuses.
   */
  lemma OwnedStable(list: Lister, listing: seq<KeyId>, limit: nat)
    requires limit > 0 && Stable(list, listing, limit)
    ensures Owned(true, list, limit) ==
            if |listing| < FullPages(limit, limit) then Ok(listing) else Err(TooManyKeys)
  {
    EnumerateStable(list, listing, limit, 0, []);
  }

  // ---- the ids a request names -----------------------------------------------

  function Flat(lists: seq<seq<string>>): seq<string> {
    if lists == [] then [] else Flat(lists[..|lists| - 1]) + lists[|lists| - 1]
  }

  function Trims(ids: seq<string>): (r: seq<string>)
    ensures |r| == |ids|
  {
    seq(|ids|, i requires 0 <= i < |ids| => TrimSpace(ids[i]))
  }

  /** x is named before y is. */
  ghost predicate Before(all: seq<string>, x: string, y: string) {
    exists i :: 0 <= i < |all| && all[i] == x && y !in all[..i]
  }

  /** Exactly the non-blank ids, each once, in the order they are first named. */
  ghost predicate Merged(all: seq<string>, out: seq<string>) {
    && (forall id :: id in out <==> id in all && id != "")
    && (forall a, b | 0 <= a < b < |out| :: out[a] != out[b] && Before(all, out[a], out[b]))
  }

  lemma MergeStep(all: seq<string>, out: seq<string>, id: string)
    requires Merged(all, out)
    ensures Merged(all + [id], if id == "" || id in out then out else out + [id])
  {
    var next := if id == "" || id in out then out else out + [id];
    forall a, b | 0 <= a < b < |next|
      ensures next[a] != next[b] && Before(all + [id], next[a], next[b])
    {
      assert next[a] == out[a] && out[a] in out;
      var i: nat :| if b < |out| then i < |all| && all[i] == out[a] && out[b] !in all[..i]
                    else i < |all| && all[i] == out[a];
      assert (all + [id])[..i] == all[..i];
    }
  }

  method MergeIds(lists: seq<seq<string>>) returns (out: seq<KeyId>)
    ensures Merged(Trims(Flat(lists)), out)
  {
    out := [];
    var seen: set<KeyId> := {};
    for i := 0 to |lists|
      invariant Merged(Trims(Flat(lists[..i])), out)
      invariant forall id :: id in seen <==> id in out
    {
      var l := lists[i];
      assert lists[..i + 1][..i] == lists[..i];
      ghost var before := Flat(lists[..i]);
      assert before + l[..0] == before;
      for j := 0 to |l|
        invariant Merged(Trims(before + l[..j]), out)
        invariant forall id :: id in seen <==> id in out
      {
        var v := TrimSpace(l[j]);
        assert Trims(before + l[..j + 1]) == Trims(before + l[..j]) + [v];
        MergeStep(Trims(before + l[..j]), out, v);
        if v != "" && v !in seen {
          seen := seen + {v};
          out := out + [v];
        }
      }
      assert before + l[..|l|] == Flat(lists[..i + 1]);
    }
    assert lists[..|lists|] == lists;
  }

  // ---- the fleet -------------------------------------------------------------

  datatype Cause = Revoked | Updated | GraceCut

  /** What a mutation leaves behind it: announcements attempted, audit rows attempted. */
  datatype Deed = Told(key: KeyId, cause: Cause, published: bool) | Audit(action: string, written: bool)

  type Caches = map<(NodeId, KeyId), nat>

  /**
   * What the nodes hold: each one's copies of keys, stamped with the durable writes they
   * were read after; the published messages; and how many of them each node has read.
   */
  datatype Net = Net(caches: Caches, messages: seq<KeyId>, seen: map<NodeId, nat>)

  /** What a node does on its own: cache a key as read after `stamp` writes, or poll the messages. */
  datatype Turn = Filled(node: NodeId, key: KeyId, stamp: nat) | Polled(node: NodeId)

  /** How a durable write ends: `Unsure` reports an error although it committed. */
  datatype Write = Committed | Rejected | Unsure

  function Writes(w: Write): nat { if w.Rejected? then 0 else 1 }

  datatype Reply = Refused | WriteFailed | Abandoned | AuditFailed | AnnounceFailed | Done

  /** What the world does during a call: publishing, the nodes' own turns, and the audit store. */
  datatype Weather = Weather(publishes: nat -> bool, turns: nat -> seq<Turn>, audits: bool)

  /** A blank id is not announced, and nothing is where no announcement is wired. */
  function Attempt(wired: bool, key: KeyId, cause: Cause, published: bool): seq<Deed> {
    if wired && key != "" then [Told(key, cause, published)] else []
  }

  /** The announcements one mutation attempts, in order. */
  function Attempts(wired: bool, keys: seq<KeyId>, cause: Cause, publishes: nat -> bool): seq<Deed> {
    if keys == [] then []
    else
      var n := |keys| - 1;
      Attempts(wired, keys[..n], cause, publishes) + Attempt(wired, keys[n], cause, publishes(n))
  }

  predicate AllTold(wired: bool, keys: seq<KeyId>, publishes: nat -> bool) {
    wired ==> forall i | 0 <= i < |keys| && keys[i] != "" :: publishes(i)
  }

  lemma Appending<T>(a: seq<T>, b: seq<T>, c: seq<T>)
    ensures a + b + c == a + (b + c)
  {
  }

  lemma OneMore(wired: bool, keys: seq<KeyId>, i: nat, cause: Cause, publishes: nat -> bool)
    requires i < |keys|
    ensures Attempts(wired, keys[..i + 1], cause, publishes) ==
            Attempts(wired, keys[..i], cause, publishes) + Attempt(wired, keys[i], cause, publishes(i))
    ensures AllTold(wired, keys[..i + 1], publishes) <==>
            AllTold(wired, keys[..i], publishes) && (wired && keys[i] != "" ==> publishes(i))
  {
    assert keys[..i + 1][..i] == keys[..i];
  }

  // ---- what the nodes do -----------------------------------------------------

  /**
   * Where a call runs: the node, whether announcements are wired there, and whether the
   * store tells a publisher the number of its message, which moves the node's own mark.
   */
  datatype Site = Site(here: NodeId, wired: bool, marks: bool)

  function Seen(net: Net, n: NodeId): nat { if n in net.seen then net.seen[n] else 0 }

  /** No node has read more messages than there are. */
  ghost predicate Sane(net: Net) { forall n: NodeId :: Seen(net, n) <= |net.messages| }

  predicate Unread(net: Net, n: NodeId, k: KeyId) {
    exists i :: Seen(net, n) <= i < |net.messages| && net.messages[i] == k
  }

  /** A poll drops the node's copies of the keys it has unread messages about. */
  function Turned(net: Net, t: Turn): Net {
    match t
    case Filled(n, k, stamp) => net.(caches := net.caches[(n, k) := stamp])
    case Polled(n) =>
      net.(caches := map p | p in net.caches && !(p.0 == n && Unread(net, n, p.1)) :: net.caches[p],
           seen := net.seen[n := |net.messages|])
  }

  function TurnedAll(net: Net, ts: seq<Turn>): Net {
    if ts == [] then net else Turned(TurnedAll(net, ts[..|ts| - 1]), ts[|ts| - 1])
  }

  /** The announcement of a key. The local drop comes first, so a failed publish leaves this node right. */
  function Announced(site: Site, net: Net, key: KeyId, published: bool): Net {
    if !site.wired || key == "" then net
    else
      var local := net.(caches := net.caches - {(site.here, key)});
      if !published then local
      else
        local.(messages := net.messages + [key],
               seen := if site.marks then net.seen[site.here := |net.messages| + 1] else net.seen)
  }

  /** The nodes once the first i keys are announced, with their own turns before each of them. */
  function Through(site: Site, net: Net, keys: seq<KeyId>, sky: Weather, i: nat): Net
    requires i <= |keys|
  {
    if i == 0 then net
    else
      var before := TurnedAll(Through(site, net, keys, sky, i - 1), sky.turns(i - 1));
      Announced(site, before, keys[i - 1], sky.publishes(i - 1))
  }

  /** And when the reply is sent. */
  function Afterwards(site: Site, net: Net, keys: seq<KeyId>, sky: Weather): Net {
    TurnedAll(Through(site, net, keys, sky, |keys|), sky.turns(|keys|))
  }

  // ---- one node and one key --------------------------------------------------

  function Copy(net: Net, n: NodeId, k: KeyId): Option<nat> {
    if (n, k) in net.caches then Some(net.caches[(n, k)]) else None
  }

  /** All that matters of a node for a key: its copy, and whether it has an unread message about it. */
  datatype View = View(copy: Option<nat>, unread: bool)

  function ViewOf(net: Net, n: NodeId, k: KeyId): View { View(Copy(net, n, k), Unread(net, n, k)) }

  function Watched(v: View, t: Turn, n: NodeId, k: KeyId): View {
    match t
    case Filled(m, x, stamp) => if m == n && x == k then v.(copy := Some(stamp)) else v
    case Polled(m) => if m == n then View(if v.unread then None else v.copy, false) else v
  }

  function WatchedAll(v: View, ts: seq<Turn>, n: NodeId, k: KeyId): View {
    if ts == [] then v else Watched(WatchedAll(v, ts[..|ts| - 1], n, k), ts[|ts| - 1], n, k)
  }

  lemma SaneTurn(net: Net, t: Turn)
    requires Sane(net)
    ensures Sane(Turned(net, t))
  {
    forall m: NodeId
      ensures Seen(Turned(net, t), m) <= |net.messages|
    {
      assert Seen(net, m) <= |net.messages|;
    }
  }

  lemma SaneAnnounced(site: Site, net: Net, key: KeyId, published: bool)
    requires Sane(net)
    ensures Sane(Announced(site, net, key, published))
  {
    var next := Announced(site, net, key, published);
    forall m: NodeId
      ensures Seen(next, m) <= |next.messages|
    {
      assert Seen(net, m) <= |net.messages|;
    }
  }

  lemma TurnView(net: Net, t: Turn, n: NodeId, k: KeyId)
    ensures ViewOf(Turned(net, t), n, k) == Watched(ViewOf(net, n, k), t, n, k)
  {
    assert t.Filled? || t.node != n ==> Seen(Turned(net, t), n) == Seen(net, n);
  }

  lemma {:induction false} TurnsView(net: Net, ts: seq<Turn>, n: NodeId, k: KeyId)
    requires Sane(net)
    ensures Sane(TurnedAll(net, ts)) && ViewOf(TurnedAll(net, ts), n, k) == WatchedAll(ViewOf(net, n, k), ts, n, k)
  {
    if ts != [] {
      TurnsView(net, ts[..|ts| - 1], n, k);
      SaneTurn(TurnedAll(net, ts[..|ts| - 1]), ts[|ts| - 1]);
      TurnView(TurnedAll(net, ts[..|ts| - 1]), ts[|ts| - 1], n, k);
    }
  }

  lemma {:induction false} WatchedConcat(v: View, a: seq<Turn>, b: seq<Turn>, n: NodeId, k: KeyId)
    ensures WatchedAll(v, a + b, n, k) == WatchedAll(WatchedAll(v, a, n, k), b, n, k)
    decreases |b|
  {
    if b == [] {
      assert a + b == a;
    } else {
      assert (a + b)[..|a + b| - 1] == a + b[..|b| - 1];
      WatchedConcat(v, a, b[..|b| - 1], n, k);
    }
  }

  lemma UnreadMore(net: Net, next: Net, key: KeyId, n: NodeId, k: KeyId)
    requires Sane(net) && next.messages == net.messages + [key] && Seen(next, n) == Seen(net, n)
    ensures Unread(next, n, k) <==> Unread(net, n, k) || key == k
  {
    if Unread(net, n, k) {
      var i :| Seen(net, n) <= i < |net.messages| && net.messages[i] == k;
      assert next.messages[i] == k;
    }
    if key == k {
      assert next.messages[|net.messages|] == k;
    }
  }

  /**
   * An announcement, published or not, drops this node's copy of the key and no other copy;
   * the key is told to the others exactly when it is published.
   */
  lemma AnnouncedDrops(site: Site, net: Net, key: KeyId, published: bool)
    requires site.wired && key != ""
    ensures var next := Announced(site, net, key, published);
            && (forall n: NodeId, k: KeyId ::
                  Copy(next, n, k) == if n == site.here && k == key then None else Copy(net, n, k))
            && next.messages == net.messages + (if published then [key] else [])
            && (forall n: NodeId | n != site.here :: Seen(next, n) == Seen(net, n))
  {
  }

  /** What a published announcement does to another node's view, and to this one's. */
  lemma AnnouncedView(site: Site, net: Net, key: KeyId, n: NodeId, k: KeyId)
    requires site.wired && Sane(net) && key != ""
    ensures var next := Announced(site, net, key, true);
            var v := ViewOf(net, n, k);
            ViewOf(next, n, k) ==
              View(if n == site.here && key == k then None else v.copy,
                   if n == site.here && site.marks then false else v.unread || key == k)
  {
    var next := Announced(site, net, key, true);
    if n != site.here || !site.marks {
      UnreadMore(net, next, key, n, k);
    }
  }

  /**
   * Where the announcing node's mark moves past its own message it moves past every other,
   * so a message about another key it had not read is skipped and its next poll keeps the
   * copy; where the store reports no number the poll drops it.
   */
  lemma MarkSkips(site: Site, net: Net, key: KeyId, k: KeyId)
    requires site.wired && Sane(net) && key != "" && k != key
    requires Unread(net, site.here, k) && Copy(net, site.here, k).Some?
    ensures var next := Announced(site, net, key, true);
            Copy(TurnedAll(next, [Polled(site.here)]), site.here, k) ==
            if site.marks then Copy(net, site.here, k) else None
  {
    var next := Announced(site, net, key, true);
    AnnouncedView(site, net, key, site.here, k);
    OneTurn(next, Polled(site.here));
    TurnView(next, Polled(site.here), site.here, k);
  }

  // ---- when an old copy is left ----------------------------------------------

  /** The stamp of a node's last fill of a key. */
  function LastFill(ts: seq<Turn>, n: NodeId, k: KeyId): Option<nat> {
    if ts == [] then None
    else
      var t := ts[|ts| - 1];
      if t.Filled? && t.node == n && t.key == k then Some(t.stamp) else LastFill(ts[..|ts| - 1], n, k)
  }

  predicate Polls(ts: seq<Turn>, n: NodeId) { Polled(n) in ts }

  /** What follows a node's first poll. */
  function SincePoll(ts: seq<Turn>, n: NodeId): seq<Turn>
    requires Polls(ts, n)
  {
    var init := ts[..|ts| - 1];
    if Polls(init, n) then SincePoll(init, n) + [ts[|ts| - 1]] else []
  }

  /**
   * What a node holds of a key after its turns `ts` since the key's announcement, having
   * held `before` then. If the message was new to it (`unread`): once it has polled, what
   * it filled after that. Otherwise what it filled last, or still `before`.
   */
  function Held(unread: bool, before: Option<nat>, ts: seq<Turn>, n: NodeId, k: KeyId): Option<nat> {
    if unread && Polls(ts, n) then LastFill(SincePoll(ts, n), n, k)
    else if LastFill(ts, n, k).Some? then LastFill(ts, n, k)
    else before
  }

  lemma SincePollSnoc(ts: seq<Turn>, t: Turn, n: NodeId)
    ensures Polls(ts + [t], n) <==> Polls(ts, n) || t == Polled(n)
    ensures Polls(ts, n) ==> SincePoll(ts + [t], n) == SincePoll(ts, n) + [t]
    ensures !Polls(ts, n) && t == Polled(n) ==> SincePoll(ts + [t], n) == []
  {
    assert (ts + [t])[..|ts|] == ts;
  }

  lemma LastFillSnoc(ts: seq<Turn>, t: Turn, n: NodeId, k: KeyId)
    ensures LastFill(ts + [t], n, k) ==
            if t.Filled? && t.node == n && t.key == k then Some(t.stamp) else LastFill(ts, n, k)
  {
    assert (ts + [t])[..|ts|] == ts;
  }

  lemma HeldSnoc(unread: bool, before: Option<nat>, ts: seq<Turn>, t: Turn, n: NodeId, k: KeyId)
    ensures View(Held(unread, before, ts + [t], n, k), unread && !Polls(ts + [t], n)) ==
            Watched(View(Held(unread, before, ts, n, k), unread && !Polls(ts, n)), t, n, k)
  {
    SincePollSnoc(ts, t, n);
    LastFillSnoc(ts, t, n, k);
    if unread && Polls(ts, n) {
      LastFillSnoc(SincePoll(ts, n), t, n, k);
    }
  }

  lemma {:induction false} HeldIsWatched(v: View, ts: seq<Turn>, n: NodeId, k: KeyId)
    ensures WatchedAll(v, ts, n, k) == View(Held(v.unread, v.copy, ts, n, k), v.unread && !Polls(ts, n))
  {
    if ts != [] {
      var init, t := ts[..|ts| - 1], ts[|ts| - 1];
      HeldIsWatched(v, init, n, k);
      HeldSnoc(v.unread, v.copy, init, t, n, k);
      assert ts == init + [t];
    }
  }

  /** The turns since the last announcement of a key among the first i. */
  function Late(keys: seq<KeyId>, turns: nat -> seq<Turn>, k: KeyId, i: nat): seq<Turn>
    requires i <= |keys|
  {
    if i == 0 || keys[i - 1] == k then [] else Late(keys, turns, k, i - 1) + turns(i - 1)
  }

  /** What a node held just before the key was last announced among the first i. */
  function HeldThen(site: Site, net: Net, keys: seq<KeyId>, sky: Weather, n: NodeId, k: KeyId, i: nat): Option<nat>
    requires i <= |keys|
  {
    if i == 0 then Copy(net, n, k)
    else if keys[i - 1] == k then Copy(TurnedAll(Through(site, net, keys, sky, i - 1), sky.turns(i - 1)), n, k)
    else HeldThen(site, net, keys, sky, n, k, i - 1)
  }

  /** And just after: the announcing node has dropped its copy and may know its own message. */
  function ToldView(site: Site, net: Net, keys: seq<KeyId>, sky: Weather, n: NodeId, k: KeyId, i: nat): View
    requires i <= |keys|
  {
    View(if n == site.here then None else HeldThen(site, net, keys, sky, n, k, i), n != site.here || !site.marks)
  }

  lemma {:induction false} SaneThrough(site: Site, net: Net, keys: seq<KeyId>, sky: Weather, i: nat)
    requires Sane(net) && i <= |keys|
    ensures Sane(Through(site, net, keys, sky, i))
    ensures Sane(TurnedAll(Through(site, net, keys, sky, i), sky.turns(i)))
    decreases i
  {
    if i > 0 {
      SaneThrough(site, net, keys, sky, i - 1);
      var before := TurnedAll(Through(site, net, keys, sky, i - 1), sky.turns(i - 1));
      SaneAnnounced(site, before, keys[i - 1], sky.publishes(i - 1));
    }
    TurnsView(Through(site, net, keys, sky, i), sky.turns(i), site.here, "");
  }

  /** Announcing another key leaves the view as it is, unless the node's mark moves over something unread. */
  lemma OtherAnnounced(site: Site, net: Net, key: KeyId, n: NodeId, k: KeyId)
    requires site.wired && Sane(net) && key != k && (n == site.here && site.marks ==> !Unread(net, n, k))
    ensures ViewOf(Announced(site, net, key, true), n, k) == ViewOf(net, n, k)
  {
    if key != "" {
      AnnouncedView(site, net, key, n, k);
    }
  }

  /** The turns and one more announcement, of another key. */
  lemma NextView(site: Site, start: Net, key: KeyId, ts: seq<Turn>, n: NodeId, k: KeyId, v: View, late: seq<Turn>)
    requires site.wired && Sane(start) && key != k && v.unread == (n != site.here || !site.marks)
    requires ViewOf(start, n, k) == WatchedAll(v, late, n, k)
    ensures ViewOf(Announced(site, TurnedAll(start, ts), key, true), n, k) == WatchedAll(v, late + ts, n, k)
  {
    TurnsView(start, ts, n, k);
    WatchedConcat(v, late, ts, n, k);
    HeldIsWatched(v, late + ts, n, k);
    OtherAnnounced(site, TurnedAll(start, ts), key, n, k);
  }

  /** Once a key is announced, a node's view of it is that of its own turns since. */
  lemma {:induction false} ThroughView(site: Site, net: Net, keys: seq<KeyId>, sky: Weather,
                                       n: NodeId, k: KeyId, i: nat)
    requires Sane(net) && i <= |keys| && k in keys[..i] && k != "" && site.wired && AllTold(true, keys, sky.publishes)
    ensures ViewOf(Through(site, net, keys, sky, i), n, k) ==
            WatchedAll(ToldView(site, net, keys, sky, n, k, i), Late(keys, sky.turns, k, i), n, k)
    decreases i
  {
    var j := i - 1;
    var start := Through(site, net, keys, sky, j);
    assert keys[..i] == keys[..j] + [keys[j]];
    SaneThrough(site, net, keys, sky, j);
    if keys[j] == k {
      AnnouncedView(site, TurnedAll(start, sky.turns(j)), k, n, k);
    } else {
      ThroughView(site, net, keys, sky, n, k, j);
      NextView(site, start, keys[j], sky.turns(j), n, k,
               ToldView(site, net, keys, sky, n, k, j), Late(keys, sky.turns, k, j));
    }
  }

  /** What a node holds of an announced key when the reply is sent. */
  function HeldAfter(site: Site, net: Net, keys: seq<KeyId>, sky: Weather, n: NodeId, k: KeyId): Option<nat> {
    var v := ToldView(site, net, keys, sky, n, k, |keys|);
    Held(v.unread, v.copy, Late(keys, sky.turns, k, |keys|) + sky.turns(|keys|), n, k)
  }

  lemma CopyAfter(site: Site, net: Net, keys: seq<KeyId>, sky: Weather, n: NodeId, k: KeyId)
    requires Sane(net) && k in keys && k != "" && site.wired && AllTold(true, keys, sky.publishes)
    ensures Copy(Afterwards(site, net, keys, sky), n, k) == HeldAfter(site, net, keys, sky, n, k)
  {
    assert keys[..|keys|] == keys;
    var v := ToldView(site, net, keys, sky, n, k, |keys|);
    SaneThrough(site, net, keys, sky, |keys|);
    ThroughView(site, net, keys, sky, n, k, |keys|);
    TurnsView(Through(site, net, keys, sky, |keys|), sky.turns(|keys|), n, k);
    WatchedConcat(v, Late(keys, sky.turns, k, |keys|), sky.turns(|keys|), n, k);
    HeldIsWatched(v, Late(keys, sky.turns, k, |keys|) + sky.turns(|keys|), n, k);
  }

  predicate NotOlder(copy: Option<nat>, write: nat) { copy.Some? ==> copy.value >= write }

  /** No node holds a copy of these keys from before the write. */
  ghost predicate NoneStale(net: Net, keys: seq<KeyId>, write: nat) {
    forall n: NodeId, k: KeyId | k in keys && k != "" :: NotOlder(Copy(net, n, k), write)
  }

  /** Every node has polled since the key's message or held nothing old, and filled nothing old since. */
  ghost predicate AllCaughtUp(site: Site, net: Net, keys: seq<KeyId>, sky: Weather, write: nat) {
    forall n: NodeId, k: KeyId | k in keys && k != "" :: NotOlder(HeldAfter(site, net, keys, sky, n, k), write)
  }

  /** When every announcement was published, that is exactly when no old copy is left at the reply. */
  lemma StaleExactly(site: Site, net: Net, keys: seq<KeyId>, sky: Weather, write: nat)
    requires site.wired && Sane(net) && AllTold(true, keys, sky.publishes)
    ensures NoneStale(Afterwards(site, net, keys, sky), keys, write) <==>
            AllCaughtUp(site, net, keys, sky, write)
  {
    forall n: NodeId, k: KeyId | k in keys && k != ""
      ensures Copy(Afterwards(site, net, keys, sky), n, k) == HeldAfter(site, net, keys, sky, n, k)
    {
      CopyAfter(site, net, keys, sky, n, k);
    }
  }

  lemma {:induction false} LastFillIn(ts: seq<Turn>, n: NodeId, k: KeyId)
    ensures LastFill(ts, n, k).Some? ==> Filled(n, k, LastFill(ts, n, k).value) in ts
  {
    if ts != [] {
      LastFillIn(ts[..|ts| - 1], n, k);
    }
  }

  lemma {:induction false} SincePollIn(ts: seq<Turn>, n: NodeId)
    requires Polls(ts, n)
    ensures forall t | t in SincePoll(ts, n) :: t in ts
  {
    if Polls(ts[..|ts| - 1], n) {
      SincePollIn(ts[..|ts| - 1], n);
    }
  }

  lemma {:induction false} LateIn(keys: seq<KeyId>, turns: nat -> seq<Turn>, k: KeyId, i: nat)
    requires i <= |keys|
    ensures forall t | t in Late(keys, turns, k, i) :: exists j: nat :: t in turns(j)
  {
    if i > 0 && keys[i - 1] != k {
      LateIn(keys, turns, k, i - 1);
    }
  }

  /** Everything cached during the call was read after the write. */
  ghost predicate FillsCurrent(turns: nat -> seq<Turn>, write: nat) {
    forall j: nat, t | t in turns(j) && t.Filled? :: t.stamp >= write
  }

  lemma {:induction false} FreshTurns(net: Net, ts: seq<Turn>, n: NodeId, k: KeyId, write: nat)
    requires NotOlder(Copy(net, n, k), write) && forall t | t in ts && t.Filled? :: t.stamp >= write
    ensures NotOlder(Copy(TurnedAll(net, ts), n, k), write)
  {
    if ts != [] {
      FreshTurns(net, ts[..|ts| - 1], n, k, write);
      assert ts[|ts| - 1] in ts;
    }
  }

  /** A node that held nothing old goes on holding nothing old. */
  lemma {:induction false} FreshThrough(site: Site, net: Net, keys: seq<KeyId>, sky: Weather,
                                        n: NodeId, k: KeyId, write: nat, i: nat)
    requires i <= |keys| && NotOlder(Copy(net, n, k), write) && FillsCurrent(sky.turns, write)
    ensures NotOlder(Copy(Through(site, net, keys, sky, i), n, k), write)
    ensures NotOlder(HeldThen(site, net, keys, sky, n, k, i), write)
    decreases i
  {
    if i > 0 {
      FreshThrough(site, net, keys, sky, n, k, write, i - 1);
      FreshTurns(Through(site, net, keys, sky, i - 1), sky.turns(i - 1), n, k, write);
    }
  }

  lemma HeldFresh(v: View, ts: seq<Turn>, n: NodeId, k: KeyId, write: nat)
    requires forall t | t in ts && t.Filled? :: t.stamp >= write
    requires NotOlder(v.copy, write) || (v.unread && Polls(ts, n))
    ensures NotOlder(Held(v.unread, v.copy, ts, n, k), write)
  {
    LastFillIn(ts, n, k);
    if v.unread && Polls(ts, n) {
      SincePollIn(ts, n);
      LastFillIn(SincePoll(ts, n), n, k);
    }
  }

  /**
   * The published bound: once every other node that held an old copy has polled after the
   * last announcement, none is left, if what was cached meanwhile was read after the write.
   */
  lemma PolledIsFresh(site: Site, net: Net, keys: seq<KeyId>, sky: Weather, write: nat)
    requires FillsCurrent(sky.turns, write)
    requires forall n: NodeId, k: KeyId | n != site.here && k in keys && k != "" ::
               Polls(sky.turns(|keys|), n) || NotOlder(Copy(net, n, k), write)
    ensures AllCaughtUp(site, net, keys, sky, write)
  {
    forall n: NodeId, k: KeyId | k in keys && k != ""
      ensures NotOlder(HeldAfter(site, net, keys, sky, n, k), write)
    {
      var since := Late(keys, sky.turns, k, |keys|) + sky.turns(|keys|);
      LateIn(keys, sky.turns, k, |keys|);
      if n != site.here && !Polls(sky.turns(|keys|), n) {
        FreshThrough(site, net, keys, sky, n, k, write, |keys|);
      }
      HeldFresh(ToldView(site, net, keys, sky, n, k, |keys|), since, n, k, write);
    }
  }

  // ---- the handlers ----------------------------------------------------------

  class Fleet {
    const site: Site
    var stamp: nat
    var net: Net
    var deeds: seq<Deed>

    ghost predicate Valid()
      reads this
    {
      Sane(net)
    }

    constructor (site: Site)
      ensures this.site == site && Valid()
      ensures stamp == 0 && net == Net(map[], [], map[]) && deeds == []
    {
      this.site := site;
      stamp, net, deeds := 0, Net(map[], [], map[]), [];
    }

    /** The nodes' own turns while the handler is between two steps. */
    method Pass(ts: seq<Turn>)
      modifies this`net
      ensures net == TurnedAll(old(net), ts)
      ensures old(Valid()) ==> Valid()
    {
      for i := 0 to |ts|
        invariant net == TurnedAll(old(net), ts[..i])
      {
        assert ts[..i + 1][..i] == ts[..i];
        net := Turned(net, ts[i]);
      }
      assert ts[..|ts|] == ts;
      if old(Valid()) {
        TurnsView(old(net), ts, site.here, "");
      }
    }

    method Commit(w: Write) returns (ok: bool)
      modifies this`stamp
      ensures ok == w.Committed? && stamp == old(stamp) + Writes(w)
    {
      if !w.Rejected? {
        stamp := stamp + 1;
      }
      return w.Committed?;
    }

    /** The local drop comes first, so a failed publish leaves this node right. */
    method Invalidate(key: KeyId, cause: Cause, publishes: bool) returns (ok: bool)
      modifies this`net, this`deeds
      ensures ok == (!site.wired || key == "" || publishes)
      ensures deeds == old(deeds) + Attempt(site.wired, key, cause, publishes)
      ensures net == Announced(site, old(net), key, publishes)
    {
      if !site.wired || key == "" {
        return true;
      }
      net := net.(caches := net.caches - {(site.here, key)});
      if publishes {
        net := net.(messages := net.messages + [key]);
        if site.marks {
          net := net.(seen := net.seen[site.here := |net.messages|]);
        }
      }
      deeds := deeds + [Told(key, cause, publishes)];
      return publishes;
    }

    method TellNext(key: KeyId, cause: Cause, ts: seq<Turn>, publishes: bool) returns (ok: bool)
      modifies this`net, this`deeds
      ensures ok == (!site.wired || key == "" || publishes)
      ensures deeds == old(deeds) + Attempt(site.wired, key, cause, publishes)
      ensures net == Announced(site, TurnedAll(old(net), ts), key, publishes)
    {
      Pass(ts);
      ok := Invalidate(key, cause, publishes);
    }

    /** Every key is attempted, whatever the earlier ones did; the first failure is kept. */
    method TellAll(keys: seq<KeyId>, cause: Cause, sky: Weather) returns (ok: bool)
      modifies this`net, this`deeds
      ensures deeds == old(deeds) + Attempts(site.wired, keys, cause, sky.publishes)
      ensures ok == AllTold(site.wired, keys, sky.publishes)
      ensures net == Through(site, old(net), keys, sky, |keys|)
    {
      ok := true;
      for i := 0 to |keys|
        invariant deeds == old(deeds) + Attempts(site.wired, keys[..i], cause, sky.publishes)
        invariant ok == AllTold(site.wired, keys[..i], sky.publishes)
        invariant net == Through(site, old(net), keys, sky, i)
      {
        ghost var told := Attempts(site.wired, keys[..i], cause, sky.publishes);
        OneMore(site.wired, keys, i, cause, sky.publishes);
        var done := TellNext(keys[i], cause, sky.turns(i), sky.publishes(i));
        Appending(old(deeds), told, Attempt(site.wired, keys[i], cause, sky.publishes(i)));
        ok := ok && done;
      }
      assert keys[..|keys|] == keys;
    }

    method InvalidateKeys(keys: seq<KeyId>, cause: Cause, sky: Weather, ghost write: nat) returns (ok: bool)
      requires Valid()
      modifies this`net, this`deeds
      ensures Valid() && deeds == old(deeds) + Attempts(site.wired, keys, cause, sky.publishes)
      ensures ok == AllTold(site.wired, keys, sky.publishes)
      ensures net == Afterwards(site, old(net), keys, sky)
      ensures site.wired && ok ==>
                (NoneStale(net, keys, write) <==> AllCaughtUp(site, old(net), keys, sky, write))
    {
      ok := TellAll(keys, cause, sky);
      Pass(sky.turns(|keys|));
      SaneThrough(site, old(net), keys, sky, |keys|);
      if site.wired && ok {
        StaleExactly(site, old(net), keys, sky, write);
      }
    }

    method RecordAudit(action: string, written: bool) returns (ok: bool)
      modifies this`deeds
      ensures deeds == old(deeds) + [Audit(action, written)] && ok == written
    {
      deeds := deeds + [Audit(action, written)];
      return written;
    }

    /** Announce, then write the trail whatever the announcing did; the audit fault wins. */
    method AppliedTo(keys: seq<KeyId>, cause: Cause, action: string, sky: Weather, ghost write: nat) returns (r: Reply)
      requires Valid()
      modifies this`net, this`deeds
      ensures Valid()
      ensures deeds == old(deeds) + Attempts(site.wired, keys, cause, sky.publishes) + [Audit(action, sky.audits)]
      ensures r == if !sky.audits then AuditFailed
                   else if !AllTold(site.wired, keys, sky.publishes) then AnnounceFailed else Done
      ensures net == Afterwards(site, old(net), keys, sky)
      ensures site.wired && r == Done ==>
                (NoneStale(net, keys, write) <==> AllCaughtUp(site, old(net), keys, sky, write))
    {
      var announced := InvalidateKeys(keys, cause, sky, write);
      var recorded := RecordAudit(action, sky.audits);
      if !recorded {
        return AuditFailed;
      }
      return if announced then Done else AnnounceFailed;
    }

    /**
     * POST /user/update and /team/update. `loads` is false when the subject, its scope or
     * the patch is refused. The last clause is what escapes the protocol: the change is in
     * the store, and neither announced nor audited, exactly when the store committed it
     * and reported an error.
     */
    method SubjectUpdate(loads: bool, list: Lister, limit: nat, wasBlocked: bool, nowBlocked: bool,
                         w: Write, action: string, sky: Weather) returns (r: Reply)
      requires Valid() && limit > 0
      modifies this
      ensures Valid()
      ensures r == Refused <==> !loads || Owned(site.wired, list, limit).Err?
      ensures r == WriteFailed <==> loads && Owned(site.wired, list, limit).Ok? && !w.Committed?
      ensures r == Refused || r == WriteFailed ==> deeds == old(deeds) && net == old(net)
      ensures stamp == old(stamp) + if r == Refused then 0 else Writes(w)
      ensures r !in {Refused, WriteFailed} ==>
        var keys := Owned(site.wired, list, limit).value;
        var cause := if nowBlocked && !wasBlocked then Revoked else Updated;
        && deeds == old(deeds) + Attempts(site.wired, keys, cause, sky.publishes) + [Audit(action, sky.audits)]
        && (r == Done <==> sky.audits && AllTold(site.wired, keys, sky.publishes))
        && net == Afterwards(site, old(net), keys, sky)
        && (r == Done && site.wired ==>
              (NoneStale(net, keys, stamp) <==> AllCaughtUp(site, old(net), keys, sky, stamp)))
      ensures stamp != old(stamp) && deeds == old(deeds) <==> loads && Owned(site.wired, list, limit).Ok? && w.Unsure?
    {
      if !loads {
        return Refused;
      }
      var owned, _ := OwnedKeys(site.wired, list, limit);
      if owned.Err? {
        return Refused;
      }
      var cause := if nowBlocked && !wasBlocked then Revoked else Updated;
      var ok := Commit(w);
      if !ok {
        return WriteFailed;
      }
      r := AppliedTo(owned.value, cause, action, sky, stamp);
    }

    /** POST /user/delete and /team/delete: every named subject is enumerated first. */
    method SubjectDelete(ids: seq<string>, look: nat -> Lookup, lists: nat -> Lister, limit: nat,
                         w: Write, action: string, sky: Weather) returns (r: Reply)
      requires Valid() && limit > 0
      modifies this
      ensures Valid()
      ensures var all := OwnedAll(site.wired, |ids|, look, lists, limit);
              && (r == Refused <==> ids == [] || all.Err?)
              && (r == WriteFailed <==> ids != [] && all.Ok? && !w.Committed?)
              && (r !in {Refused, WriteFailed} ==>
                   && deeds == old(deeds) + Attempts(site.wired, all.value, Revoked, sky.publishes)
                               + [Audit(action, sky.audits)]
                   && (r == Done <==> sky.audits && AllTold(site.wired, all.value, sky.publishes))
                   && net == Afterwards(site, old(net), all.value, sky)
                   && (r == Done && site.wired ==>
                         (NoneStale(net, all.value, stamp) <==> AllCaughtUp(site, old(net), all.value, sky, stamp))))
              && (stamp != old(stamp) && deeds == old(deeds) <==> ids != [] && all.Ok? && w.Unsure?)
              && (r !in {Refused, WriteFailed} ==>
                    forall i: nat, k: KeyId | i < |ids| && look(i) == Present && Owns(lists(i), limit, k)
                                              && k != "" && site.wired ::
                      ToldOf(deeds[|old(deeds)|..], k, Revoked))
      ensures r == Refused <==> ids == [] || Stopped(site.wired, |ids|, look, lists, limit)
      ensures r == Refused || r == WriteFailed ==> deeds == old(deeds) && net == old(net)
      ensures stamp == old(stamp) + if r == Refused then 0 else Writes(w)
    {
      OwnedAllExactly(site.wired, |ids|, look, lists, limit);
      if ids == [] {
        return Refused;
      }
      var owned: seq<KeyId> := [];
      for i := 0 to |ids|
        invariant OwnedAll(site.wired, i, look, lists, limit) == Ok(owned)
        invariant unchanged(this)
      {
        match look(i) {
          case Failing =>
            AllFails(site.wired, i + 1, |ids|, look, lists, limit);
            return Refused;
          case Absent =>
          case Present =>
            var keys, _ := OwnedKeys(site.wired, lists(i), limit);
            if keys.Err? {
              AllFails(site.wired, i + 1, |ids|, look, lists, limit);
              return Refused;
            }
            owned := owned + keys.value;
        }
      }
      var ok := Commit(w);
      if !ok {
        return WriteFailed;
      }
      UnwiredOwnsNone(|ids|, look, lists, limit);
      r := AppliedTo(owned, Revoked, action, sky, stamp);
      if site.wired {
        AllToldOf(old(deeds), owned, Revoked, sky.publishes, Audit(action, sky.audits));
      }
    }

    /**
     * POST /key/update, /key/block and /key/unblock (one key), and /key/delete (each id
     * once): the keys are known before the write, so there is nothing to enumerate.
     */
    method KeysWrite(loads: bool, keys: seq<KeyId>, cause: Cause, w: Write, action: string, sky: Weather)
      returns (r: Reply)
      requires Valid()
      modifies this
      ensures Valid()
      ensures r == Refused <==> !loads
      ensures r == WriteFailed <==> loads && !w.Committed?
      ensures r == Refused || r == WriteFailed ==> deeds == old(deeds) && net == old(net)
      ensures stamp == old(stamp) + if r == Refused then 0 else Writes(w)
      ensures r !in {Refused, WriteFailed} ==>
        && deeds == old(deeds) + Attempts(site.wired, keys, cause, sky.publishes) + [Audit(action, sky.audits)]
        && (r == Done <==> sky.audits && AllTold(site.wired, keys, sky.publishes))
        && net == Afterwards(site, old(net), keys, sky)
        && (r == Done && site.wired ==>
              (NoneStale(net, keys, stamp) <==> AllCaughtUp(site, old(net), keys, sky, stamp)))
      ensures stamp != old(stamp) && deeds == old(deeds) <==> loads && w.Unsure?
    {
      if !loads {
        return Refused;
      }
      var ok := Commit(w);
      if !ok {
        return WriteFailed;
      }
      r := AppliedTo(keys, cause, action, sky, stamp);
    }

    /**
     * POST /key/regenerate. The new secret is written first; reading the rest of the
     * request and writing it can still fail, and then the old secret is gone from the
     * store with nothing announced and nothing on the trail.
     */
    method KeyRegenerate(loads: bool, key: KeyId, replace: Write, patchOk: bool, same: bool, patch: Write, sky: Weather)
      returns (r: Reply)
      requires Valid()
      modifies this
      ensures Valid()
      ensures r == Refused <==> !loads
      ensures r == WriteFailed <==> loads && !replace.Committed?
      ensures r == Abandoned <==> loads && replace.Committed? && !(patchOk && (same || patch.Committed?))
      ensures r in {Refused, WriteFailed, Abandoned} ==> deeds == old(deeds) && net == old(net)
      ensures stamp == old(stamp)
                       + (if loads then Writes(replace) else 0)
                       + (if loads && replace.Committed? && patchOk && !same then Writes(patch) else 0)
      ensures r !in {Refused, WriteFailed, Abandoned} ==>
        && deeds == old(deeds) + Attempts(site.wired, [key], GraceCut, sky.publishes)
                    + [Audit("key.regenerate", sky.audits)]
        && (r == Done <==> sky.audits && AllTold(site.wired, [key], sky.publishes))
        && net == Afterwards(site, old(net), [key], sky)
        && (r == Done && site.wired ==>
              (NoneStale(net, [key], stamp) <==> AllCaughtUp(site, old(net), [key], sky, stamp)))
      ensures stamp != old(stamp) && deeds == old(deeds) <==>
        loads && (replace.Unsure? || (replace.Committed? && !(patchOk && (same || patch.Committed?))))
    {
      if !loads {
        return Refused;
      }
      var ok := Commit(replace);
      if !ok {
        return WriteFailed;
      }
      if !patchOk {
        return Abandoned;
      }
      if !same {
        var more := Commit(patch);
        if !more {
          return Abandoned;
        }
      }
      r := AppliedTo([key], GraceCut, "key.regenerate", sky, stamp);
    }
  }

  const SITE: Site := Site(0, true, true)

  const CLEAR: Weather := Weather(i => true, i => [], true)

  const NEW: Net := Net(map[], [], map[])

  lemma OneTurn(net: Net, t: Turn)
    ensures TurnedAll(net, [t]) == Turned(net, t)
  {
    assert [t][..0] == [];
  }

  lemma TwoTurns(net: Net, t: Turn, u: Turn)
    ensures TurnedAll(net, [t, u]) == Turned(Turned(net, t), u)
  {
    OneTurn(net, t);
    assert [t, u][..1] == [t];
  }

  /** One published announcement, with the nodes' turns before it and after it. */
  lemma OneKey(site: Site, net: Net, key: KeyId, sky: Weather)
    requires sky.publishes(0)
    ensures Afterwards(site, net, [key], sky) ==
            TurnedAll(Announced(site, TurnedAll(net, sky.turns(0)), key, true), sky.turns(1))
  {
    assert Through(site, net, [key], sky, 0) == net;
  }

  const OLD: Net := Net(map[(1, "k") := 0], [], map[])

  /** Node 1 holds a key from before its block, and has not polled. */
  lemma UnpolledIsStale()
    ensures var after := Afterwards(SITE, OLD, ["k"], CLEAR);
            && after.caches == map[(1, "k") := 0] && !NoneStale(after, ["k"], 1)
            && TurnedAll(after, [Polled(1)]).caches == map[]
  {
    OneKey(SITE, OLD, "k", CLEAR);
    var after := Net(map[(1, "k") := 0], ["k"], map[0 := 1]);
    assert Afterwards(SITE, OLD, ["k"], CLEAR) == after;
    assert Copy(after, 1, "k") == Some(0);
    assert after.messages[0] == "k" && Unread(after, 1, "k");
    OneTurn(after, Polled(1));
  }

  /**
   * With nothing cached during the call at all: the block replies that all is done, and a
   * node that has not polled yet still holds the old copy. Its next poll drops it.
   */
  method StaleUntilPolled() returns (fleet: Fleet, r: Reply)
    ensures fresh(fleet) && fleet.Valid() && fleet.site == SITE && r == Done && fleet.stamp == 1
    ensures fleet.net.caches == map[(1, "k") := 0] && !NoneStale(fleet.net, ["k"], fleet.stamp)
    ensures TurnedAll(fleet.net, [Polled(1)]).caches == map[]
  {
    fleet := new Fleet(SITE);
    fleet.Pass([Filled(1, "k", 0)]);
    OneTurn(NEW, Filled(1, "k", 0));
    assert fleet.net == OLD;
    UnpolledIsStale();
    r := fleet.KeysWrite(true, ["k"], Revoked, Committed, "key.block", CLEAR);
  }

  const RACE: Weather := Weather(i => true, i => if i == 1 then [Polled(1), Filled(1, "k", 0)] else [], true)

  /** Node 1 polls, and then caches what it had read before the update. */
  lemma RacingLoadIsStale()
    ensures var after := Afterwards(SITE, NEW, ["k"], RACE);
            && !NoneStale(after, ["k"], 1) && TurnedAll(after, [Polled(1)]).caches == map[(1, "k") := 0]
  {
    OneKey(SITE, NEW, "k", RACE);
    var told := Net(map[], ["k"], map[0 := 1]);
    assert Announced(SITE, TurnedAll(NEW, []), "k", true) == told;
    TwoTurns(told, Polled(1), Filled(1, "k", 0));
    var after := Net(map[(1, "k") := 0], ["k"], map[0 := 1, 1 := 1]);
    assert Turned(told, Polled(1)) == Net(map[], ["k"], map[0 := 1, 1 := 1]);
    assert Afterwards(SITE, NEW, ["k"], RACE) == after;
    assert Copy(after, 1, "k") == Some(0);
    OneTurn(after, Polled(1));
    assert !Unread(after, 1, "k");
  }

  /**
   * A load that read the key before its update and is cached after the node's poll: no
   * later poll drops it, for the message has been read.
   */
  method StaleAfterPoll() returns (fleet: Fleet, r: Reply)
    ensures fresh(fleet) && fleet.Valid() && fleet.site == SITE && r == Done && fleet.stamp == 1
    ensures !NoneStale(fleet.net, ["k"], fleet.stamp)
    ensures TurnedAll(fleet.net, [Polled(1)]).caches == map[(1, "k") := 0]
  {
    fleet := new Fleet(SITE);
    RacingLoadIsStale();
    r := fleet.KeysWrite(true, ["k"], Updated, Committed, "key.update", RACE);
  }

  /** Announcing one key leaves another node's copy of another key alone, polls or not. */
  lemma UnlistedIsKept()
    ensures var after := Afterwards(SITE, OLD, ["a"], CLEAR);
            TurnedAll(after, [Polled(1)]).caches == map[(1, "k") := 0]
  {
    OneKey(SITE, OLD, "a", CLEAR);
    var after := Net(map[(1, "k") := 0], ["a"], map[0 := 1]);
    assert Afterwards(SITE, OLD, ["a"], CLEAR) == after;
    OneTurn(after, Polled(1));
    assert !Unread(after, 1, "k");
  }

  lemma ListsOne(list: Lister)
    requires list(0, 0) == Some(["a"])
    ensures Owned(true, list, 2) == Ok(["a"])
  {
    assert [] + ["a"] == ["a"];
  }

  /**
   * A key "k" that joins its subject after the subject's keys were listed: the update
   * replies that all is done, nobody announces the key, and no poll drops its old copy.
   */
  method JoinedUnannounced(list: Lister) returns (fleet: Fleet, r: Reply)
    requires list(0, 0) == Some(["a"])
    ensures fresh(fleet) && fleet.Valid() && fleet.site == SITE && r == Done && fleet.stamp == 1
    ensures forall d | d in fleet.deeds && d.Told? :: d.key == "a"
    ensures TurnedAll(fleet.net, [Polled(1)]).caches == map[(1, "k") := 0]
  {
    fleet := new Fleet(SITE);
    fleet.Pass([Filled(1, "k", 0)]);
    OneTurn(NEW, Filled(1, "k", 0));
    assert fleet.net == OLD;
    UnlistedIsKept();
    ListsOne(list);
    EveryKeyAttempted(["a"], Revoked, CLEAR.publishes);
    r := fleet.SubjectUpdate(true, list, 2, false, true, Committed, "user.update", CLEAR);
  }

  /** A change the store took and reported as failed: nobody is told and nothing is audited. */
  method WrittenUnannounced() returns (fleet: Fleet, r: Reply)
    ensures fresh(fleet) && fleet.Valid() && fleet.site == SITE
    ensures r == WriteFailed && fleet.stamp == 1 && fleet.deeds == []
  {
    fleet := new Fleet(SITE);
    r := fleet.KeysWrite(true, ["k"], Revoked, Unsure, "key.block", CLEAR);
  }

  /** Reading one named subject before a bulk delete. */
  datatype Lookup = Present | Absent | Failing

  /** The keys of the first n subjects that exist, or the first failure. */
  function OwnedAll(wired: bool, n: nat, look: nat -> Lookup, lists: nat -> Lister, limit: nat)
    : Result<seq<KeyId>, Refusal>
    requires limit > 0
  {
    if n == 0 then Ok([])
    else
      var before := OwnedAll(wired, n - 1, look, lists, limit);
      if before.Err? then before
      else
        match look(n - 1)
        case Failing => Err(StoreFailed)
        case Absent => before
        case Present =>
          var keys := Owned(wired, lists(n - 1), limit);
          if keys.Err? then keys else Ok(before.value + keys.value)
  }

  lemma {:induction false} AllFails(wired: bool, i: nat, n: nat, look: nat -> Lookup, lists: nat -> Lister, limit: nat)
    requires limit > 0 && i <= n && OwnedAll(wired, i, look, lists, limit).Err?
    ensures OwnedAll(wired, n, look, lists, limit).Err?
  {
    if i < n {
      AllFails(wired, i, n - 1, look, lists, limit);
    }
  }

  /** The key is in the listing a store gives of one subject. */
  predicate Owns(list: Lister, limit: nat, k: KeyId)
    requires limit > 0
  {
    var keys := Owned(true, list, limit);
    keys.Ok? && k in keys.value
  }

  /** Something stops the enumeration of the first n subjects. */
  ghost predicate Stopped(wired: bool, n: nat, look: nat -> Lookup, lists: nat -> Lister, limit: nat)
    requires limit > 0
  {
    exists i: nat :: i < n && Stops(wired, i, look, lists, limit)
  }

  /** A lookup that fails, or a subject that is there and whose keys cannot be enumerated. */
  predicate Stops(wired: bool, i: nat, look: nat -> Lookup, lists: nat -> Lister, limit: nat)
    requires limit > 0
  {
    look(i) == Failing || (look(i) == Present && Owned(wired, lists(i), limit).Err?)
  }

  /** The enumeration fails exactly when something stops it; else it has every key of every subject present. */
  lemma {:induction false} OwnedAllExactly(wired: bool, n: nat, look: nat -> Lookup, lists: nat -> Lister, limit: nat)
    requires limit > 0
    ensures OwnedAll(wired, n, look, lists, limit).Err? <==> Stopped(wired, n, look, lists, limit)
    ensures wired && OwnedAll(wired, n, look, lists, limit).Ok? ==>
              forall i: nat, k: KeyId | i < n && look(i) == Present && Owns(lists(i), limit, k) ::
                k in OwnedAll(wired, n, look, lists, limit).value
  {
    if n > 0 {
      OwnedAllExactly(wired, n - 1, look, lists, limit);
      if Stopped(wired, n - 1, look, lists, limit) {
        var i: nat :| i < n - 1 && Stops(wired, i, look, lists, limit);
        assert i < n && Stops(wired, i, look, lists, limit);
      } else if Stops(wired, n - 1, look, lists, limit) {
        assert Stopped(wired, n, look, lists, limit);
      }
    }
  }

  /** The listings of the subjects present, one after another. */
  function PresentKeys(look: nat -> Lookup, listings: nat -> seq<KeyId>, n: nat): seq<KeyId> {
    if n == 0 then []
    else PresentKeys(look, listings, n - 1) + if look(n - 1) == Present then listings(n - 1) else []
  }

  /** Whatever each subject present owns, the enumeration is exactly that, in order. */
  lemma {:induction false} OwnedAllInOrder(wired: bool, n: nat, look: nat -> Lookup, lists: nat -> Lister, limit: nat,
                                           keysOf: nat -> seq<KeyId>)
    requires limit > 0
    requires forall i: nat | i < n && look(i) == Present :: Owned(wired, lists(i), limit) == Ok(keysOf(i))
    requires forall i: nat | i < n :: look(i) != Failing
    ensures OwnedAll(wired, n, look, lists, limit) == Ok(PresentKeys(look, keysOf, n))
  {
    if n > 0 {
      OwnedAllInOrder(wired, n - 1, look, lists, limit, keysOf);
      var before := PresentKeys(look, keysOf, n - 1);
      assert before + [] == before;
    }
  }

  /**
   * On stable listings: refused exactly when a lookup fails or a subject present has too
   * many keys, and else exactly the listings of the subjects present, in order.
   */
  lemma {:induction false} OwnedAllStable(n: nat, look: nat -> Lookup, lists: nat -> Lister, limit: nat,
                                          listings: nat -> seq<KeyId>)
    requires limit > 0
    requires forall i: nat | i < n && look(i) == Present :: Stable(lists(i), listings(i), limit)
    ensures OwnedAll(true, n, look, lists, limit).Ok? <==>
            forall i: nat | i < n :: look(i) != Failing
                                     && (look(i) == Present ==> |listings(i)| < FullPages(limit, limit))
    ensures OwnedAll(true, n, look, lists, limit).Ok? ==>
              OwnedAll(true, n, look, lists, limit).value == PresentKeys(look, listings, n)
  {
    if n > 0 {
      OwnedAllStable(n - 1, look, lists, limit, listings);
      if look(n - 1) == Present {
        OwnedStable(lists(n - 1), listings(n - 1), limit);
      }
    }
  }

  lemma {:induction false} UnwiredOwnsNone(n: nat, look: nat -> Lookup, lists: nat -> Lister, limit: nat)
    requires limit > 0
    ensures OwnedAll(false, n, look, lists, limit).Ok? ==> OwnedAll(false, n, look, lists, limit).value == []
  {
    if n > 0 {
      UnwiredOwnsNone(n - 1, look, lists, limit);
    }
  }

  // ---- what the record of announcements says ---------------------------------

  /** Every key is attempted, whatever became of the ones before it, and no other. */
  lemma {:induction false} EveryKeyAttempted(keys: seq<KeyId>, cause: Cause, publishes: nat -> bool)
    ensures var all := Attempts(true, keys, cause, publishes);
            && (forall t | t in all :: t.Told? && t.cause == cause && t.key in keys)
            && (forall k | k in keys && k != "" :: exists t :: t in all && t.Told? && t.key == k)
  {
    if keys != [] {
      var n := |keys| - 1;
      var init := keys[..n];
      EveryKeyAttempted(init, cause, publishes);
      assert keys == init + [keys[n]];
      var all := Attempts(true, keys, cause, publishes);
      forall k | k in keys && k != ""
        ensures exists t :: t in all && t.Told? && t.key == k
      {
        if k == keys[n] {
          assert Told(k, cause, publishes(n)) in all;
        } else {
          var t :| t in Attempts(true, init, cause, publishes) && t.Told? && t.key == k;
          assert t in all;
        }
      }
    }
  }

  /** The key is among the announcements attempted, with the cause. */
  predicate ToldOf(deeds: seq<Deed>, k: KeyId, cause: Cause) {
    exists i :: 0 <= i < |deeds| && deeds[i].Told? && deeds[i].key == k && deeds[i].cause == cause
  }

  lemma AllToldOf(before: seq<Deed>, keys: seq<KeyId>, cause: Cause, publishes: nat -> bool, last: Deed)
    ensures var deeds := before + Attempts(true, keys, cause, publishes) + [last];
            forall k | k in keys && k != "" :: ToldOf(deeds[|before|..], k, cause)
  {
    var all := Attempts(true, keys, cause, publishes);
    EveryKeyAttempted(keys, cause, publishes);
    assert (before + all + [last])[|before|..] == all + [last];
    forall k | k in keys && k != ""
      ensures ToldOf(all + [last], k, cause)
    {
      var t :| t in all && t.Told? && t.key == k;
      var i :| 0 <= i < |all| && all[i] == t;
      assert (all + [last])[i] == t;
    }
  }

  /** In order, and all are published exactly when the reply counts them so. */
  lemma {:induction false} AttemptsInOrder(keys: seq<KeyId>, cause: Cause, publishes: nat -> bool)
    requires "" !in keys
    ensures var all := Attempts(true, keys, cause, publishes);
            |all| == |keys| && forall i | 0 <= i < |keys| :: all[i] == Told(keys[i], cause, publishes(i))
  {
    if keys != [] {
      var n := |keys| - 1;
      assert keys[n] in keys;
      AttemptsInOrder(keys[..n], cause, publishes);
    }
  }

  lemma {:induction false} AllPublished(keys: seq<KeyId>, cause: Cause, publishes: nat -> bool)
    ensures AllTold(true, keys, publishes) <==>
            forall t | t in Attempts(true, keys, cause, publishes) && t.Told? :: t.published
  {
    if keys != [] {
      var n := |keys| - 1;
      AllPublished(keys[..n], cause, publishes);
      OneMore(true, keys, n, cause, publishes);
      assert keys[..n + 1] == keys;
      assert keys[n] != "" ==> Told(keys[n], cause, publishes(n)) in Attempts(true, keys, cause, publishes);
    }
  }
}
