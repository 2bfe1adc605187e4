/**
 The gossip that the TTL rules form: a node sends what the next-TTL merge yields from the routing
 information it received, and that information carries lists sent before.
 */
module Gossip {
  import opened Options
  import opened RoutingInfos
  import opened RoutingIter
  import opened GatewayMerge

  datatype Exchange = Exchange(received: Forest, sent: seq<Mention>)

  ghost predicate Produces(e: Exchange) {
    exists list :: IsGatewayList(e.received, list) && e.sent == NextTtl(list)
  }

  /** The received nodes see s themselves: as a gateway, or as a relation of a tracker. */
  ghost predicate Sights(f: Forest, s: SessionId) {
    var nodes := LevelOrder(f);
    match FirstTracker(nodes)
    case Some(tracker) => exists c :: c in Children(tracker) && HasId(c, s)
    case None => LastSighting(nodes, s) == Some(Gateway)
  }

  /** A list mentions s with TTL t. */
  ghost predicate Lists(list: seq<Mention>, s: SessionId, t: int) {
    0 <= t <= U32_MAX && Mention(s, t) in list
  }

  /** Some received node passes on the mention of s with TTL t. */
  ghost predicate Hears(f: Forest, s: SessionId, t: int) {
    exists r :: r in LevelOrder(f) && Lists(r.known, s, t)
  }

  lemma {:induction false} TrackerListMembers(infos: Forest, o: Mention)
    ensures o in TrackerList(infos) <==> o.ttl == INITIAL_TTL && exists c :: c in infos && HasId(c, o.sessionId)
  {
    if infos != [] {
      TrackerListMembers(infos[1..], o);
      assert infos == [infos[0]] + infos[1..];
      if HasId(infos[0], o.sessionId) {
        assert infos[0] in infos;
      }
    }
  }

  /** One exchange: a fresh sighting is sent with TTL 5, and a heard mention loses two. */
  lemma SentEntry(e: Exchange, s: SessionId, t: nat)
    requires Produces(e) && NoZeroMention(LevelOrder(e.received))
    ensures Lists(e.sent, s, t) ==>
              (t == 5 && Sights(e.received, s)) || (t >= 1 && Hears(e.received, s, t + 2))
    ensures Sights(e.received, s) ==> Lists(e.sent, s, 5)
  {
    hide LevelOrder, FirstTracker, LastSighting, NextTtl, TrackerList, MergedTtl, TtlsOf;
    var list :| IsGatewayList(e.received, list) && e.sent == NextTtl(list);
    NextTtlEntries(list);
    var nodes := LevelOrder(e.received);
    var firsthand := Mention(s, INITIAL_TTL);
    if FirstTracker(nodes).Some? {
      var infos := Children(FirstTracker(nodes).value);
      TrackerListMembers(infos, firsthand);
      assert firsthand in list <==> Sights(e.received, s);
      if Lists(e.sent, s, t) {
        TrackerListMembers(infos, Mention(s, t + 1));
      }
    } else {
      assert Sights(e.received, s) ==> firsthand in list;
      if Lists(e.sent, s, t) {
        assert Mention(s, t + 1) in list;
        HeardTtl(nodes, s, t + 1);
      }
    }
  }

  lemma HeardTtl(nodes: Forest, s: SessionId, t: u32)
    requires ExpectedTtl(nodes, s) == Some(t) && NoZeroMention(nodes)
    ensures (LastSighting(nodes, s) == Some(Gateway) && t == INITIAL_TTL)
         || (exists r :: r in nodes && Lists(r.known, s, t + 1))
  {
    if LastSighting(nodes, s).None? {
      var ts := TtlsOf(Mentions(nodes), s);
      MentionedTtls(nodes, s, ts[0]);
      assert ts[0] in ts;
      MentionedTtls(nodes, s, Max(ts));
      var r :| r in nodes && Mention(s, Max(ts)) in r.known;
      assert Lists(r.known, s, t + 1);
    }
  }

  // ----- any interleaving of exchanges -----

  /** The list a received node carries is empty or was sent in an earlier exchange. */
  ghost predicate CarriesEarlier(run: seq<Exchange>, i: nat, r: RoutingInfo)
    requires i <= |run|
  {
    r.known == [] || exists j :: 0 <= j < i && r.known == run[j].sent
  }

  ghost predicate IsRun(run: seq<Exchange>) {
    forall i :: 0 <= i < |run| ==>
      Produces(run[i]) && forall r :: r in LevelOrder(run[i].received) ==> CarriesEarlier(run, i, r)
  }

  ghost predicate OddTtls(list: seq<Mention>) {
    forall o :: o in list ==> o.ttl == 1 || o.ttl == 3 || o.ttl == 5
  }

  /** An exchange that hears only odd TTLs up to 5 sends only such. */
  lemma OddFromOdd(e: Exchange)
    requires Produces(e)
    requires forall r :: r in LevelOrder(e.received) ==> OddTtls(r.known)
    ensures OddTtls(e.sent) && NoZeroMention(LevelOrder(e.received))
  {
    hide LevelOrder, Sights, IsGatewayList;
    forall o | o in e.sent ensures o.ttl == 1 || o.ttl == 3 || o.ttl == 5 {
      assert Lists(e.sent, o.sessionId, o.ttl);
      SentEntry(e, o.sessionId, o.ttl);
      if !(o.ttl == 5 && Sights(e.received, o.sessionId)) {
        var r :| r in LevelOrder(e.received) && Lists(r.known, o.sessionId, o.ttl + 2);
      }
    }
  }

  /** Every TTL ever sent is 1, 3 or 5, so no exchange decrements a zero. */
  lemma {:induction false} SentTtls(run: seq<Exchange>, i: nat)
    requires IsRun(run) && i < |run|
    ensures OddTtls(run[i].sent)
    ensures NoZeroMention(LevelOrder(run[i].received))
    decreases i
  {
    hide LevelOrder, Sights, IsGatewayList;
    forall r | r in LevelOrder(run[i].received) ensures OddTtls(r.known) {
      assert CarriesEarlier(run, i, r);
      if r.known != [] {
        var j :| 0 <= j < i && r.known == run[j].sent;
        SentTtls(run, j);
      }
    }
    OddFromOdd(run[i]);
  }

  /** Exchange i received the list sent in exchange j. */
  ghost predicate HandedOn(run: seq<Exchange>, j: nat, i: nat)
    requires i < |run|
  {
    j < i && exists r :: r in LevelOrder(run[i].received) && r.known == run[j].sent
  }

  /** Exchange i got s over `hops` earlier exchanges, each two TTLs above the next, from a sighting. */
  ghost predicate TracesBack(run: seq<Exchange>, i: nat, s: SessionId, hops: nat)
    requires i < |run|
    decreases hops
  {
    if hops == 0 then Sights(run[i].received, s)
    else
      exists j: nat ::
        && HandedOn(run, j, i)
        && Lists(run[j].sent, s, 5 - 2 * (hops - 1))
        && TracesBack(run, j, s, hops - 1)
  }

  lemma HopBack(run: seq<Exchange>, j: nat, i: nat, s: SessionId, t: nat)
    requires i < |run| && HandedOn(run, j, i) && Lists(run[j].sent, s, t + 2)
    requires t == 1 || t == 3
    requires TracesBack(run, j, s, (5 - (t + 2)) / 2)
    ensures TracesBack(run, i, s, (5 - t) / 2)
  {
    var hops := (5 - t) / 2;
    assert (5 - (t + 2)) / 2 == hops - 1;
    assert 5 - 2 * (hops - 1) == t + 2;
  }

  /** An entry that is no fresh sighting was in a list handed on, with a TTL two higher. */
  lemma EarlierEntry(run: seq<Exchange>, i: nat, s: SessionId, t: nat) returns (j: nat)
    requires IsRun(run) && i < |run|
    requires Lists(run[i].sent, s, t) && !(t == 5 && Sights(run[i].received, s))
    ensures j < i && HandedOn(run, j, i) && Lists(run[j].sent, s, t + 2)
  {
    hide LevelOrder, Sights, IsGatewayList;
    SentTtls(run, i);
    SentEntry(run[i], s, t);
    var r :| r in LevelOrder(run[i].received) && Lists(r.known, s, t + 2);
    assert CarriesEarlier(run, i, r);
    var k :| 0 <= k < i && r.known == run[k].sent;
    j := k;
  }

  /** An entry with TTL t goes back through (5 - t) / 2 exchanges to a sighting. */
  lemma {:induction false} EntryProvenance(run: seq<Exchange>, i: nat, s: SessionId, t: nat)
    requires IsRun(run) && i < |run|
    requires Lists(run[i].sent, s, t)
    ensures t == 1 || t == 3 || t == 5
    ensures TracesBack(run, i, s, (5 - t) / 2)
    decreases i
  {
    if t == 5 && Sights(run[i].received, s) {
      return;
    }
    var j := EarlierEntry(run, i, s, t);
    EntryProvenance(run, j, s, t + 2);
    assert t == 1 || t == 3 by {
      SentTtls(run, i);
      assert Mention(s, t) in run[i].sent;
    }
    HopBack(run, j, i, s, t);
  }

  /** The fresh entries are exactly the sightings. */
  lemma FreshEntriesAreSightings(run: seq<Exchange>, i: nat, s: SessionId)
    requires IsRun(run) && i < |run|
    ensures Lists(run[i].sent, s, 5) <==> Sights(run[i].received, s)
  {
    SentTtls(run, i);
    SentEntry(run[i], s, 5);
    if Lists(run[i].sent, s, 5) {
      EntryProvenance(run, i, s, 5);
    }
  }

  // ----- synchronous rounds -----

  ghost predicate SentIn(round: seq<Exchange>, list: seq<Mention>) {
    exists q :: 0 <= q < |round| && list == round[q].sent
  }

  /** In each round every node sends once, hearing only lists of the round before. */
  ghost predicate CarriesLastRound(rounds: seq<seq<Exchange>>, k: nat, r: RoutingInfo)
    requires k < |rounds|
  {
    r.known == [] || (k > 0 && SentIn(rounds[k - 1], r.known))
  }

  ghost predicate IsSyncRun(rounds: seq<seq<Exchange>>) {
    forall k, p :: 0 <= k < |rounds| && 0 <= p < |rounds[k]| ==>
      && Produces(rounds[k][p])
      && forall r :: r in LevelOrder(rounds[k][p].received) ==> CarriesLastRound(rounds, k, r)
  }

  ghost predicate UnsightedIn(round: seq<Exchange>, s: SessionId) {
    forall p :: 0 <= p < |round| ==> !Sights(round[p].received, s)
  }

  lemma {:induction false} SyncTtls(rounds: seq<seq<Exchange>>, k: nat, p: nat)
    requires IsSyncRun(rounds) && k < |rounds| && p < |rounds[k]|
    ensures OddTtls(rounds[k][p].sent)
    ensures NoZeroMention(LevelOrder(rounds[k][p].received))
    decreases k
  {
    hide LevelOrder, Sights, IsGatewayList;
    var e := rounds[k][p];
    forall r | r in LevelOrder(e.received) ensures OddTtls(r.known) {
      assert CarriesLastRound(rounds, k, r);
      if r.known != [] {
        var q :| 0 <= q < |rounds[k - 1]| && r.known == rounds[k - 1][q].sent;
        SyncTtls(rounds, k - 1, q);
      }
    }
    assert Produces(e);
    OddFromOdd(e);
  }

  /** After m rounds without a sighting, mentions of s are down to TTL 5 - 2m. */
  lemma {:induction false} MentionsFade(rounds: seq<seq<Exchange>>, k: nat, m: nat, p: nat, s: SessionId, t: nat)
    requires IsSyncRun(rounds) && k < |rounds| && p < |rounds[k]| && m <= k + 1
    requires forall n :: k - m < n <= k ==> UnsightedIn(rounds[n], s)
    requires Lists(rounds[k][p].sent, s, t)
    ensures t <= 5 - 2 * m
    decreases m
  {
    hide LevelOrder, Sights, IsGatewayList;
    SyncTtls(rounds, k, p);
    assert Mention(s, t) in rounds[k][p].sent;
    if m > 0 {
      var e := rounds[k][p];
      assert UnsightedIn(rounds[k], s);
      SentEntry(e, s, t);
      var r :| r in LevelOrder(e.received) && Lists(r.known, s, t + 2);
      assert CarriesLastRound(rounds, k, r);
      var q :| 0 <= q < |rounds[k - 1]| && r.known == rounds[k - 1][q].sent;
      MentionsFade(rounds, k - 1, m - 1, q, s, t + 2);
    }
  }

  /** A gateway that nobody sights for three rounds is in no list from the third round on. */
  lemma ForgottenInThreeRounds(rounds: seq<seq<Exchange>>, k: nat, s: SessionId)
    requires IsSyncRun(rounds) && 2 <= k < |rounds|
    requires forall n :: k - 3 < n <= k ==> UnsightedIn(rounds[n], s)
    ensures forall p, o :: 0 <= p < |rounds[k]| && o in rounds[k][p].sent ==> o.sessionId != s
  {
    forall p, o | 0 <= p < |rounds[k]| && o in rounds[k][p].sent ensures o.sessionId != s {
      SyncTtls(rounds, k, p);
      if o.sessionId == s {
        assert Lists(rounds[k][p].sent, s, o.ttl);
        MentionsFade(rounds, k, 3, p, s, o.ttl);
      }
    }
  }
}
