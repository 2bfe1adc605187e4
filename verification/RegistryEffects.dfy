/**
 What the atomic operations do to each entry, field by field, and what the caches show over runs: the last
 reports of the registered clients.
 */
module RegistryEffects {
  import opened Options
  import opened RoutingInfos
  import opened Sequences
  import opened RegistrySpec

  /** Dropping s from a client list drops nothing else and keeps the order. */
  lemma {:induction false} WithoutSnoc(clients: seq<SessionId>, x: SessionId, s: SessionId)
    ensures Without([], s) == []
    ensures Without(clients + [x], s) == Without(clients, s) + if x == s then [] else [x]
  {
    if clients == [] {
      Empty(clients, [x]);
      assert [x][1..] == [];
    } else {
      WithoutSnoc(clients[1..], x, s);
      Uncons(clients, [x]);
      hide Without;
      Associate(if clients[0] == s then [] else [clients[0]], Without(clients[1..], s), if x == s then [] else [x]);
    }
  }

  /** Dropping the entries of s from a cache drops nothing else and keeps the order. */
  lemma {:induction false} WithoutInfosSnoc(infos: Forest, x: RoutingInfo, s: SessionId)
    ensures WithoutInfos([], s) == []
    ensures WithoutInfos(infos + [x], s) == WithoutInfos(infos, s) + if x.sessionId == Some(s) then [] else [x]
  {
    if infos == [] {
      Empty(infos, [x]);
      assert [x][1..] == [];
    } else {
      WithoutInfosSnoc(infos[1..], x, s);
      Uncons(infos, [x]);
      hide WithoutInfos;
      Associate(if infos[0].sessionId == Some(s) then [] else [infos[0]], WithoutInfos(infos[1..], s),
                if x.sessionId == Some(s) then [] else [x]);
    }
  }

  /** An addition appends the client to its URL's list and leaves the cache, its age and all other URLs alone. */
  lemma AddEffect(cfg: Config, r: Registry, s: SessionId, u: Url, v: Url)
    requires s !in r.conn && s !in r.reports && Available(cfg, r, u)
    ensures var r' := Add(cfg, r, s, u).0;
            && r'.reports == r.reports && u in r'.urls
            && (v != u ==> (v in r'.urls <==> v in r.urls) && (v in r.urls ==> r'.urls[v] == r.urls[v]))
            && r'.urls[u]
            == (if u in r.urls
                then UrlEntry(r.urls[u].clients + [s], r.urls[u].count + 1, r.urls[u].updated, r.urls[u].cache)
                else UrlEntry([s], 1, 0, RoutingInfo(Tracker, None, Infos([]), [], NO_PAYLOAD)))
  {
    AddCases(cfg, r, s, u);
  }

  /** A removal takes the session's own entries out of the cache of its URL and leaves everything else in it, in order
      (WithoutInfosSnoc), and the age of the cache and the other clients' reports alone. */
  lemma RemoveEffect(r: Registry, s: SessionId, ri: RoutingInfo)
    requires Inv(r) && CacheInv(r) && s in r.conn && r.urls[r.conn[s]].count > 1
    ensures r.conn[s] in r.urls && r.conn[s] in Remove(r, s).urls
    ensures var e, e' := r.urls[r.conn[s]], Remove(r, s).urls[r.conn[s]];
            && e'.updated == e.updated && e'.count == e.count - 1 && e'.clients == Without(e.clients, s)
            && e.cache.relation.Infos?
            && e'.cache == e.cache.(relation := Infos(WithoutInfos(e.cache.relation.infos, s)))
            && (ri in e'.cache.relation.infos <==> ri in e.cache.relation.infos && ri.sessionId != Some(s))
    ensures forall x :: x in Remove(r, s).reports <==> x in r.reports && x != s
    ensures forall x :: x in Remove(r, s).reports ==> Remove(r, s).reports[x] == r.reports[x]
  {
    RemoveCases(r, s);
    assert CacheOk(r.urls[r.conn[s]]);
    WithoutInfosMembers(r.urls[r.conn[s]].cache.relation.infos, s);
  }

  /** A report as it is kept: the sender's own description with the 32-bit number of its relations. */
  function Kept(ri: RoutingInfo): RoutingInfo {
    var count: u32 := match ri.relation
      case Infos(infos) => |infos| % 0x1_0000_0000
      case Count(v) => v
      case NoRelation => 0;
    RoutingInfo(ri.nodeType, ri.sessionId, Count(count), [], ri.payload)
  }

  lemma FlattenKeeps(ri: RoutingInfo)
    ensures Flatten(ri) == Kept(ri)
    ensures Kept(ri).nodeType == ri.nodeType && Kept(ri).sessionId == ri.sessionId && Kept(ri).payload == ri.payload
    ensures ri.relation.Infos? ==> Flatten(ri).relation == Count(|ri.relation.infos| % 0x1_0000_0000)
    ensures ri.relation.Count? ==> Flatten(ri).relation == ri.relation
    ensures ri.relation.NoRelation? ==> Flatten(ri).relation == Count(0)
  {
  }

  function First1000(clients: seq<SessionId>): seq<SessionId> {
    if |clients| <= 1000 then clients else clients[..1000]
  }

  /** An exchange five seconds or more after the last refresh puts the reports of the first 1000 clients in the
      cache; an earlier one leaves the entry as it is. No other entry changes. */
  lemma ExchangeEffect(r: Registry, s: SessionId, u: Url, ri: RoutingInfo, now: int, v: Url)
    requires u in r.urls
    ensures var e, r' := r.urls[u], Exchange(r, s, u, ri, now);
            && r'.reports == r.reports[s := Kept(ri)] && r'.conn == r.conn && r'.total == r.total
            && r'.urls.Keys == r.urls.Keys && (v in r.urls && v != u ==> r'.urls[v] == r.urls[v])
            && (now - e.updated < 5 ==> r'.urls[u] == e)
            && (now - e.updated >= 5 ==>
                  r'.urls[u] == UrlEntry(e.clients, e.count, now,
                                         RoutingInfo(Tracker, None, Infos(Reports(First1000(e.clients), r'.reports)),
                                                     [], NO_PAYLOAD)))
  {
    FlattenKeeps(ri);
  }

  // ----- the last reports, over runs -----

  type ReportMap = map<SessionId, RoutingInfo>

  /** The report each registered session has sent last since it joined. */
  function LastReports(cfg: Config, m: map<SessionId, Url>, last: ReportMap, ops: seq<Op>): ReportMap
    decreases |ops|
  {
    if ops == [] then last
    else LastReports(cfg, AbstractApply(cfg, m, ops[0]), LastAfter(cfg, m, last, ops[0]), ops[1..])
  }

  function LastAfter(cfg: Config, m: map<SessionId, Url>, last: ReportMap, op: Op): ReportMap {
    match op
    case Join(_, _) => last
    case Leave(s) => last - {s}
    case Reenter(s, u) => if Admits(cfg, m, u) then last - {s} else last
    case Report(s, ri, _) => last[s := ri]
  }

  function KeptAll(last: ReportMap): ReportMap {
    map s | s in last :: Kept(last[s])
  }

  lemma KeptAllDrop(last: ReportMap, s: SessionId)
    ensures KeptAll(last - {s}) == KeptAll(last) - {s}
  {
  }

  lemma KeptAllPut(last: ReportMap, s: SessionId, ri: RoutingInfo)
    ensures KeptAll(last[s := ri]) == KeptAll(last)[s := Kept(ri)]
  {
  }

  lemma JoinReports(cfg: Config, r: Registry, s: SessionId, u: Url)
    requires Inv(r) && s !in r.conn
    ensures Add(cfg, r, s, u).0.reports == r.reports
  {
    AddCases(cfg, r, s, u);
  }

  lemma ReportReports(cfg: Config, r: Registry, s: SessionId, ri: RoutingInfo, now: int)
    requires Inv(r) && s in r.conn
    ensures Apply(cfg, r, Report(s, ri, now)).reports == r.reports[s := Kept(ri)]
  {
    FlattenKeeps(ri);
    hide Flatten, Kept, RefreshEntry;
  }

  lemma ApplyReports(cfg: Config, r: Registry, op: Op, last: ReportMap)
    requires Inv(r) && Legal(r.conn, op) && r.reports == KeptAll(last)
    ensures Apply(cfg, r, op).reports == KeptAll(LastAfter(cfg, r.conn, last, op))
  {
    hide KeptAll, Kept, Inv, Add, Enter, Remove, Exchange, Admits;
    match op
    case Join(s, u) => JoinReports(cfg, r, s, u);
    case Leave(s) =>
      LeaveReports(r, s);
      KeptAllDrop(last, s);
    case Reenter(s, u) =>
      EnterReports(cfg, r, s, u);
      KeptAllDrop(last, s);
    case Report(s, ri, now) =>
      ReportReports(cfg, r, s, ri, now);
      KeptAllPut(last, s, ri);
  }

  lemma LeaveReports(r: Registry, s: SessionId)
    requires Inv(r)
    ensures Remove(r, s).reports == r.reports - {s}
  {
    assert s !in r.conn ==> r.reports - {s} == r.reports;
  }

  lemma EnterReports(cfg: Config, r: Registry, s: SessionId, u: Url)
    requires Inv(r)
    ensures Enter(cfg, r, s, u).0.reports == if Admits(cfg, r.conn, u) then r.reports - {s} else r.reports
  {
    AvailableIsAdmits(cfg, r, u);
    EnterCases(cfg, r, s, u);
    if Available(cfg, r, u) {
      LeaveReports(r, s);
      AddCases(cfg, Remove(r, s), s, u);
    }
  }

  lemma {:induction false} ReportsFrom(cfg: Config, r: Registry, ops: seq<Op>, last: ReportMap)
    requires Inv(r) && CapsHold(cfg, r) && LegalRun(cfg, r.conn, ops) && r.reports == KeptAll(last)
    ensures Run(cfg, r, ops).reports == KeptAll(LastReports(cfg, r.conn, last, ops))
    decreases |ops|
  {
    if ops != [] {
      ApplyRefines(cfg, r, ops[0]);
      ApplyReports(cfg, r, ops[0], last);
      hide Inv, CapsHold, Apply, KeptAll, LastAfter;
      ReportsFrom(cfg, Apply(cfg, r, ops[0]), ops[1..], LastAfter(cfg, r.conn, last, ops[0]));
    }
  }

  /** What the registered clients' data holds after a run: for each the report it has sent last, as it is kept. */
  lemma ReportsAreLast(cfg: Config, ops: seq<Op>)
    requires LegalRun(cfg, map[], ops)
    ensures Run(cfg, EMPTY, ops).reports == KeptAll(LastReports(cfg, map[], map[], ops))
  {
    assert KeptAll(map[]) == map[];
    ReportsFrom(cfg, EMPTY, ops, map[]);
  }

  /** The last reports of these clients, in their order, without those who have sent none. */
  function LastOf(clients: seq<SessionId>, last: ReportMap): Forest {
    if clients == [] then []
    else (if clients[0] in last then [Kept(last[clients[0]])] else []) + LastOf(clients[1..], last)
  }

  lemma {:induction false} LastOfSnoc(clients: seq<SessionId>, s: SessionId, last: ReportMap)
    ensures LastOf(clients + [s], last) == LastOf(clients, last) + if s in last then [Kept(last[s])] else []
  {
    if clients == [] {
      Empty(clients, [s]);
      assert [s][1..] == [];
    } else {
      LastOfSnoc(clients[1..], s, last);
      Uncons(clients, [s]);
      hide LastOf, Kept;
      Associate(if clients[0] in last then [Kept(last[clients[0]])] else [], LastOf(clients[1..], last),
                if s in last then [Kept(last[s])] else []);
    }
  }

  lemma {:induction false} ReportsLastOf(clients: seq<SessionId>, last: ReportMap)
    ensures Reports(clients, KeptAll(last)) == LastOf(clients, last)
  {
    if clients != [] {
      var init, s := clients[..|clients| - 1], clients[|clients| - 1];
      ReportsLastOf(init, last);
      LastOfSnoc(init, s, last);
      assert clients == init + [s];
    }
  }

  lemma DueExchange(r: Registry, s: SessionId, u: Url, ri: RoutingInfo, now: int, last: ReportMap)
    requires u in r.urls && r.reports == KeptAll(last) && now - r.urls[u].updated >= 5
    ensures Exchange(r, s, u, ri, now).urls[u].cache.relation == Infos(LastOf(First1000(r.urls[u].clients), last[s := ri]))
  {
    ExchangeEffect(r, s, u, ri, now, u);
    KeptAllPut(last, s, ri);
    ReportsLastOf(First1000(r.urls[u].clients), last[s := ri]);
    hide Exchange, KeptAll, LastOf, Reports;
  }

  /** On all runs, a due exchange leaves in the cache of its URL exactly the last reports of the first 1000 clients. */
  lemma DueExchangeShowsLast(cfg: Config, ops: seq<Op>, s: SessionId, ri: RoutingInfo, now: int)
    requires LegalRun(cfg, map[], ops) && s in Run(cfg, EMPTY, ops).conn
    ensures Run(cfg, EMPTY, ops).conn[s] in Run(cfg, EMPTY, ops).urls
    ensures var r := Run(cfg, EMPTY, ops);
            var u := r.conn[s];
            var shown := LastOf(First1000(r.urls[u].clients), LastReports(cfg, map[], map[], ops)[s := ri]);
            now - r.urls[u].updated >= 5 ==> Exchange(r, s, u, ri, now).urls[u].cache.relation == Infos(shown)
  {
    RunRefines(cfg, ops);
    ReportsAreLast(cfg, ops);
    var r := Run(cfg, EMPTY, ops);
    hide Run, LastReports, Exchange, KeptAll, LastOf, First1000, EntryOk, LegalRun, AbstractRun;
    var u := r.conn[s];
    if now - r.urls[u].updated >= 5 {
      DueExchange(r, s, u, ri, now, LastReports(cfg, map[], map[], ops));
    }
  }
}
