/**
 The connection registry with atomic operations, as functions on its five kept facts: the global
 counter, the session map, the URL map, and per URL a counter and a client list with a tracker cache.
 The classes in RegistryState compute these functions; here they are related to a plain map of sessions.
 */
module RegistrySpec {
  import opened Options
  import opened RoutingInfos

  type Url = string
  type u64 = n: nat | n <= 0xFFFF_FFFF_FFFF_FFFF

  const USIZE_MAX: u64 := 0xFFFF_FFFF_FFFF_FFFF
  const ROUTING_INFO_UPDATE_INTERVAL_SECONDS := 5
  const ROUTING_INFO_MAX := 1000

  datatype Config = Config(maxConnections: Option<u64>, maxByUrl: Option<u64>)

  datatype UrlEntry = UrlEntry(clients: seq<SessionId>, count: u64, updated: int, cache: RoutingInfo)

  /** `reports` holds the routing information kept in each registered client's data. */
  datatype Registry = Registry(
    total: u64,
    conn: map<SessionId, Url>,
    urls: map<Url, UrlEntry>,
    reports: map<SessionId, RoutingInfo>)

  const EMPTY := Registry(0, map[], map[], map[])

  function Cap(max: Option<u64>): u64 {
    if max.Some? then max.value else USIZE_MAX
  }

  /** `fetch_sub(1)` on an unsigned 64-bit counter, which wraps at zero. */
  function FetchSub(n: u64): u64 {
    if n == 0 then USIZE_MAX else n - 1
  }

  function TrackerInfo(infos: Forest): RoutingInfo {
    RoutingInfo(Tracker, None, Infos(infos), [], NO_PAYLOAD)
  }

  function NewEntry(s: SessionId): UrlEntry {
    UrlEntry([s], 1, 0, TrackerInfo([]))
  }

  function Without(clients: seq<SessionId>, s: SessionId): seq<SessionId> {
    if clients == [] then []
    else (if clients[0] == s then [] else [clients[0]]) + Without(clients[1..], s)
  }

  function WithoutInfos(infos: Forest, s: SessionId): Forest {
    if infos == [] then []
    else (if HasId(infos[0], s) then [] else [infos[0]]) + WithoutInfos(infos[1..], s)
  }

  function ForgetInCache(cache: RoutingInfo, s: SessionId): RoutingInfo {
    if cache.relation.Infos? then cache.(relation := Infos(WithoutInfos(cache.relation.infos, s))) else cache
  }

  // ----- the operations -----

  function AddToEntry(cap: u64, e: UrlEntry, s: SessionId): (UrlEntry, bool) {
    if cap <= e.count then (e, false)
    else (e.(count := e.count + 1, clients := e.clients + [s]), true)
  }

  function RemoveFromEntry(e: UrlEntry, s: SessionId): UrlEntry {
    e.(count := FetchSub(e.count), clients := Without(e.clients, s), cache := ForgetInCache(e.cache, s))
  }

  function Available(cfg: Config, r: Registry, u: Url): bool {
    && r.total < Cap(cfg.maxConnections)
    && (u in r.urls ==> r.urls[u].count < Cap(cfg.maxByUrl))
  }

  /** The URL map after counting s in u, or after refusing to. */
  function CountIn(cap: u64, urls: map<Url, UrlEntry>, s: SessionId, u: Url): (map<Url, UrlEntry>, bool) {
    if u in urls then
      var (e, ok) := AddToEntry(cap, urls[u], s);
      (urls[u := e], ok)
    else (urls[u := NewEntry(s)], true)
  }

  /** The URL map after s has left u; an emptied entry is dropped. */
  function UncountIn(urls: map<Url, UrlEntry>, s: SessionId, u: Url): map<Url, UrlEntry> {
    if u !in urls then urls
    else
      var e := RemoveFromEntry(urls[u], s);
      if e.count == 0 then urls - {u} else urls[u := e]
  }

  /** `add_connection`: take a global slot, publish the session, count it in its URL or roll back. */
  function Add(cfg: Config, r: Registry, s: SessionId, u: Url): (Registry, bool) {
    if Cap(cfg.maxConnections) <= r.total then (r, false)
    else
      var conn, reports := r.conn[s := u], r.reports - {s};
      var (urls, ok) := CountIn(Cap(cfg.maxByUrl), r.urls, s, u);
      if ok then (Registry(r.total + 1, conn, urls, reports), true)
      else (Registry(FetchSub(r.total + 1), conn - {s}, urls, reports), false)
  }

  /** `remove_connection`. */
  function Remove(r: Registry, s: SessionId): Registry {
    if s !in r.conn then r
    else Registry(FetchSub(r.total), r.conn - {s}, UncountIn(r.urls, s, r.conn[s]), r.reports - {s})
  }

  /** The registry part of `enter`: precheck, then remove the old connection, then add the new one. */
  function Enter(cfg: Config, r: Registry, s: SessionId, u: Url): (Registry, bool) {
    if Available(cfg, r, u) then Add(cfg, Remove(r, s), s, u) else (r, false)
  }

  /** `set_routing_info` keeps only the number of relations, and no known gateways. */
  function Flatten(ri: RoutingInfo): RoutingInfo {
    ri.(relation := Count(Truncate(RelationCount(ri))), known := [])
  }

  function Reports(clients: seq<SessionId>, reports: map<SessionId, RoutingInfo>): Forest {
    if clients == [] then []
    else
      Reports(clients[..|clients| - 1], reports)
      + var s := clients[|clients| - 1]; if s in reports then [reports[s]] else []
  }

  function FirstClients(clients: seq<SessionId>): seq<SessionId> {
    if |clients| <= ROUTING_INFO_MAX then clients else clients[..ROUTING_INFO_MAX]
  }

  function RefreshEntry(e: UrlEntry, reports: map<SessionId, RoutingInfo>, now: int): UrlEntry {
    if now - e.updated < ROUTING_INFO_UPDATE_INTERVAL_SECONDS then e
    else e.(updated := now, cache := TrackerInfo(Reports(FirstClients(e.clients), reports)))
  }

  /** A refresh of the tracker cache of u. */
  function Refresh(r: Registry, u: Url, now: int): Registry
    requires u in r.urls
  {
    r.(urls := r.urls[u := RefreshEntry(r.urls[u], r.reports, now)])
  }

  /** The state change of `exchange_routeing_info` for a client registered under u. */
  function Exchange(r: Registry, s: SessionId, u: Url, ri: RoutingInfo, now: int): Registry
    requires u in r.urls
  {
    Refresh(r.(reports := r.reports[s := Flatten(ri)]), u, now)
  }

  /** An answer to an exchange: the cache, cut down to `limit` of its entries if it has more. */
  ghost predicate Answers(answer: RoutingInfo, cache: RoutingInfo, limit: nat) {
    if cache.relation.Infos? && limit < |cache.relation.infos| then
      && answer.relation.Infos? && answer == cache.(relation := answer.relation)
      && |answer.relation.infos| == limit
      && multiset(answer.relation.infos) <= multiset(cache.relation.infos)
    else answer == cache
  }

  /** What a client can rely on in an answer: flat entries of live clients of its URL, min(cache, limit) many. */
  lemma AnswerEntries(r: Registry, u: Url, answer: RoutingInfo, limit: nat)
    requires Inv(r) && CacheInv(r) && u in r.urls
    requires Answers(answer, r.urls[u].cache, limit)
    ensures answer.nodeType == Tracker && answer.relation.Infos?
    ensures forall ri :: ri in answer.relation.infos ==>
              Flat(ri) && ri.sessionId.Some? && ri.sessionId.value in r.conn && r.conn[ri.sessionId.value] == u
    ensures |answer.relation.infos|
         == if |r.urls[u].cache.relation.infos| <= limit then |r.urls[u].cache.relation.infos| else limit
  {
    var infos := r.urls[u].cache.relation.infos;
    assert CacheOk(r.urls[u]) && EntryOk(r.urls[u], r.conn, u);
    forall ri | ri in answer.relation.infos ensures ri in infos {
      if limit < |infos| {
        assert ri in multiset(answer.relation.infos);
        assert multiset(answer.relation.infos)[ri] <= multiset(infos)[ri];
        assert ri in multiset(infos);
      }
    }
  }

  // ----- the invariant: all five facts say the same -----

  ghost predicate NoDuplicates<T>(xs: seq<T>) {
    forall i, j :: 0 <= i < j < |xs| ==> xs[i] != xs[j]
  }

  /** The entry of u counts and lists exactly the sessions of u, and there are some. */
  ghost predicate EntryOk(e: UrlEntry, m: map<SessionId, Url>, u: Url) {
    && e.count == |e.clients| && e.count > 0
    && NoDuplicates(e.clients)
    && forall s :: s in e.clients <==> s in m && m[s] == u
  }

  ghost predicate Inv(r: Registry) {
    && r.total == |r.conn|
    && (forall u :: u in r.urls ==> EntryOk(r.urls[u], r.conn, u))
    && (forall s :: s in r.conn ==> r.conn[s] in r.urls)
    && r.reports.Keys <= r.conn.Keys
  }

  ghost predicate CapsHold(cfg: Config, r: Registry) {
    && r.total <= Cap(cfg.maxConnections)
    && forall u :: u in r.urls ==> r.urls[u].count <= 1 || r.urls[u].count <= Cap(cfg.maxByUrl)
  }

  function SessionsAt(m: map<SessionId, Url>, u: Url): set<SessionId> {
    set s | s in m && m[s] == u
  }

  lemma {:induction false} DistinctCount<T>(xs: seq<T>, elements: set<T>)
    requires NoDuplicates(xs)
    requires forall x :: x in xs <==> x in elements
    ensures |xs| == |elements|
  {
    if xs != [] {
      var init, last := xs[..|xs| - 1], xs[|xs| - 1];
      assert xs == init + [last];
      assert forall x :: x in init <==> x in elements - {last};
      DistinctCount(init, elements - {last});
    } else {
      assert elements == {};
    }
  }

  /** The counters are cardinalities of the session map, and an entry exists exactly for a URL in use. */
  lemma CountsAreCardinalities(r: Registry, u: Url)
    requires Inv(r)
    ensures r.total == |r.conn|
    ensures u in r.urls <==> SessionsAt(r.conn, u) != {}
    ensures u in r.urls ==> r.urls[u].count == |SessionsAt(r.conn, u)|
  {
    if u in r.urls {
      assert EntryOk(r.urls[u], r.conn, u);
      DistinctCount(r.urls[u].clients, SessionsAt(r.conn, u));
      assert r.urls[u].clients[0] in SessionsAt(r.conn, u);
    }
    if s :| s in SessionsAt(r.conn, u) {
      assert r.conn[s] in r.urls;
    }
  }

  ghost function Pick(urls: map<Url, UrlEntry>): (u: Url)
    requires urls != map[]
    ensures u in urls
  {
    var u :| u in urls;
    u
  }

  /** All URL counters together. */
  ghost function CountSum(urls: map<Url, UrlEntry>): nat {
    if urls == map[] then 0 else var u := Pick(urls); urls[u].count + CountSum(urls - {u})
  }

  function SessionsWithin(m: map<SessionId, Url>, us: set<Url>): set<SessionId> {
    set s | s in m && m[s] in us
  }

  lemma WithoutUrl(m: map<SessionId, Url>, us: set<Url>, u: Url)
    requires u in us
    ensures |SessionsWithin(m, us)| == |SessionsAt(m, u)| + |SessionsWithin(m, us - {u})|
  {
    assert SessionsWithin(m, us) == SessionsAt(m, u) + SessionsWithin(m, us - {u});
    assert SessionsAt(m, u) !! SessionsWithin(m, us - {u});
  }

  lemma {:induction false} CountSumWithin(urls: map<Url, UrlEntry>, m: map<SessionId, Url>)
    requires forall u :: u in urls ==> urls[u].count == |SessionsAt(m, u)|
    ensures CountSum(urls) == |SessionsWithin(m, urls.Keys)|
  {
    if urls == map[] {
      assert SessionsWithin(m, urls.Keys) == {};
    } else {
      var u := Pick(urls);
      CountSumWithin(urls - {u}, m);
      WithoutUrl(m, urls.Keys, u);
      hide SessionsAt, SessionsWithin;
      assert (urls - {u}).Keys == urls.Keys - {u};
    }
  }

  /** The global counter is the sum of the URL counters. */
  lemma TotalIsSum(r: Registry)
    requires Inv(r)
    ensures r.total == CountSum(r.urls)
  {
    forall u | u in r.urls ensures r.urls[u].count == |SessionsAt(r.conn, u)| {
      CountsAreCardinalities(r, u);
    }
    CountSumWithin(r.urls, r.conn);
    assert SessionsWithin(r.conn, r.urls.Keys) == r.conn.Keys;
  }

  /** Admission stated on the session map alone. */
  predicate Admits(cfg: Config, m: map<SessionId, Url>, u: Url) {
    && |m| < Cap(cfg.maxConnections)
    && (SessionsAt(m, u) == {} || |SessionsAt(m, u)| < Cap(cfg.maxByUrl))
  }

  /** The precheck decides admission exactly. */
  lemma AvailableIsAdmits(cfg: Config, r: Registry, u: Url)
    requires Inv(r)
    ensures Available(cfg, r, u) <==> Admits(cfg, r.conn, u)
  {
    CountsAreCardinalities(r, u);
  }

  lemma {:induction false} WithoutMembers(clients: seq<SessionId>, s: SessionId)
    requires NoDuplicates(clients)
    ensures forall x :: x in Without(clients, s) <==> x in clients && x != s
    ensures NoDuplicates(Without(clients, s))
    ensures |Without(clients, s)| == |clients| - if s in clients then 1 else 0
  {
    if clients != [] {
      var rest := clients[1..];
      assert clients == [clients[0]] + rest;
      assert clients[0] !in rest;
      WithoutMembers(rest, s);
    }
  }

  lemma EntryOkLeft(e: UrlEntry, m: map<SessionId, Url>, s: SessionId, u: Url)
    requires EntryOk(e, m, u) && s in m && m[s] == u
    ensures RemoveFromEntry(e, s).count == e.count - 1
    ensures e.count > 1 ==> EntryOk(RemoveFromEntry(e, s), m - {s}, u)
    ensures e.count == 1 ==> SessionsAt(m, u) == {s}
  {
    WithoutMembers(e.clients, s);
    if e.count == 1 {
      assert e.clients == [e.clients[0]];
      assert forall x :: x in SessionsAt(m, u) ==> x in e.clients;
    }
  }

  /** The registry with s counted in u. */
  function Joined(r: Registry, s: SessionId, u: Url): Registry
    requires r.total < USIZE_MAX && (u in r.urls ==> r.urls[u].count < USIZE_MAX)
  {
    var e := if u in r.urls then r.urls[u].(count := r.urls[u].count + 1, clients := r.urls[u].clients + [s])
             else NewEntry(s);
    Registry(r.total + 1, r.conn[s := u], r.urls[u := e], r.reports)
  }

  lemma JoinedEntryOk(r: Registry, s: SessionId, u: Url, v: Url)
    requires r.total < USIZE_MAX && (u in r.urls ==> r.urls[u].count < USIZE_MAX)
    requires s !in r.conn && (v in r.urls ==> EntryOk(r.urls[v], r.conn, v))
    requires v in r.urls || (v == u && SessionsAt(r.conn, u) == {})
    ensures EntryOk(Joined(r, s, u).urls[v], r.conn[s := u], v)
  {
    if v != u {
    } else if u in r.urls {
    } else {
      assert forall x :: x in r.conn && r.conn[x] == u ==> x in SessionsAt(r.conn, u);
    }
  }

  lemma JoinedKeepsInv(r: Registry, s: SessionId, u: Url)
    requires Inv(r) && s !in r.conn
    requires r.total < USIZE_MAX && (u in r.urls ==> r.urls[u].count < USIZE_MAX)
    ensures Inv(Joined(r, s, u))
  {
    var r' := Joined(r, s, u);
    assert |r.conn[s := u]| == |r.conn| + 1;
    CountsAreCardinalities(r, u);
    forall v | v in r'.urls ensures EntryOk(r'.urls[v], r'.conn, v) {
      JoinedEntryOk(r, s, u, v);
    }
  }

  /** A fresh session is admitted past both checks; otherwise the rollback restores the very same registry. */
  lemma AddCases(cfg: Config, r: Registry, s: SessionId, u: Url)
    requires s !in r.conn && s !in r.reports
    ensures Available(cfg, r, u) ==> Add(cfg, r, s, u) == (Joined(r, s, u), true)
    ensures !Available(cfg, r, u) ==> Add(cfg, r, s, u) == (r, false)
  {
    assert r.reports - {s} == r.reports;
    assert r.conn[s := u] - {s} == r.conn;
    assert u in r.urls ==> r.urls[u := r.urls[u]] == r.urls;
  }

  /** Adding a fresh session succeeds exactly when the map admits it; a refusal leaves everything as it was. */
  lemma AddRefines(cfg: Config, r: Registry, s: SessionId, u: Url)
    requires Inv(r) && s !in r.conn
    ensures Add(cfg, r, s, u).1 <==> Admits(cfg, r.conn, u)
    ensures !Add(cfg, r, s, u).1 ==> Add(cfg, r, s, u).0 == r
    ensures Add(cfg, r, s, u).1 ==> Add(cfg, r, s, u).0.conn == r.conn[s := u]
    ensures Inv(Add(cfg, r, s, u).0)
    ensures CapsHold(cfg, r) ==> CapsHold(cfg, Add(cfg, r, s, u).0)
  {
    AvailableIsAdmits(cfg, r, u);
    AddCases(cfg, r, s, u);
    if Available(cfg, r, u) {
      JoinedKeepsInv(r, s, u);
    }
  }

  /** Freshness is exactly what the counters need: re-adding a live session past the global check breaks them. */
  lemma AddNeedsFresh(cfg: Config, r: Registry, s: SessionId, u: Url)
    requires Inv(r)
    ensures Inv(Add(cfg, r, s, u).0) <==> s !in r.conn || Cap(cfg.maxConnections) <= r.total
  {
    if s !in r.conn {
      AddRefines(cfg, r, s, u);
    }
  }

  /** The parts of the registry after a removal. */
  lemma RemoveCases(r: Registry, s: SessionId)
    requires Inv(r) && s in r.conn
    ensures Remove(r, s).conn == r.conn - {s} && Remove(r, s).reports == r.reports - {s}
    ensures Remove(r, s).total == r.total - 1
    ensures r.conn[s] in r.urls && EntryOk(r.urls[r.conn[s]], r.conn, r.conn[s])
    ensures Remove(r, s).urls
         == if r.urls[r.conn[s]].count == 1 then r.urls - {r.conn[s]}
            else r.urls[r.conn[s] := RemoveFromEntry(r.urls[r.conn[s]], s)]
  {
    var u := r.conn[s];
    assert EntryOk(r.urls[u], r.conn, u);
    EntryOkLeft(r.urls[u], r.conn, s, u);
    assert |r.conn.Keys| > 0;
  }

  lemma RemoveKeepsInv(r: Registry, s: SessionId)
    requires Inv(r) && s in r.conn
    ensures Inv(Remove(r, s))
  {
    var u, r' := r.conn[s], Remove(r, s);
    RemoveCases(r, s);
    EntryOkLeft(r.urls[u], r.conn, s, u);
    assert r'.conn.Keys == r.conn.Keys - {s};
    forall v | v in r'.urls ensures EntryOk(r'.urls[v], r'.conn, v) {
      assert v != u ==> EntryOk(r.urls[v], r.conn, v);
    }
    forall x | x in r'.conn ensures r'.conn[x] in r'.urls {
      assert x in r.conn && x != s;
      assert r.conn[x] == u ==> x in SessionsAt(r.conn, u);
    }
  }

  lemma RemoveKeepsCaps(cfg: Config, r: Registry, s: SessionId)
    requires Inv(r) && CapsHold(cfg, r)
    ensures CapsHold(cfg, Remove(r, s))
  {
    if s in r.conn {
      RemoveCases(r, s);
      EntryOkLeft(r.urls[r.conn[s]], r.conn, s, r.conn[s]);
    }
  }

  /** Removal takes exactly s out of the map, and is idle for an unknown session. */
  lemma RemoveRefines(r: Registry, s: SessionId)
    requires Inv(r)
    ensures Inv(Remove(r, s)) && Remove(r, s).conn == r.conn - {s}
    ensures s !in r.conn ==> Remove(r, s) == r
  {
    if s in r.conn {
      RemoveCases(r, s);
      RemoveKeepsInv(r, s);
    } else {
      assert r.conn - {s} == r.conn;
    }
  }

  /** Removal leaves the entries of all other URLs alone. */
  lemma RemoveElsewhere(r: Registry, s: SessionId, v: Url)
    requires Inv(r) && s in r.conn && v != r.conn[s]
    ensures v in Remove(r, s).urls <==> v in r.urls
    ensures v in r.urls ==> Remove(r, s).urls[v] == r.urls[v]
  {
    RemoveCases(r, s);
  }

  lemma AdmitsAfterRemove(cfg: Config, m: map<SessionId, Url>, s: SessionId, u: Url)
    requires Admits(cfg, m, u)
    ensures Admits(cfg, m - {s}, u)
  {
    assert (m - {s}).Keys == m.Keys - {s};
    assert SessionsAt(m - {s}, u) == SessionsAt(m, u) - {s};
  }

  /** Once the precheck of `enter` holds, the remove-then-add after it cannot be refused. */
  lemma EnterCases(cfg: Config, r: Registry, s: SessionId, u: Url)
    requires Inv(r)
    ensures Available(cfg, r, u) ==> Inv(Remove(r, s)) && s !in Remove(r, s).conn
    ensures Available(cfg, r, u) ==> Available(cfg, Remove(r, s), u) && Enter(cfg, r, s, u).1
    ensures !Available(cfg, r, u) ==> Enter(cfg, r, s, u) == (r, false)
  {
    if Available(cfg, r, u) {
      RemoveRefines(r, s);
      AvailableIsAdmits(cfg, r, u);
      AdmitsAfterRemove(cfg, r.conn, s, u);
      AvailableIsAdmits(cfg, Remove(r, s), u);
      AddRefines(cfg, Remove(r, s), s, u);
    }
  }

  lemma PutBack<X, Y>(m: map<X, Y>, x: X, y: Y)
    ensures (m - {x})[x := y] == m[x := y]
  {
  }

  /** On the session map, `enter` is one admitted insertion or nothing. */
  lemma EnterRefines(cfg: Config, r: Registry, s: SessionId, u: Url)
    requires Inv(r)
    ensures Enter(cfg, r, s, u).1 <==> Admits(cfg, r.conn, u)
    ensures Enter(cfg, r, s, u).1 ==> Enter(cfg, r, s, u).0.conn == r.conn[s := u]
    ensures !Enter(cfg, r, s, u).1 ==> Enter(cfg, r, s, u).0 == r
    ensures Inv(Enter(cfg, r, s, u).0)
    ensures CapsHold(cfg, r) ==> CapsHold(cfg, Enter(cfg, r, s, u).0)
  {
    EnterCases(cfg, r, s, u);
    AvailableIsAdmits(cfg, r, u);
    if Available(cfg, r, u) {
      RemoveRefines(r, s);
      PutBack(r.conn, s, u);
      if CapsHold(cfg, r) {
        RemoveKeepsCaps(cfg, r, s);
      }
      AddRefines(cfg, Remove(r, s), s, u);
    }
  }

  /** What a removal changes about admission: it frees one place globally, and one at the URL that is left. */
  lemma AdmitsOnceRemoved(cfg: Config, r: Registry, s: SessionId, u: Url)
    requires Inv(r) && CapsHold(cfg, r) && s in r.conn
    ensures Admits(cfg, r.conn - {s}, u) <==> r.conn[s] == u || u !in r.urls || r.urls[u].count < Cap(cfg.maxByUrl)
  {
    var m := r.conn - {s};
    CountsAreCardinalities(r, u);
    assert m.Keys == r.conn.Keys - {s};
    assert SessionsAt(m, u) == SessionsAt(r.conn, u) - {s};
    if r.conn[s] == u {
      assert s in SessionsAt(r.conn, u);
      assert r.urls[u].count == 1 ==> SessionsAt(m, u) == {};
    }
  }

  /** The precheck counts the session that is about to leave. So `enter` decides as its remove-then-add would exactly
      when the session is unknown, or the precheck holds, or the session goes to another URL that is full. */
  lemma EnterDecidesExactly(cfg: Config, r: Registry, s: SessionId, u: Url)
    requires Inv(r) && CapsHold(cfg, r)
    ensures Enter(cfg, r, s, u).1 == Add(cfg, Remove(r, s), s, u).1 <==>
            || s !in r.conn || Available(cfg, r, u)
            || (r.conn[s] != u && u in r.urls && Cap(cfg.maxByUrl) <= r.urls[u].count)
  {
    EnterCases(cfg, r, s, u);
    RemoveRefines(r, s);
    AddRefines(cfg, Remove(r, s), s, u);
    if s in r.conn {
      AdmitsOnceRemoved(cfg, r, s, u);
    } else {
      AvailableIsAdmits(cfg, r, u);
    }
  }

  /** For instance, at the global cap a live session cannot re-enter its URL, though its place would be freed. */
  lemma RejoinAtCapRefused(cfg: Config, r: Registry, s: SessionId)
    requires Inv(r) && CapsHold(cfg, r) && s in r.conn
    requires r.total == Cap(cfg.maxConnections)
    ensures !Enter(cfg, r, s, r.conn[s]).1
    ensures Add(cfg, Remove(r, s), s, r.conn[s]).1
  {
    EnterDecidesExactly(cfg, r, s, r.conn[s]);
  }

  // ----- the tracker cache -----

  ghost predicate Flat(ri: RoutingInfo) {
    ri.relation.Count? && ri.known == []
  }

  ghost predicate CacheOk(e: UrlEntry) {
    && e.cache.nodeType == Tracker && e.cache.sessionId.None? && e.cache.known == [] && e.cache.payload == NO_PAYLOAD
    && e.cache.relation.Infos?
    && |e.cache.relation.infos| <= ROUTING_INFO_MAX
    && (forall ri :: ri in e.cache.relation.infos ==>
          Flat(ri) && ri.sessionId.Some? && ri.sessionId.value in e.clients)
  }

  /** Registered clients report under their own id, and only such reports reach a cache. */
  ghost predicate CacheInv(r: Registry) {
    && (forall s :: s in r.reports ==> Flat(r.reports[s]) && HasId(r.reports[s], s))
    && (forall u :: u in r.urls ==> CacheOk(r.urls[u]))
  }

  lemma {:induction false} ReportsMembers(clients: seq<SessionId>, reports: map<SessionId, RoutingInfo>)
    ensures |Reports(clients, reports)| <= |clients|
    ensures forall ri :: ri in Reports(clients, reports) <==>
              exists s :: s in clients && s in reports && reports[s] == ri
  {
    if clients != [] {
      var init, last := clients[..|clients| - 1], clients[|clients| - 1];
      assert clients == init + [last];
      ReportsMembers(init, reports);
      forall ri ensures ri in Reports(clients, reports) <==>
              exists s :: s in clients && s in reports && reports[s] == ri {
        if s :| s in clients && s in reports && reports[s] == ri {
          assert s in init || s == last;
        }
        if last in reports && reports[last] == ri {
          assert last in clients;
        }
      }
    }
  }

  lemma {:induction false} WithoutInfosMembers(infos: Forest, s: SessionId)
    ensures |WithoutInfos(infos, s)| <= |infos|
    ensures forall ri :: ri in WithoutInfos(infos, s) <==> ri in infos && !HasId(ri, s)
  {
    if infos != [] {
      assert infos == [infos[0]] + infos[1..];
      WithoutInfosMembers(infos[1..], s);
    }
  }

  lemma RemoveKeepsCache(r: Registry, s: SessionId)
    requires Inv(r) && CacheInv(r)
    ensures CacheInv(Remove(r, s))
  {
    if s in r.conn {
      RemoveCases(r, s);
      CacheOkLeft(r.urls[r.conn[s]], s);
    }
  }

  lemma CacheOkLeft(e: UrlEntry, s: SessionId)
    requires CacheOk(e) && NoDuplicates(e.clients)
    ensures CacheOk(RemoveFromEntry(e, s))
  {
    WithoutMembers(e.clients, s);
    WithoutInfosMembers(e.cache.relation.infos, s);
  }

  lemma JoinedKeepsCache(r: Registry, s: SessionId, u: Url)
    requires CacheInv(r)
    requires r.total < USIZE_MAX && (u in r.urls ==> r.urls[u].count < USIZE_MAX)
    ensures CacheInv(Joined(r, s, u))
  {
    var r' := Joined(r, s, u);
    forall v | v in r'.urls ensures CacheOk(r'.urls[v]) {
      if v in r.urls {
        assert CacheOk(r.urls[v]);
      }
    }
  }

  lemma AddKeepsCache(cfg: Config, r: Registry, s: SessionId, u: Url)
    requires Inv(r) && CacheInv(r) && s !in r.conn
    ensures CacheInv(Add(cfg, r, s, u).0)
  {
    AddCases(cfg, r, s, u);
    if Available(cfg, r, u) {
      JoinedKeepsCache(r, s, u);
    }
  }

  /** An exchange keeps the session map, the counters and the client lists. */
  lemma RefreshKeepsInv(r: Registry, u: Url, now: int)
    requires Inv(r) && u in r.urls
    ensures Inv(Refresh(r, u, now))
  {
    var r' := Refresh(r, u, now);
    forall v | v in r'.urls ensures EntryOk(r'.urls[v], r'.conn, v) {
      assert EntryOk(r.urls[v], r.conn, v);
    }
  }

  lemma ExchangeKeepsInv(cfg: Config, r: Registry, s: SessionId, ri: RoutingInfo, now: int)
    requires Inv(r) && s in r.conn
    ensures r.conn[s] in r.urls
    ensures Inv(Exchange(r, s, r.conn[s], ri, now))
    ensures Exchange(r, s, r.conn[s], ri, now).conn == r.conn
    ensures CapsHold(cfg, r) ==> CapsHold(cfg, Exchange(r, s, r.conn[s], ri, now))
  {
    var u := r.conn[s];
    var r' := Exchange(r, s, u, ri, now);
    assert EntryOk(r.urls[u], r.conn, u);
    forall v | v in r'.urls ensures EntryOk(r'.urls[v], r'.conn, v) {
      assert EntryOk(r.urls[v], r.conn, v);
    }
  }

  lemma RefreshedCacheOk(e: UrlEntry, reports: map<SessionId, RoutingInfo>, now: int)
    requires CacheOk(e)
    requires forall s :: s in reports ==> Flat(reports[s]) && HasId(reports[s], s)
    ensures CacheOk(RefreshEntry(e, reports, now))
  {
    ReportsMembers(FirstClients(e.clients), reports);
    assert forall x :: x in FirstClients(e.clients) ==> x in e.clients;
  }

  /** With own-id reports every cache entry is a live client of the URL, flat, and there are at most 1000. */
  lemma ExchangeKeepsCache(r: Registry, s: SessionId, ri: RoutingInfo, now: int)
    requires CacheInv(r) && s in r.conn && r.conn[s] in r.urls && HasId(ri, s)
    ensures CacheInv(Exchange(r, s, r.conn[s], ri, now))
  {
    RefreshedCacheOk(r.urls[r.conn[s]], r.reports[s := Flatten(ri)], now);
  }

  // ----- runs -----

  datatype Op =
    | Join(s: SessionId, u: Url)
    | Leave(s: SessionId)
    | Reenter(s: SessionId, u: Url)
    | Report(s: SessionId, ri: RoutingInfo, now: int)

  /** What the callers of the registry keep to: they add fresh sessions, and registered clients report. */
  predicate Legal(m: map<SessionId, Url>, op: Op) {
    match op
    case Join(s, _) => s !in m
    case Report(s, _, _) => s in m
    case _ => true
  }

  function Apply(cfg: Config, r: Registry, op: Op): Registry {
    match op
    case Join(s, u) => Add(cfg, r, s, u).0
    case Leave(s) => Remove(r, s)
    case Reenter(s, u) => Enter(cfg, r, s, u).0
    case Report(s, ri, now) =>
      if s in r.conn && r.conn[s] in r.urls then Exchange(r, s, r.conn[s], ri, now) else r
  }

  /** The same operation on the plain map of sessions. */
  function AbstractApply(cfg: Config, m: map<SessionId, Url>, op: Op): map<SessionId, Url> {
    match op
    case Join(s, u) => if Admits(cfg, m, u) then m[s := u] else m
    case Leave(s) => m - {s}
    case Reenter(s, u) => if Admits(cfg, m, u) then m[s := u] else m
    case Report(_, _, _) => m
  }

  function Run(cfg: Config, r: Registry, ops: seq<Op>): Registry
    decreases |ops|
  {
    if ops == [] then r else Run(cfg, Apply(cfg, r, ops[0]), ops[1..])
  }

  function AbstractRun(cfg: Config, m: map<SessionId, Url>, ops: seq<Op>): map<SessionId, Url>
    decreases |ops|
  {
    if ops == [] then m else AbstractRun(cfg, AbstractApply(cfg, m, ops[0]), ops[1..])
  }

  predicate LegalRun(cfg: Config, m: map<SessionId, Url>, ops: seq<Op>)
    decreases |ops|
  {
    ops == [] || (Legal(m, ops[0]) && LegalRun(cfg, AbstractApply(cfg, m, ops[0]), ops[1..]))
  }

  ghost predicate OwnIds(ops: seq<Op>) {
    forall op :: op in ops && op.Report? ==> HasId(op.ri, op.s)
  }

  lemma ApplyRefines(cfg: Config, r: Registry, op: Op)
    requires Inv(r) && CapsHold(cfg, r) && Legal(r.conn, op)
    ensures Inv(Apply(cfg, r, op)) && CapsHold(cfg, Apply(cfg, r, op))
    ensures Apply(cfg, r, op).conn == AbstractApply(cfg, r.conn, op)
  {
    match op
    case Join(s, u) => AddRefines(cfg, r, s, u);
    case Leave(s) =>
      RemoveRefines(r, s);
      RemoveKeepsCaps(cfg, r, s);
    case Reenter(s, u) => EnterRefines(cfg, r, s, u);
    case Report(s, ri, now) => ExchangeKeepsInv(cfg, r, s, ri, now);
  }

  lemma ApplyKeepsCache(cfg: Config, r: Registry, op: Op)
    requires Inv(r) && CacheInv(r) && Legal(r.conn, op)
    requires op.Report? ==> HasId(op.ri, op.s)
    ensures CacheInv(Apply(cfg, r, op))
  {
    match op
    case Join(s, u) => AddKeepsCache(cfg, r, s, u);
    case Leave(s) => RemoveKeepsCache(r, s);
    case Reenter(s, u) =>
      RemoveRefines(r, s);
      RemoveKeepsCache(r, s);
      AddKeepsCache(cfg, Remove(r, s), s, u);
    case Report(s, ri, now) => ExchangeKeepsCache(r, s, ri, now);
  }

  lemma {:induction false} RunRefinesFrom(cfg: Config, r: Registry, ops: seq<Op>)
    requires Inv(r) && CapsHold(cfg, r) && LegalRun(cfg, r.conn, ops)
    ensures Inv(Run(cfg, r, ops)) && CapsHold(cfg, Run(cfg, r, ops))
    ensures Run(cfg, r, ops).conn == AbstractRun(cfg, r.conn, ops)
    decreases |ops|
  {
    if ops != [] {
      ApplyRefines(cfg, r, ops[0]);
      RunRefinesFrom(cfg, Apply(cfg, r, ops[0]), ops[1..]);
    }
  }

  lemma {:induction false} RunKeepsCache(cfg: Config, r: Registry, ops: seq<Op>)
    requires Inv(r) && CapsHold(cfg, r) && LegalRun(cfg, r.conn, ops)
    requires CacheInv(r) && OwnIds(ops)
    ensures CacheInv(Run(cfg, r, ops))
    decreases |ops|
  {
    if ops != [] {
      assert ops[0] in ops;
      ApplyRefines(cfg, r, ops[0]);
      ApplyKeepsCache(cfg, r, ops[0]);
      assert OwnIds(ops[1..]);
      RunKeepsCache(cfg, Apply(cfg, r, ops[0]), ops[1..]);
    }
  }

  /** Every run keeps the five facts in step with the plain map, within both caps. */
  lemma RunRefines(cfg: Config, ops: seq<Op>)
    requires LegalRun(cfg, map[], ops)
    ensures Inv(Run(cfg, EMPTY, ops)) && CapsHold(cfg, Run(cfg, EMPTY, ops))
    ensures Run(cfg, EMPTY, ops).conn == AbstractRun(cfg, map[], ops)
    ensures Run(cfg, EMPTY, ops).total == |Run(cfg, EMPTY, ops).conn| == CountSum(Run(cfg, EMPTY, ops).urls)
    ensures OwnIds(ops) ==> CacheInv(Run(cfg, EMPTY, ops))
  {
    RunRefinesFrom(cfg, EMPTY, ops);
    TotalIsSum(Run(cfg, EMPTY, ops));
    if OwnIds(ops) {
      RunKeepsCache(cfg, EMPTY, ops);
    }
  }

  ghost predicate UrlCapHolds(cfg: Config, r: Registry) {
    forall u :: u in r.urls ==> r.urls[u].count <= Cap(cfg.maxByUrl)
  }

  ghost predicate AlwaysWithinUrlCap(cfg: Config) {
    forall ops :: LegalRun(cfg, map[], ops) ==> UrlCapHolds(cfg, Run(cfg, EMPTY, ops))
  }

  /** The first client of a URL is not checked: the per-URL cap holds on all runs exactly when it is not 0. */
  lemma UrlCapExactly(cfg: Config)
    ensures AlwaysWithinUrlCap(cfg) <==> Cap(cfg.maxByUrl) >= 1 || Cap(cfg.maxConnections) == 0
  {
    if Cap(cfg.maxByUrl) >= 1 || Cap(cfg.maxConnections) == 0 {
      forall ops | LegalRun(cfg, map[], ops) ensures UrlCapHolds(cfg, Run(cfg, EMPTY, ops)) {
        RunRefines(cfg, ops);
        var r := Run(cfg, EMPTY, ops);
        forall u | u in r.urls ensures r.urls[u].count <= Cap(cfg.maxByUrl) {
          assert EntryOk(r.urls[u], r.conn, u);
          assert r.urls[u].clients[0] in r.conn;
        }
      }
    } else {
      var op := Join(SessionId([]), "u");
      var r := Apply(cfg, EMPTY, op);
      assert [op][1..] == [];
      assert LegalRun(cfg, map[], [op]);
      assert Run(cfg, EMPTY, [op]) == r;
      assert r.urls["u"].count == 1;
      assert !UrlCapHolds(cfg, r);
    }
  }

  /** Which reports the clients are taken to send. */
  type Permit = (SessionId, RoutingInfo) -> bool

  ghost predicate Permitted(permit: Permit, ops: seq<Op>) {
    forall op :: op in ops && op.Report? ==> permit(op.s, op.ri)
  }

  ghost predicate OwnIdsOnly(permit: Permit) {
    forall s, ri :: permit(s, ri) ==> HasId(ri, s)
  }

  /** Whatever the clients do within the permitted, caches hold flat entries of listed clients only. */
  ghost predicate CachesStaySound(cfg: Config, permit: Permit) {
    forall ops :: LegalRun(cfg, map[], ops) && Permitted(permit, ops) ==>
      forall u :: u in Run(cfg, EMPTY, ops).urls ==> CacheOk(Run(cfg, EMPTY, ops).urls[u])
  }

  /** A report under another id, or none, reaches the cache of its client's URL at once. */
  lemma ForeignReportShows(cfg: Config, s: SessionId, u: Url, ri: RoutingInfo)
    requires Cap(cfg.maxConnections) >= 1 && !HasId(ri, s)
    ensures LegalRun(cfg, map[], [Join(s, u), Report(s, ri, 5)])
    ensures u in Run(cfg, EMPTY, [Join(s, u), Report(s, ri, 5)]).urls
    ensures !CacheOk(Run(cfg, EMPTY, [Join(s, u), Report(s, ri, 5)]).urls[u])
  {
    var ops := [Join(s, u), Report(s, ri, 5)];
    var r1 := Apply(cfg, EMPTY, ops[0]);
    assert r1 == Registry(1, map[s := u], map[u := NewEntry(s)], map[]);
    var r2 := Apply(cfg, r1, ops[1]);
    var rest: seq<Op> := ops[1..];
    assert rest == [Report(s, ri, 5)] && rest[1..] == [];
    assert Run(cfg, r1, rest) == r2;
    assert Run(cfg, EMPTY, ops) == r2;
    assert AbstractApply(cfg, map[], ops[0]) == map[s := u];
    assert LegalRun(cfg, map[s := u], rest);
    assert [s][..0] == [];
    assert Reports([s], map[s := Flatten(ri)]) == [Flatten(ri)];
    assert r2.urls[u].cache == TrackerInfo([Flatten(ri)]);
    assert Flatten(ri) in r2.urls[u].cache.relation.infos;
  }

  /** Caches stay sound on all runs exactly when clients may report under their own id only, or none gets in. */
  lemma OwnIdsExactly(cfg: Config, permit: Permit)
    ensures CachesStaySound(cfg, permit) <==> OwnIdsOnly(permit) || Cap(cfg.maxConnections) == 0
  {
    if OwnIdsOnly(permit) {
      forall ops | LegalRun(cfg, map[], ops) && Permitted(permit, ops) ensures CacheInv(Run(cfg, EMPTY, ops)) {
        RunRefines(cfg, ops);
      }
    } else if Cap(cfg.maxConnections) == 0 {
      forall ops | LegalRun(cfg, map[], ops) ensures Run(cfg, EMPTY, ops).urls == map[] {
        RunRefines(cfg, ops);
      }
    } else {
      var s, ri :| permit(s, ri) && !HasId(ri, s);
      ForeignReportShows(cfg, s, "u", ri);
      assert Permitted(permit, [Join(s, "u"), Report(s, ri, 5)]);
    }
  }

  /** The run of two clients of u of which the first reports under the id in ri and then leaves. */
  function ForeignReport(a: SessionId, b: SessionId, ri: RoutingInfo, u: Url): seq<Op> {
    [Join(a, u), Join(b, u), Report(a, ri, 5), Leave(a)]
  }

  lemma RunFour(cfg: Config, r: Registry, ops: seq<Op>)
    requires |ops| == 4
    ensures Run(cfg, r, ops)
         == Apply(cfg, Apply(cfg, Apply(cfg, Apply(cfg, r, ops[0]), ops[1]), ops[2]), ops[3])
  {
    assert ops[1..][1..] == ops[2..] && ops[2..][1..] == ops[3..] && ops[3..][1..] == [];
    var r1 := Apply(cfg, r, ops[0]);
    var r2 := Apply(cfg, r1, ops[1]);
    var r3 := Apply(cfg, r2, ops[2]);
    assert Run(cfg, r3, ops[3..]) == Apply(cfg, r3, ops[3]);
    assert Run(cfg, r2, ops[2..]) == Run(cfg, r3, ops[3..]);
    assert Run(cfg, r1, ops[1..]) == Run(cfg, r2, ops[2..]);
  }

  /** A report under a foreign id outlives its client in the cache, so the own-id hypothesis is needed. */
  lemma ForeignIdOutlivesClient(cfg: Config, a: SessionId, b: SessionId, ri: RoutingInfo, u: Url)
    requires Cap(cfg.maxConnections) >= 2 && Cap(cfg.maxByUrl) >= 2
    requires a != b && ri.sessionId.Some? && ri.sessionId.value != a
    ensures Run(cfg, EMPTY, ForeignReport(a, b, ri, u)).conn == map[b := u]
    ensures u in Run(cfg, EMPTY, ForeignReport(a, b, ri, u)).urls
    ensures Run(cfg, EMPTY, ForeignReport(a, b, ri, u)).urls[u].cache == TrackerInfo([Flatten(ri)])
  {
    var ops := ForeignReport(a, b, ri, u);
    RunFour(cfg, EMPTY, ops);
    TwoJoins(cfg, a, b, u);
    var r2 := Apply(cfg, Apply(cfg, EMPTY, ops[0]), ops[1]);
    var reports := map[a := Flatten(ri)];
    var e := UrlEntry([a, b], 2, 5, TrackerInfo([Flatten(ri)]));
    TwoReports(a, b, reports);
    var r3 := Apply(cfg, r2, ops[2]);
    assert r3 == Registry(2, map[a := u, b := u], map[u := e], reports);
    ForeignStays(e, a, b, Flatten(ri));
    assert Apply(cfg, r3, ops[3]).conn == map[b := u];
  }

  lemma TwoJoins(cfg: Config, a: SessionId, b: SessionId, u: Url)
    requires Cap(cfg.maxConnections) >= 2 && Cap(cfg.maxByUrl) >= 2 && a != b
    ensures Apply(cfg, Apply(cfg, EMPTY, Join(a, u)), Join(b, u))
         == Registry(2, map[a := u, b := u], map[u := UrlEntry([a, b], 2, 0, TrackerInfo([]))], map[])
  {
    var r1 := Apply(cfg, EMPTY, Join(a, u));
    assert r1 == Registry(1, map[a := u], map[u := NewEntry(a)], map[]);
    var r2 := Apply(cfg, r1, Join(b, u));
    assert [a] + [b] == [a, b];
    assert r2.conn == map[a := u, b := u] && r2.urls == map[u := UrlEntry([a, b], 2, 0, TrackerInfo([]))];
  }

  lemma ForeignStays(e: UrlEntry, a: SessionId, b: SessionId, ri: RoutingInfo)
    requires a != b && !HasId(ri, a)
    requires e.clients == [a, b] && e.count == 2 && e.cache == TrackerInfo([ri])
    ensures RemoveFromEntry(e, a) == e.(clients := [b], count := 1)
  {
    assert [a, b][1..] == [b] && [b][1..] == [];
    assert Without([b], a) == [b];
    assert Without([a, b], a) == [b];
    assert [ri][1..] == [];
    assert WithoutInfos([ri], a) == [ri];
  }

  lemma TwoReports(a: SessionId, b: SessionId, reports: map<SessionId, RoutingInfo>)
    requires a in reports && b !in reports
    ensures Reports(FirstClients([a, b]), reports) == [reports[a]]
  {
    assert [a, b][..1] == [a];
    assert [a][..0] == [];
    assert Reports([a], reports) == [reports[a]];
  }
}
