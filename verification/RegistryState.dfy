/**
 The registry as the server keeps it: mutable client, URL and state objects. Every method is one atomic
 operation here and computes the function of the same meaning in RegistrySpec; RegistrySteps takes the
 operations apart.
 */
module RegistryState {
  import opened Options
  import opened RoutingInfos
  import opened RegistrySpec
  import opened RegistryEffects

  class ClientData {
    const sessionId: SessionId
    const url: Url
    var routingInfo: Option<RoutingInfo>

    constructor (sessionId: SessionId, url: Url)
      ensures this.sessionId == sessionId && this.url == url && routingInfo == None
    {
      this.sessionId := sessionId;
      this.url := url;
      routingInfo := None;
    }

    method SetRoutingInfo(req: RoutingInfo)
      modifies this
      ensures routingInfo == Some(Flatten(req)) == Some(Kept(req))
    {
      FlattenKeeps(req);
      var ri := req;
      ri := ri.(relation := Count(Truncate(RelationCount(ri))));
      ri := ri.(known := []);
      routingInfo := Some(ri);
    }
  }

  /** The session ids of client objects. */
  function Ids(clients: seq<ClientData>): seq<SessionId> {
    seq(|clients|, i requires 0 <= i < |clients| => clients[i].sessionId)
  }

  /** What the client objects have reported, collected in list order. */
  ghost function Reported(clients: seq<ClientData>): Forest
    reads clients
  {
    if clients == [] then []
    else
      Reported(clients[..|clients| - 1])
      + var cd := clients[|clients| - 1]; if cd.routingInfo.Some? then [cd.routingInfo.value] else []
  }

  ghost function Taken(clients: seq<ClientData>): seq<ClientData> {
    if |clients| <= ROUTING_INFO_MAX then clients else clients[..ROUTING_INFO_MAX]
  }

  /** `retain` on the client list. */
  method Retain(clients: seq<ClientData>, s: SessionId) returns (kept: seq<ClientData>)
    ensures Ids(kept) == Without(Ids(clients), s)
    ensures forall cd :: cd in kept ==> cd in clients
  {
    kept := [];
    for i := 0 to |clients|
      invariant Ids(kept) + Without(Ids(clients[i..]), s) == Without(Ids(clients), s)
      invariant forall cd :: cd in kept ==> cd in clients
    {
      assert Ids(clients[i..])[0] == clients[i].sessionId;
      assert Ids(clients[i..])[1..] == Ids(clients[i + 1..]);
      if clients[i].sessionId != s {
        assert Ids(kept + [clients[i]]) == Ids(kept) + [clients[i].sessionId];
        kept := kept + [clients[i]];
      }
    }
  }

  class UrlData {
    var clients: seq<ClientData>
    var clientCount: u64
    var routingInfoUpdated: int
    var routingInfo: RoutingInfo

    constructor (cd: ClientData)
      ensures clients == [cd] && View() == NewEntry(cd.sessionId)
    {
      clients := [cd];
      clientCount := 1;
      routingInfoUpdated := 0;
      routingInfo := TrackerInfo([]);
    }

    function View(): UrlEntry
      reads this
    {
      UrlEntry(Ids(clients), clientCount, routingInfoUpdated, routingInfo)
    }

    predicate IsEmpty()
      reads this
    {
      clientCount == 0
    }

    method AddConnection(cd: ClientData, maxConnectionsByUrl: Option<u64>) returns (ok: bool)
      modifies this`clients, this`clientCount
      ensures (View(), ok) == AddToEntry(Cap(maxConnectionsByUrl), old(View()), cd.sessionId)
      ensures clients == old(clients) + if ok then [cd] else []
    {
      if Cap(maxConnectionsByUrl) <= clientCount {
        return false;
      }
      clientCount := clientCount + 1;
      clients := clients + [cd];
      assert Ids(clients) == Ids(old(clients)) + [cd.sessionId];
      return true;
    }

    method RemoveConnection(s: SessionId)
      modifies this`clients, this`clientCount, this`routingInfo
      ensures View() == RemoveFromEntry(old(View()), s)
      ensures forall cd :: cd in clients ==> cd in old(clients)
    {
      clientCount := FetchSub(clientCount);
      clients := Retain(clients, s);
      RetainInfos(s);
    }

    /** The last part of `remove_connection`: the client's entries leave the cached routing information. */
    method RetainInfos(s: SessionId)
      modifies this`routingInfo
      ensures routingInfo == ForgetInCache(old(routingInfo), s)
    {
      if routingInfo.relation.Infos? {
        var infos := routingInfo.relation.infos;
        var kept: Forest := [];
        for i := 0 to |infos|
          invariant kept + WithoutInfos(infos[i..], s) == WithoutInfos(infos, s)
          invariant routingInfo == old(routingInfo)
        {
          assert infos[i..][1..] == infos[i + 1..];
          if !HasId(infos[i], s) {
            kept := kept + [infos[i]];
          }
        }
        assert infos[|infos|..] == [];
        assert kept == WithoutInfos(infos, s);
        routingInfo := routingInfo.(relation := Infos(kept));
      }
    }

    method UpdateRoutingInfo()
      modifies this`routingInfo
      ensures routingInfo == TrackerInfo(Reported(Taken(clients)))
    {
      var relation: Forest := [];
      var n := if |clients| <= ROUTING_INFO_MAX then |clients| else ROUTING_INFO_MAX;
      for i := 0 to n
        invariant relation == Reported(clients[..i])
      {
        assert clients[..i + 1][..i] == clients[..i];
        if clients[i].routingInfo.None? {
          continue;
        }
        relation := relation + [clients[i].routingInfo.value];
      }
      assert clients[..n] == Taken(clients);
      routingInfo := RoutingInfo(Tracker, None, Infos(relation), [], NO_PAYLOAD);
    }

    method UpdateRoutingInfoIfNeeded(now: int)
      modifies this`routingInfo, this`routingInfoUpdated
      ensures if now - old(routingInfoUpdated) < ROUTING_INFO_UPDATE_INTERVAL_SECONDS
              then routingInfo == old(routingInfo) && routingInfoUpdated == old(routingInfoUpdated)
              else routingInfo == TrackerInfo(Reported(Taken(clients))) && routingInfoUpdated == now
    {
      if now - routingInfoUpdated < ROUTING_INFO_UPDATE_INTERVAL_SECONDS {
        return;
      }
      routingInfoUpdated := now;
      UpdateRoutingInfo();
    }
  }

  /** A session map and its clients' own data show `conn` and `reports`. */
  ghost predicate ShowsClients(m: map<SessionId, ClientData>, conn: map<SessionId, Url>,
                               reports: map<SessionId, RoutingInfo>)
    reads m.Values`routingInfo
  {
    && m.Keys == conn.Keys && reports.Keys <= conn.Keys
    && (forall s :: s in m ==> m[s].sessionId == s && m[s].url == conn[s])
    && (forall s :: s in m ==> m[s].routingInfo == if s in reports then Some(reports[s]) else None)
  }

  /** All these client objects are the registered ones of their ids. */
  ghost predicate Within(clients: seq<ClientData>, registered: map<SessionId, ClientData>) {
    forall cd :: cd in clients ==> cd.sessionId in registered && registered[cd.sessionId] == cd
  }

  lemma WithinMore(clients: seq<ClientData>, registered: map<SessionId, ClientData>, cd: ClientData)
    requires Within(clients, registered) && cd.sessionId !in registered
    ensures Within(clients, registered[cd.sessionId := cd])
    ensures Within(clients + [cd], registered[cd.sessionId := cd])
  {
  }

  lemma ShowsRegistered(m: map<SessionId, ClientData>, conn: map<SessionId, Url>,
                        reports: map<SessionId, RoutingInfo>, cd: ClientData)
    requires ShowsClients(m, conn, reports) && cd.sessionId !in m && cd.routingInfo == None
    ensures ShowsClients(m[cd.sessionId := cd], conn[cd.sessionId := cd.url], reports - {cd.sessionId})
  {
  }

  /** Registering and taking back again leaves the session map as it was. */
  lemma ShowsRolledBack(m: map<SessionId, ClientData>, conn: map<SessionId, Url>,
                        reports: map<SessionId, RoutingInfo>, cd: ClientData)
    requires ShowsClients(m, conn, reports) && cd.sessionId !in m
    ensures m[cd.sessionId := cd] - {cd.sessionId} == m
    ensures ShowsClients(m, conn[cd.sessionId := cd.url] - {cd.sessionId}, reports - {cd.sessionId})
  {
  }

  /** Registered clients hold what the registry's reports say, so collecting either gives the same. */
  lemma {:induction false} ReportedMatches(clients: seq<ClientData>, m: map<SessionId, ClientData>,
                                           conn: map<SessionId, Url>, reports: map<SessionId, RoutingInfo>)
    requires Within(clients, m) && ShowsClients(m, conn, reports)
    ensures Reported(clients) == Reports(Ids(clients), reports)
  {
    if clients != [] {
      var init := clients[..|clients| - 1];
      assert Ids(clients)[..|clients| - 1] == Ids(init);
      assert forall cd :: cd in init ==> cd in clients;
      assert clients[|clients| - 1] in clients;
      ReportedMatches(init, m, conn, reports);
    }
  }

  lemma TakenMatches(clients: seq<ClientData>, m: map<SessionId, ClientData>,
                     conn: map<SessionId, Url>, reports: map<SessionId, RoutingInfo>)
    requires Within(clients, m) && ShowsClients(m, conn, reports)
    ensures Reported(Taken(clients)) == Reports(FirstClients(Ids(clients)), reports)
  {
    assert forall cd :: cd in Taken(clients) ==> cd in clients;
    assert Ids(Taken(clients)) == FirstClients(Ids(clients));
    ReportedMatches(Taken(clients), m, conn, reports);
  }

  /** `choose_multiple`: that many entries at distinct positions, any of them. */
  method ChooseMultiple(infos: Forest, amount: nat) returns (chosen: Forest)
    requires amount <= |infos|
    ensures |chosen| == amount && multiset(chosen) <= multiset(infos)
  {
    chosen := [];
    var rest := infos;
    while |chosen| < amount
      invariant |chosen| <= amount && |chosen| + |rest| == |infos|
      invariant multiset(chosen) + multiset(rest) == multiset(infos)
    {
      var k :| 0 <= k < |rest|;
      assert rest == rest[..k] + [rest[k]] + rest[k + 1..];
      chosen := chosen + [rest[k]];
      rest := rest[..k] + rest[k + 1..];
    }
  }

  class State {
    var connectionMap: map<SessionId, ClientData>
    var urlDataMap: map<Url, UrlData>
    var clientCount: u64
    const maxConnections: Option<u64>
    const maxConnectionsByUrl: Option<u64>
    const maxRoutingResults: nat

    constructor (maxConnections: Option<u64>, maxConnectionsByUrl: Option<u64>, maxRoutingResults: nat)
      ensures Valid(EMPTY)
      ensures Limits() == Config(maxConnections, maxConnectionsByUrl)
      ensures this.maxRoutingResults == maxRoutingResults
    {
      connectionMap := map[];
      urlDataMap := map[];
      clientCount := 0;
      this.maxConnections := maxConnections;
      this.maxConnectionsByUrl := maxConnectionsByUrl;
      this.maxRoutingResults := maxRoutingResults;
    }

    function Limits(): Config {
      Config(maxConnections, maxConnectionsByUrl)
    }

    /** The URL map and the URLs' data show `urls`, and no two URLs share their data. */
    ghost predicate ShowsUrls(urls: map<Url, UrlEntry>)
      reads this`urlDataMap, urlDataMap.Values
    {
      && urlDataMap.Keys == urls.Keys
      && (forall u :: u in urlDataMap ==> urlDataMap[u].View() == urls[u])
      && (forall u, v :: u in urlDataMap && v in urlDataMap && u != v ==> urlDataMap[u] != urlDataMap[v])
    }

    /** The client lists hold only these client objects. */
    ghost predicate ListsWithin(registered: map<SessionId, ClientData>)
      reads this`urlDataMap, urlDataMap.Values
    {
      forall u :: u in urlDataMap ==> Within(urlDataMap[u].clients, registered)
    }

    /** The objects show the registry r, and their links to each other are sound. */
    ghost predicate Shows(r: Registry)
      reads this`connectionMap, this`urlDataMap, this`clientCount, connectionMap.Values, urlDataMap.Values
    {
      && clientCount == r.total
      && ShowsClients(connectionMap, r.conn, r.reports) && ShowsUrls(r.urls) && ListsWithin(connectionMap)
    }

    /** The five places show the registry r, and r agrees with itself. */
    ghost predicate Valid(r: Registry)
      reads this`connectionMap, this`urlDataMap, this`clientCount, connectionMap.Values, urlDataMap.Values
    {
      Shows(r) && Inv(r)
    }

    method IsNewConnectionAvailable(url: Url, ghost r: Registry) returns (available: bool)
      requires Shows(r)
      ensures available == Available(Limits(), r, url)
    {
      if Cap(maxConnections) <= clientCount {
        return false;
      }
      if url in urlDataMap {
        assert urlDataMap[url].View() == r.urls[url];
        if Cap(maxConnectionsByUrl) <= urlDataMap[url].clientCount {
          return false;
        }
      }
      return true;
    }

    method CountInEntry(cd: ClientData, ghost urls: map<Url, UrlEntry>, ghost registered: map<SessionId, ClientData>)
      returns (ok: bool)
      requires ShowsUrls(urls) && ListsWithin(registered) && cd.sessionId !in registered && cd.url in urlDataMap
      modifies urlDataMap.Values`clients, urlDataMap.Values`clientCount
      ensures ok == CountIn(Cap(maxConnectionsByUrl), urls, cd.sessionId, cd.url).1
      ensures ShowsUrls(CountIn(Cap(maxConnectionsByUrl), urls, cd.sessionId, cd.url).0)
      ensures ListsWithin(if ok then registered[cd.sessionId := cd] else registered)
    {
      hide Ids;
      forall u | u in urlDataMap {
        WithinMore(urlDataMap[u].clients, registered, cd);
      }
      ok := urlDataMap[cd.url].AddConnection(cd, maxConnectionsByUrl);
    }

    /** The middle of `add_connection`: count the client in its URL, or create the URL's data. */
    method CountInUrl(cd: ClientData, ghost urls: map<Url, UrlEntry>, ghost registered: map<SessionId, ClientData>)
      returns (ok: bool)
      requires ShowsUrls(urls) && ListsWithin(registered) && cd.sessionId !in registered
      modifies this`urlDataMap, urlDataMap.Values`clients, urlDataMap.Values`clientCount
      ensures ok == CountIn(Cap(maxConnectionsByUrl), urls, cd.sessionId, cd.url).1
      ensures ShowsUrls(CountIn(Cap(maxConnectionsByUrl), urls, cd.sessionId, cd.url).0)
      ensures ListsWithin(if ok then registered[cd.sessionId := cd] else registered)
      ensures forall u :: u in urlDataMap && !fresh(urlDataMap[u]) ==>
                u in old(urlDataMap) && urlDataMap[u] == old(urlDataMap[u])
    {
      hide Ids, AddToEntry;
      forall u | u in urlDataMap {
        WithinMore(urlDataMap[u].clients, registered, cd);
      }
      if cd.url in urlDataMap {
        ok := CountInEntry(cd, urls, registered);
      } else {
        var ud := new UrlData(cd);
        urlDataMap := urlDataMap[cd.url := ud];
        ok := true;
      }
    }

    /** `add_connection` past the global check, on the objects; that the counts agree is not needed for it. */
    method AddClient(cd: ClientData, ghost r: Registry) returns (ok: bool)
      requires Shows(r) && clientCount < Cap(maxConnections)
      requires cd.sessionId !in connectionMap && cd.routingInfo == None
      modifies this`connectionMap, this`urlDataMap, this`clientCount
      modifies urlDataMap.Values`clients, urlDataMap.Values`clientCount
      ensures Shows(Add(Limits(), r, cd.sessionId, cd.url).0)
      ensures ok == Add(Limits(), r, cd.sessionId, cd.url).1
      ensures connectionMap == if ok then old(connectionMap)[cd.sessionId := cd] else old(connectionMap)
      ensures forall u :: u in urlDataMap && !fresh(urlDataMap[u]) ==>
                u in old(urlDataMap) && urlDataMap[u] == old(urlDataMap[u])
    {
      hide ShowsUrls, ShowsClients;
      ghost var registered := connectionMap;
      ShowsRegistered(registered, r.conn, r.reports, cd);
      ShowsRolledBack(registered, r.conn, r.reports, cd);
      clientCount := clientCount + 1;
      connectionMap := connectionMap[cd.sessionId := cd];
      ok := CountInUrl(cd, r.urls, registered);
      if !ok {
        clientCount := FetchSub(clientCount);
        connectionMap := connectionMap - {cd.sessionId};
      }
    }

    method AddConnection(cd: ClientData, ghost r: Registry) returns (ok: bool)
      requires Valid(r) && cd.sessionId !in connectionMap && cd.routingInfo == None
      modifies this, urlDataMap.Values
      ensures Valid(Add(Limits(), r, cd.sessionId, cd.url).0)
      ensures ok == Add(Limits(), r, cd.sessionId, cd.url).1
      ensures connectionMap == if ok then old(connectionMap)[cd.sessionId := cd] else old(connectionMap)
      ensures forall u :: u in urlDataMap && !fresh(urlDataMap[u]) ==>
                u in old(urlDataMap) && urlDataMap[u] == old(urlDataMap[u])
    {
      AddRefines(Limits(), r, cd.sessionId, cd.url);
      if Cap(maxConnections) <= clientCount {
        return false;
      }
      ok := AddClient(cd, r);
    }

    /** The end of `remove_connection`: uncount the session in its URL, and drop the URL when it is empty. */
    method UncountInUrl(s: SessionId, url: Url, ghost urls: map<Url, UrlEntry>,
                        ghost registered: map<SessionId, ClientData>)
      requires ShowsUrls(urls) && ListsWithin(registered)
      modifies this`urlDataMap
      modifies urlDataMap.Values`clients, urlDataMap.Values`clientCount, urlDataMap.Values`routingInfo
      ensures ShowsUrls(UncountIn(urls, s, url)) && ListsWithin(registered)
      ensures forall u :: u in urlDataMap ==> u in old(urlDataMap) && urlDataMap[u] == old(urlDataMap[u])
    {
      if url in urlDataMap {
        urlDataMap[url].RemoveConnection(s);
      }
      if url in urlDataMap && urlDataMap[url].IsEmpty() {
        urlDataMap := urlDataMap - {url};
      }
    }

    /** Client lists that agree with the session map hold its objects only. */
    lemma ListsWithinConnections(r: Registry, registered: map<SessionId, ClientData>)
      requires ShowsUrls(r.urls) && ListsWithin(registered) && Inv(r)
      requires connectionMap.Keys == r.conn.Keys
      requires forall s :: s in connectionMap ==> s in registered && registered[s] == connectionMap[s]
      ensures ListsWithin(connectionMap)
    {
      forall u, cd | u in urlDataMap && cd in urlDataMap[u].clients
        ensures cd.sessionId in connectionMap && connectionMap[cd.sessionId] == cd
      {
        assert Within(urlDataMap[u].clients, registered);
        var i :| 0 <= i < |urlDataMap[u].clients| && urlDataMap[u].clients[i] == cd;
        assert r.urls[u].clients[i] == cd.sessionId;
        assert cd.sessionId in r.urls[u].clients;
        assert EntryOk(r.urls[u], r.conn, u);
      }
    }

    /** `remove_connection` of a registered client, on the objects. */
    method RemoveClient(s: SessionId, ghost r: Registry)
      requires Shows(r) && s in connectionMap
      modifies this`connectionMap, this`urlDataMap, this`clientCount
      modifies urlDataMap.Values`clients, urlDataMap.Values`clientCount, urlDataMap.Values`routingInfo
      ensures clientCount == Remove(r, s).total && connectionMap == old(connectionMap) - {s}
      ensures ShowsClients(connectionMap, Remove(r, s).conn, Remove(r, s).reports)
      ensures ShowsUrls(Remove(r, s).urls) && ListsWithin(old(connectionMap))
      ensures forall u :: u in urlDataMap ==> u in old(urlDataMap) && urlDataMap[u] == old(urlDataMap[u])
    {
      ghost var registered := connectionMap;
      var cd := connectionMap[s];
      connectionMap := connectionMap - {s};
      clientCount := FetchSub(clientCount);
      UncountInUrl(s, cd.url, r.urls, registered);
    }

    method RemoveConnection(s: SessionId, ghost r: Registry)
      requires Valid(r)
      modifies this, urlDataMap.Values
      ensures Valid(Remove(r, s))
      ensures connectionMap == old(connectionMap) - {s}
      ensures forall u :: u in urlDataMap ==> u in old(urlDataMap) && urlDataMap[u] == old(urlDataMap[u])
    {
      hide ShowsUrls, EntryOk;
      ghost var registered := connectionMap;
      RemoveRefines(r, s);
      if s in connectionMap {
        RemoveClient(s, r);
        ListsWithinConnections(Remove(r, s), registered);
      }
    }

    /** The registry part of `enter`. */
    method EnterConnection(s: SessionId, url: Url, ghost r: Registry) returns (ok: bool)
      requires Valid(r)
      modifies this, urlDataMap.Values
      ensures Valid(Enter(Limits(), r, s, url).0)
      ensures ok == Enter(Limits(), r, s, url).1
    {
      hide Add, Remove, Inv, Shows, Available;
      var available := IsNewConnectionAvailable(url, r);
      if !available {
        return false;
      }
      RemoveConnection(s, r);
      var cd := new ClientData(s, url);
      ok := AddConnection(cd, Remove(r, s));
    }

    /** A refresh of one URL's data changes its entry only. */
    method RefreshUrl(url: Url, now: int, ghost urls: map<Url, UrlEntry>, ghost reports: map<SessionId, RoutingInfo>)
      requires ShowsUrls(urls) && url in urlDataMap
      requires Reported(Taken(urlDataMap[url].clients)) == Reports(FirstClients(Ids(urlDataMap[url].clients)), reports)
      modifies {urlDataMap[url]}`routingInfo, {urlDataMap[url]}`routingInfoUpdated
      ensures url in urls && ShowsUrls(urls[url := RefreshEntry(urls[url], reports, now)])
      ensures urlDataMap[url].routingInfo == RefreshEntry(urls[url], reports, now).cache
    {
      hide Reports, FirstClients;
      assert urlDataMap[url].View() == urls[url];
      urlDataMap[url].UpdateRoutingInfoIfNeeded(now);
      assert urlDataMap[url].View() == RefreshEntry(urls[url], reports, now);
    }

    /** The refresh inside an exchange, seen from the registry. */
    method RefreshCache(url: Url, now: int, ghost r: Registry)
      requires Shows(r) && url in urlDataMap
      modifies {urlDataMap[url]}`routingInfo, {urlDataMap[url]}`routingInfoUpdated
      ensures url in r.urls && Shows(Refresh(r, url, now))
      ensures urlDataMap[url].routingInfo == Refresh(r, url, now).urls[url].cache
    {
      hide ShowsUrls, ShowsClients;
      TakenMatches(urlDataMap[url].clients, connectionMap, r.conn, r.reports);
      RefreshUrl(url, now, r.urls, r.reports);
    }

    /** The report inside an exchange, seen from the registry. */
    method StoreReport(cd: ClientData, req: RoutingInfo, ghost r: Registry)
      requires Shows(r)
      modifies cd
      ensures Shows(Reporting(r, cd, req))
    {
      hide ShowsUrls, ListsWithin;
      cd.SetRoutingInfo(req);
    }

    lemma ShownUrls(r: Registry)
      requires ShowsUrls(r.urls)
      ensures urlDataMap.Keys == r.urls.Keys
    {
    }

    lemma RegisteredUrl(r: Registry, cd: ClientData)
      requires ShowsClients(connectionMap, r.conn, r.reports) && Inv(r)
      ensures IsRegistered(cd) ==> cd.url in r.urls
    {
    }

    lemma ReportingKeepsInv(r: Registry, cd: ClientData, req: RoutingInfo)
      requires Inv(r) && connectionMap.Keys == r.conn.Keys
      ensures Inv(Reporting(r, cd, req))
    {
    }

    predicate IsRegistered(cd: ClientData)
      reads this`connectionMap
    {
      cd.sessionId in connectionMap && connectionMap[cd.sessionId] == cd
    }

    /** The registry once cd has stored its report; a client that is no longer registered is not seen there. */
    ghost function Reporting(r: Registry, cd: ClientData, req: RoutingInfo): Registry
      reads this`connectionMap
    {
      if IsRegistered(cd) then r.(reports := r.reports[cd.sessionId := Flatten(req)]) else r
    }

    /** `exchange_routeing_info`; None stands for its `unreachable!`, which no registered client meets. */
    method ExchangeRoutingInfo(cd: ClientData, req: RoutingInfo, now: int, ghost r: Registry)
      returns (answer: Option<RoutingInfo>)
      requires Valid(r)
      modifies cd, urlDataMap.Values`routingInfo, urlDataMap.Values`routingInfoUpdated
      ensures answer.None? <==> cd.url !in r.urls
      ensures answer.None? ==> !IsRegistered(cd) && Valid(r)
      ensures answer.Some? ==> Valid(Refresh(Reporting(r, cd, req), cd.url, now))
      ensures answer.Some? ==>
                Answers(answer.value, Refresh(Reporting(r, cd, req), cd.url, now).urls[cd.url].cache, maxRoutingResults)
    {
      hide Inv, ShowsUrls, ListsWithin, RefreshEntry, Flatten;
      ghost var reported := Reporting(r, cd, req);
      ReportingKeepsInv(r, cd, req);
      RegisteredUrl(r, cd);
      StoreReport(cd, req, r);
      ShownUrls(reported);
      if cd.url !in urlDataMap {
        return None;
      }
      RefreshCache(cd.url, now, reported);
      RefreshKeepsInv(reported, cd.url, now);
      var ri := urlDataMap[cd.url].routingInfo;
      if ri.relation.Infos? && maxRoutingResults < |ri.relation.infos| {
        var relation := ChooseMultiple(ri.relation.infos, maxRoutingResults);
        return Some(ri.(relation := Infos(relation)));
      }
      return Some(ri);
    }
  }
}
