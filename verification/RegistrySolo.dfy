/** An operation whose accesses are not interleaved with others is the atomic operation of RegistrySpec. */
module RegistrySolo {
  import opened RoutingInfos
  import opened RegistrySpec
  import opened RegistrySteps

  /** n accesses of s in a row. */
  function Alone(cfg: Config, y: Sys, s: SessionId, command: Command, n: nat): Sys {
    if n == 0 then y else Next(cfg, Alone(cfg, y, s, command, n - 1), s, command)
  }

  /** Accesses of s alone lead from y to z, and s is under way all along. */
  ghost predicate Leads(cfg: Config, y: Sys, s: SessionId, command: Command, z: Sys) {
    exists n: nat :: Alone(cfg, y, s, command, n) == z && BusyUpto(cfg, y, s, command, n)
  }

  ghost predicate BusyUpto(cfg: Config, y: Sys, s: SessionId, command: Command, n: nat) {
    forall k: nat :: 0 < k <= n ==> !PcOf(Alone(cfg, y, s, command, k), s).Idle?
  }

  lemma LeadsNowhere(cfg: Config, y: Sys, s: SessionId, command: Command)
    ensures Leads(cfg, y, s, command, y)
  {
    assert Alone(cfg, y, s, command, 0) == y && BusyUpto(cfg, y, s, command, 0);
  }

  lemma LeadsOn(cfg: Config, y: Sys, s: SessionId, command: Command, z: Sys)
    requires Leads(cfg, y, s, command, z) && !PcOf(Next(cfg, z, s, command), s).Idle?
    ensures Leads(cfg, y, s, command, Next(cfg, z, s, command))
  {
    hide Next;
    var n: nat :| Alone(cfg, y, s, command, n) == z && BusyUpto(cfg, y, s, command, n);
    assert Alone(cfg, y, s, command, n + 1) == Next(cfg, z, s, command);
    assert BusyUpto(cfg, y, s, command, n + 1);
  }

  /** Where s is and what the memory is, after accesses of s alone from y. */
  ghost predicate Got(cfg: Config, y: Sys, s: SessionId, command: Command, z: Sys, pc: Pc, total: u64,
                      conn: map<SessionId, Url>, urls: map<Url, UdId>, heap: seq<Ud>)
  {
    && Leads(cfg, y, s, command, z) && PcOf(z, s) == pc
    && (forall x :: x != s ==> PcOf(z, x) == PcOf(y, x))
    && z.total == total && z.conn == conn && z.urls == urls && z.heap == heap
  }

  lemma GotOn(cfg: Config, y: Sys, s: SessionId, command: Command, z: Sys, w: Sys, pc: Pc)
    requires Got(cfg, y, s, command, z, PcOf(z, s), z.total, z.conn, z.urls, z.heap)
    requires Next(cfg, z, s, command) == At(w, s, pc) && w.pc == z.pc && !pc.Idle?
    ensures Got(cfg, y, s, command, At(w, s, pc), pc, w.total, w.conn, w.urls, w.heap)
  {
    hide Next, Leads;
    LeadsOn(cfg, y, s, command, z);
  }

  /** s has just ended its operation in z, by the access it does at `last`, and this is what the memory is. */
  ghost predicate Home(cfg: Config, y: Sys, s: SessionId, command: Command, z: Sys, last: Pc, total: u64,
                       conn: map<SessionId, Url>, urls: map<Url, UdId>, heap: seq<Ud>)
  {
    && (exists x :: Leads(cfg, y, s, command, x) && PcOf(x, s) == last && z == Next(cfg, x, s, command))
    && !last.Idle? && PcOf(z, s).Idle?
    && (forall x :: x != s ==> PcOf(z, x) == PcOf(y, x))
    && z.total == total && z.conn == conn && z.urls == urls && z.heap == heap
  }

  lemma GotHome(cfg: Config, y: Sys, s: SessionId, command: Command, z: Sys, w: Sys)
    requires Got(cfg, y, s, command, z, PcOf(z, s), z.total, z.conn, z.urls, z.heap)
    requires Next(cfg, z, s, command) == At(w, s, Idle) && w.pc == z.pc && !PcOf(z, s).Idle?
    ensures Home(cfg, y, s, command, At(w, s, Idle), PcOf(z, s), w.total, w.conn, w.urls, w.heap)
  {
    hide Next, Leads;
  }

  lemma GotNowhere(cfg: Config, y: Sys, s: SessionId, command: Command)
    ensures Got(cfg, y, s, command, y, PcOf(y, s), y.total, y.conn, y.urls, y.heap)
  {
    LeadsNowhere(cfg, y, s, command);
  }

  /** Up to the global slot: a refusal at the cap, or a slot and the session in the map. */
  lemma AloneRefused(cfg: Config, y: Sys, s: SessionId, u: Url) returns (z: Sys)
    requires PcOf(y, s).Idle? && s !in y.conn && Cap(cfg.maxConnections) <= y.total
    ensures Home(cfg, y, s, StartAdd(u), z, AddLoad(u), y.total, y.conn, y.urls, y.heap)
  {
    hide Got, Home;
    GotNowhere(cfg, y, s, StartAdd(u));
    GotOn(cfg, y, s, StartAdd(u), y, y, AddLoad(u));
    z := At(y, s, AddLoad(u));
    GotHome(cfg, y, s, StartAdd(u), z, z);
    z := At(z, s, Idle);
  }

  lemma AlonePublished(cfg: Config, y: Sys, s: SessionId, u: Url) returns (z: Sys)
    requires PcOf(y, s).Idle? && s !in y.conn && y.total < Cap(cfg.maxConnections)
    ensures Got(cfg, y, s, StartAdd(u), z, AddEntry(u), y.total + 1, y.conn[s := u], y.urls, y.heap)
    ensures z.locks == y.locks
  {
    hide Got, Home;
    GotNowhere(cfg, y, s, StartAdd(u));
    GotOn(cfg, y, s, StartAdd(u), y, y, AddLoad(u));
    z := At(y, s, AddLoad(u));
    GotOn(cfg, y, s, StartAdd(u), z, z, AddCas(u, y.total));
    z := At(z, s, AddCas(u, y.total));
    var w := z.(total := y.total + 1, slots := z.slots + {s});
    GotOn(cfg, y, s, StartAdd(u), z, w, AddPublish(u));
    z := At(w, s, AddPublish(u));
    w := z.(conn := z.conn[s := u]);
    GotOn(cfg, y, s, StartAdd(u), z, w, AddEntry(u));
    z := At(w, s, AddEntry(u));
  }

  /** From the lock on: a new entry. */
  lemma AloneVacant(cfg: Config, y: Sys, s: SessionId, u: Url, x: Sys) returns (z: Sys)
    requires Got(cfg, y, s, StartAdd(u), x, AddEntry(u), x.total, x.conn, x.urls, x.heap)
    requires u !in x.locks && u !in x.urls
    ensures Home(cfg, y, s, StartAdd(u), z, EntryRelease(u, true), x.total, x.conn, x.urls[u := |x.heap|], x.heap + [Ud(u, 1, [s])])
  {
    assert PcOf(x, s) == AddEntry(u);
    hide Got, Home;
    var ud := |x.heap|;
    var w := x.(heap := x.heap + [Ud(u, 1, [s])], urls := x.urls[u := ud], counted := x.counted[s := ud],
                locks := x.locks[u := s]);
    GotOn(cfg, y, s, StartAdd(u), x, w, EntryRelease(u, true));
    z := At(w, s, EntryRelease(u, true));
    w := z.(locks := z.locks - {u});
    GotHome(cfg, y, s, StartAdd(u), z, w);
    z := At(w, s, Idle);
  }

  /** An entry with room: the session locks it, passes the check and is counted. */
  lemma AloneChecked(cfg: Config, y: Sys, s: SessionId, u: Url, x: Sys) returns (z: Sys)
    requires Got(cfg, y, s, StartAdd(u), x, AddEntry(u), x.total, x.conn, x.urls, x.heap)
    requires u !in x.locks && u in x.urls && x.urls[u] < |x.heap|
    requires x.heap[x.urls[u]].count < Cap(cfg.maxByUrl)
    ensures Got(cfg, y, s, StartAdd(u), z, EntryCas(u, x.urls[u], x.heap[x.urls[u]].count), x.total, x.conn, x.urls, x.heap)
  {
    assert PcOf(x, s) == AddEntry(u);
    hide Got, Home;
    var ud, d := x.urls[u], x.heap[x.urls[u]];
    var w := x.(locks := x.locks[u := s]);
    GotOn(cfg, y, s, StartAdd(u), x, w, EntryLoad(u, ud));
    z := At(w, s, EntryLoad(u, ud));
    GotOn(cfg, y, s, StartAdd(u), z, z, EntryCas(u, ud, d.count));
    z := At(z, s, EntryCas(u, ud, d.count));
  }

  lemma AloneCounted(cfg: Config, y: Sys, s: SessionId, u: Url, x: Sys, ud: UdId, d: Ud) returns (z: Sys)
    requires Got(cfg, y, s, StartAdd(u), x, EntryCas(u, ud, d.count), x.total, x.conn, x.urls, x.heap)
    requires ud < |x.heap| && x.heap[ud] == d && d.count < USIZE_MAX
    ensures Got(cfg, y, s, StartAdd(u), z, EntryPush(u, ud), x.total, x.conn, x.urls,
                x.heap[ud := Ud(d.url, d.count + 1, d.clients)])
  {
    assert PcOf(x, s) == EntryCas(u, ud, d.count);
    hide Got, Home;
    var w := x.(heap := x.heap[ud := d.(count := d.count + 1)], counted := x.counted[s := ud]);
    GotOn(cfg, y, s, StartAdd(u), x, w, EntryPush(u, ud));
    z := At(w, s, EntryPush(u, ud));
  }

  lemma AlonePushed(cfg: Config, y: Sys, s: SessionId, u: Url, x: Sys, ud: UdId, d: Ud) returns (z: Sys)
    requires Got(cfg, y, s, StartAdd(u), x, EntryPush(u, ud), x.total, x.conn, x.urls, x.heap)
    requires ud < |x.heap| && x.heap[ud] == d
    ensures Home(cfg, y, s, StartAdd(u), z, EntryRelease(u, true), x.total, x.conn, x.urls,
                 x.heap[ud := Ud(d.url, d.count, d.clients + [s])])
  {
    assert PcOf(x, s) == EntryPush(u, ud);
    hide Got, Home;
    var w := x.(heap := x.heap[ud := Ud(d.url, d.count, d.clients + [s])]);
    GotOn(cfg, y, s, StartAdd(u), x, w, EntryRelease(u, true));
    z := At(w, s, EntryRelease(u, true));
    w := z.(locks := z.locks - {u});
    GotHome(cfg, y, s, StartAdd(u), z, w);
    z := At(w, s, Idle);
  }

  /** A full entry: the lock is given up again. */
  lemma AloneFull(cfg: Config, y: Sys, s: SessionId, u: Url, x: Sys) returns (z: Sys)
    requires Got(cfg, y, s, StartAdd(u), x, AddEntry(u), x.total, x.conn, x.urls, x.heap)
    requires u !in x.locks && u in x.urls && x.urls[u] < |x.heap|
    requires Cap(cfg.maxByUrl) <= x.heap[x.urls[u]].count
    ensures Got(cfg, y, s, StartAdd(u), z, RollCount(u), x.total, x.conn, x.urls, x.heap)
  {
    assert PcOf(x, s) == AddEntry(u);
    hide Got, Home;
    var ud := x.urls[u];
    var w := x.(locks := x.locks[u := s]);
    GotOn(cfg, y, s, StartAdd(u), x, w, EntryLoad(u, ud));
    z := At(w, s, EntryLoad(u, ud));
    GotOn(cfg, y, s, StartAdd(u), z, z, EntryRelease(u, false));
    z := At(z, s, EntryRelease(u, false));
    w := z.(locks := z.locks - {u});
    GotOn(cfg, y, s, StartAdd(u), z, w, RollCount(u));
    z := At(w, s, RollCount(u));
  }

  /** The slot is given back and the session leaves the map again. */
  lemma AloneRolledBack(cfg: Config, y: Sys, s: SessionId, u: Url, x: Sys) returns (z: Sys)
    requires Got(cfg, y, s, StartAdd(u), x, RollCount(u), x.total, x.conn, x.urls, x.heap)
    ensures Home(cfg, y, s, StartAdd(u), z, RollPublish(u), FetchSub(x.total), x.conn - {s}, x.urls, x.heap)
  {
    assert PcOf(x, s) == RollCount(u);
    hide Got, Home;
    var w := x.(total := FetchSub(x.total), slots := x.slots - {s});
    GotOn(cfg, y, s, StartAdd(u), x, w, RollPublish(u));
    z := At(w, s, RollPublish(u));
    w := z.(conn := z.conn - {s});
    GotHome(cfg, y, s, StartAdd(u), z, w);
    z := At(w, s, Idle);
  }

  /** A removal up to the lookup of the URL's data. */
  lemma AloneTaken(cfg: Config, y: Sys, s: SessionId) returns (z: Sys)
    requires PcOf(y, s).Idle? && s in y.conn
    ensures Got(cfg, y, s, StartRemove, z, RemGet(y.conn[s]), FetchSub(y.total), y.conn - {s}, y.urls, y.heap)
    ensures z.locks == y.locks
  {
    hide Got, Home;
    var u := y.conn[s];
    GotNowhere(cfg, y, s, StartRemove);
    GotOn(cfg, y, s, StartRemove, y, y, RemTake);
    z := At(y, s, RemTake);
    var w := z.(conn := z.conn - {s});
    GotOn(cfg, y, s, StartRemove, z, w, RemCount(u));
    z := At(w, s, RemCount(u));
    w := z.(total := FetchSub(z.total), slots := z.slots - {s});
    GotOn(cfg, y, s, StartRemove, z, w, RemGet(u));
    z := At(w, s, RemGet(u));
  }

  lemma AloneUncounted(cfg: Config, y: Sys, s: SessionId, u: Url, x: Sys, ud: UdId) returns (z: Sys)
    requires Got(cfg, y, s, StartRemove, x, RemGet(u), x.total, x.conn, x.urls, x.heap)
    requires u !in x.locks && u in x.urls && x.urls[u] == ud < |x.heap|
    ensures Got(cfg, y, s, StartRemove, z, RemRetain(u, ud), x.total, x.conn, x.urls,
                x.heap[ud := x.heap[ud].(count := FetchSub(x.heap[ud].count))])
    ensures z.locks == x.locks
  {
    assert PcOf(x, s) == RemGet(u);
    hide Got, Home;
    GotOn(cfg, y, s, StartRemove, x, x, RemUrlCount(u, ud));
    z := At(x, s, RemUrlCount(u, ud));
    var d := x.heap[ud];
    var w := z.(heap := z.heap[ud := d.(count := FetchSub(d.count))], counted := z.counted - {s});
    GotOn(cfg, y, s, StartRemove, z, w, RemRetain(u, ud));
    z := At(w, s, RemRetain(u, ud));
  }

  lemma AloneDropped(cfg: Config, y: Sys, s: SessionId, u: Url, x: Sys, ud: UdId) returns (z: Sys)
    requires Got(cfg, y, s, StartRemove, x, RemRetain(u, ud), x.total, x.conn, x.urls, x.heap)
    requires u !in x.locks && u in x.urls && x.urls[u] == ud < |x.heap|
    ensures Home(cfg, y, s, StartRemove, z, RemDrop(u), x.total, x.conn,
                if x.heap[ud].count == 0 then x.urls - {u} else x.urls,
                x.heap[ud := x.heap[ud].(clients := Without(x.heap[ud].clients, s))])
  {
    assert PcOf(x, s) == RemRetain(u, ud);
    hide Got, Home, Without;
    var w := x.(heap := x.heap[ud := x.heap[ud].(clients := Without(x.heap[ud].clients, s))]);
    GotOn(cfg, y, s, StartRemove, x, w, RemDrop(u));
    z := At(w, s, RemDrop(u));
    w := if x.heap[ud].count == 0 then z.(urls := z.urls - {u}) else z;
    GotHome(cfg, y, s, StartRemove, z, w);
    z := At(w, s, Idle);
  }

  // ----- the memory as a registry -----

  /** The entries of the URL map that the data objects show. */
  function Entries(urls: map<Url, UdId>, heap: seq<Ud>): map<Url, UrlEntry> {
    map u | u in urls ::
      var d := if urls[u] < |heap| then heap[urls[u]] else Ud("", 0, []);
      UrlEntry(d.clients, d.count, 0, TrackerInfo([]))
  }

  /** Every entry has a data object of its own. */
  ghost predicate OwnData(urls: map<Url, UdId>, heap: seq<Ud>) {
    && (forall u :: u in urls ==> urls[u] < |heap|)
    && (forall u, v :: u in urls && v in urls && urls[u] == urls[v] ==> u == v)
  }

  lemma OwnDataKept(urls: map<Url, UdId>, heap: seq<Ud>, urls': map<Url, UdId>, heap': seq<Ud>)
    requires OwnData(urls, heap) && |heap| <= |heap'| && urls'.Keys <= urls.Keys
    requires forall u :: u in urls' ==> urls'[u] == urls[u]
    ensures OwnData(urls', heap')
  {
  }

  lemma OwnDataAdded(urls: map<Url, UdId>, heap: seq<Ud>, u: Url, d: Ud)
    requires OwnData(urls, heap)
    ensures OwnData(urls[u := |heap|], heap + [d])
  {
  }

  lemma EntriesWritten(urls: map<Url, UdId>, heap: seq<Ud>, u: Url, d: Ud)
    requires OwnData(urls, heap) && u in urls
    ensures Entries(urls, heap[urls[u] := d])
         == Entries(urls, heap)[u := UrlEntry(d.clients, d.count, 0, TrackerInfo([]))]
  {
  }

  lemma EntriesAdded(urls: map<Url, UdId>, heap: seq<Ud>, u: Url, d: Ud)
    requires OwnData(urls, heap)
    ensures Entries(urls[u := |heap|], heap + [d])
         == Entries(urls, heap)[u := UrlEntry(d.clients, d.count, 0, TrackerInfo([]))]
  {
  }

  lemma RegistryView(y: Sys)
    requires OwnData(y.urls, y.heap)
    ensures ToRegistry(y) == Registry(y.total, y.conn, Entries(y.urls, y.heap), map[])
  {
  }

  // ----- the two levels agree -----

  /** From y, the operation of s takes exactly n accesses when s runs alone, the last of them at `last`; nobody else
      moves, and the memory then shows r. */
  ghost predicate Runs(cfg: Config, y: Sys, s: SessionId, command: Command, n: nat, last: Pc, r: Registry) {
    && n > 0 && PcOf(Alone(cfg, y, s, command, n), s).Idle?
    && (forall k: nat :: 0 < k < n ==> !PcOf(Alone(cfg, y, s, command, k), s).Idle?)
    && !last.Idle? && PcOf(Alone(cfg, y, s, command, n - 1), s) == last
    && (forall x :: x != s ==> PcOf(Alone(cfg, y, s, command, n), x) == PcOf(y, x))
    && ToRegistry(Alone(cfg, y, s, command, n)) == r
  }

  /** The accesses of `add_connection`, in a row, do what the atomic operation does: same memory, and same verdict, as
      the operation returns true exactly by giving up the lock of an entry that it was counted in. */
  lemma SoloAdd(cfg: Config, y: Sys, s: SessionId, u: Url) returns (n: nat, last: Pc)
    requires Reachable(cfg, y) && PcOf(y, s).Idle? && s !in y.conn && u !in y.locks
    ensures Runs(cfg, y, s, StartAdd(u), n, last, Add(cfg, ToRegistry(y), s, u).0)
    ensures Add(cfg, ToRegistry(y), s, u).1 <==> last == EntryRelease(u, true)
  {
    ReachableSound(cfg, y);
    RegistryView(y);
    hide Reachable, Sound, Leads, Runs, Home;
    if Cap(cfg.maxConnections) <= y.total {
      last := AddLoad(u);
      var z := AloneRefused(cfg, y, s, u);
      n := HomeRuns(cfg, y, s, StartAdd(u), z, last, y.total, y.conn, y.urls, y.heap);
    } else {
      var x := AlonePublished(cfg, y, s, u);
      if u !in y.urls {
        last := EntryRelease(u, true);
        n := SoloVacant(cfg, y, s, u, x);
      } else if Cap(cfg.maxByUrl) <= y.heap[y.urls[u]].count {
        last := RollPublish(u);
        n := SoloFull(cfg, y, s, u, x);
      } else {
        last := EntryRelease(u, true);
        n := SoloRoom(cfg, y, s, u, x, y.urls[u], y.heap[y.urls[u]]);
      }
    }
  }

  /** The registry that the memory shows. */
  function Shown(total: u64, conn: map<SessionId, Url>, urls: map<Url, UdId>, heap: seq<Ud>): Registry {
    Registry(total, conn, Entries(urls, heap), map[])
  }

  lemma FirstReturn(cfg: Config, y: Sys, s: SessionId, command: Command, x: Sys) returns (n: nat)
    requires Leads(cfg, y, s, command, x)
    ensures n > 0 && Alone(cfg, y, s, command, n - 1) == x
    ensures Alone(cfg, y, s, command, n) == Next(cfg, x, s, command)
    ensures forall k: nat :: 0 < k < n ==> !PcOf(Alone(cfg, y, s, command, k), s).Idle?
  {
    hide Next, PcOf;
    var m: nat :| Alone(cfg, y, s, command, m) == x && BusyUpto(cfg, y, s, command, m);
    n := m + 1;
  }

  lemma HomeRuns(cfg: Config, y: Sys, s: SessionId, command: Command, z: Sys, last: Pc, total: u64,
                 conn: map<SessionId, Url>, urls: map<Url, UdId>, heap: seq<Ud>) returns (n: nat)
    requires Home(cfg, y, s, command, z, last, total, conn, urls, heap) && OwnData(urls, heap)
    ensures Runs(cfg, y, s, command, n, last, Shown(total, conn, urls, heap))
  {
    RegistryView(z);
    hide Next, ToRegistry, Entries, OwnData, Leads, Alone;
    var x :| Leads(cfg, y, s, command, x) && PcOf(x, s) == last && z == Next(cfg, x, s, command);
    n := FirstReturn(cfg, y, s, command, x);
  }

  lemma ShownVacant(cfg: Config, y: Sys, s: SessionId, u: Url)
    requires y.total < Cap(cfg.maxConnections) && OwnData(y.urls, y.heap) && u !in y.urls
    ensures Add(cfg, Shown(y.total, y.conn, y.urls, y.heap), s, u).1
    ensures Add(cfg, Shown(y.total, y.conn, y.urls, y.heap), s, u).0
         == Shown(y.total + 1, y.conn[s := u], y.urls[u := |y.heap|], y.heap + [Ud(u, 1, [s])])
  {
    hide Entries;
    EntriesAdded(y.urls, y.heap, u, Ud(u, 1, [s]));
    EntriesKeys(y.urls, y.heap, u);
  }

  lemma ShownFull(cfg: Config, y: Sys, s: SessionId, u: Url)
    requires y.total < Cap(cfg.maxConnections) && OwnData(y.urls, y.heap) && u in y.urls
    requires Cap(cfg.maxByUrl) <= y.heap[y.urls[u]].count
    ensures !Add(cfg, Shown(y.total, y.conn, y.urls, y.heap), s, u).1
    ensures Add(cfg, Shown(y.total, y.conn, y.urls, y.heap), s, u).0
         == Shown(FetchSub(y.total + 1), y.conn[s := u] - {s}, y.urls, y.heap)
  {
    hide Entries;
    EntriesWritten(y.urls, y.heap, u, y.heap[y.urls[u]]);
    EntriesKeys(y.urls, y.heap, u);
    assert y.heap[y.urls[u] := y.heap[y.urls[u]]] == y.heap;
  }

  lemma ShownRoom(cfg: Config, y: Sys, s: SessionId, u: Url, d: Ud)
    requires y.total < Cap(cfg.maxConnections) && OwnData(y.urls, y.heap) && u in y.urls
    requires d == y.heap[y.urls[u]] && d.count < Cap(cfg.maxByUrl)
    ensures Add(cfg, Shown(y.total, y.conn, y.urls, y.heap), s, u).1
    ensures Add(cfg, Shown(y.total, y.conn, y.urls, y.heap), s, u).0
         == Shown(y.total + 1, y.conn[s := u], y.urls,
                  y.heap[y.urls[u] := Ud(d.url, d.count + 1, d.clients + [s])])
  {
    hide Entries;
    EntriesWritten(y.urls, y.heap, u, Ud(d.url, d.count + 1, d.clients + [s]));
    EntriesKeys(y.urls, y.heap, u);
  }

  lemma ShownRemoved(y: Sys, s: SessionId, u: Url, d: Ud)
    requires s in y.conn && y.conn[s] == u && OwnData(y.urls, y.heap) && u in y.urls && d == y.heap[y.urls[u]]
    ensures Remove(Shown(y.total, y.conn, y.urls, y.heap), s)
         == Shown(FetchSub(y.total), y.conn - {s}, if FetchSub(d.count) == 0 then y.urls - {u} else y.urls,
                  y.heap[y.urls[u] := Ud(d.url, FetchSub(d.count), Without(d.clients, s))])
  {
    hide Entries, Without;
    var d' := Ud(d.url, FetchSub(d.count), Without(d.clients, s));
    EntriesWritten(y.urls, y.heap, u, d');
    EntriesKeys(y.urls, y.heap, u);
    EntriesDropped(y.urls, y.heap[y.urls[u] := d'], u);
    assert WithoutInfos([], s) == [];
    var r := Shown(y.total, y.conn, y.urls, y.heap);
    assert RemoveFromEntry(r.urls[u], s) == UrlEntry(d'.clients, d'.count, 0, TrackerInfo([]));
    assert r.urls[u := RemoveFromEntry(r.urls[u], s)] - {u} == r.urls - {u};
  }

  lemma EntriesKeys(urls: map<Url, UdId>, heap: seq<Ud>, u: Url)
    requires OwnData(urls, heap)
    ensures u in Entries(urls, heap) <==> u in urls
    ensures u in urls ==>
              Entries(urls, heap)[u] == UrlEntry(heap[urls[u]].clients, heap[urls[u]].count, 0, TrackerInfo([]))
  {
  }

  lemma EntriesDropped(urls: map<Url, UdId>, heap: seq<Ud>, u: Url)
    ensures Entries(urls - {u}, heap) == Entries(urls, heap) - {u}
  {
  }

  lemma WriteTwice(heap: seq<Ud>, ud: UdId, d: Ud, d': Ud)
    requires ud < |heap|
    ensures heap[ud := d][ud := d'] == heap[ud := d']
  {
  }

  lemma SoloVacant(cfg: Config, y: Sys, s: SessionId, u: Url, x: Sys) returns (n: nat)
    requires y.total < Cap(cfg.maxConnections) && OwnData(y.urls, y.heap) && u !in x.locks && u !in y.urls
    requires Got(cfg, y, s, StartAdd(u), x, AddEntry(u), y.total + 1, y.conn[s := u], y.urls, y.heap)
    ensures Runs(cfg, y, s, StartAdd(u), n, EntryRelease(u, true), Add(cfg, ToRegistry(y), s, u).0)
    ensures Add(cfg, ToRegistry(y), s, u).1
  {
    RegistryView(y);
    ShownVacant(cfg, y, s, u);
    OwnDataAdded(y.urls, y.heap, u, Ud(u, 1, [s]));
    hide OwnData, Got, Home, Leads, Runs, Add, ToRegistry, Entries, Shown, Cap, Next;
    var z := AloneVacant(cfg, y, s, u, x);
    n := HomeRuns(cfg, y, s, StartAdd(u), z, EntryRelease(u, true), x.total, x.conn, x.urls[u := |x.heap|],
                  x.heap + [Ud(u, 1, [s])]);
  }

  lemma SoloFull(cfg: Config, y: Sys, s: SessionId, u: Url, x: Sys) returns (n: nat)
    requires y.total < Cap(cfg.maxConnections) && OwnData(y.urls, y.heap) && u !in x.locks && u in y.urls
    requires Cap(cfg.maxByUrl) <= y.heap[y.urls[u]].count
    requires Got(cfg, y, s, StartAdd(u), x, AddEntry(u), y.total + 1, y.conn[s := u], y.urls, y.heap)
    ensures Runs(cfg, y, s, StartAdd(u), n, RollPublish(u), Add(cfg, ToRegistry(y), s, u).0)
    ensures !Add(cfg, ToRegistry(y), s, u).1
  {
    RegistryView(y);
    hide Leads, Runs, Add, ToRegistry, Entries, Shown, Cap, Next;
    var z := AloneFull(cfg, y, s, u, x);
    z := AloneRolledBack(cfg, y, s, u, z);
    ShownFull(cfg, y, s, u);
    n := HomeRuns(cfg, y, s, StartAdd(u), z, RollPublish(u), z.total, z.conn, z.urls, z.heap);
  }

  lemma AloneRoom(cfg: Config, y: Sys, s: SessionId, u: Url, x: Sys, ud: UdId, d: Ud) returns (z: Sys)
    requires Got(cfg, y, s, StartAdd(u), x, AddEntry(u), x.total, x.conn, x.urls, x.heap)
    requires u !in x.locks && u in x.urls && x.urls[u] == ud < |x.heap| && d == x.heap[ud]
    requires d.count < Cap(cfg.maxByUrl)
    ensures var heap := x.heap[ud := Ud(d.url, d.count + 1, d.clients)];
            && Got(cfg, y, s, StartAdd(u), z, EntryPush(u, ud), z.total, z.conn, z.urls, z.heap)
            && z.total == x.total && z.conn == x.conn && z.urls == x.urls && z.heap == heap
  {
    var x1 := AloneChecked(cfg, y, s, u, x);
    assert x1.total == x.total && x1.conn == x.conn && x1.urls == x.urls && x1.heap == x.heap;
    z := AloneCounted(cfg, y, s, u, x1, ud, d);
    hide Leads;
  }

  /** From the lock on: an entry with room. */
  lemma AloneEntered(cfg: Config, y: Sys, s: SessionId, u: Url, x: Sys, ud: UdId, d: Ud) returns (z: Sys)
    requires Got(cfg, y, s, StartAdd(u), x, AddEntry(u), x.total, x.conn, x.urls, x.heap)
    requires u !in x.locks && u in x.urls && x.urls[u] == ud < |x.heap| && d == x.heap[ud]
    requires d.count < Cap(cfg.maxByUrl)
    ensures Home(cfg, y, s, StartAdd(u), z, EntryRelease(u, true), x.total, x.conn, x.urls,
                 x.heap[ud := Ud(d.url, d.count + 1, d.clients + [s])])
  {
    hide Got, Home;
    var counted := Ud(d.url, d.count + 1, d.clients);
    var x2 := AloneRoom(cfg, y, s, u, x, ud, d);
    z := AlonePushed(cfg, y, s, u, x2, ud, counted);
    WriteTwice(x.heap, ud, counted, Ud(d.url, d.count + 1, d.clients + [s]));
  }

  lemma SoloRoom(cfg: Config, y: Sys, s: SessionId, u: Url, x: Sys, ud: UdId, d: Ud) returns (n: nat)
    requires y.total < Cap(cfg.maxConnections) && OwnData(y.urls, y.heap) && u !in x.locks && u in y.urls
    requires ud == y.urls[u] && d == y.heap[ud] && d.count < Cap(cfg.maxByUrl)
    requires Got(cfg, y, s, StartAdd(u), x, AddEntry(u), y.total + 1, y.conn[s := u], y.urls, y.heap)
    ensures Runs(cfg, y, s, StartAdd(u), n, EntryRelease(u, true), Add(cfg, ToRegistry(y), s, u).0)
    ensures Add(cfg, ToRegistry(y), s, u).1
  {
    RegistryView(y);
    ShownRoom(cfg, y, s, u, d);
    OwnDataKept(y.urls, y.heap, y.urls, y.heap[ud := Ud(d.url, d.count + 1, d.clients + [s])]);
    hide OwnData, Got, Home, Leads, Runs, Add, ToRegistry, Entries, Shown, Next;
    var z := AloneEntered(cfg, y, s, u, x, ud, d);
    n := HomeRuns(cfg, y, s, StartAdd(u), z, EntryRelease(u, true), x.total, x.conn, x.urls,
                  x.heap[ud := Ud(d.url, d.count + 1, d.clients + [s])]);
  }

  lemma HomeFields(cfg: Config, y: Sys, s: SessionId, command: Command, z: Sys, last: Pc, total: u64,
                   conn: map<SessionId, Url>, urls: map<Url, UdId>, heap: seq<Ud>)
    requires Home(cfg, y, s, command, z, last, total, conn, urls, heap)
    ensures z.total == total && z.conn == conn && z.urls == urls && z.heap == heap
  {
  }

  lemma SoloTaken(cfg: Config, y: Sys, s: SessionId, u: Url, ud: UdId, d: Ud) returns (n: nat)
    requires PcOf(y, s).Idle? && s in y.conn && y.conn[s] == u && u !in y.locks
    requires OwnData(y.urls, y.heap) && u in y.urls && ud == y.urls[u] && d == y.heap[ud]
    ensures Runs(cfg, y, s, StartRemove, n, RemDrop(u), Remove(ToRegistry(y), s))
  {
    RegistryView(y);
    ShownRemoved(y, s, u, d);
    hide OwnData, Home, Leads, Runs, Remove, ToRegistry, Entries, Shown, Without, Next;
    var z := AloneTaken(cfg, y, s);
    z := AloneUncounted(cfg, y, s, u, z, ud);
    assert z.heap[ud] == d.(count := FetchSub(d.count));
    var x := z;
    z := AloneDropped(cfg, y, s, u, x, ud);
    HomeFields(cfg, y, s, StartRemove, z, RemDrop(u), x.total, x.conn,
               if x.heap[ud].count == 0 then x.urls - {u} else x.urls,
               x.heap[ud := x.heap[ud].(clients := Without(x.heap[ud].clients, s))]);
    WriteTwice(y.heap, ud, d.(count := FetchSub(d.count)), Ud(d.url, FetchSub(d.count), Without(d.clients, s)));
    OwnDataKept(y.urls, y.heap, z.urls, z.heap);
    n := HomeRuns(cfg, y, s, StartRemove, z, RemDrop(u), z.total, z.conn, z.urls, z.heap);
  }

  /** The accesses of `remove_connection`, in a row, do what the atomic operation does; for an unknown session the
      first of them is the last. */
  lemma SoloRemove(cfg: Config, y: Sys, s: SessionId) returns (n: nat, last: Pc)
    requires Reachable(cfg, y) && PcOf(y, s).Idle? && (s in y.conn ==> y.conn[s] !in y.locks)
    ensures Runs(cfg, y, s, StartRemove, n, last, Remove(ToRegistry(y), s))
    ensures last == if s in y.conn then RemDrop(y.conn[s]) else RemTake
  {
    ReachableSound(cfg, y);
    RegistryView(y);
    if s in y.conn {
      assert SessionOk(cfg, y, s);
      CountedIsMapped(cfg, y, s);
      hide Reachable, Sound, Runs;
      var ud := y.urls[y.conn[s]];
      n := SoloTaken(cfg, y, s, y.conn[s], ud, y.heap[ud]);
      last := RemDrop(y.conn[s]);
    } else {
      hide Reachable, Sound, Runs, Got, Home;
      GotNowhere(cfg, y, s, StartRemove);
      GotOn(cfg, y, s, StartRemove, y, y, RemTake);
      var z := At(y, s, RemTake);
      GotHome(cfg, y, s, StartRemove, z, z);
      last := RemTake;
      n := HomeRuns(cfg, y, s, StartRemove, At(z, s, Idle), last, y.total, y.conn, y.urls, y.heap);
    }
  }
}
