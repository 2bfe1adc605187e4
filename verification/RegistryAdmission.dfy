/**
 What the counters are, in terms of the session map and the program counters, at every point of every
 interleaving; and hence exactly when an addition is refused.
 */
module RegistryAdmission {
  import opened Options
  import opened RoutingInfos
  import opened RegistrySpec
  import opened RegistrySteps

  // ----- sessions in flight -----

  /** Sessions that the global counter counts but the session map does not show: about to be, or just taken out. */
  function Unshown(y: Sys): set<SessionId> {
    set s | s in y.pc && (y.pc[s].AddPublish? || y.pc[s].RemCount?)
  }

  /** Sessions that the session map shows but the global counter no longer counts: refused, about to be taken out. */
  function GivenUp(y: Sys): set<SessionId> {
    set s | s in y.pc && y.pc[s].RollPublish?
  }

  /** Sessions that the counter of u counts although the session map no longer shows them. */
  function Leaving(y: Sys, u: Url): set<SessionId> {
    set s | s in y.pc && (y.pc[s].RemCount? || y.pc[s].RemGet? || y.pc[s].RemUrlCount?) && y.pc[s].url == u
  }

  predicate IsUndecided(pc: Pc) {
    || pc.AddEntry? || pc.EntryLoad? || pc.EntryCas? || (pc.EntryRelease? && !pc.ok)
    || pc.RollCount? || pc.RollPublish?
  }

  /** Sessions that the session map shows at u although its counter does not, or will never, count them. */
  function Undecided(y: Sys, u: Url): set<SessionId> {
    set s | s in y.pc && IsUndecided(y.pc[s]) && y.pc[s].url == u
  }

  function CountAt(y: Sys, u: Url): u64 {
    if u in y.urls then DataOf(y, y.urls[u]).count else 0
  }

  function CountedAt(y: Sys, u: Url): set<SessionId> {
    if u in y.urls then CountedIn(y.counted, y.urls[u]) else {}
  }

  // ----- the counters -----

  lemma SameSize<T>(a: set<T>, b: set<T>, c: set<T>, d: set<T>)
    requires forall x :: x in a || x in b <==> x in c || x in d
    requires forall x :: !(x in a && x in b) && !(x in c && x in d)
    ensures |a| + |b| == |c| + |d|
  {
    assert a + b == c + d;
    assert a !! b && c !! d;
    assert |a + b| == |a| + |b| && |c + d| == |c| + |d|;
  }

  lemma WhereSlotted(cfg: Config, y: Sys, s: SessionId)
    requires Sound(cfg, y)
    ensures s in y.slots || s in GivenUp(y) <==> s in y.conn.Keys || s in Unshown(y)
    ensures !(s in y.slots && s in GivenUp(y)) && !(s in y.conn.Keys && s in Unshown(y))
  {
    assert SessionOk(cfg, y, s);
  }

  /** The global counter is the size of the session map, corrected by the sessions in flight. */
  lemma TotalAccount(cfg: Config, y: Sys)
    requires Reachable(cfg, y)
    ensures y.total == |y.conn| + |Unshown(y)| - |GivenUp(y)|
  {
    ReachableSound(cfg, y);
    hide Sound, Unshown, GivenUp, Reachable;
    forall s
      ensures s in y.slots || s in GivenUp(y) <==> s in y.conn.Keys || s in Unshown(y)
      ensures !(s in y.slots && s in GivenUp(y)) && !(s in y.conn.Keys && s in Unshown(y))
    {
      WhereSlotted(cfg, y, s);
    }
    SameSize(y.slots, GivenUp(y), y.conn.Keys, Unshown(y));
  }

  lemma CountAtIsCounted(cfg: Config, y: Sys, u: Url)
    requires Sound(cfg, y)
    ensures CountAt(y, u) == |CountedAt(y, u)|
    ensures CountAt(y, u) <= 1 || CountAt(y, u) <= Cap(cfg.maxByUrl)
  {
    if u in y.urls {
      assert MappedOk(y, u) && CountOk(cfg, y, y.urls[u]);
    }
  }

  lemma WhereCounted(cfg: Config, y: Sys, u: Url, s: SessionId)
    requires Sound(cfg, y)
    ensures s in CountedAt(y, u) || s in Undecided(y, u) <==> s in SessionsAt(y.conn, u) || s in Leaving(y, u)
    ensures !(s in CountedAt(y, u) && s in Undecided(y, u)) && !(s in SessionsAt(y.conn, u) && s in Leaving(y, u))
  {
    assert SessionOk(cfg, y, s);
    assert u in y.urls ==> MappedOk(y, u);
    if s in y.counted {
      CountedIsMapped(cfg, y, s);
    }
  }

  /** A URL's counter is the number of sessions the session map shows there, corrected by the sessions in flight. */
  lemma UrlAccount(cfg: Config, y: Sys, u: Url)
    requires Reachable(cfg, y)
    ensures CountAt(y, u) == |SessionsAt(y.conn, u)| + |Leaving(y, u)| - |Undecided(y, u)|
  {
    ReachableSound(cfg, y);
    hide Sound, Reachable, CountedAt, CountAt, SessionsAt, Leaving, Undecided;
    forall s
      ensures s in CountedAt(y, u) || s in Undecided(y, u) <==> s in SessionsAt(y.conn, u) || s in Leaving(y, u)
      ensures !(s in CountedAt(y, u) && s in Undecided(y, u)) && !(s in SessionsAt(y.conn, u) && s in Leaving(y, u))
    {
      WhereCounted(cfg, y, u, s);
    }
    CountAtIsCounted(cfg, y, u);
    SameSize(CountedAt(y, u), Undecided(y, u), SessionsAt(y.conn, u), Leaving(y, u));
  }

  /** At every point of every interleaving both kinds of counters are exact and within their caps, and data that is
      no longer in the URL map counts nobody. */
  lemma CountersExact(cfg: Config, y: Sys, u: Url, ud: UdId)
    requires Reachable(cfg, y)
    ensures y.total == |y.conn| + |Unshown(y)| - |GivenUp(y)| <= Cap(cfg.maxConnections)
    ensures CountAt(y, u) == |SessionsAt(y.conn, u)| + |Leaving(y, u)| - |Undecided(y, u)|
    ensures CountAt(y, u) <= 1 || CountAt(y, u) <= Cap(cfg.maxByUrl)
    ensures ud < |y.heap| && y.heap[ud].count > 0 ==> y.heap[ud].url in y.urls && y.urls[y.heap[ud].url] == ud
  {
    ReachableSound(cfg, y);
    TotalAccount(cfg, y);
    UrlAccount(cfg, y, u);
    CountAtIsCounted(cfg, y, u);
    if ud < |y.heap| {
      assert CountOk(cfg, y, ud);
    }
  }

  // ----- refusals -----

  /** An addition is refused globally exactly when the session map, corrected by the sessions in flight, is full.
      So the verdict is the session map's own if nobody is in flight, and otherwise errs exactly if the sessions in
      flight make up for the difference to the cap, in either direction. */
  lemma GlobalRefusalExactly(cfg: Config, y: Sys, s: SessionId, u: Url, command: Command)
    requires Reachable(cfg, y) && PcOf(y, s) == AddLoad(u)
    ensures PcOf(Next(cfg, y, s, command), s)
         == if Cap(cfg.maxConnections) <= |y.conn| + |Unshown(y)| - |GivenUp(y)| then Idle else AddCas(u, y.total)
    ensures |y.conn| < Cap(cfg.maxConnections) ==>
              (PcOf(Next(cfg, y, s, command), s).Idle? <==>
               Cap(cfg.maxConnections) - |y.conn| <= |Unshown(y)| - |GivenUp(y)|)
    ensures |y.conn| >= Cap(cfg.maxConnections) ==>
              (PcOf(Next(cfg, y, s, command), s).AddCas? <==>
               |y.conn| - Cap(cfg.maxConnections) < |GivenUp(y)| - |Unshown(y)|)
  {
    TotalAccount(cfg, y);
  }

  /** The other sessions that the session map shows at u. */
  function OthersAt(y: Sys, s: SessionId, u: Url): set<SessionId> {
    SessionsAt(y.conn, u) - {s}
  }

  /** The same for the check against the per-URL cap, by which time s itself is in the session map. */
  lemma UrlRefusalExactly(cfg: Config, y: Sys, s: SessionId, u: Url, ud: UdId, command: Command)
    requires Reachable(cfg, y) && PcOf(y, s) == EntryLoad(u, ud)
    ensures PcOf(Next(cfg, y, s, command), s)
         == if Cap(cfg.maxByUrl) <= |OthersAt(y, s, u)| + |Leaving(y, u)| - |Undecided(y, u) - {s}|
            then EntryRelease(u, false) else EntryCas(u, ud, DataOf(y, ud).count)
    ensures |OthersAt(y, s, u)| < Cap(cfg.maxByUrl) ==>
              (PcOf(Next(cfg, y, s, command), s).EntryRelease? <==>
               Cap(cfg.maxByUrl) - |OthersAt(y, s, u)| <= |Leaving(y, u)| - |Undecided(y, u) - {s}|)
    ensures |OthersAt(y, s, u)| >= Cap(cfg.maxByUrl) ==>
              (PcOf(Next(cfg, y, s, command), s).EntryCas? <==>
               |OthersAt(y, s, u)| - Cap(cfg.maxByUrl) < |Undecided(y, u) - {s}| - |Leaving(y, u)|)
  {
    UrlAccount(cfg, y, u);
    ReachableSound(cfg, y);
    assert SessionOk(cfg, y, s);
    assert s in Undecided(y, u) && s in SessionsAt(y.conn, u);
    assert CountAt(y, u) == DataOf(y, ud).count;
    hide Reachable, Sound, Leaving, Undecided, SessionsAt;
    assert |Undecided(y, u) - {s}| == |Undecided(y, u)| - 1;
    assert |SessionsAt(y.conn, u) - {s}| == |SessionsAt(y.conn, u)| - 1;
  }

  // ----- a refusal that the session map does not explain -----

  /** The state after s alone has gone from idle to holding a global slot. */
  function WithSlot(y: Sys, s: SessionId, u: Url): Sys {
    var y2 := At(At(y, s, AddLoad(u)), s, AddCas(u, y.total));
    At(y2.(total := Succ(y.total), slots := y.slots + {s}), s, AddPublish(u))
  }

  lemma TakesSlot(cfg: Config, y: Sys, s: SessionId, u: Url)
    requires Reachable(cfg, y) && PcOf(y, s).Idle? && s !in y.conn && y.total < Cap(cfg.maxConnections)
    ensures Reachable(cfg, WithSlot(y, s, u))
  {
    hide Reachable, Interleave;
    var y1 := At(y, s, AddLoad(u));
    var y2 := At(y1, s, AddCas(u, y.total));
    ReachableNext(cfg, y, s, StartAdd(u), y1);
    ReachableNext(cfg, y1, s, StartAdd(u), y2);
    ReachableNext(cfg, y2, s, StartAdd(u), WithSlot(y, s, u));
  }

  const TWO_AND_ONE := Config(Some(2), Some(1))

  /** a alone is registered under u. */
  function OneClient(a: SessionId, u: Url): Sys {
    Sys(1, map[a := u], map[u := 0], [Ud(u, 1, [a])], map[], map[a := Idle], {a}, map[a := 0])
  }

  /** a has published itself, and has then counted itself in the new data of u under the entry's lock. */
  function Published(a: SessionId, u: Url): Sys {
    At(WithSlot(INITIAL, a, u).(conn := map[][a := u]), a, AddEntry(u))
  }

  function Entered(a: SessionId, u: Url): Sys {
    At(Published(a, u).(heap := [] + [Ud(u, 1, [a])], urls := map[][u := 0], counted := map[][a := 0],
                        locks := map[][u := a]), a, EntryRelease(u, true))
  }

  lemma ReleasesFirst(a: SessionId, u: Url)
    ensures Step(TWO_AND_ONE, Entered(a, u), a, StartAdd(u)) == Some(OneClient(a, u))
  {
    var y := At(Entered(a, u).(locks := Entered(a, u).locks - {u}), a, Idle);
    assert y.pc == map[a := Idle] && y.slots == {a} && y.locks == map[];
    assert y.heap == [Ud(u, 1, [a])];
    assert y == OneClient(a, u);
  }

  lemma OneClientReachable(a: SessionId, u: Url)
    ensures Reachable(TWO_AND_ONE, OneClient(a, u))
  {
    assert INITIAL == Interleave(TWO_AND_ONE, INITIAL, []);
    TakesSlot(TWO_AND_ONE, INITIAL, a, u);
    ReleasesFirst(a, u);
    hide Reachable, Step, WithSlot, Published, Entered, OneClient;
    ReachableNext(TWO_AND_ONE, WithSlot(INITIAL, a, u), a, StartAdd(u), Published(a, u));
    ReachableNext(TWO_AND_ONE, Published(a, u), a, StartAdd(u), Entered(a, u));
    ReachableNext(TWO_AND_ONE, Entered(a, u), a, StartAdd(u), OneClient(a, u));
  }

  lemma OneClientAdmits(a: SessionId, u: Url, v: Url)
    requires u != v
    ensures !Admits(TWO_AND_ONE, map[a := u], u) && Admits(TWO_AND_ONE, map[a := u], v)
  {
    assert SessionsAt(map[a := u], u) == {a} && SessionsAt(map[a := u], v) == {};
  }

  /**
   A refusal under concurrency need not mean that the map was full: with room for two sessions, b holds the
   second place while it tries for a URL at its cap, and c is refused for a free URL though the map admits it.
   */
  lemma TransientRefusal(a: SessionId, b: SessionId, c: SessionId, u: Url, v: Url) returns (y: Sys)
    requires a != b && a != c && b != c && u != v
    ensures Reachable(TWO_AND_ONE, y) && y.conn == map[a := u]
    ensures PcOf(y, b) == AddPublish(u) && !Admits(TWO_AND_ONE, y.conn, u)
    ensures PcOf(y, c) == AddLoad(v) && Admits(TWO_AND_ONE, y.conn, v)
    ensures PcOf(Next(TWO_AND_ONE, y, c, StartAdd(v)), c) == Idle
  {
    var cfg, y0 := TWO_AND_ONE, OneClient(a, u);
    OneClientReachable(a, u);
    OneClientAdmits(a, u, v);
    hide Reachable, Interleave, Admits;
    TakesSlot(cfg, y0, b, u);
    y := At(WithSlot(y0, b, u), c, AddLoad(v));
    ReachableNext(cfg, WithSlot(y0, b, u), c, StartAdd(v), y);
  }
}
