/**
 The registry operations taken apart into their atomic accesses. Every session runs at most one operation
 at a time; the accesses of different sessions interleave freely.
 */
module RegistrySteps {
  import opened Options
  import opened RoutingInfos
  import opened RegistrySpec

  type UdId = nat

  /** The access a session performs next; Idle when no operation of it is under way. */
  datatype Pc =
    | Idle
    // add_connection
    | AddLoad(url: Url)                            // load the global counter, check the cap
    | AddCas(url: Url, seen: u64)                  // compare and exchange the global counter
    | AddPublish(url: Url)                         // insert into the session map
    | AddEntry(url: Url)                           // lock the URL's entry
    | EntryLoad(url: Url, ud: UdId)                // load the URL's counter, check the cap
    | EntryCas(url: Url, ud: UdId, seen: u64)      // compare and exchange the URL's counter
    | EntryPush(url: Url, ud: UdId)                // push onto the client list
    | EntryRelease(url: Url, ok: bool)             // unlock the entry
    | RollCount(url: Url)                          // give the global count back
    | RollPublish(url: Url)                        // take the session out of the map again
    // remove_connection
    | RemTake                                      // remove from the session map
    | RemCount(url: Url)                           // decrement the global counter
    | RemGet(url: Url)                             // look up the URL's data
    | RemUrlCount(url: Url, ud: UdId)              // decrement the URL's counter
    | RemRetain(url: Url, ud: UdId)                // drop the session from the client list
    | RemDrop(url: Url)                            // drop the URL's entry if its counter is zero

  /** One `UrlData` object; it lives on after its entry has left the URL map. */
  datatype Ud = Ud(url: Url, count: u64, clients: seq<SessionId>)

  /**
   The shared memory and the program counters. `slots` and `counted` are auxiliary: they record which
   sessions the global counter and which data object each session is counted in, and no step reads them.
   */
  datatype Sys = Sys(
    total: u64,
    conn: map<SessionId, Url>,
    urls: map<Url, UdId>,
    heap: seq<Ud>,
    locks: map<Url, SessionId>,
    pc: map<SessionId, Pc>,
    slots: set<SessionId>,
    counted: map<SessionId, UdId>)

  const INITIAL := Sys(0, map[], map[], [], map[], map[], {}, map[])

  function PcOf(y: Sys, s: SessionId): Pc {
    if s in y.pc then y.pc[s] else Idle
  }

  function DataOf(y: Sys, ud: UdId): Ud {
    if ud < |y.heap| then y.heap[ud] else Ud("", 0, [])
  }

  function Write(heap: seq<Ud>, ud: UdId, d: Ud): seq<Ud> {
    if ud < |heap| then heap[ud := d] else heap
  }

  function At(y: Sys, s: SessionId, pc: Pc): Sys {
    y.(pc := y.pc[s := pc])
  }

  /** `client_count + 1` on an unsigned 64-bit value. */
  function Succ(n: u64): u64 {
    if n == USIZE_MAX then 0 else n + 1
  }

  /** What an idle session may be asked to do. */
  datatype Command = StartAdd(url: Url) | StartRemove

  // ----- the steps -----

  /** One access of `add_connection` up to the locked entry; None means that the session has to wait. */
  function AddStep(cfg: Config, y: Sys, s: SessionId): Option<Sys>
    requires PcOf(y, s).AddLoad? || PcOf(y, s).AddCas? || PcOf(y, s).AddPublish? || PcOf(y, s).AddEntry?
  {
    match PcOf(y, s)
    case AddLoad(u) => Some(At(y, s, if Cap(cfg.maxConnections) <= y.total then Idle else AddCas(u, y.total)))
    case AddCas(u, seen) =>
      if y.total == seen then Some(At(y.(total := Succ(seen), slots := y.slots + {s}), s, AddPublish(u)))
      else Some(At(y, s, AddLoad(u)))
    case AddPublish(u) => Some(At(y.(conn := y.conn[s := u]), s, AddEntry(u)))
    case AddEntry(u) =>
      if u in y.locks then None
      else if u in y.urls then Some(At(y.(locks := y.locks[u := s]), s, EntryLoad(u, y.urls[u])))
      else
        var ud := |y.heap|;
        Some(At(y.(heap := y.heap + [Ud(u, 1, [s])], urls := y.urls[u := ud], counted := y.counted[s := ud],
                   locks := y.locks[u := s]), s, EntryRelease(u, true)))
  }

  /** One access of `add_connection` while or after the entry is locked. */
  function EntryStep(cfg: Config, y: Sys, s: SessionId): Sys
    requires PcOf(y, s).EntryLoad? || PcOf(y, s).EntryCas? || PcOf(y, s).EntryPush? || PcOf(y, s).EntryRelease?
          || PcOf(y, s).RollCount? || PcOf(y, s).RollPublish?
  {
    match PcOf(y, s)
    case EntryLoad(u, ud) =>
      var c := DataOf(y, ud).count;
      At(y, s, if Cap(cfg.maxByUrl) <= c then EntryRelease(u, false) else EntryCas(u, ud, c))
    case EntryCas(u, ud, seen) =>
      var d := DataOf(y, ud);
      if d.count == seen then
        At(y.(heap := Write(y.heap, ud, d.(count := Succ(seen))), counted := y.counted[s := ud]), s, EntryPush(u, ud))
      else At(y, s, EntryLoad(u, ud))
    case EntryPush(u, ud) =>
      var d := DataOf(y, ud);
      At(y.(heap := Write(y.heap, ud, d.(clients := d.clients + [s]))), s, EntryRelease(u, true))
    case EntryRelease(u, ok) => At(y.(locks := y.locks - {u}), s, if ok then Idle else RollCount(u))
    case RollCount(u) => At(y.(total := FetchSub(y.total), slots := y.slots - {s}), s, RollPublish(u))
    case RollPublish(u) => At(y.(conn := y.conn - {s}), s, Idle)
  }

  /** One access of `remove_connection`. */
  function RemoveStep(y: Sys, s: SessionId): Option<Sys>
    requires PcOf(y, s).RemTake? || PcOf(y, s).RemCount? || PcOf(y, s).RemGet? || PcOf(y, s).RemUrlCount?
          || PcOf(y, s).RemRetain? || PcOf(y, s).RemDrop?
  {
    match PcOf(y, s)
    case RemTake =>
      if s in y.conn then Some(At(y.(conn := y.conn - {s}), s, RemCount(y.conn[s]))) else Some(At(y, s, Idle))
    case RemCount(u) => Some(At(y.(total := FetchSub(y.total), slots := y.slots - {s}), s, RemGet(u)))
    case RemGet(u) =>
      if u in y.locks then None
      else Some(At(y, s, if u in y.urls then RemUrlCount(u, y.urls[u]) else RemDrop(u)))
    case RemUrlCount(u, ud) =>
      var d := DataOf(y, ud);
      Some(At(y.(heap := Write(y.heap, ud, d.(count := FetchSub(d.count))), counted := y.counted - {s}),
              s, RemRetain(u, ud)))
    case RemRetain(u, ud) =>
      var d := DataOf(y, ud);
      Some(At(y.(heap := Write(y.heap, ud, d.(clients := Without(d.clients, s)))), s, RemDrop(u)))
    case RemDrop(u) =>
      if u in y.locks then None
      else if u in y.urls && DataOf(y, y.urls[u]).count == 0 then Some(At(y.(urls := y.urls - {u}), s, Idle))
      else Some(At(y, s, Idle))
  }

  /** Starting an operation; callers add only sessions that are not in the session map. */
  function StartStep(y: Sys, s: SessionId, command: Command): Option<Sys> {
    match command
    case StartAdd(u) => if s in y.conn then None else Some(At(y, s, AddLoad(u)))
    case StartRemove => Some(At(y, s, RemTake))
  }

  function Step(cfg: Config, y: Sys, s: SessionId, command: Command): Option<Sys> {
    match PcOf(y, s)
    case Idle => StartStep(y, s, command)
    case AddLoad(_) => AddStep(cfg, y, s)
    case AddCas(_, _) => AddStep(cfg, y, s)
    case AddPublish(_) => AddStep(cfg, y, s)
    case AddEntry(_) => AddStep(cfg, y, s)
    case EntryLoad(_, _) => Some(EntryStep(cfg, y, s))
    case EntryCas(_, _, _) => Some(EntryStep(cfg, y, s))
    case EntryPush(_, _) => Some(EntryStep(cfg, y, s))
    case EntryRelease(_, _) => Some(EntryStep(cfg, y, s))
    case RollCount(_) => Some(EntryStep(cfg, y, s))
    case RollPublish(_) => Some(EntryStep(cfg, y, s))
    case _ => RemoveStep(y, s)
  }

  // ----- the invariant -----

  /** The session sits between two operations, or is about to be taken out of the session map. */
  predicate AtRest(pc: Pc) {
    pc.Idle? || pc.RemTake?
  }

  predicate IsPublished(pc: Pc, live: bool) {
    if AtRest(pc) then live
    else pc.AddEntry? || pc.EntryLoad? || pc.EntryCas? || pc.EntryPush? || pc.EntryRelease? || pc.RollCount? || pc.RollPublish?
  }

  predicate HasSlot(pc: Pc, live: bool) {
    if AtRest(pc) then live
    else
      || pc.AddPublish? || pc.AddEntry? || pc.EntryLoad? || pc.EntryCas? || pc.EntryPush? || pc.EntryRelease?
      || pc.RollCount? || pc.RemCount?
  }

  predicate IsCounted(pc: Pc, live: bool) {
    if AtRest(pc) then live
    else pc.EntryPush? || (pc.EntryRelease? && pc.ok) || pc.RemCount? || pc.RemGet? || pc.RemUrlCount?
  }

  /** The session holds the lock of the URL's entry. */
  predicate HoldsLock(pc: Pc) {
    pc.EntryLoad? || pc.EntryCas? || pc.EntryPush? || pc.EntryRelease?
  }

  /** The session will still look whether the entry of u is empty, and has left the URL's counter. */
  predicate WillDrop(pc: Pc, u: Url) {
    (pc.RemRetain? || pc.RemDrop?) && pc.url == u
  }

  /** What a session's program counter says about the shared memory. */
  ghost predicate SessionOk(cfg: Config, y: Sys, s: SessionId) {
    var pc := PcOf(y, s);
    && (s in y.conn <==> IsPublished(pc, s in y.conn))
    && (s in y.slots <==> HasSlot(pc, s in y.conn))
    && (s in y.counted <==> IsCounted(pc, s in y.conn))
    && (!AtRest(pc) && s in y.conn ==> y.conn[s] == pc.url)
    && (s in y.counted ==>
          y.counted[s] < |y.heap| && y.heap[y.counted[s]].url == if AtRest(pc) then y.conn[s] else pc.url)
    && (pc.EntryPush? || pc.RemUrlCount? ==> y.counted[s] == pc.ud)
    && (pc.RemRetain? ==> pc.ud < |y.heap|)
    && (HoldsLock(pc) ==> pc.url in y.locks && y.locks[pc.url] == s)
    && (HoldsLock(pc) && !pc.EntryRelease? ==> pc.url in y.urls && y.urls[pc.url] == pc.ud)
    && (pc.AddCas? ==> pc.seen < Cap(cfg.maxConnections))
    && (pc.EntryCas? ==> pc.seen < Cap(cfg.maxByUrl))
  }

  function CountedIn(counted: map<SessionId, UdId>, ud: UdId): set<SessionId> {
    set s | s in counted && counted[s] == ud
  }

  /** The session is on the data object's client list: counted and pushed, or uncounted and not yet retained away. */
  predicate Listed(y: Sys, s: SessionId, ud: UdId) {
    || (s in y.counted && y.counted[s] == ud && !PcOf(y, s).EntryPush?)
    || (PcOf(y, s).RemRetain? && PcOf(y, s).ud == ud)
  }

  /** A data object's counter is the number of sessions counted in it, and non-zero only while it is in the URL map. */
  ghost predicate CountOk(cfg: Config, y: Sys, ud: UdId)
    requires ud < |y.heap|
  {
    var d := y.heap[ud];
    && d.count == |CountedIn(y.counted, ud)|
    && (d.count > 0 ==> d.url in y.urls && y.urls[d.url] == ud)
    && (d.count <= 1 || d.count <= Cap(cfg.maxByUrl))
  }

  ghost predicate ListOk(y: Sys, ud: UdId)
    requires ud < |y.heap|
  {
    && NoDuplicates(y.heap[ud].clients)
    && forall s :: s in y.heap[ud].clients <==> Listed(y, s, ud)
  }

  /** An entry of the URL map is the data object of its URL, and while it is empty somebody is about to drop it. */
  ghost predicate MappedOk(y: Sys, u: Url)
    requires u in y.urls
  {
    && y.urls[u] < |y.heap| && y.heap[y.urls[u]].url == u
    && (y.heap[y.urls[u]].count == 0 ==> exists s :: WillDrop(PcOf(y, s), u))
  }

  ghost predicate GlobalOk(cfg: Config, y: Sys) {
    && y.total == |y.slots| && y.total <= Cap(cfg.maxConnections)
    && (forall u :: u in y.locks ==> HoldsLock(PcOf(y, y.locks[u])) && PcOf(y, y.locks[u]).url == u)
  }

  ghost predicate Sound(cfg: Config, y: Sys) {
    && GlobalOk(cfg, y)
    && (forall s :: SessionOk(cfg, y, s))
    && (forall ud :: 0 <= ud < |y.heap| ==> CountOk(cfg, y, ud))
    && (forall ud :: 0 <= ud < |y.heap| ==> ListOk(y, ud))
    && (forall u :: u in y.urls ==> MappedOk(y, u))
  }

  // ----- what a step of one session leaves alone -----

  /** All other sessions are where they were. */
  ghost predicate OnlyActs(y: Sys, y': Sys, s: SessionId) {
    forall x :: x != s ==>
      && PcOf(y', x) == PcOf(y, x)
      && (x in y'.slots <==> x in y.slots)
      && (x in y'.conn <==> x in y.conn) && (x in y.conn ==> y'.conn[x] == y.conn[x])
      && (x in y'.counted <==> x in y.counted) && (x in y.counted ==> y'.counted[x] == y.counted[x])
  }

  /** Data objects never go away and never change their URL. */
  ghost predicate HeapGrows(y: Sys, y': Sys) {
    && |y.heap| <= |y'.heap|
    && forall ud :: 0 <= ud < |y.heap| ==> y'.heap[ud].url == y.heap[ud].url
  }

  /** Entries locked by other sessions stay locked and stay as they are. */
  ghost predicate LockedKept(y: Sys, y': Sys, s: SessionId) {
    forall u :: u in y.locks && y.locks[u] != s ==>
      && u in y'.locks && y'.locks[u] == y.locks[u]
      && (u in y.urls ==> u in y'.urls && y'.urls[u] == y.urls[u])
  }

  lemma SessionsKept(cfg: Config, y: Sys, y': Sys, s: SessionId)
    requires forall x :: SessionOk(cfg, y, x)
    requires OnlyActs(y, y', s) && HeapGrows(y, y') && LockedKept(y, y', s)
    requires SessionOk(cfg, y', s)
    ensures forall x :: SessionOk(cfg, y', x)
  {
    forall x ensures SessionOk(cfg, y', x) {
      if x != s {
        assert SessionOk(cfg, y, x);
      }
    }
  }

  /** Only s may have taken or released locks; each lock left belongs to a session in its locked part. */
  lemma LocksKept(cfg: Config, y: Sys, y': Sys, s: SessionId)
    requires GlobalOk(cfg, y) && OnlyActs(y, y', s)
    requires forall u :: u in y'.locks ==>
               if y'.locks[u] == s then HoldsLock(PcOf(y', s)) && PcOf(y', s).url == u
               else u in y.locks && y.locks[u] == y'.locks[u]
    requires y'.total == |y'.slots| && y'.total <= Cap(cfg.maxConnections)
    ensures GlobalOk(cfg, y')
  {
  }

  lemma CountsKept(cfg: Config, y: Sys, y': Sys, ud: UdId)
    requires ud < |y.heap| && ud < |y'.heap| && CountOk(cfg, y, ud)
    requires y'.heap[ud].url == y.heap[ud].url && y'.heap[ud].count == y.heap[ud].count
    requires CountedIn(y'.counted, ud) == CountedIn(y.counted, ud)
    requires y.heap[ud].count > 0 && y.heap[ud].url in y.urls && y.urls[y.heap[ud].url] == ud ==>
               y.heap[ud].url in y'.urls && y'.urls[y.heap[ud].url] == ud
    ensures CountOk(cfg, y', ud)
  {
  }

  lemma ListKept(y: Sys, y': Sys, s: SessionId, ud: UdId)
    requires ud < |y.heap| && ud < |y'.heap| && ListOk(y, ud)
    requires OnlyActs(y, y', s) && y'.heap[ud].clients == y.heap[ud].clients
    requires Listed(y', s, ud) <==> Listed(y, s, ud)
    ensures ListOk(y', ud)
  {
    forall x ensures x in y'.heap[ud].clients <==> Listed(y', x, ud) {
      if x != s {
        assert Listed(y', x, ud) <==> Listed(y, x, ud);
      }
    }
  }

  lemma EntryKept(y: Sys, y': Sys, s: SessionId, u: Url)
    requires u in y.urls && u in y'.urls && y'.urls[u] == y.urls[u] && MappedOk(y, u)
    requires OnlyActs(y, y', s) && HeapGrows(y, y')
    requires y'.heap[y.urls[u]].count == y.heap[y.urls[u]].count || y'.heap[y.urls[u]].count > 0
    requires WillDrop(PcOf(y, s), u) ==> WillDrop(PcOf(y', s), u)
    ensures MappedOk(y', u)
  {
    if y'.heap[y.urls[u]].count == 0 {
      var x :| WillDrop(PcOf(y, x), u);
      assert WillDrop(PcOf(y', x), u);
    }
  }

  /** A step of s, seen from the sessions: s is where it should be, and nobody else notices. */
  ghost predicate Moves(cfg: Config, y: Sys, y': Sys, s: SessionId) {
    && OnlyActs(y, y', s) && HeapGrows(y, y') && LockedKept(y, y', s)
    && SessionOk(cfg, y', s)
    && y'.total == y.total && y'.slots == y.slots
    && (forall u :: u in y'.locks ==>
          if y'.locks[u] == s then HoldsLock(PcOf(y', s)) && PcOf(y', s).url == u
          else u in y.locks && y.locks[u] == y'.locks[u])
  }

  lemma SessionsAfterMove(cfg: Config, y: Sys, y': Sys, s: SessionId)
    requires GlobalOk(cfg, y) && (forall x :: SessionOk(cfg, y, x)) && Moves(cfg, y, y', s)
    ensures GlobalOk(cfg, y') && forall x :: SessionOk(cfg, y', x)
  {
    SessionsKept(cfg, y, y', s);
    LocksKept(cfg, y, y', s);
  }

  // ----- steps on the counter, the session map and the program counter only -----

  /** The session neither pushes nor retains, and will not drop an entry. */
  predicate Quiet(pc: Pc) {
    !pc.EntryPush? && !pc.RemRetain? && !pc.RemDrop?
  }

  lemma QuietStep(cfg: Config, y: Sys, y': Sys, s: SessionId)
    requires Sound(cfg, y)
    requires y'.heap == y.heap && y'.urls == y.urls && y'.locks == y.locks && y'.counted == y.counted
    requires OnlyActs(y, y', s)
    requires Quiet(PcOf(y, s)) && Quiet(PcOf(y', s))
    requires HoldsLock(PcOf(y, s)) ==> HoldsLock(PcOf(y', s)) && PcOf(y', s).url == PcOf(y, s).url
    requires y'.total == |y'.slots| && y'.total <= Cap(cfg.maxConnections)
    requires SessionOk(cfg, y', s)
    ensures Sound(cfg, y')
  {
    SessionsKept(cfg, y, y', s);
    LocksKept(cfg, y, y', s);
    forall ud | 0 <= ud < |y'.heap| ensures CountOk(cfg, y', ud) {
      CountsKept(cfg, y, y', ud);
    }
    forall ud | 0 <= ud < |y'.heap| ensures ListOk(y', ud) {
      ListKept(y, y', s, ud);
    }
    forall u | u in y'.urls ensures MappedOk(y', u) {
      EntryKept(y, y', s, u);
    }
  }

  lemma StartSound(cfg: Config, y: Sys, s: SessionId, command: Command)
    requires Sound(cfg, y) && PcOf(y, s).Idle?
    ensures StartStep(y, s, command).Some? ==> Sound(cfg, StartStep(y, s, command).value)
  {
    assert SessionOk(cfg, y, s);
    var next := StartStep(y, s, command);
    if next.Some? {
      QuietStep(cfg, y, next.value, s);
    }
  }

  lemma AddLoadSound(cfg: Config, y: Sys, s: SessionId)
    requires Sound(cfg, y) && (PcOf(y, s).AddLoad? || PcOf(y, s).AddPublish?)
    ensures AddStep(cfg, y, s).Some? && Sound(cfg, AddStep(cfg, y, s).value)
  {
    assert SessionOk(cfg, y, s);
    QuietStep(cfg, y, AddStep(cfg, y, s).value, s);
  }

  lemma AddCasSound(cfg: Config, y: Sys, s: SessionId)
    requires Sound(cfg, y) && PcOf(y, s).AddCas?
    ensures AddStep(cfg, y, s).Some? && Sound(cfg, AddStep(cfg, y, s).value)
  {
    assert SessionOk(cfg, y, s);
    if y.total == PcOf(y, s).seen {
      SlotTaken(cfg, y, AddStep(cfg, y, s).value, s);
    } else {
      QuietStep(cfg, y, AddStep(cfg, y, s).value, s);
    }
  }

  lemma SlotTaken(cfg: Config, y: Sys, y': Sys, s: SessionId)
    requires Sound(cfg, y) && PcOf(y, s).AddCas? && s !in y.slots && y.total < Cap(cfg.maxConnections)
    requires y' == At(y.(total := y.total + 1, slots := y.slots + {s}), s, AddPublish(PcOf(y, s).url))
    ensures Sound(cfg, y')
  {
    assert SessionOk(cfg, y, s);
    assert |y.slots + {s}| == |y.slots| + 1;
    QuietStep(cfg, y, y', s);
  }

  lemma EntryLoadSound(cfg: Config, y: Sys, s: SessionId)
    requires Sound(cfg, y) && PcOf(y, s).EntryLoad?
    ensures Sound(cfg, EntryStep(cfg, y, s))
  {
    assert SessionOk(cfg, y, s);
    QuietStep(cfg, y, EntryStep(cfg, y, s), s);
  }

  lemma RollCountSound(cfg: Config, y: Sys, s: SessionId)
    requires Sound(cfg, y) && PcOf(y, s).RollCount?
    ensures Sound(cfg, EntryStep(cfg, y, s))
  {
    assert SessionOk(cfg, y, s);
    assert |y.slots - {s}| == |y.slots| - 1;
    QuietStep(cfg, y, EntryStep(cfg, y, s), s);
  }

  lemma RollPublishSound(cfg: Config, y: Sys, s: SessionId)
    requires Sound(cfg, y) && PcOf(y, s).RollPublish?
    ensures Sound(cfg, EntryStep(cfg, y, s))
  {
    assert SessionOk(cfg, y, s);
    QuietStep(cfg, y, EntryStep(cfg, y, s), s);
  }

  lemma RemTakeSound(cfg: Config, y: Sys, s: SessionId)
    requires Sound(cfg, y) && PcOf(y, s).RemTake?
    ensures RemoveStep(y, s).Some? && Sound(cfg, RemoveStep(y, s).value)
  {
    assert SessionOk(cfg, y, s);
    QuietStep(cfg, y, RemoveStep(y, s).value, s);
  }

  lemma RemCountSound(cfg: Config, y: Sys, s: SessionId)
    requires Sound(cfg, y) && PcOf(y, s).RemCount?
    ensures RemoveStep(y, s).Some? && Sound(cfg, RemoveStep(y, s).value)
  {
    assert SessionOk(cfg, y, s);
    assert |y.slots - {s}| == |y.slots| - 1;
    QuietStep(cfg, y, RemoveStep(y, s).value, s);
  }

  /** A session counted somewhere finds that very data object under its URL. */
  lemma CountedIsMapped(cfg: Config, y: Sys, s: SessionId)
    requires Sound(cfg, y) && s in y.counted
    ensures y.counted[s] < |y.heap| && y.heap[y.counted[s]].count >= 1
    ensures var u := y.heap[y.counted[s]].url; u in y.urls && y.urls[u] == y.counted[s]
  {
    assert SessionOk(cfg, y, s);
    var ud := y.counted[s];
    assert CountOk(cfg, y, ud);
    assert s in CountedIn(y.counted, ud);
  }

  lemma RemGetSound(cfg: Config, y: Sys, s: SessionId)
    requires Sound(cfg, y) && PcOf(y, s).RemGet?
    ensures RemoveStep(y, s).Some? ==> Sound(cfg, RemoveStep(y, s).value)
  {
    assert SessionOk(cfg, y, s);
    CountedIsMapped(cfg, y, s);
    if RemoveStep(y, s).Some? {
      QuietStep(cfg, y, RemoveStep(y, s).value, s);
    }
  }

  // ----- locking and unlocking -----

  /** A step that only takes or gives up the lock of u, which no other session holds. */
  lemma LockStep(cfg: Config, y: Sys, y': Sys, s: SessionId, u: Url)
    requires Sound(cfg, y)
    requires y'.heap == y.heap && y'.urls == y.urls && y'.counted == y.counted
    requires y'.total == y.total && y'.slots == y.slots && y'.conn == y.conn
    requires OnlyActs(y, y', s)
    requires u in y.locks ==> y.locks[u] == s
    requires y'.locks == y.locks[u := s] || (y'.locks == y.locks - {u} && HoldsLock(PcOf(y, s)) && PcOf(y, s).url == u)
    requires y'.locks == y.locks[u := s] ==> !HoldsLock(PcOf(y, s)) && HoldsLock(PcOf(y', s)) && PcOf(y', s).url == u
    requires Quiet(PcOf(y, s)) && Quiet(PcOf(y', s))
    requires SessionOk(cfg, y', s)
    ensures Sound(cfg, y')
  {
    SessionsKept(cfg, y, y', s);
    LocksKept(cfg, y, y', s);
    forall ud | 0 <= ud < |y'.heap| ensures CountOk(cfg, y', ud) {
      CountsKept(cfg, y, y', ud);
    }
    forall ud | 0 <= ud < |y'.heap| ensures ListOk(y', ud) {
      ListKept(y, y', s, ud);
    }
    forall v | v in y'.urls ensures MappedOk(y', v) {
      EntryKept(y, y', s, v);
    }
  }

  lemma AddEntryOccupiedSound(cfg: Config, y: Sys, s: SessionId)
    requires Sound(cfg, y) && PcOf(y, s).AddEntry? && PcOf(y, s).url !in y.locks && PcOf(y, s).url in y.urls
    ensures AddStep(cfg, y, s).Some? && Sound(cfg, AddStep(cfg, y, s).value)
  {
    assert SessionOk(cfg, y, s);
    LockStep(cfg, y, AddStep(cfg, y, s).value, s, PcOf(y, s).url);
  }

  lemma EntryReleaseSound(cfg: Config, y: Sys, s: SessionId)
    requires Sound(cfg, y) && PcOf(y, s).EntryRelease?
    ensures Sound(cfg, EntryStep(cfg, y, s))
  {
    assert SessionOk(cfg, y, s);
    LockStep(cfg, y, EntryStep(cfg, y, s), s, PcOf(y, s).url);
  }

  // ----- steps on the data objects -----

  /** The set of sessions counted in an object, after s is counted there or leaves it. */
  lemma CountedPut(counted: map<SessionId, UdId>, s: SessionId, ud: UdId, x: UdId)
    requires s !in counted
    ensures x != ud ==> CountedIn(counted[s := ud], x) == CountedIn(counted, x)
    ensures |CountedIn(counted[s := ud], ud)| == |CountedIn(counted, ud)| + 1
  {
    assert CountedIn(counted[s := ud], ud) == CountedIn(counted, ud) + {s};
    if x != ud {
      assert CountedIn(counted[s := ud], x) == CountedIn(counted, x);
    }
  }

  lemma CountedDrop(counted: map<SessionId, UdId>, s: SessionId, x: UdId)
    requires s in counted
    ensures x != counted[s] ==> CountedIn(counted - {s}, x) == CountedIn(counted, x)
    ensures |CountedIn(counted - {s}, counted[s])| == |CountedIn(counted, counted[s])| - 1
  {
    var ud := counted[s];
    assert s in CountedIn(counted, ud);
    assert CountedIn(counted - {s}, ud) == CountedIn(counted, ud) - {s};
    if x != ud {
      assert CountedIn(counted - {s}, x) == CountedIn(counted, x);
    }
  }

  lemma AddEntryVacantSelf(cfg: Config, y: Sys, s: SessionId)
    requires SessionOk(cfg, y, s)
    requires PcOf(y, s).AddEntry? && PcOf(y, s).url !in y.locks && PcOf(y, s).url !in y.urls
    ensures AddStep(cfg, y, s).Some? && SessionOk(cfg, AddStep(cfg, y, s).value, s)
    ensures OnlyActs(y, AddStep(cfg, y, s).value, s)
  {
  }

  lemma AddEntryVacantMoves(cfg: Config, y: Sys, s: SessionId)
    requires GlobalOk(cfg, y) && SessionOk(cfg, y, s)
    requires PcOf(y, s).AddEntry? && PcOf(y, s).url !in y.locks && PcOf(y, s).url !in y.urls
    ensures AddStep(cfg, y, s).Some? && Moves(cfg, y, AddStep(cfg, y, s).value, s)
  {
    hide SessionOk, OnlyActs;
    AddEntryVacantSelf(cfg, y, s);
  }

  lemma AddEntryVacantSound(cfg: Config, y: Sys, s: SessionId)
    requires Sound(cfg, y) && PcOf(y, s).AddEntry? && PcOf(y, s).url !in y.locks && PcOf(y, s).url !in y.urls
    ensures AddStep(cfg, y, s).Some? && Sound(cfg, AddStep(cfg, y, s).value)
  {
    var u, n, y' := PcOf(y, s).url, |y.heap|, AddStep(cfg, y, s).value;
    assert SessionOk(cfg, y, s);
    AddEntryVacantMoves(cfg, y, s);
    SessionsAfterMove(cfg, y, y', s);
    NothingBeyondHeap(cfg, y);
    hide SessionOk, GlobalOk, ListOk;
    forall ud | 0 <= ud < |y'.heap| ensures CountOk(cfg, y', ud) && ListOk(y', ud) {
      CountedPut(y.counted, s, n, ud);
      if ud < n {
        assert CountOk(cfg, y, ud) && ListOk(y, ud);
        CountsKept(cfg, y, y', ud);
        ListKept(y, y', s, ud);
      } else {
        FreshList(cfg, y, y', s);
      }
    }
    forall v | v in y'.urls ensures MappedOk(y', v) {
      if v != u {
        EntryKept(y, y', s, v);
      }
    }
  }

  /** No session is counted in, or about to be retained away from, an object that does not exist yet. */
  lemma NothingBeyondHeap(cfg: Config, y: Sys)
    requires Sound(cfg, y)
    ensures CountedIn(y.counted, |y.heap|) == {}
    ensures forall x :: !Listed(y, x, |y.heap|)
  {
    forall x ensures !Listed(y, x, |y.heap|) && x !in CountedIn(y.counted, |y.heap|) {
      assert SessionOk(cfg, y, x);
    }
  }

  lemma FreshList(cfg: Config, y: Sys, y': Sys, s: SessionId)
    requires OnlyActs(y, y', s) && |y'.heap| == |y.heap| + 1
    requires y'.heap[|y.heap|].clients == [s]
    requires s in y'.counted && y'.counted[s] == |y.heap| && !PcOf(y', s).EntryPush?
    requires forall x :: !Listed(y, x, |y.heap|)
    ensures ListOk(y', |y.heap|)
  {
    forall x ensures x in y'.heap[|y.heap|].clients <==> Listed(y', x, |y.heap|) {
      if x != s {
        assert !Listed(y, x, |y.heap|);
      }
    }
  }

  lemma EntryCasMoves(cfg: Config, y: Sys, s: SessionId)
    requires GlobalOk(cfg, y) && SessionOk(cfg, y, s) && PcOf(y, s).EntryCas?
    requires MappedOk(y, PcOf(y, s).url) && DataOf(y, PcOf(y, s).ud).count == PcOf(y, s).seen
    ensures Moves(cfg, y, EntryStep(cfg, y, s), s)
  {
  }

  lemma EntryCasSucceeds(cfg: Config, y: Sys, s: SessionId)
    requires Sound(cfg, y) && PcOf(y, s).EntryCas?
    requires DataOf(y, PcOf(y, s).ud).count == PcOf(y, s).seen
    ensures Sound(cfg, EntryStep(cfg, y, s))
  {
    var pc, y' := PcOf(y, s), EntryStep(cfg, y, s);
    assert SessionOk(cfg, y, s);
    assert MappedOk(y, pc.url);
    EntryCasMoves(cfg, y, s);
    SessionsAfterMove(cfg, y, y', s);
    hide SessionOk, GlobalOk, ListOk;
    forall ud | 0 <= ud < |y'.heap| ensures CountOk(cfg, y', ud) && ListOk(y', ud) {
      assert CountOk(cfg, y, ud) && ListOk(y, ud);
      CountedPut(y.counted, s, pc.ud, ud);
      if ud != pc.ud {
        CountsKept(cfg, y, y', ud);
      }
      ListKept(y, y', s, ud);
    }
    forall v | v in y'.urls ensures MappedOk(y', v) {
      EntryKept(y, y', s, v);
    }
  }

  lemma EntryCasSound(cfg: Config, y: Sys, s: SessionId)
    requires Sound(cfg, y) && PcOf(y, s).EntryCas?
    ensures Sound(cfg, EntryStep(cfg, y, s))
  {
    assert SessionOk(cfg, y, s);
    if DataOf(y, PcOf(y, s).ud).count == PcOf(y, s).seen {
      EntryCasSucceeds(cfg, y, s);
    } else {
      QuietStep(cfg, y, EntryStep(cfg, y, s), s);
    }
  }

  lemma EntryPushMoves(cfg: Config, y: Sys, s: SessionId)
    requires GlobalOk(cfg, y) && SessionOk(cfg, y, s) && PcOf(y, s).EntryPush?
    ensures Moves(cfg, y, EntryStep(cfg, y, s), s)
  {
  }

  lemma EntryPushSound(cfg: Config, y: Sys, s: SessionId)
    requires Sound(cfg, y) && PcOf(y, s).EntryPush?
    ensures Sound(cfg, EntryStep(cfg, y, s))
  {
    var pc, y' := PcOf(y, s), EntryStep(cfg, y, s);
    assert SessionOk(cfg, y, s);
    EntryPushMoves(cfg, y, s);
    SessionsAfterMove(cfg, y, y', s);
    hide SessionOk, GlobalOk, ListOk;
    forall ud | 0 <= ud < |y'.heap| ensures CountOk(cfg, y', ud) && ListOk(y', ud) {
      assert CountOk(cfg, y, ud) && ListOk(y, ud);
      CountsKept(cfg, y, y', ud);
      if ud == pc.ud {
        PushedList(y, y', s, ud);
      } else {
        ListKept(y, y', s, ud);
      }
    }
    forall v | v in y'.urls ensures MappedOk(y', v) {
      EntryKept(y, y', s, v);
    }
  }

  lemma PushedList(y: Sys, y': Sys, s: SessionId, ud: UdId)
    requires ud < |y.heap| && ud < |y'.heap| && ListOk(y, ud) && OnlyActs(y, y', s)
    requires y'.heap[ud].clients == y.heap[ud].clients + [s]
    requires !Listed(y, s, ud) && Listed(y', s, ud)
    ensures ListOk(y', ud)
  {
    assert s !in y.heap[ud].clients;
    forall x ensures x in y'.heap[ud].clients <==> Listed(y', x, ud) {
      if x != s {
        assert x in y.heap[ud].clients <==> Listed(y, x, ud);
      }
    }
  }

  lemma RemUrlCountMoves(cfg: Config, y: Sys, s: SessionId)
    requires GlobalOk(cfg, y) && SessionOk(cfg, y, s) && PcOf(y, s).RemUrlCount?
    ensures RemoveStep(y, s).Some? && Moves(cfg, y, RemoveStep(y, s).value, s)
  {
    assert forall u :: u in y.locks ==> y.locks[u] != s;
  }

  lemma RemRetainMoves(cfg: Config, y: Sys, s: SessionId)
    requires GlobalOk(cfg, y) && SessionOk(cfg, y, s) && PcOf(y, s).RemRetain?
    ensures RemoveStep(y, s).Some? && Moves(cfg, y, RemoveStep(y, s).value, s)
  {
    assert forall u :: u in y.locks ==> y.locks[u] != s;
  }

  lemma RemDropLocked(y: Sys, u: Url, s: SessionId)
    requires u !in y.locks
    ensures LockedKept(y, At(y.(urls := y.urls - {u}), s, Idle), s) && LockedKept(y, At(y, s, Idle), s)
  {
  }

  lemma RemDropSelf(cfg: Config, y: Sys, s: SessionId)
    requires SessionOk(cfg, y, s) && PcOf(y, s).RemDrop? && PcOf(y, s).url !in y.locks
    ensures RemoveStep(y, s).Some? && SessionOk(cfg, RemoveStep(y, s).value, s)
    ensures OnlyActs(y, RemoveStep(y, s).value, s)
  {
  }

  lemma RemDropMoves(cfg: Config, y: Sys, s: SessionId)
    requires GlobalOk(cfg, y) && SessionOk(cfg, y, s) && PcOf(y, s).RemDrop? && PcOf(y, s).url !in y.locks
    ensures RemoveStep(y, s).Some? && Moves(cfg, y, RemoveStep(y, s).value, s)
  {
    hide LockedKept, SessionOk, OnlyActs;
    RemDropLocked(y, PcOf(y, s).url, s);
    RemDropSelf(cfg, y, s);
    assert forall u :: u in y.locks ==> y.locks[u] != s;
  }

  /** The URL's counter is at least one whenever it is decremented, and it is the counter s was counted in. */
  lemma RemUrlCountSound(cfg: Config, y: Sys, s: SessionId)
    requires Sound(cfg, y) && PcOf(y, s).RemUrlCount?
    ensures RemoveStep(y, s).Some? && Sound(cfg, RemoveStep(y, s).value)
    ensures s in y.counted && y.counted[s] == PcOf(y, s).ud && DataOf(y, PcOf(y, s).ud).count >= 1
  {
    var pc, y' := PcOf(y, s), RemoveStep(y, s).value;
    assert SessionOk(cfg, y, s);
    CountedIsMapped(cfg, y, s);
    RemUrlCountMoves(cfg, y, s);
    SessionsAfterMove(cfg, y, y', s);
    hide SessionOk, GlobalOk, ListOk;
    forall ud | 0 <= ud < |y'.heap| ensures CountOk(cfg, y', ud) && ListOk(y', ud) {
      assert CountOk(cfg, y, ud) && ListOk(y, ud);
      CountedDrop(y.counted, s, ud);
      if ud != pc.ud {
        CountsKept(cfg, y, y', ud);
      }
      ListKept(y, y', s, ud);
    }
    forall v | v in y'.urls ensures MappedOk(y', v) {
      if v == pc.url {
        assert WillDrop(PcOf(y', s), v);
      } else {
        EntryKept(y, y', s, v);
      }
    }
  }

  lemma RemRetainSound(cfg: Config, y: Sys, s: SessionId)
    requires Sound(cfg, y) && PcOf(y, s).RemRetain?
    ensures RemoveStep(y, s).Some? && Sound(cfg, RemoveStep(y, s).value)
  {
    var pc, y' := PcOf(y, s), RemoveStep(y, s).value;
    assert SessionOk(cfg, y, s);
    RemRetainMoves(cfg, y, s);
    SessionsAfterMove(cfg, y, y', s);
    hide SessionOk, GlobalOk, ListOk;
    forall ud | 0 <= ud < |y'.heap| ensures CountOk(cfg, y', ud) && ListOk(y', ud) {
      assert CountOk(cfg, y, ud) && ListOk(y, ud);
      CountsKept(cfg, y, y', ud);
      if ud == pc.ud {
        RetainedList(y, y', s, ud);
      } else {
        ListKept(y, y', s, ud);
      }
    }
    forall v | v in y'.urls ensures MappedOk(y', v) {
      EntryKept(y, y', s, v);
    }
  }

  lemma RetainedList(y: Sys, y': Sys, s: SessionId, ud: UdId)
    requires ud < |y.heap| && ud < |y'.heap| && ListOk(y, ud) && OnlyActs(y, y', s)
    requires y'.heap[ud].clients == Without(y.heap[ud].clients, s)
    requires !Listed(y', s, ud)
    ensures ListOk(y', ud)
  {
    WithoutMembers(y.heap[ud].clients, s);
    forall x ensures x in y'.heap[ud].clients <==> Listed(y', x, ud) {
      if x != s {
        assert x in y.heap[ud].clients <==> Listed(y, x, ud);
      }
    }
  }

  lemma RemDropSound(cfg: Config, y: Sys, s: SessionId)
    requires Sound(cfg, y) && PcOf(y, s).RemDrop?
    ensures RemoveStep(y, s).Some? ==> Sound(cfg, RemoveStep(y, s).value)
  {
    if RemoveStep(y, s).Some? {
      var u, y' := PcOf(y, s).url, RemoveStep(y, s).value;
      assert SessionOk(cfg, y, s);
      assert u in y.urls ==> MappedOk(y, u);
      RemDropMoves(cfg, y, s);
      SessionsAfterMove(cfg, y, y', s);
      RemDropData(cfg, y, y', s);
      RemDropEntries(y, y', s);
    }
  }

  lemma RemDropEntries(y: Sys, y': Sys, s: SessionId)
    requires PcOf(y, s).RemDrop? && RemoveStep(y, s) == Some(y') && OnlyActs(y, y', s)
    requires forall u :: u in y.urls ==> MappedOk(y, u)
    ensures forall u :: u in y'.urls ==> MappedOk(y', u)
  {
    forall v | v in y'.urls ensures MappedOk(y', v) {
      assert MappedOk(y, v);
      if v != PcOf(y, s).url {
        EntryKept(y, y', s, v);
      }
    }
  }

  /** Dropping an entry whose counter is zero takes the data of no counted session out of the map. */
  lemma RemDropData(cfg: Config, y: Sys, y': Sys, s: SessionId)
    requires PcOf(y, s).RemDrop? && RemoveStep(y, s) == Some(y') && OnlyActs(y, y', s)
    requires forall ud :: 0 <= ud < |y.heap| ==> CountOk(cfg, y, ud) && ListOk(y, ud)
    requires PcOf(y, s).url in y.urls ==> y.urls[PcOf(y, s).url] < |y.heap|
    requires s !in y.counted
    ensures forall ud :: 0 <= ud < |y'.heap| ==> CountOk(cfg, y', ud) && ListOk(y', ud)
  {
    forall ud | 0 <= ud < |y'.heap| ensures CountOk(cfg, y', ud) && ListOk(y', ud) {
      CountsKept(cfg, y, y', ud);
      ListKept(y, y', s, ud);
    }
  }

  /** Every step of every session keeps the invariant. */
  lemma StepSound(cfg: Config, y: Sys, s: SessionId, command: Command)
    requires Sound(cfg, y)
    ensures Step(cfg, y, s, command).Some? ==> Sound(cfg, Step(cfg, y, s, command).value)
  {
    match PcOf(y, s)
    case Idle => StartSound(cfg, y, s, command);
    case AddLoad(_) => AddLoadSound(cfg, y, s);
    case AddCas(_, _) => AddCasSound(cfg, y, s);
    case AddPublish(_) => AddLoadSound(cfg, y, s);
    case AddEntry(u) =>
      if u !in y.locks {
        if u in y.urls { AddEntryOccupiedSound(cfg, y, s); } else { AddEntryVacantSound(cfg, y, s); }
      }
    case EntryLoad(_, _) => EntryLoadSound(cfg, y, s);
    case EntryCas(_, _, _) => EntryCasSound(cfg, y, s);
    case EntryPush(_, _) => EntryPushSound(cfg, y, s);
    case EntryRelease(_, _) => EntryReleaseSound(cfg, y, s);
    case RollCount(_) => RollCountSound(cfg, y, s);
    case RollPublish(_) => RollPublishSound(cfg, y, s);
    case RemTake => RemTakeSound(cfg, y, s);
    case RemCount(_) => RemCountSound(cfg, y, s);
    case RemGet(_) => RemGetSound(cfg, y, s);
    case RemUrlCount(_, _) => RemUrlCountSound(cfg, y, s);
    case RemRetain(_, _) => RemRetainSound(cfg, y, s);
    case RemDrop(_) => RemDropSound(cfg, y, s);
  }

  // ----- all interleavings -----

  /** A schedule names, step by step, the session that moves and what it starts when it is idle. */
  type Schedule = seq<(SessionId, Command)>

  /** A session that has to wait leaves everything as it is. */
  function Next(cfg: Config, y: Sys, s: SessionId, command: Command): Sys {
    match Step(cfg, y, s, command)
    case Some(y') => y'
    case None => y
  }

  function Interleave(cfg: Config, y: Sys, schedule: Schedule): Sys
    decreases |schedule|
  {
    if schedule == [] then y
    else Interleave(cfg, Next(cfg, y, schedule[0].0, schedule[0].1), schedule[1..])
  }

  lemma {:induction false} InterleaveSound(cfg: Config, y: Sys, schedule: Schedule)
    requires Sound(cfg, y)
    ensures Sound(cfg, Interleave(cfg, y, schedule))
    decreases |schedule|
  {
    if schedule != [] {
      StepSound(cfg, y, schedule[0].0, schedule[0].1);
      InterleaveSound(cfg, Next(cfg, y, schedule[0].0, schedule[0].1), schedule[1..]);
    }
  }

  /** The states that some interleaving reaches. */
  ghost predicate Reachable(cfg: Config, y: Sys) {
    exists schedule :: y == Interleave(cfg, INITIAL, schedule)
  }

  lemma ReachableSound(cfg: Config, y: Sys)
    requires Reachable(cfg, y)
    ensures Sound(cfg, y)
  {
    var schedule :| y == Interleave(cfg, INITIAL, schedule);
    assert Sound(cfg, INITIAL);
    InterleaveSound(cfg, INITIAL, schedule);
  }

  /** No counter is ever decremented at zero. */
  lemma NoUnderflow(cfg: Config, y: Sys, s: SessionId)
    requires Reachable(cfg, y)
    ensures PcOf(y, s).RemCount? || PcOf(y, s).RollCount? ==> y.total >= 1
    ensures PcOf(y, s).RemUrlCount? ==> DataOf(y, PcOf(y, s).ud).count >= 1
  {
    ReachableSound(cfg, y);
    assert SessionOk(cfg, y, s);
    assert s in y.slots ==> |y.slots| >= 1 by {
      if s in y.slots {
        assert |y.slots| == |y.slots - {s}| + 1;
      }
    }
    if PcOf(y, s).RemUrlCount? {
      RemUrlCountSound(cfg, y, s);
    }
  }

  /** A remover's lookup finds the data its session was counted in, however the others move. */
  lemma LookupFindsOwnData(cfg: Config, y: Sys, s: SessionId)
    requires Reachable(cfg, y) && PcOf(y, s).RemGet?
    ensures s in y.counted
    ensures PcOf(y, s).url in y.urls && y.urls[PcOf(y, s).url] == y.counted[s]
  {
    ReachableSound(cfg, y);
    assert SessionOk(cfg, y, s);
    CountedIsMapped(cfg, y, s);
  }

  /** A client is counted and pushed only into data that is in the URL map. */
  lemma RegistersOnlyMapped(cfg: Config, y: Sys, s: SessionId)
    requires Reachable(cfg, y)
    requires PcOf(y, s).EntryCas? || PcOf(y, s).EntryPush?
    ensures PcOf(y, s).url in y.urls && y.urls[PcOf(y, s).url] == PcOf(y, s).ud
  {
    ReachableSound(cfg, y);
    assert SessionOk(cfg, y, s);
  }

  ghost predicate AllIdle(y: Sys) {
    forall s :: PcOf(y, s).Idle?
  }

  /** What the shared memory shows of a registry. */
  function ToRegistry(y: Sys): Registry {
    Registry(
      y.total, y.conn,
      map u | u in y.urls :: var d := DataOf(y, y.urls[u]); UrlEntry(d.clients, d.count, 0, TrackerInfo([])),
      map[])
  }

  lemma IdleEntryOk(cfg: Config, y: Sys, u: Url)
    requires Sound(cfg, y) && AllIdle(y) && u in y.urls
    ensures EntryOk(ToRegistry(y).urls[u], y.conn, u)
  {
    var ud := y.urls[u];
    assert MappedOk(y, u) && CountOk(cfg, y, ud) && ListOk(y, ud);
    var e := ToRegistry(y).urls[u];
    forall s ensures s in e.clients <==> s in y.conn && y.conn[s] == u {
      assert SessionOk(cfg, y, s) && PcOf(y, s).Idle?;
      if s in y.conn && y.conn[s] == u {
        CountedIsMapped(cfg, y, s);
      }
    }
    assert forall s :: s in e.clients <==> s in CountedIn(y.counted, ud);
    DistinctCount(e.clients, CountedIn(y.counted, ud));
    forall s ensures !WillDrop(PcOf(y, s), u) {
      assert PcOf(y, s).Idle?;
    }
  }

  lemma IdleUrlCaps(cfg: Config, y: Sys)
    requires Sound(cfg, y)
    ensures CapsHold(cfg, ToRegistry(y))
  {
    forall u | u in y.urls ensures y.heap[y.urls[u]].count <= 1 || y.heap[y.urls[u]].count <= Cap(cfg.maxByUrl) {
      assert MappedOk(y, u) && CountOk(cfg, y, y.urls[u]);
    }
  }

  lemma NothingLocked(cfg: Config, y: Sys)
    requires Sound(cfg, y) && AllIdle(y)
    ensures y.locks == map[]
  {
    forall s ensures !HoldsLock(PcOf(y, s)) {
      assert PcOf(y, s).Idle?;
    }
  }

  lemma IdleRegistry(cfg: Config, y: Sys)
    requires Sound(cfg, y) && AllIdle(y)
    ensures Inv(ToRegistry(y))
  {
    forall s
      ensures s in y.slots <==> s in y.conn.Keys
      ensures s in y.conn ==> y.conn[s] in y.urls
    {
      assert SessionOk(cfg, y, s) && PcOf(y, s).Idle?;
      if s in y.conn {
        CountedIsMapped(cfg, y, s);
      }
    }
    assert y.slots == y.conn.Keys;
    assert y.total == |y.slots|;
    forall u | u in y.urls ensures EntryOk(ToRegistry(y).urls[u], y.conn, u) {
      IdleEntryOk(cfg, y, u);
    }
    hide Sound, EntryOk;
  }

  /** Whenever all sessions are idle, the memory is a registry in which all five facts agree, and nothing is locked. */
  lemma QuiescentIsRegistry(cfg: Config, y: Sys)
    requires Reachable(cfg, y) && AllIdle(y)
    ensures Inv(ToRegistry(y)) && CapsHold(cfg, ToRegistry(y))
    ensures y.total == |y.conn| == CountSum(ToRegistry(y).urls)
    ensures y.locks == map[]
  {
    ReachableSound(cfg, y);
    hide Sound, Reachable, Inv, CapsHold;
    IdleRegistry(cfg, y);
    IdleUrlCaps(cfg, y);
    NothingLocked(cfg, y);
    TotalIsSum(ToRegistry(y));
    TotalIsSize(ToRegistry(y));
  }

  lemma TotalIsSize(r: Registry)
    requires Inv(r)
    ensures r.total == |r.conn|
  {
  }

  // ----- one step more -----

  lemma {:induction false} InterleaveSnoc(cfg: Config, y: Sys, schedule: Schedule, s: SessionId, command: Command)
    ensures Interleave(cfg, y, schedule + [(s, command)]) == Next(cfg, Interleave(cfg, y, schedule), s, command)
    decreases |schedule|
  {
    if schedule == [] {
      assert schedule + [(s, command)] == [(s, command)];
      assert [(s, command)][1..] == [];
    } else {
      assert (schedule + [(s, command)])[1..] == schedule[1..] + [(s, command)];
      InterleaveSnoc(cfg, Next(cfg, y, schedule[0].0, schedule[0].1), schedule[1..], s, command);
    }
  }

  lemma ReachableNext(cfg: Config, y: Sys, s: SessionId, command: Command, y': Sys)
    requires Reachable(cfg, y) && Step(cfg, y, s, command) == Some(y')
    ensures Reachable(cfg, y')
  {
    var schedule :| y == Interleave(cfg, INITIAL, schedule);
    InterleaveSnoc(cfg, INITIAL, schedule, s, command);
  }
}
