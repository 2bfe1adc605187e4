/**
 `enter` on top of the registry's accesses: a precheck of three accesses, then the connection set-up, during
 which other sessions move on, then the removal of the old connection and the addition of the new one.
 */
module RegistryEnter {
  import opened Options
  import opened RoutingInfos
  import opened RegistrySpec
  import opened RegistrySteps
  import opened RegistryHistory
  import opened RegistryAdmission
  import opened RegistryOperations
  import opened RegistryVerdicts
  import opened RegistrySolo

  /** How far a session's request is; `lost` tells that its old connection has been removed for it. */
  datatype Phase =
    | Outside
    | Looking(url: Url)                     // the global counter had room; look up the URL's data
    | Counting(url: Url, ud: UdId)          // load the URL's counter
    | Passed(url: Url)                      // the precheck has passed; set up the connection
    | Removing(url: Url, lost: bool)        // remove the old connection
    | Adding(url: Url, lost: bool)          // add the new one
    | Departing                               // remove the connection, outside `enter`
    | Rejected(url: Url)                    // refused by the precheck
    | Refused(url: Url, lost: bool)         // refused after it
    | Accepted(url: Url)

  datatype Request = Enter(url: Url) | Leave

  datatype Server = Server(mem: Sys, phases: map<SessionId, Phase>)

  const IDLE := Server(INITIAL, map[])

  function PhaseOf(e: Server, s: SessionId): Phase {
    if s in e.phases then e.phases[s] else Outside
  }

  function To(e: Server, s: SessionId, mem: Sys, phase: Phase): Server {
    Server(mem, e.phases[s := phase])
  }

  /** A session between two requests takes up the next one. */
  function Begin(cfg: Config, e: Server, s: SessionId, request: Request): Server {
    match request
    case Enter(u) => To(e, s, e.mem, if Cap(cfg.maxConnections) <= e.mem.total then Rejected(u) else Looking(u))
    case Leave => To(e, s, Next(cfg, e.mem, s, StartRemove), Departing)
  }

  /** One access of s; a session that has to wait stays where it is. */
  function Act(cfg: Config, e: Server, s: SessionId, request: Request): Server {
    var y := e.mem;
    match PhaseOf(e, s)
    case Looking(u) =>
      if u in y.locks then e else To(e, s, y, if u in y.urls then Counting(u, y.urls[u]) else Passed(u))
    case Counting(u, ud) => To(e, s, y, if Cap(cfg.maxByUrl) <= DataOf(y, ud).count then Rejected(u) else Passed(u))
    case Passed(u) => To(e, s, Next(cfg, y, s, StartRemove), Removing(u, s in y.conn))
    case Removing(u, lost) =>
      if PcOf(y, s).Idle? then To(e, s, Next(cfg, y, s, StartAdd(u)), Adding(u, lost))
      else To(e, s, Next(cfg, y, s, StartRemove), Removing(u, lost))
    case Adding(u, lost) =>
      var y' := Next(cfg, y, s, StartAdd(u));
      To(e, s, y', if !PcOf(y', s).Idle? then Adding(u, lost)
                   else if PcOf(y, s).EntryRelease? then Accepted(u) else Refused(u, lost))
    case Departing =>
      var y' := Next(cfg, y, s, StartRemove);
      To(e, s, y', if PcOf(y', s).Idle? then Outside else Departing)
    case _ => Begin(cfg, e, s, request)
  }

  type Traffic = seq<(SessionId, Request)>

  function Serve(cfg: Config, e: Server, traffic: Traffic): Server {
    if traffic == [] then e
    else
      var (s, request) := traffic[|traffic| - 1];
      Act(cfg, Serve(cfg, e, traffic[..|traffic| - 1]), s, request)
  }

  // ----- every request keeps to the rules of the registry -----

  /** What a phase says about its session. */
  predicate PhaseOk(phase: Phase, pc: Pc, registered: bool) {
    match phase
    case Removing(_, _) => InRemove(pc) || (pc.Idle? && !registered)
    case Adding(u, _) => InAdd(pc, u)
    case Departing => InRemove(pc)
    case Refused(_, _) => pc.Idle? && !registered
    case Accepted(_) => pc.Idle? && registered
    case Counting(_, _) => pc.Idle?
    case _ => pc.Idle?
  }

  ghost predicate HereOk(e: Server, s: SessionId) {
    && PhaseOk(PhaseOf(e, s), PcOf(e.mem, s), s in e.mem.conn)
    && (PhaseOf(e, s).Counting? ==> PhaseOf(e, s).ud < |e.mem.heap|)
  }

  ghost predicate ServerOk(cfg: Config, e: Server) {
    && Reachable(cfg, e.mem)
    && forall s :: HereOk(e, s)
  }

  lemma AdditionStays(cfg: Config, y: Sys, s: SessionId, u: Url)
    requires InAdd(PcOf(y, s), u) && SessionOk(cfg, y, s)
    ensures var z := Next(cfg, y, s, StartAdd(u));
            if PcOf(z, s).Idle? then s in z.conn <==> PcOf(y, s).EntryRelease? else InAdd(PcOf(z, s), u)
  {
  }

  lemma RemovalStays(cfg: Config, y: Sys, s: SessionId)
    requires InRemove(PcOf(y, s)) && SessionOk(cfg, y, s)
    ensures var z := Next(cfg, y, s, StartRemove);
            if PcOf(z, s).Idle? then s !in z.conn else InRemove(PcOf(z, s))
  {
    hide Without;
  }

  lemma Starts(cfg: Config, y: Sys, s: SessionId, u: Url)
    requires PcOf(y, s).Idle?
    ensures InRemove(PcOf(Next(cfg, y, s, StartRemove), s))
    ensures s !in y.conn ==> InAdd(PcOf(Next(cfg, y, s, StartAdd(u)), s), u)
  {
  }

  lemma ReadOk(cfg: Config, e: Server, s: SessionId, request: Request)
    requires HereOk(e, s) && (PhaseOf(e, s).Looking? || PhaseOf(e, s).Counting?) && Reachable(cfg, e.mem)
    ensures HereOk(Act(cfg, e, s, request), s)
  {
    ReachableSound(cfg, e.mem);
    assert PhaseOf(e, s).Looking? && PhaseOf(e, s).url in e.mem.urls ==> MappedOk(e.mem, PhaseOf(e, s).url);
    hide Reachable, Sound, Next;
  }

  lemma RemoveOk(cfg: Config, e: Server, s: SessionId, request: Request)
    requires HereOk(e, s) && (PhaseOf(e, s).Passed? || PhaseOf(e, s).Removing? || PhaseOf(e, s).Departing?)
    requires SessionOk(cfg, e.mem, s)
    ensures HereOk(Act(cfg, e, s, request), s)
  {
    assert PhaseOf(e, s).Departing? ==> !PcOf(e.mem, s).Idle?;
    hide SessionOk, Next, InRemove, InAdd, Begin;
    if PcOf(e.mem, s).Idle? {
      Starts(cfg, e.mem, s, PhaseOf(e, s).url);
    } else {
      assert PhaseOf(e, s).Passed? ==> PcOf(e.mem, s).Idle?;
      RemovalStays(cfg, e.mem, s);
    }
  }

  lemma AddOk(cfg: Config, e: Server, s: SessionId, request: Request)
    requires HereOk(e, s) && PhaseOf(e, s).Adding? && SessionOk(cfg, e.mem, s)
    ensures HereOk(Act(cfg, e, s, request), s)
  {
    AdditionStays(cfg, e.mem, s, PhaseOf(e, s).url);
    hide SessionOk, Next, InRemove, InAdd, Begin;
  }

  lemma SelfOk(cfg: Config, e: Server, s: SessionId, request: Request)
    requires Reachable(cfg, e.mem) && HereOk(e, s)
    ensures HereOk(Act(cfg, e, s, request), s)
  {
    ReachableSound(cfg, e.mem);
    assert SessionOk(cfg, e.mem, s);
    hide Sound, SessionOk, Next, InRemove, InAdd, Begin, Act, HereOk;
    match PhaseOf(e, s)
    case Looking(_) => ReadOk(cfg, e, s, request);
    case Counting(_, _) => ReadOk(cfg, e, s, request);
    case Passed(_) => RemoveOk(cfg, e, s, request);
    case Removing(_, _) => RemoveOk(cfg, e, s, request);
    case Departing => RemoveOk(cfg, e, s, request);
    case Adding(_, _) => AddOk(cfg, e, s, request);
    case _ =>
  }

  /** An access of the server is an access of the registry by the same session, or leaves the memory alone. */
  lemma ActsOnMemory(cfg: Config, e: Server, s: SessionId, request: Request) returns (command: Option<Command>)
    ensures Act(cfg, e, s, request).mem == if command.Some? then Next(cfg, e.mem, s, command.value) else e.mem
    ensures forall x :: x != s ==> PhaseOf(Act(cfg, e, s, request), x) == PhaseOf(e, x)
  {
    hide Next;
    command := match PhaseOf(e, s)
      case Looking(_) => None
      case Counting(_, _) => None
      case Adding(u, _) => Some(StartAdd(u))
      case Removing(u, _) => Some(if PcOf(e.mem, s).Idle? then StartAdd(u) else StartRemove)
      case Passed(_) => Some(StartRemove)
      case Departing => Some(StartRemove)
      case _ => if request.Leave? then Some(StartRemove) else None;
  }

  lemma OtherOk(cfg: Config, e: Server, e': Server, s: SessionId, command: Command, x: SessionId)
    requires x != s && HereOk(e, x) && PhaseOf(e', x) == PhaseOf(e, x) && e'.mem == Next(cfg, e.mem, s, command)
    ensures HereOk(e', x)
  {
    OtherAccess(cfg, e.mem, s, x, command);
    StepOnlyActs(cfg, e.mem, s, command);
    hide Next, PhaseOk, PhaseOf, PcOf, OnlyActs;
  }

  lemma ActOk(cfg: Config, e: Server, s: SessionId, request: Request)
    requires ServerOk(cfg, e)
    ensures ServerOk(cfg, Act(cfg, e, s, request))
  {
    var e' := Act(cfg, e, s, request);
    SelfOk(cfg, e, s, request);
    var command := ActsOnMemory(cfg, e, s, request);
    if command.Some? {
      NextReachable(cfg, e.mem, s, command.value);
      hide HereOk, Reachable, Act, PhaseOf, PcOf, Next;
      forall x ensures HereOk(e', x) {
        if x != s {
          OtherOk(cfg, e, e', s, command.value, x);
        }
      }
    } else {
      hide Reachable, Act, PhaseOk, PhaseOf, PcOf, Next;
      forall x ensures HereOk(e', x) {
        assert HereOk(e, x);
      }
    }
  }

  lemma {:induction false} ServeOk(cfg: Config, traffic: Traffic)
    ensures ServerOk(cfg, Serve(cfg, IDLE, traffic))
  {
    if traffic == [] {
      assert INITIAL == Interleave(cfg, INITIAL, []);
    } else {
      var (s, request) := traffic[|traffic| - 1];
      ServeOk(cfg, traffic[..|traffic| - 1]);
      hide ServerOk, Act;
      ActOk(cfg, Serve(cfg, IDLE, traffic[..|traffic| - 1]), s, request);
    }
  }

  /** The states that some traffic leads to. */
  ghost predicate Serving(cfg: Config, e: Server) {
    exists traffic :: e == Serve(cfg, IDLE, traffic)
  }

  // ----- when a passed precheck comes to nothing -----

  /** A request that has passed its precheck is refused all the same exactly if, at its check of the global cap, the
      session map corrected by the sessions in flight is full, or after its rollback; and it comes to be rolled back
      by no other access than its check of the URL's cap, if the URL is full. It then ends without a connection, also
      if it had one before, as `lost` tells. */
  lemma RefusedExactly(cfg: Config, e: Server, s: SessionId, u: Url, lost: bool, request: Request)
    requires Serving(cfg, e) && PhaseOf(e, s) == Adding(u, lost)
    ensures var y, e' := e.mem, Act(cfg, e, s, request);
            var pc, phase := PcOf(y, s), PhaseOf(e', s);
            && (phase == Adding(u, lost) || phase == Accepted(u) || phase == Refused(u, lost))
            && (phase == Refused(u, lost) <==> IsMapFull(cfg, y, s, u) || pc == RollPublish(u))
            && (phase == Adding(u, lost) ==> (IsRefused(PcOf(e'.mem, s)) <==> IsRefused(pc) || IsUrlFull(cfg, y, s, u)))
            && (phase == Accepted(u) ==> s in e'.mem.conn)
            && (phase == Refused(u, lost) ==> s !in e'.mem.conn)
  {
    var traffic :| e == Serve(cfg, IDLE, traffic);
    ServeOk(cfg, traffic);
    assert HereOk(e, s);
    ReachableSound(cfg, e.mem);
    assert SessionOk(cfg, e.mem, s);
    AdditionStays(cfg, e.mem, s, u);
    AdditionAccess(cfg, e.mem, s, u, StartAdd(u));
    VerdictAccess(cfg, e.mem, s, u, StartAdd(u));
    hide Reachable, Sound, SessionOk, Serve, Next, IsUrlFull;
  }

  // ----- the precheck -----

  predicate InProgress(phase: Phase) {
    phase.Looking? || phase.Counting? || phase.Passed? || phase.Removing? || phase.Adding? || phase.Departing?
  }

  /** The three accesses of the precheck: the global cap against the corrected session map, the lookup, which waits
      while the entry is locked and passes at once if there is none, and the URL's cap against those counted there. */
  lemma PrecheckExactly(cfg: Config, e: Server, s: SessionId, u: Url, request: Request)
    requires Serving(cfg, e)
    ensures var y, phase, e' := e.mem, PhaseOf(e, s), Act(cfg, e, s, request);
            var phase' := PhaseOf(e', s);
            && (!InProgress(phase) && request == Enter(u) ==>
                  e'.mem == y && phase' == if Cap(cfg.maxConnections) <= |y.conn| + |Unshown(y)| - |GivenUp(y)|
                                           then Rejected(u) else Looking(u))
            && (phase == Looking(u) ==>
                  e'.mem == y && phase' == if u in y.locks then Looking(u)
                                           else if u in y.urls then Counting(u, y.urls[u]) else Passed(u))
            && (phase.Counting? && phase.url == u ==>
                  e'.mem == y && phase' == if Cap(cfg.maxByUrl) <= |CountedIn(y.counted, phase.ud)|
                                           then Rejected(u) else Passed(u))
  {
    var traffic :| e == Serve(cfg, IDLE, traffic);
    ServeOk(cfg, traffic);
    assert HereOk(e, s);
    TotalAccount(cfg, e.mem);
    ReachableSound(cfg, e.mem);
    if PhaseOf(e, s).Counting? {
      assert CountOk(cfg, e.mem, PhaseOf(e, s).ud);
    }
    hide Reachable, Sound, Serve, Next, CountedIn;
  }

  /** After the precheck: the removal starts, and `lost` is whether there is a connection to remove; when the removal
      has returned, the addition to the same URL starts; and `lost` stays what it was. */
  lemma AfterPrecheck(cfg: Config, e: Server, s: SessionId, u: Url, request: Request)
    requires Serving(cfg, e)
    ensures var y, e' := e.mem, Act(cfg, e, s, request);
            && (PhaseOf(e, s) == Passed(u) ==>
                  PhaseOf(e', s) == Removing(u, s in y.conn) && PcOf(e'.mem, s) == RemTake && e'.mem.conn == y.conn)
            && (forall lost :: PhaseOf(e, s) == Removing(u, lost) ==>
                  if PcOf(y, s).Idle? then PhaseOf(e', s) == Adding(u, lost) && PcOf(e'.mem, s) == AddLoad(u)
                  else PhaseOf(e', s) == Removing(u, lost))
  {
    var traffic :| e == Serve(cfg, IDLE, traffic);
    ServeOk(cfg, traffic);
    assert HereOk(e, s);
    hide Reachable, Serve;
  }

  // ----- `enter` undisturbed -----

  function ActAlone(cfg: Config, e: Server, s: SessionId, request: Request, n: nat): Server {
    if n == 0 then e else Act(cfg, ActAlone(cfg, e, s, request, n - 1), s, request)
  }

  lemma {:induction false} ActJoin(cfg: Config, e: Server, s: SessionId, request: Request, m: nat, n: nat)
    ensures ActAlone(cfg, e, s, request, m + n) == ActAlone(cfg, ActAlone(cfg, e, s, request, m), s, request, n)
  {
    hide Act;
    if n > 0 {
      ActJoin(cfg, e, s, request, m, n - 1);
    }
  }

  /** After each of n accesses the request is still in progress. */
  ghost predicate GoesOn(cfg: Config, e: Server, s: SessionId, request: Request, n: nat) {
    forall k: nat :: 0 < k <= n ==> InProgress(PhaseOf(ActAlone(cfg, e, s, request, k), s))
  }

  lemma GoesOnJoin(cfg: Config, e: Server, s: SessionId, request: Request, m: nat, n: nat)
    requires GoesOn(cfg, e, s, request, m) && GoesOn(cfg, ActAlone(cfg, e, s, request, m), s, request, n)
    ensures GoesOn(cfg, e, s, request, m + n)
  {
    hide ActAlone, PhaseOf, InProgress;
    forall k: nat | 0 < k <= m + n ensures InProgress(PhaseOf(ActAlone(cfg, e, s, request, k), s)) {
      if k > m {
        ActJoin(cfg, e, s, request, m, k - m);
      }
    }
  }

  ghost predicate OthersWait(e: Server, z: Server, s: SessionId) {
    forall x :: x != s ==> PhaseOf(z, x) == PhaseOf(e, x)
  }

  lemma OneAct(cfg: Config, e: Server, s: SessionId, request: Request, n: nat)
    ensures ActAlone(cfg, e, s, request, 0) == e
    ensures ActAlone(cfg, e, s, request, n + 1) == Act(cfg, ActAlone(cfg, e, s, request, n), s, request)
  {
    hide Act;
  }

  /** An access of the precheck changes no memory and no other request. */
  lemma ReadsOnly(cfg: Config, e: Server, s: SessionId, u: Url)
    requires !InProgress(PhaseOf(e, s)) || PhaseOf(e, s).Looking? || PhaseOf(e, s).Counting?
    ensures var e' := Act(cfg, e, s, Enter(u));
            e'.mem == e.mem && OthersWait(e, e', s)
    ensures var y, phase' := e.mem, PhaseOf(Act(cfg, e, s, Enter(u)), s);
            && (!InProgress(PhaseOf(e, s)) ==> phase' == if Cap(cfg.maxConnections) <= y.total then Rejected(u) else Looking(u))
            && (PhaseOf(e, s) == Looking(u) && u !in y.locks ==>
                  phase' == if u in y.urls then Counting(u, y.urls[u]) else Passed(u))
            && (PhaseOf(e, s).Counting? && PhaseOf(e, s).url == u ==>
                  phase' == if Cap(cfg.maxByUrl) <= DataOf(y, PhaseOf(e, s).ud).count then Rejected(u) else Passed(u))
  {
    hide Next, DataOf;
  }

  /** The precheck alone: rejected, or passed with nothing changed. */
  lemma SoloPrecheck(cfg: Config, e: Server, s: SessionId, u: Url) returns (n: nat)
    requires !InProgress(PhaseOf(e, s)) && u !in e.mem.locks && (u in e.mem.urls ==> e.mem.urls[u] < |e.mem.heap|)
    ensures n > 0 && GoesOn(cfg, e, s, Enter(u), n - 1)
    ensures var z := ActAlone(cfg, e, s, Enter(u), n);
            && z.mem == e.mem && OthersWait(e, z, s)
            && PhaseOf(z, s) == if Available(cfg, ToRegistry(e.mem), u) then Passed(u) else Rejected(u)
  {
    var e1 := Act(cfg, e, s, Enter(u));
    OneAct(cfg, e, s, Enter(u), 0);
    ReadsOnly(cfg, e, s, u);
    n := 1;
    hide Act, Available, ToRegistry, Cap, DataOf, ActAlone, PhaseOf;
    if PhaseOf(e1, s).Looking? {
      var e2 := Act(cfg, e1, s, Enter(u));
      OneAct(cfg, e, s, Enter(u), 1);
      ReadsOnly(cfg, e1, s, u);
      n := 2;
      if PhaseOf(e2, s).Counting? {
        OneAct(cfg, e, s, Enter(u), 2);
        ReadsOnly(cfg, e2, s, u);
        n := 3;
      }
    }
  }

  lemma RunsMeaning(cfg: Config, y: Sys, s: SessionId, command: Command, n: nat, last: Pc, r: Registry, k: nat)
    requires Runs(cfg, y, s, command, n, last, r) && PcOf(y, s).Idle?
    ensures n > 1 && Alone(cfg, y, s, command, 0) == y
    ensures PcOf(Alone(cfg, y, s, command, n), s).Idle? && PcOf(Alone(cfg, y, s, command, n - 1), s) == last
    ensures 0 < k < n ==> !PcOf(Alone(cfg, y, s, command, k), s).Idle?
    ensures Alone(cfg, y, s, command, k + 1) == Next(cfg, Alone(cfg, y, s, command, k), s, command)
  {
    hide Next, ToRegistry, PcOf;
  }

  lemma GoesOneMore(cfg: Config, e: Server, s: SessionId, request: Request, n: nat)
    requires InProgress(PhaseOf(ActAlone(cfg, e, s, request, n), s))
    requires n > 0 ==> GoesOn(cfg, e, s, request, n - 1)
    ensures GoesOn(cfg, e, s, request, n)
  {
    hide ActAlone, PhaseOf, InProgress;
  }

  /** The removal's k-th access is the request's. */
  ghost predicate RemovesBy(cfg: Config, e: Server, s: SessionId, u: Url, k: nat) {
    var z := ActAlone(cfg, e, s, Enter(u), k);
    && z.mem == Alone(cfg, e.mem, s, StartRemove, k) && PhaseOf(z, s) == Removing(u, s in e.mem.conn)
    && OthersWait(e, z, s) && GoesOn(cfg, e, s, Enter(u), k)
  }

  lemma RemovesFirst(cfg: Config, e: Server, s: SessionId, u: Url)
    requires PhaseOf(e, s) == Passed(u)
    ensures RemovesBy(cfg, e, s, u, 1)
  {
    OneAct(cfg, e, s, Enter(u), 0);
    assert Alone(cfg, e.mem, s, StartRemove, 1) == Next(cfg, e.mem, s, StartRemove) by {
      assert Alone(cfg, e.mem, s, StartRemove, 0) == e.mem;
      hide Next;
    }
    hide Next, Alone, Act, ActAlone, PhaseOf, PcOf, GoesOn;
    GoesOneMore(cfg, e, s, Enter(u), 1);
  }

  lemma RemovesNext(cfg: Config, e: Server, s: SessionId, u: Url, k: nat)
    requires RemovesBy(cfg, e, s, u, k) && !PcOf(Alone(cfg, e.mem, s, StartRemove, k), s).Idle?
    ensures RemovesBy(cfg, e, s, u, k + 1)
  {
    OneAct(cfg, e, s, Enter(u), k);
    assert Alone(cfg, e.mem, s, StartRemove, k + 1)
        == Next(cfg, Alone(cfg, e.mem, s, StartRemove, k), s, StartRemove) by {
      hide Next;
    }
    hide Next, Alone, Act, ActAlone, PhaseOf, PcOf, GoesOn;
    GoesOneMore(cfg, e, s, Enter(u), k + 1);
  }

  lemma {:induction false} SoloRemoving(cfg: Config, e: Server, s: SessionId, u: Url, n: nat, last: Pc, r: Registry, k: nat)
    requires PhaseOf(e, s) == Passed(u) && Runs(cfg, e.mem, s, StartRemove, n, last, r) && 0 < k <= n
    ensures RemovesBy(cfg, e, s, u, k)
  {
    hide Next, ToRegistry, RemovesBy, PhaseOf;
    if k == 1 {
      RemovesFirst(cfg, e, s, u);
    } else {
      SoloRemoving(cfg, e, s, u, n, last, r, k - 1);
      RemovesNext(cfg, e, s, u, k - 1);
    }
  }

  /** The addition's k-th access is the request's, and its n-th and last one ends it. */
  ghost predicate AddsBy(cfg: Config, e: Server, s: SessionId, u: Url, lost: bool, k: nat, n: nat, last: Pc) {
    var z := ActAlone(cfg, e, s, Enter(u), k);
    && z.mem == Alone(cfg, e.mem, s, StartAdd(u), k) && OthersWait(e, z, s)
    && (k > 0 ==> GoesOn(cfg, e, s, Enter(u), k - 1))
    && PhaseOf(z, s) == if k < n then Adding(u, lost) else if last.EntryRelease? then Accepted(u) else Refused(u, lost)
  }

  lemma AddsFirst(cfg: Config, e: Server, s: SessionId, u: Url, lost: bool, n: nat, last: Pc)
    requires PhaseOf(e, s) == Removing(u, lost) && PcOf(e.mem, s).Idle? && n > 1
    ensures AddsBy(cfg, e, s, u, lost, 1, n, last)
  {
    OneAct(cfg, e, s, Enter(u), 0);
    assert Alone(cfg, e.mem, s, StartAdd(u), 1) == Next(cfg, e.mem, s, StartAdd(u)) by {
      assert Alone(cfg, e.mem, s, StartAdd(u), 0) == e.mem;
      hide Next;
    }
    hide Next, Alone, Act, ActAlone, PhaseOf, PcOf, GoesOn;
  }

  lemma AddsNext(cfg: Config, e: Server, s: SessionId, u: Url, lost: bool, k: nat, n: nat, last: Pc)
    requires AddsBy(cfg, e, s, u, lost, k, n, last) && 0 < k < n
    requires PcOf(Alone(cfg, e.mem, s, StartAdd(u), k + 1), s).Idle? <==> k + 1 == n
    requires k + 1 == n ==> PcOf(Alone(cfg, e.mem, s, StartAdd(u), k), s) == last
    ensures AddsBy(cfg, e, s, u, lost, k + 1, n, last)
  {
    OneAct(cfg, e, s, Enter(u), k);
    assert Alone(cfg, e.mem, s, StartAdd(u), k + 1)
        == Next(cfg, Alone(cfg, e.mem, s, StartAdd(u), k), s, StartAdd(u)) by {
      hide Next;
    }
    hide Next, Alone, Act, ActAlone, PhaseOf, PcOf, GoesOn;
    GoesOneMore(cfg, e, s, Enter(u), k);
  }

  lemma RunsUntil(cfg: Config, y: Sys, s: SessionId, command: Command, n: nat, last: Pc, r: Registry, k: nat)
    requires Runs(cfg, y, s, command, n, last, r) && PcOf(y, s).Idle? && 0 < k <= n
    ensures n > 1
    ensures PcOf(Alone(cfg, y, s, command, k), s).Idle? <==> k == n
    ensures k == n ==> PcOf(Alone(cfg, y, s, command, k - 1), s) == last
  {
    hide Next, ToRegistry;
    RunsMeaning(cfg, y, s, command, n, last, r, k);
  }

  lemma {:induction false} SoloAdding(cfg: Config, e: Server, s: SessionId, u: Url, lost: bool, n: nat, last: Pc,
                                      r: Registry, k: nat)
    requires PhaseOf(e, s) == Removing(u, lost) && PcOf(e.mem, s).Idle?
    requires Runs(cfg, e.mem, s, StartAdd(u), n, last, r) && 0 < k <= n
    ensures AddsBy(cfg, e, s, u, lost, k, n, last)
  {
    hide Next, Runs, Act, ActAlone, Alone, PhaseOf, PcOf, AddsBy, ToRegistry;
    RunsUntil(cfg, e.mem, s, StartAdd(u), n, last, r, k);
    if k == 1 {
      AddsFirst(cfg, e, s, u, lost, n, last);
    } else {
      var before := k - 1;
      SoloAdding(cfg, e, s, u, lost, n, last, r, before);
      AddsNext(cfg, e, s, u, lost, before, n, last);
    }
  }

  lemma {:induction false} AloneReachable(cfg: Config, y: Sys, s: SessionId, command: Command, n: nat)
    requires Reachable(cfg, y)
    ensures Reachable(cfg, Alone(cfg, y, s, command, n))
  {
    hide Reachable, Next;
    if n > 0 {
      AloneReachable(cfg, y, s, command, n - 1);
      NextReachable(cfg, Alone(cfg, y, s, command, n - 1), s, command);
    }
  }

  lemma IdleAgain(cfg: Config, y: Sys, s: SessionId, command: Command, n: nat, last: Pc, r: Registry)
    requires Runs(cfg, y, s, command, n, last, r) && AllIdle(y) && Reachable(cfg, y)
    ensures var z := Alone(cfg, y, s, command, n);
            Reachable(cfg, z) && AllIdle(z) && z.locks == map[] && ToRegistry(z) == r && PcOf(z, s).Idle?
  {
    hide Reachable, ToRegistry, Next, Alone;
    AloneReachable(cfg, y, s, command, n);
    var z := Alone(cfg, y, s, command, n);
    forall x ensures PcOf(z, x).Idle? {
      assert PcOf(y, x).Idle?;
    }
    ReachableSound(cfg, z);
  }

  lemma ServingOk(cfg: Config, e: Server)
    requires Serving(cfg, e)
    ensures Reachable(cfg, e.mem)
  {
    var traffic :| e == Serve(cfg, IDLE, traffic);
    ServeOk(cfg, traffic);
    hide Reachable, Serve;
  }

  lemma IdleHere(cfg: Config, y: Sys, u: Url)
    requires Reachable(cfg, y) && AllIdle(y)
    ensures y.locks == map[] && (u in y.urls ==> y.urls[u] < |y.heap|)
    ensures Inv(ToRegistry(y)) && ToRegistry(y).conn == y.conn
  {
    ReachableSound(cfg, y);
    QuiescentIsRegistry(cfg, y);
    assert u in y.urls ==> MappedOk(y, u);
    hide Reachable, Sound;
  }

  /** Past the precheck: the removal, and then the addition. */
  lemma SoloRemoved(cfg: Config, e: Server, s: SessionId, u: Url) returns (n: nat)
    requires Reachable(cfg, e.mem) && AllIdle(e.mem) && PhaseOf(e, s) == Passed(u)
    ensures var z, r := ActAlone(cfg, e, s, Enter(u), n), ToRegistry(e.mem);
            && PhaseOf(z, s) == Removing(u, s in e.mem.conn) && OthersWait(e, z, s) && GoesOn(cfg, e, s, Enter(u), n)
            && Reachable(cfg, z.mem) && AllIdle(z.mem) && z.mem.locks == map[] && ToRegistry(z.mem) == Remove(r, s)
  {
    IdleHere(cfg, e.mem, u);
    assert PcOf(e.mem, s).Idle?;
    hide Reachable, ToRegistry, ActAlone, Remove, PhaseOf, GoesOn, Inv;
    var last: Pc;
    n, last := SoloRemove(cfg, e.mem, s);
    var r := Remove(ToRegistry(e.mem), s);
    IdleAgain(cfg, e.mem, s, StartRemove, n, last, r);
    assert n > 0;
    hide Runs, AllIdle;
    SoloRemoving(cfg, e, s, u, n, last, r, n);
  }

  lemma SoloAdded(cfg: Config, e: Server, s: SessionId, u: Url, lost: bool) returns (n: nat)
    requires Reachable(cfg, e.mem) && AllIdle(e.mem) && PhaseOf(e, s) == Removing(u, lost) && s !in e.mem.conn
    ensures n > 0 && GoesOn(cfg, e, s, Enter(u), n - 1)
    ensures var z, r := ActAlone(cfg, e, s, Enter(u), n), ToRegistry(e.mem);
            && OthersWait(e, z, s) && ToRegistry(z.mem) == Add(cfg, r, s, u).0
            && PhaseOf(z, s) == if Add(cfg, r, s, u).1 then Accepted(u) else Refused(u, lost)
  {
    IdleHere(cfg, e.mem, u);
    assert PcOf(e.mem, s).Idle?;
    hide Reachable, ToRegistry, ActAlone, Add, PhaseOf, GoesOn, Inv;
    var last: Pc;
    n, last := SoloAdd(cfg, e.mem, s, u);
    var r := Add(cfg, ToRegistry(e.mem), s, u).0;
    IdleAgain(cfg, e.mem, s, StartAdd(u), n, last, r);
    assert n > 0;
    ReturnsBy(cfg, e.mem, s, u, n, last, r);
    hide Runs, AllIdle;
    SoloAdding(cfg, e, s, u, lost, n, last, r, n);
  }

  lemma ReturnsBy(cfg: Config, y: Sys, s: SessionId, u: Url, n: nat, last: Pc, r: Registry)
    requires Runs(cfg, y, s, StartAdd(u), n, last, r) && PcOf(y, s).Idle? && s !in y.conn && Reachable(cfg, y)
    ensures last.EntryRelease? <==> last == EntryRelease(u, true)
  {
    RunsMeaning(cfg, y, s, StartAdd(u), n, last, r, 0);
    StaysInAdd(cfg, y, s, u, n, last, r, n - 1);
    AdditionAccess(cfg, Alone(cfg, y, s, StartAdd(u), n - 1), s, u, StartAdd(u));
    RunsMeaning(cfg, y, s, StartAdd(u), n, last, r, n - 1);
    hide Next, Runs, Alone;
  }

  lemma {:induction false} StaysInAdd(cfg: Config, y: Sys, s: SessionId, u: Url, n: nat, last: Pc, r: Registry, k: nat)
    requires Runs(cfg, y, s, StartAdd(u), n, last, r) && PcOf(y, s).Idle? && s !in y.conn && 0 < k < n
    ensures InAdd(PcOf(Alone(cfg, y, s, StartAdd(u), k), s), u)
  {
    RunsMeaning(cfg, y, s, StartAdd(u), n, last, r, k - 1);
    RunsMeaning(cfg, y, s, StartAdd(u), n, last, r, k);
    if k == 1 {
      Starts(cfg, y, s, u);
    } else {
      StaysInAdd(cfg, y, s, u, n, last, r, k - 1);
      AdditionAccess(cfg, Alone(cfg, y, s, StartAdd(u), k - 1), s, u, StartAdd(u));
    }
    hide Next, Runs, Alone;
  }

  /** Two stretches in a row, the second of which ends the request. */
  lemma TwoParts(cfg: Config, e: Server, e1: Server, s: SessionId, request: Request, n: nat, k: nat)
    requires k > 0 && GoesOn(cfg, e, s, request, n) && e1 == ActAlone(cfg, e, s, request, n)
    requires GoesOn(cfg, e1, s, request, k - 1)
    ensures GoesOn(cfg, e, s, request, n + k - 1)
    ensures ActAlone(cfg, e, s, request, n + k) == ActAlone(cfg, e1, s, request, k)
  {
    hide GoesOn, ActAlone, PhaseOf, InProgress;
    GoesOnJoin(cfg, e, s, request, n, k - 1);
    assert n + (k - 1) == n + k - 1;
    ActJoin(cfg, e, s, request, n, k);
  }

  /** `enter` past its precheck. */
  lemma SoloPassed(cfg: Config, e: Server, s: SessionId, u: Url) returns (n: nat)
    requires Reachable(cfg, e.mem) && AllIdle(e.mem) && PhaseOf(e, s) == Passed(u)
    ensures n > 0 && GoesOn(cfg, e, s, Enter(u), n - 1)
    ensures var z, r := ActAlone(cfg, e, s, Enter(u), n), ToRegistry(e.mem);
            && OthersWait(e, z, s) && ToRegistry(z.mem) == Add(cfg, Remove(r, s), s, u).0
            && PhaseOf(z, s) == if Add(cfg, Remove(r, s), s, u).1 then Accepted(u) else Refused(u, s in e.mem.conn)
  {
    IdleHere(cfg, e.mem, u);
    RemoveRefines(ToRegistry(e.mem), s);
    hide Reachable, AllIdle, ToRegistry, ActAlone, PhaseOf, GoesOn, Inv, Remove, Add;
    var m := SoloRemoved(cfg, e, s, u);
    var e2 := ActAlone(cfg, e, s, Enter(u), m);
    IdleHere(cfg, e2.mem, u);
    var k := SoloAdded(cfg, e2, s, u, s in e.mem.conn);
    TwoParts(cfg, e, e2, s, Enter(u), m, k);
    n := m + k;
  }

  /** An undisturbed request ends after n accesses, with this memory, in this phase. */
  ghost predicate EndsBy(cfg: Config, e: Server, s: SessionId, u: Url, n: nat, r: Registry, phase: Phase) {
    && n > 0 && GoesOn(cfg, e, s, Enter(u), n - 1)
    && ToRegistry(ActAlone(cfg, e, s, Enter(u), n).mem) == r && OthersWait(e, ActAlone(cfg, e, s, Enter(u), n), s)
    && PhaseOf(ActAlone(cfg, e, s, Enter(u), n), s) == phase
  }

  lemma EndsAfter(cfg: Config, e: Server, e1: Server, s: SessionId, u: Url, n: nat, k: nat, r: Registry, phase: Phase)
    requires GoesOn(cfg, e, s, Enter(u), n) && e1 == ActAlone(cfg, e, s, Enter(u), n) && OthersWait(e, e1, s)
    requires EndsBy(cfg, e1, s, u, k, r, phase)
    ensures EndsBy(cfg, e, s, u, n + k, r, phase)
  {
    hide GoesOn, ActAlone, PhaseOf, ToRegistry;
    TwoParts(cfg, e, e1, s, Enter(u), n, k);
  }

  lemma SoloRejects(cfg: Config, e: Server, s: SessionId, u: Url) returns (n: nat)
    requires Reachable(cfg, e.mem) && AllIdle(e.mem) && !InProgress(PhaseOf(e, s))
    requires !Available(cfg, ToRegistry(e.mem), u)
    ensures EndsBy(cfg, e, s, u, n, ToRegistry(e.mem), Rejected(u))
  {
    IdleHere(cfg, e.mem, u);
    hide Reachable, AllIdle, ToRegistry, ActAlone, PhaseOf, GoesOn, Inv, Available, OthersWait;
    n := SoloPrecheck(cfg, e, s, u);
  }

  lemma SoloPasses(cfg: Config, e: Server, s: SessionId, u: Url) returns (m: nat, e1: Server)
    requires Reachable(cfg, e.mem) && AllIdle(e.mem) && !InProgress(PhaseOf(e, s))
    requires Available(cfg, ToRegistry(e.mem), u)
    ensures GoesOn(cfg, e, s, Enter(u), m) && e1 == ActAlone(cfg, e, s, Enter(u), m) && OthersWait(e, e1, s)
    ensures PhaseOf(e1, s) == Passed(u) && e1.mem == e.mem
  {
    IdleHere(cfg, e.mem, u);
    hide Reachable, AllIdle, ToRegistry, ActAlone, PhaseOf, GoesOn, Inv, Available, OthersWait;
    m := SoloPrecheck(cfg, e, s, u);
    e1 := ActAlone(cfg, e, s, Enter(u), m);
    GoesOneMore(cfg, e, s, Enter(u), m);
  }

  lemma SoloEnds(cfg: Config, e: Server, s: SessionId, u: Url, r: Registry) returns (k: nat)
    requires Reachable(cfg, e.mem) && AllIdle(e.mem) && PhaseOf(e, s) == Passed(u)
    requires r == ToRegistry(e.mem) && Add(cfg, Remove(r, s), s, u).1
    ensures EndsBy(cfg, e, s, u, k, Add(cfg, Remove(r, s), s, u).0, Accepted(u))
  {
    hide Reachable, AllIdle, ToRegistry, ActAlone, PhaseOf, GoesOn, Remove, Add, OthersWait;
    k := SoloPassed(cfg, e, s, u);
  }

  lemma SoloAccepts(cfg: Config, e: Server, s: SessionId, u: Url, r: Registry) returns (n: nat)
    requires Reachable(cfg, e.mem) && AllIdle(e.mem) && !InProgress(PhaseOf(e, s))
    requires r == ToRegistry(e.mem) && Available(cfg, r, u) && Add(cfg, Remove(r, s), s, u).1
    ensures EndsBy(cfg, e, s, u, n, Add(cfg, Remove(r, s), s, u).0, Accepted(u))
  {
    hide *;
    var m, e1 := SoloPasses(cfg, e, s, u);
    var k := SoloEnds(cfg, e1, s, u, r);
    EndsAfter(cfg, e, e1, s, u, m, k, Add(cfg, Remove(r, s), s, u).0, Accepted(u));
    n := m + k;
  }

  /** `enter`, undisturbed, does what it does on the atomic registry: the same memory and the same verdict. */
  lemma SoloEnter(cfg: Config, e: Server, s: SessionId, u: Url) returns (n: nat)
    requires Serving(cfg, e) && AllIdle(e.mem) && !InProgress(PhaseOf(e, s))
    ensures EndsBy(cfg, e, s, u, n, RegistrySpec.Enter(cfg, ToRegistry(e.mem), s, u).0,
                   if RegistrySpec.Enter(cfg, ToRegistry(e.mem), s, u).1 then Accepted(u) else Rejected(u))
  {
    ServingOk(cfg, e);
    IdleHere(cfg, e.mem, u);
    var r := ToRegistry(e.mem);
    EnterCases(cfg, r, s, u);
    hide Reachable, Serving, AllIdle, ToRegistry, EndsBy, InProgress, PhaseOf, Inv, Available, Remove, Add;
    if Available(cfg, r, u) {
      n := SoloAccepts(cfg, e, s, u, r);
    } else {
      n := SoloRejects(cfg, e, s, u);
    }
  }

  // ----- how far a passed precheck can be trusted -----

  /** The sessions that hold a global slot, as the session map and the program counters show. */
  function Holders(y: Sys): set<SessionId> {
    (y.conn.Keys - GivenUp(y)) + Unshown(y)
  }

  lemma HoldersCounted(cfg: Config, y: Sys)
    requires Reachable(cfg, y)
    ensures |Holders(y)| == y.total
  {
    ReachableSound(cfg, y);
    forall s ensures s in Holders(y) <==> s in y.slots {
      WhereSlotted(cfg, y, s);
    }
    assert Holders(y) == y.slots;
  }

  lemma NotHolding(cfg: Config, y: Sys, s: SessionId, u: Url)
    requires Reachable(cfg, y) && PcOf(y, s) == AddLoad(u)
    ensures s !in Holders(y)
  {
    ReachableSound(cfg, y);
    assert SessionOk(cfg, y, s);
    hide Sound, Reachable;
  }

  /** The global part of a precheck that passed in x is overtaken by y exactly if so many more sessions have taken a
      slot than have given one back as there was room; so some other session must have taken one. */
  lemma PrecheckOvertaken(cfg: Config, x: Sys, y: Sys, s: SessionId, u: Url, command: Command)
    requires Reachable(cfg, x) && x.total < Cap(cfg.maxConnections)
    requires Reachable(cfg, y) && PcOf(y, s) == AddLoad(u)
    ensures PcOf(Next(cfg, y, s, command), s).Idle? <==>
            |Holders(y) - Holders(x)| - |Holders(x) - Holders(y)| >= Cap(cfg.maxConnections) - x.total
    ensures PcOf(Next(cfg, y, s, command), s).Idle? ==> exists o :: o != s && o in Holders(y) - Holders(x)
  {
    HoldersCounted(cfg, x);
    HoldersCounted(cfg, y);
    NotHolding(cfg, y, s, u);
    hide Reachable, Holders, Next, PcOf;
    if Cap(cfg.maxConnections) <= y.total {
      assert |Holders(y) - Holders(x)| > 0;
      var o :| o in Holders(y) - Holders(x);
    }
  }
}
