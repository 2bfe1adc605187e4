/**
 Every interleaving of single accesses is a sequence of atomic insertions and deletions on a plain map of
 sessions: a session joins when it is counted in its URL, and leaves when it gives its global slot back.
 */
module RegistryHistory {
  import opened Options
  import opened RoutingInfos
  import opened RegistrySpec
  import opened RegistrySteps

  datatype Event = Inserted(s: SessionId, u: Url) | Deleted(s: SessionId)

  /** The sessions that are counted in both counters, with the URLs they are counted in. */
  function Live(y: Sys): map<SessionId, Url> {
    map s | s in y.counted && s in y.slots :: DataOf(y, y.counted[s]).url
  }

  /** What the next access of s means for the map, if anything. */
  function EventOf(y: Sys, s: SessionId): Option<Event> {
    match PcOf(y, s)
    case AddEntry(u) => if u !in y.locks && u !in y.urls then Some(Inserted(s, u)) else None
    case EntryCas(u, ud, seen) => if DataOf(y, ud).count == seen then Some(Inserted(s, u)) else None
    case RemCount(_) => Some(Deleted(s))
    case _ => None
  }

  function After(m: map<SessionId, Url>, e: Option<Event>): map<SessionId, Url> {
    match e
    case None => m
    case Some(Inserted(s, u)) => m[s := u]
    case Some(Deleted(s)) => m - {s}
  }

  /** A session joins only if it is not there and the map admits it, and only a session that is there leaves. */
  predicate Possible(cfg: Config, m: map<SessionId, Url>, e: Option<Event>) {
    match e
    case None => true
    case Some(Inserted(s, u)) => s !in m && Admits(cfg, m, u)
    case Some(Deleted(s)) => s in m
  }

  // ----- one access -----

  lemma AddOnlyActs(cfg: Config, y: Sys, s: SessionId)
    requires PcOf(y, s).AddLoad? || PcOf(y, s).AddCas? || PcOf(y, s).AddPublish? || PcOf(y, s).AddEntry?
    ensures var next := AddStep(cfg, y, s);
            next.Some? ==> OnlyActs(y, next.value, s) && HeapGrows(y, next.value)
  {
  }

  lemma EntryOnlyActs(cfg: Config, y: Sys, s: SessionId)
    requires PcOf(y, s).EntryLoad? || PcOf(y, s).EntryCas? || PcOf(y, s).EntryPush?
    ensures OnlyActs(y, EntryStep(cfg, y, s), s) && HeapGrows(y, EntryStep(cfg, y, s))
  {
  }

  lemma ReleaseOnlyActs(cfg: Config, y: Sys, s: SessionId)
    requires PcOf(y, s).EntryRelease? || PcOf(y, s).RollCount? || PcOf(y, s).RollPublish?
    ensures OnlyActs(y, EntryStep(cfg, y, s), s) && HeapGrows(y, EntryStep(cfg, y, s))
  {
  }

  lemma TakeOnlyActs(y: Sys, s: SessionId)
    requires PcOf(y, s).RemTake? || PcOf(y, s).RemCount? || PcOf(y, s).RemGet?
    ensures var next := RemoveStep(y, s);
            next.Some? ==> OnlyActs(y, next.value, s) && HeapGrows(y, next.value)
  {
  }

  lemma DropOnlyActs(y: Sys, s: SessionId)
    requires PcOf(y, s).RemUrlCount? || PcOf(y, s).RemRetain? || PcOf(y, s).RemDrop?
    ensures var next := RemoveStep(y, s);
            next.Some? ==> OnlyActs(y, next.value, s) && HeapGrows(y, next.value)
  {
    hide Without;
  }

  /** An access of s moves s alone. */
  lemma StepOnlyActs(cfg: Config, y: Sys, s: SessionId, command: Command)
    ensures OnlyActs(y, Next(cfg, y, s, command), s) && HeapGrows(y, Next(cfg, y, s, command))
  {
    hide AddStep, EntryStep, RemoveStep;
    match PcOf(y, s)
    case Idle =>
    case AddLoad(_) => AddOnlyActs(cfg, y, s);
    case AddCas(_, _) => AddOnlyActs(cfg, y, s);
    case AddPublish(_) => AddOnlyActs(cfg, y, s);
    case AddEntry(_) => AddOnlyActs(cfg, y, s);
    case EntryLoad(_, _) => EntryOnlyActs(cfg, y, s);
    case EntryCas(_, _, _) => EntryOnlyActs(cfg, y, s);
    case EntryPush(_, _) => EntryOnlyActs(cfg, y, s);
    case EntryRelease(_, _) => ReleaseOnlyActs(cfg, y, s);
    case RollCount(_) => ReleaseOnlyActs(cfg, y, s);
    case RollPublish(_) => ReleaseOnlyActs(cfg, y, s);
    case RemTake => TakeOnlyActs(y, s);
    case RemCount(_) => TakeOnlyActs(y, s);
    case RemGet(_) => TakeOnlyActs(y, s);
    case _ => DropOnlyActs(y, s);
  }

  /** What a program counter says about its session in the map. */
  predicate IsLive(pc: Pc, shown: bool) {
    if AtRest(pc) then shown else pc.EntryPush? || (pc.EntryRelease? && pc.ok) || pc.RemCount?
  }

  lemma LiveByPc(cfg: Config, y: Sys, s: SessionId)
    requires Sound(cfg, y)
    ensures s in Live(y) <==> IsLive(PcOf(y, s), s in y.conn)
    ensures s in Live(y) ==> Live(y)[s] == if AtRest(PcOf(y, s)) then y.conn[s] else PcOf(y, s).url
  {
    assert SessionOk(cfg, y, s);
  }

  lemma LiveElsewhere(cfg: Config, y: Sys, y': Sys, s: SessionId, x: SessionId)
    requires Sound(cfg, y) && OnlyActs(y, y', s) && HeapGrows(y, y') && x != s
    ensures x in Live(y') <==> x in Live(y)
    ensures x in Live(y) ==> Live(y')[x] == Live(y)[x]
  {
    assert SessionOk(cfg, y, x);
  }

  /** By their program counters, s is in the map after y' exactly as e says, and where e says. */
  ghost predicate Tells(y: Sys, y': Sys, s: SessionId, e: Option<Event>) {
    var was, now := IsLive(PcOf(y, s), s in y.conn), IsLive(PcOf(y', s), s in y'.conn);
    match e
    case None => (was <==> now) && (was ==> UrlOf(y, s) == UrlOf(y', s))
    case Some(Inserted(x, u)) => x == s && !was && now && UrlOf(y', s) == u
    case Some(Deleted(x)) => x == s && was && !now
  }

  function UrlOf(y: Sys, s: SessionId): Url {
    if AtRest(PcOf(y, s)) then if s in y.conn then y.conn[s] else "" else PcOf(y, s).url
  }

  lemma StartTells(cfg: Config, y: Sys, s: SessionId, command: Command)
    requires SessionOk(cfg, y, s) && PcOf(y, s).Idle?
    ensures Tells(y, Next(cfg, y, s, command), s, EventOf(y, s))
  {
  }

  lemma AddTells(cfg: Config, y: Sys, s: SessionId)
    requires SessionOk(cfg, y, s)
    requires PcOf(y, s).AddLoad? || PcOf(y, s).AddCas? || PcOf(y, s).AddPublish? || PcOf(y, s).AddEntry?
    ensures var next := AddStep(cfg, y, s);
            if next.Some? then Tells(y, next.value, s, EventOf(y, s)) else EventOf(y, s).None?
  {
  }

  lemma EntryTells(cfg: Config, y: Sys, s: SessionId)
    requires SessionOk(cfg, y, s)
    requires PcOf(y, s).EntryLoad? || PcOf(y, s).EntryCas? || PcOf(y, s).EntryPush? || PcOf(y, s).EntryRelease?
          || PcOf(y, s).RollCount? || PcOf(y, s).RollPublish?
    ensures Tells(y, EntryStep(cfg, y, s), s, EventOf(y, s))
  {
  }

  lemma RemoveTells(cfg: Config, y: Sys, s: SessionId)
    requires SessionOk(cfg, y, s)
    requires PcOf(y, s).RemTake? || PcOf(y, s).RemCount? || PcOf(y, s).RemGet? || PcOf(y, s).RemUrlCount?
          || PcOf(y, s).RemRetain? || PcOf(y, s).RemDrop?
    ensures var next := RemoveStep(y, s);
            if next.Some? then Tells(y, next.value, s, EventOf(y, s)) else EventOf(y, s).None?
  {
    hide Without;
  }

  lemma StepTells(cfg: Config, y: Sys, s: SessionId, command: Command)
    requires SessionOk(cfg, y, s)
    ensures Tells(y, Next(cfg, y, s, command), s, EventOf(y, s))
    ensures Step(cfg, y, s, command).None? ==> EventOf(y, s).None?
  {
    hide AddStep, EntryStep, RemoveStep, SessionOk, Tells;
    match PcOf(y, s)
    case Idle => StartTells(cfg, y, s, command);
    case AddLoad(_) => AddTells(cfg, y, s); Waits(y, s);
    case AddCas(_, _) => AddTells(cfg, y, s); Waits(y, s);
    case AddPublish(_) => AddTells(cfg, y, s); Waits(y, s);
    case AddEntry(_) => AddTells(cfg, y, s); Waits(y, s);
    case EntryLoad(_, _) => EntryTells(cfg, y, s);
    case EntryCas(_, _, _) => EntryTells(cfg, y, s);
    case EntryPush(_, _) => EntryTells(cfg, y, s);
    case EntryRelease(_, _) => EntryTells(cfg, y, s);
    case RollCount(_) => EntryTells(cfg, y, s);
    case RollPublish(_) => EntryTells(cfg, y, s);
    case _ => RemoveTells(cfg, y, s); Waits(y, s);
  }

  lemma Waits(y: Sys, s: SessionId)
    ensures EventOf(y, s).None? ==> Tells(y, y, s, EventOf(y, s))
  {
  }

  lemma LiveSelf(cfg: Config, y: Sys, s: SessionId, command: Command)
    requires Sound(cfg, y) && Sound(cfg, Next(cfg, y, s, command))
    ensures var m, m', e := Live(y), Live(Next(cfg, y, s, command)), EventOf(y, s);
            && (s in m' <==> s in After(m, e))
            && (s in m' ==> m'[s] == After(m, e)[s])
            && (e.Some? ==> e.value.s == s && (e.value.Inserted? ==> s !in m) && (e.value.Deleted? ==> s in m))
  {
    LiveByPc(cfg, y, s);
    LiveByPc(cfg, Next(cfg, y, s, command), s);
    assert SessionOk(cfg, y, s);
    StepTells(cfg, y, s, command);
    hide Sound, Live, SessionOk, Next, EventOf;
  }

  // ----- why a joining session is admitted -----

  lemma LiveWithin(cfg: Config, y: Sys, s: SessionId)
    requires Sound(cfg, y) && s in y.slots && s !in Live(y)
    ensures |Live(y)| < Cap(cfg.maxConnections)
  {
    assert Live(y).Keys <= y.slots - {s};
    Bounded(Live(y).Keys, y.slots - {s});
    assert |y.slots - {s}| == |y.slots| - 1;
  }

  lemma {:induction false} Bounded<T>(a: set<T>, b: set<T>)
    requires a <= b
    ensures |a| <= |b|
  {
    assert |b| == |a| + |b - a| by { assert b == a + (b - a); }
  }

  lemma LiveAt(cfg: Config, y: Sys, u: Url, x: SessionId)
    requires Sound(cfg, y) && x in SessionsAt(Live(y), u)
    ensures u in y.urls && x in CountedIn(y.counted, y.urls[u])
  {
    assert SessionOk(cfg, y, x);
    CountedIsMapped(cfg, y, x);
  }

  lemma JoinAdmitted(cfg: Config, y: Sys, s: SessionId)
    requires Sound(cfg, y) && EventOf(y, s).Some? && EventOf(y, s).value.Inserted? && s !in Live(y)
    ensures Admits(cfg, Live(y), EventOf(y, s).value.u)
  {
    var u := EventOf(y, s).value.u;
    assert SessionOk(cfg, y, s);
    LiveWithin(cfg, y, s);
    forall x | x in SessionsAt(Live(y), u) ensures u in y.urls && x in CountedIn(y.counted, y.urls[u]) {
      LiveAt(cfg, y, u, x);
    }
    if u in y.urls {
      assert MappedOk(y, u) && CountOk(cfg, y, y.urls[u]);
      Bounded(SessionsAt(Live(y), u), CountedIn(y.counted, y.urls[u]));
    } else {
      assert SessionsAt(Live(y), u) == {};
    }
  }

  lemma LiveAfter(cfg: Config, y: Sys, s: SessionId, command: Command)
    requires Sound(cfg, y)
    ensures Live(Next(cfg, y, s, command)) == After(Live(y), EventOf(y, s))
  {
    var y' := Next(cfg, y, s, command);
    StepSound(cfg, y, s, command);
    StepOnlyActs(cfg, y, s, command);
    hide Sound, Live, OnlyActs, HeapGrows, Step, EventOf;
    LiveSelf(cfg, y, s, command);
    hide Next;
    var m, m' := Live(y), After(Live(y), EventOf(y, s));
    forall x ensures x in Live(y') <==> x in m' ensures x in Live(y') ==> Live(y')[x] == m'[x] {
      if x != s {
        LiveElsewhere(cfg, y, y', s, x);
      }
    }
    assert Live(y') == m';
  }

  /** Each access leaves the map alone, inserts one session that the map admits, or deletes one that is there. */
  lemma StepRefines(cfg: Config, y: Sys, s: SessionId, command: Command)
    requires Sound(cfg, y)
    ensures Possible(cfg, Live(y), EventOf(y, s))
    ensures Live(Next(cfg, y, s, command)) == After(Live(y), EventOf(y, s))
    ensures Step(cfg, y, s, command).None? ==> EventOf(y, s).None?
  {
    StepSound(cfg, y, s, command);
    LiveAfter(cfg, y, s, command);
    assert SessionOk(cfg, y, s);
    StepTells(cfg, y, s, command);
    LiveSelf(cfg, y, s, command);
    hide Sound, Live, Next, Step, SessionOk, Tells, After;
    if EventOf(y, s).Some? && EventOf(y, s).value.Inserted? {
      JoinAdmitted(cfg, y, s);
      assert EventOf(y, s).value.s == s;
    }
  }

  // ----- runs -----

  /** The events of a schedule, in order. */
  function Events(cfg: Config, y: Sys, schedule: Schedule): seq<Option<Event>>
    decreases |schedule|
  {
    if schedule == [] then []
    else [EventOf(y, schedule[0].0)] + Events(cfg, Next(cfg, y, schedule[0].0, schedule[0].1), schedule[1..])
  }

  function Replay(m: map<SessionId, Url>, events: seq<Option<Event>>): map<SessionId, Url>
    decreases |events|
  {
    if events == [] then m else Replay(After(m, events[0]), events[1..])
  }

  predicate PossibleRun(cfg: Config, m: map<SessionId, Url>, events: seq<Option<Event>>)
    decreases |events|
  {
    events == [] || (Possible(cfg, m, events[0]) && PossibleRun(cfg, After(m, events[0]), events[1..]))
  }

  lemma {:induction false} HistoryFrom(cfg: Config, y: Sys, schedule: Schedule)
    requires Sound(cfg, y)
    ensures var events := Events(cfg, y, schedule);
            PossibleRun(cfg, Live(y), events) && Live(Interleave(cfg, y, schedule)) == Replay(Live(y), events)
    decreases |schedule|
  {
    hide Sound, Live, EventOf, Next, Possible, After;
    if schedule != [] {
      var (s, command) := schedule[0];
      var y' := Next(cfg, y, s, command);
      StepLive(cfg, y, s, command);
      HistoryFrom(cfg, y', schedule[1..]);
      var events := Events(cfg, y, schedule);
      assert events[0] == EventOf(y, s) && events[1..] == Events(cfg, y', schedule[1..]);
    }
  }

  lemma StepLive(cfg: Config, y: Sys, s: SessionId, command: Command)
    requires Sound(cfg, y)
    ensures Sound(cfg, Next(cfg, y, s, command))
    ensures Possible(cfg, Live(y), EventOf(y, s))
    ensures Live(Next(cfg, y, s, command)) == After(Live(y), EventOf(y, s))
  {
    StepSound(cfg, y, s, command);
    StepRefines(cfg, y, s, command);
    hide Sound, Live, EventOf, Possible, Step;
  }

  /** In every interleaving the events, in their order, are a run of admitted insertions and deletions on a plain
      map, starting empty, and the map is the live sessions at every point. */
  lemma HistoryRefines(cfg: Config, schedule: Schedule)
    ensures PossibleRun(cfg, map[], Events(cfg, INITIAL, schedule))
    ensures Live(Interleave(cfg, INITIAL, schedule)) == Replay(map[], Events(cfg, INITIAL, schedule))
  {
    assert Sound(cfg, INITIAL);
    assert Live(INITIAL) == map[];
    HistoryFrom(cfg, INITIAL, schedule);
  }

  /** The verdict of an addition tells whether its session has joined, and between operations the live sessions are
      those of the session map. */
  lemma VerdictIsHistory(cfg: Config, y: Sys, s: SessionId)
    requires Reachable(cfg, y)
    ensures PcOf(y, s).EntryRelease? ==> (PcOf(y, s).ok <==> s in Live(y))
    ensures PcOf(y, s).EntryRelease? && PcOf(y, s).ok ==> Live(y)[s] == PcOf(y, s).url
    ensures PcOf(y, s).AddLoad? || PcOf(y, s).RollPublish? ==> s !in Live(y)
    ensures PcOf(y, s).Idle? ==> (s in Live(y) <==> s in y.conn) && (s in Live(y) ==> Live(y)[s] == y.conn[s])
  {
    ReachableSound(cfg, y);
    LiveByPc(cfg, y, s);
  }
}
