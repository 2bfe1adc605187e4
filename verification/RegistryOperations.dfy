/** What one operation contributes to the history, from the access that starts it to its return. */
module RegistryOperations {
  import opened Options
  import opened RoutingInfos
  import opened RegistrySpec
  import opened RegistrySteps
  import opened RegistryHistory

  /** The events of a schedule that are accesses of s. */
  function EventsOf(cfg: Config, y: Sys, schedule: Schedule, s: SessionId): seq<Event>
    decreases |schedule|
  {
    if schedule == [] then []
    else
      var (x, command) := schedule[0];
      (if x == s && EventOf(y, s).Some? then [EventOf(y, s).value] else [])
      + EventsOf(cfg, Next(cfg, y, x, command), schedule[1..], s)
  }

  /** Throughout the schedule, its end included, s is under way. */
  predicate BusyAll(cfg: Config, y: Sys, schedule: Schedule, s: SessionId)
    decreases |schedule|
  {
    && !PcOf(y, s).Idle?
    && (schedule == [] || BusyAll(cfg, Next(cfg, y, schedule[0].0, schedule[0].1), schedule[1..], s))
  }

  predicate InAdd(pc: Pc, u: Url) {
    && (pc.AddLoad? || pc.AddCas? || pc.AddPublish? || pc.AddEntry? || pc.EntryLoad? || pc.EntryCas? || pc.EntryPush?
        || pc.EntryRelease? || pc.RollCount? || pc.RollPublish?)
    && pc.url == u
  }

  predicate InRemove(pc: Pc) {
    pc.RemTake? || pc.RemCount? || pc.RemGet? || pc.RemUrlCount? || pc.RemRetain? || pc.RemDrop?
  }

  /** What an addition at pc has contributed so far. */
  function AddedSoFar(pc: Pc, s: SessionId, u: Url): seq<Event> {
    if pc.EntryPush? || (pc.EntryRelease? && pc.ok) then [Inserted(s, u)] else []
  }

  function RemovedSoFar(pc: Pc, s: SessionId): seq<Event> {
    if pc.RemTake? || pc.RemCount? then [] else [Deleted(s)]
  }

  function EventSeq(e: Option<Event>): seq<Event> {
    if e.Some? then [e.value] else []
  }

  // ----- one access -----

  /** After an access of an addition at y: it has ended where an addition may end, or it goes on with its account. */
  ghost predicate AddGoesOn(y: Sys, z: Sys, s: SessionId, u: Url) {
    var was, now := PcOf(y, s), PcOf(z, s);
    if now.Idle? then was == AddLoad(u) || was == EntryRelease(u, true) || was == RollPublish(u)
    else InAdd(now, u) && AddedSoFar(now, s, u) == AddedSoFar(was, s, u) + EventSeq(EventOf(y, s))
  }

  lemma AddAccess(cfg: Config, y: Sys, s: SessionId, u: Url)
    requires PcOf(y, s).AddLoad? || PcOf(y, s).AddCas? || PcOf(y, s).AddPublish? || PcOf(y, s).AddEntry?
    requires InAdd(PcOf(y, s), u)
    ensures AddStep(cfg, y, s).Some? ==> AddGoesOn(y, AddStep(cfg, y, s).value, s, u)
    ensures AddStep(cfg, y, s).None? ==> AddGoesOn(y, y, s, u)
  {
  }

  lemma EntryAccess(cfg: Config, y: Sys, s: SessionId, u: Url)
    requires PcOf(y, s).EntryLoad? || PcOf(y, s).EntryCas? || PcOf(y, s).EntryPush? || PcOf(y, s).EntryRelease?
          || PcOf(y, s).RollCount? || PcOf(y, s).RollPublish?
    requires InAdd(PcOf(y, s), u)
    ensures AddGoesOn(y, EntryStep(cfg, y, s), s, u)
  {
  }

  lemma AdditionAccess(cfg: Config, y: Sys, s: SessionId, u: Url, command: Command)
    requires InAdd(PcOf(y, s), u)
    ensures AddGoesOn(y, Next(cfg, y, s, command), s, u)
  {
    hide AddStep, EntryStep, RemoveStep, AddGoesOn;
    if PcOf(y, s).AddLoad? || PcOf(y, s).AddCas? || PcOf(y, s).AddPublish? || PcOf(y, s).AddEntry? {
      AddAccess(cfg, y, s, u);
    } else {
      EntryAccess(cfg, y, s, u);
    }
  }

  /** The same for a removal, which goes on past its first access exactly if it finds its session. */
  ghost predicate RemoveGoesOn(y: Sys, z: Sys, s: SessionId) {
    var was, now := PcOf(y, s), PcOf(z, s);
    if now.Idle? then was.RemDrop? || (was.RemTake? && s !in y.conn)
    else
      && InRemove(now) && !now.RemTake? && (was.RemTake? ==> s in y.conn)
      && RemovedSoFar(now, s) == RemovedSoFar(was, s) + EventSeq(EventOf(y, s))
  }

  lemma OtherAccess(cfg: Config, y: Sys, x: SessionId, s: SessionId, command: Command)
    requires x != s
    ensures PcOf(Next(cfg, y, x, command), s) == PcOf(y, s)
    ensures s in Next(cfg, y, x, command).conn <==> s in y.conn
  {
    StepOnlyActs(cfg, y, x, command);
    hide Next;
  }

  // ----- one operation -----

  lemma {:induction false} AdditionSoFar(cfg: Config, y: Sys, schedule: Schedule, s: SessionId, u: Url)
    requires InAdd(PcOf(y, s), u) && BusyAll(cfg, y, schedule, s)
    ensures var z := Interleave(cfg, y, schedule);
            && InAdd(PcOf(z, s), u)
            && AddedSoFar(PcOf(z, s), s, u) == AddedSoFar(PcOf(y, s), s, u) + EventsOf(cfg, y, schedule, s)
    decreases |schedule|
  {
    if schedule != [] {
      var (x, command) := schedule[0];
      if x == s {
        AdditionAccess(cfg, y, s, u, command);
      } else {
        OtherAccess(cfg, y, x, s, command);
      }
      hide Next, EventOf, AddedSoFar, InAdd;
      AdditionSoFar(cfg, Next(cfg, y, x, command), schedule[1..], s, u);
    }
  }

  lemma {:induction false} RemovalSoFar(cfg: Config, y: Sys, schedule: Schedule, s: SessionId)
    requires InRemove(PcOf(y, s)) && BusyAll(cfg, y, schedule, s)
    ensures var z := Interleave(cfg, y, schedule);
            && InRemove(PcOf(z, s))
            && RemovedSoFar(PcOf(z, s), s) == RemovedSoFar(PcOf(y, s), s) + EventsOf(cfg, y, schedule, s)
            && (if PcOf(z, s).RemTake? then PcOf(y, s).RemTake? && (s in z.conn <==> s in y.conn)
                else PcOf(y, s).RemTake? ==> s in y.conn)
    decreases |schedule|
  {
    if schedule != [] {
      var (x, command) := schedule[0];
      if x == s {
      } else {
        OtherAccess(cfg, y, x, s, command);
      }
      hide Next, EventOf, RemovedSoFar, InRemove;
      RemovalSoFar(cfg, Next(cfg, y, x, command), schedule[1..], s);
    }
  }

  lemma {:induction false} EventsJoin(cfg: Config, y: Sys, a: Schedule, b: Schedule, s: SessionId)
    ensures EventsOf(cfg, y, a + b, s) == EventsOf(cfg, y, a, s) + EventsOf(cfg, Interleave(cfg, y, a), b, s)
    decreases |a|
  {
    hide Next, EventOf;
    if a == [] {
      assert a + b == b;
    } else {
      assert (a + b)[0] == a[0] && (a + b)[1..] == a[1..] + b;
      EventsJoin(cfg, Next(cfg, y, a[0].0, a[0].1), a[1..], b, s);
    }
  }

  lemma OneAccess(cfg: Config, y: Sys, s: SessionId, command: Command)
    ensures EventsOf(cfg, y, [(s, command)], s) == EventSeq(EventOf(y, s))
    ensures Interleave(cfg, y, [(s, command)]) == Next(cfg, y, s, command)
  {
    hide Next, EventOf;
    var schedule: Schedule := [(s, command)];
    assert schedule[1..] == [];
  }

  /** From one idle point of s to the next, over any accesses of others in between: the accesses of one operation. */
  function Whole(s: SessionId, start: Command, schedule: Schedule, last: Command): Schedule {
    [(s, start)] + (schedule + [(s, last)])
  }

  lemma WholeEvents(cfg: Config, y: Sys, s: SessionId, start: Command, schedule: Schedule, last: Command)
    ensures EventsOf(cfg, y, Whole(s, start, schedule, last), s)
         == EventSeq(EventOf(y, s)) + EventsOf(cfg, Next(cfg, y, s, start), schedule, s)
            + EventSeq(EventOf(Interleave(cfg, Next(cfg, y, s, start), schedule), s))
  {
    hide Next, EventOf, EventsOf, Interleave;
    var y1 := Next(cfg, y, s, start);
    EventsJoin(cfg, y, [(s, start)], schedule + [(s, last)], s);
    OneAccess(cfg, y, s, start);
    EventsJoin(cfg, y1, schedule, [(s, last)], s);
    OneAccess(cfg, Interleave(cfg, y1, schedule), s, last);
  }

  /** An addition, however interleaved, inserts its session exactly once if it returns true, by giving up the lock of
      the entry it was counted in, and contributes nothing otherwise. */
  lemma AdditionEvents(cfg: Config, y: Sys, s: SessionId, u: Url, schedule: Schedule, last: Command)
    requires PcOf(y, s).Idle? && s !in y.conn
    requires BusyAll(cfg, Next(cfg, y, s, StartAdd(u)), schedule, s)
    requires PcOf(Next(cfg, Interleave(cfg, Next(cfg, y, s, StartAdd(u)), schedule), s, last), s).Idle?
    ensures var pc := PcOf(Interleave(cfg, Next(cfg, y, s, StartAdd(u)), schedule), s);
            && (pc == AddLoad(u) || pc == EntryRelease(u, true) || pc == RollPublish(u))
            && EventsOf(cfg, y, Whole(s, StartAdd(u), schedule, last), s)
            == if pc == EntryRelease(u, true) then [Inserted(s, u)] else []
  {
    var y1 := Next(cfg, y, s, StartAdd(u));
    assert PcOf(y1, s) == AddLoad(u);
    WholeEvents(cfg, y, s, StartAdd(u), schedule, last);
    AdditionSoFar(cfg, y1, schedule, s, u);
    AdditionAccess(cfg, Interleave(cfg, y1, schedule), s, u, last);
    hide Next, Interleave, EventsOf, Whole;
  }

  /** A removal deletes its session exactly once if the session was registered, and contributes nothing otherwise. */
  lemma RemovalEvents(cfg: Config, y: Sys, s: SessionId, schedule: Schedule, last: Command)
    requires PcOf(y, s).Idle?
    requires BusyAll(cfg, Next(cfg, y, s, StartRemove), schedule, s)
    requires PcOf(Next(cfg, Interleave(cfg, Next(cfg, y, s, StartRemove), schedule), s, last), s).Idle?
    ensures EventsOf(cfg, y, Whole(s, StartRemove, schedule, last), s) == if s in y.conn then [Deleted(s)] else []
  {
    var y1 := Next(cfg, y, s, StartRemove);
    assert PcOf(y1, s) == RemTake && y1.conn == y.conn;
    WholeEvents(cfg, y, s, StartRemove, schedule, last);
    RemovalSoFar(cfg, y1, schedule, s);
    hide Next, Interleave, EventsOf, Whole;
  }
}
