/** Why an addition is refused, over the whole operation and any interleaving: for a full map or a full URL alone. */
module RegistryVerdicts {
  import opened RoutingInfos
  import opened RegistrySpec
  import opened RegistrySteps
  import opened RegistryHistory
  import opened RegistryAdmission
  import opened RegistryOperations

  /** s is about to check the global cap, and the session map corrected by the sessions in flight is full. */
  ghost predicate IsMapFull(cfg: Config, y: Sys, s: SessionId, u: Url) {
    PcOf(y, s) == AddLoad(u) && Cap(cfg.maxConnections) <= |y.conn| + |Unshown(y)| - |GivenUp(y)|
  }

  /** s is about to check the cap of u, and the others there corrected by those in flight fill it. */
  ghost predicate IsUrlFull(cfg: Config, y: Sys, s: SessionId, u: Url) {
    && PcOf(y, s).EntryLoad? && PcOf(y, s).url == u
    && Cap(cfg.maxByUrl) <= |OthersAt(y, s, u)| + |Leaving(y, u)| - |Undecided(y, u) - {s}|
  }

  /** At some access of s in the schedule its URL is full. */
  ghost predicate MeetsFullUrl(cfg: Config, y: Sys, schedule: Schedule, s: SessionId, u: Url)
    decreases |schedule|
  {
    schedule != [] &&
    ((schedule[0].0 == s && IsUrlFull(cfg, y, s, u))
     || MeetsFullUrl(cfg, Next(cfg, y, schedule[0].0, schedule[0].1), schedule[1..], s, u))
  }

  /** The addition has been refused at its URL and is on its way out. */
  predicate IsRefused(pc: Pc) {
    (pc.EntryRelease? && !pc.ok) || pc.RollCount? || pc.RollPublish?
  }

  lemma AddKeepsVerdict(cfg: Config, y: Sys, s: SessionId)
    requires PcOf(y, s).AddLoad? || PcOf(y, s).AddCas? || PcOf(y, s).AddPublish? || PcOf(y, s).AddEntry?
    ensures AddStep(cfg, y, s).Some? ==> !IsRefused(PcOf(AddStep(cfg, y, s).value, s))
  {
  }

  lemma EntryKeepsVerdict(cfg: Config, y: Sys, s: SessionId)
    requires PcOf(y, s).EntryCas? || PcOf(y, s).EntryPush? || PcOf(y, s).EntryRelease?
          || PcOf(y, s).RollCount? || PcOf(y, s).RollPublish?
    ensures PcOf(EntryStep(cfg, y, s), s).Idle? || (IsRefused(PcOf(EntryStep(cfg, y, s), s)) <==> IsRefused(PcOf(y, s)))
  {
  }

  /** An access turns an addition into a refused one exactly if it is the check of a full URL. */
  lemma VerdictAccess(cfg: Config, y: Sys, s: SessionId, u: Url, command: Command)
    requires Reachable(cfg, y) && InAdd(PcOf(y, s), u)
    ensures var z := Next(cfg, y, s, command);
            PcOf(z, s).Idle? || (IsRefused(PcOf(z, s)) <==> IsRefused(PcOf(y, s)) || IsUrlFull(cfg, y, s, u))
    ensures PcOf(y, s).AddLoad? ==> (PcOf(Next(cfg, y, s, command), s).Idle? <==> IsMapFull(cfg, y, s, u))
  {
    hide Reachable, Unshown, GivenUp, OthersAt, Leaving, Undecided, AddStep, EntryStep, RemoveStep;
    var pc := PcOf(y, s);
    if pc.EntryLoad? {
      UrlRefusalExactly(cfg, y, s, u, pc.ud, command);
    } else if pc.AddLoad? || pc.AddCas? || pc.AddPublish? || pc.AddEntry? {
      AddKeepsVerdict(cfg, y, s);
      if pc.AddLoad? {
        GlobalRefusalExactly(cfg, y, s, u, command);
      }
    } else {
      EntryKeepsVerdict(cfg, y, s);
    }
  }

  lemma NextReachable(cfg: Config, y: Sys, s: SessionId, command: Command)
    requires Reachable(cfg, y)
    ensures Reachable(cfg, Next(cfg, y, s, command))
  {
    hide Reachable;
    if Step(cfg, y, s, command).Some? {
      ReachableNext(cfg, y, s, command, Next(cfg, y, s, command));
    }
  }

  lemma {:induction false} VerdictSoFar(cfg: Config, y: Sys, schedule: Schedule, s: SessionId, u: Url)
    requires Reachable(cfg, y) && InAdd(PcOf(y, s), u) && BusyAll(cfg, y, schedule, s)
    ensures var z := Interleave(cfg, y, schedule);
            && Reachable(cfg, z) && InAdd(PcOf(z, s), u)
            && (IsRefused(PcOf(z, s)) <==> IsRefused(PcOf(y, s)) || MeetsFullUrl(cfg, y, schedule, s, u))
    decreases |schedule|
  {
    if schedule != [] {
      var (x, command) := schedule[0];
      NextReachable(cfg, y, x, command);
      if x == s {
        VerdictAccess(cfg, y, s, u, command);
        AdditionAccess(cfg, y, s, u, command);
      } else {
        OtherAccess(cfg, y, x, s, command);
      }
      hide Next, IsRefused, InAdd, IsUrlFull, Reachable;
      VerdictSoFar(cfg, Next(cfg, y, x, command), schedule[1..], s, u);
    }
  }

  /** An addition, from its start to its return and however interleaved, has one of three ends: the check of the
      global cap, exactly if the map is full there; the rollback, exactly if at one of its checks the URL was full;
      and otherwise the release of the entry that it was counted in, with the verdict true. A lost exchange on either
      counter decides nothing. */
  lemma AdditionVerdict(cfg: Config, y: Sys, s: SessionId, u: Url, schedule: Schedule, last: Command)
    requires Reachable(cfg, y) && PcOf(y, s).Idle? && s !in y.conn
    requires BusyAll(cfg, Next(cfg, y, s, StartAdd(u)), schedule, s)
    requires PcOf(Next(cfg, Interleave(cfg, Next(cfg, y, s, StartAdd(u)), schedule), s, last), s).Idle?
    ensures var y1 := Next(cfg, y, s, StartAdd(u));
            var x := Interleave(cfg, y1, schedule);
            && (PcOf(x, s) == AddLoad(u) <==> IsMapFull(cfg, x, s, u))
            && (PcOf(x, s) == RollPublish(u) <==> MeetsFullUrl(cfg, y1, schedule, s, u))
            && (PcOf(x, s) == EntryRelease(u, true) <==>
                !IsMapFull(cfg, x, s, u) && !MeetsFullUrl(cfg, y1, schedule, s, u))
  {
    var y1 := Next(cfg, y, s, StartAdd(u));
    assert PcOf(y1, s) == AddLoad(u);
    NextReachable(cfg, y, s, StartAdd(u));
    VerdictSoFar(cfg, y1, schedule, s, u);
    var x := Interleave(cfg, y1, schedule);
    VerdictAccess(cfg, x, s, u, last);
    AdditionAccess(cfg, x, s, u, last);
    hide Next, Interleave, MeetsFullUrl, Reachable;
  }
}
