/** Nobody waits for good: from every reachable state, letting the sessions under way go on leads to rest. */
module RegistryProgress {
  import opened RoutingInfos
  import opened RegistrySpec
  import opened RegistrySteps
  import opened RegistryHistory

  /** How many accesses s has before it at most, while no other session moves. */
  function Rank(y: Sys, s: SessionId): nat {
    match PcOf(y, s)
    case Idle => 0
    case AddLoad(_) => 11
    case AddCas(_, seen) => if y.total == seen then 10 else 12
    case AddPublish(_) => 9
    case AddEntry(_) => 8
    case EntryLoad(_, _) => 6
    case EntryCas(_, ud, seen) => if DataOf(y, ud).count == seen then 5 else 7
    case EntryPush(_, _) => 4
    case EntryRelease(_, _) => 3
    case RollCount(_) => 2
    case RollPublish(_) => 1
    case RemTake => 6
    case RemCount(_) => 5
    case RemGet(_) => 4
    case RemUrlCount(_, _) => 3
    case RemRetain(_, _) => 2
    case RemDrop(_) => 1
  }

  /** The session waits for another one to give up the lock of its URL's entry. */
  predicate IsBlocked(y: Sys, s: SessionId) {
    (PcOf(y, s).AddEntry? || PcOf(y, s).RemGet? || PcOf(y, s).RemDrop?) && PcOf(y, s).url in y.locks
  }

  lemma AddAdvances(cfg: Config, y: Sys, s: SessionId)
    requires PcOf(y, s).AddLoad? || PcOf(y, s).AddCas? || PcOf(y, s).AddPublish? || PcOf(y, s).AddEntry?
    requires !IsBlocked(y, s)
    ensures AddStep(cfg, y, s).Some? && Rank(AddStep(cfg, y, s).value, s) < Rank(y, s)
    ensures var y' := AddStep(cfg, y, s).value;
            y'.locks == y.locks || (HoldsLock(PcOf(y', s)) && y'.locks == y.locks[PcOf(y', s).url := s])
  {
  }

  lemma EntryAdvances(cfg: Config, y: Sys, s: SessionId)
    requires PcOf(y, s).EntryLoad? || PcOf(y, s).EntryCas? || PcOf(y, s).EntryPush? || PcOf(y, s).EntryRelease?
          || PcOf(y, s).RollCount? || PcOf(y, s).RollPublish?
    ensures Rank(EntryStep(cfg, y, s), s) < Rank(y, s)
    ensures var y' := EntryStep(cfg, y, s);
            if PcOf(y, s).EntryRelease? then y'.locks == y.locks - {PcOf(y, s).url}
            else y'.locks == y.locks && (HoldsLock(PcOf(y, s)) ==> HoldsLock(PcOf(y', s)) && PcOf(y', s).url == PcOf(y, s).url)
  {
  }

  lemma RemoveAdvances(y: Sys, s: SessionId)
    requires PcOf(y, s).RemTake? || PcOf(y, s).RemCount? || PcOf(y, s).RemGet? || PcOf(y, s).RemUrlCount?
          || PcOf(y, s).RemRetain? || PcOf(y, s).RemDrop?
    requires !IsBlocked(y, s)
    ensures RemoveStep(y, s).Some? && Rank(RemoveStep(y, s).value, s) < Rank(y, s)
    ensures RemoveStep(y, s).value.locks == y.locks
  {
    hide Without;
  }

  /** A session under way that is not blocked comes nearer to its end by its next access. */
  lemma Advances(cfg: Config, y: Sys, s: SessionId, command: Command)
    requires !PcOf(y, s).Idle? && !IsBlocked(y, s)
    ensures var y' := Next(cfg, y, s, command);
            && Rank(y', s) < Rank(y, s)
            && (forall u :: u in y'.locks ==> (u in y.locks && y'.locks[u] == y.locks[u]) || y'.locks[u] == s)
            && (HoldsLock(PcOf(y, s)) ==>
                  if PcOf(y, s).EntryRelease? then y'.locks == y.locks - {PcOf(y, s).url}
                  else y'.locks == y.locks && HoldsLock(PcOf(y', s)) && PcOf(y', s).url == PcOf(y, s).url)
  {
    hide AddStep, EntryStep, RemoveStep, Rank;
    match PcOf(y, s)
    case AddLoad(_) => AddAdvances(cfg, y, s);
    case AddCas(_, _) => AddAdvances(cfg, y, s);
    case AddPublish(_) => AddAdvances(cfg, y, s);
    case AddEntry(_) => AddAdvances(cfg, y, s);
    case EntryLoad(_, _) => EntryAdvances(cfg, y, s);
    case EntryCas(_, _, _) => EntryAdvances(cfg, y, s);
    case EntryPush(_, _) => EntryAdvances(cfg, y, s);
    case EntryRelease(_, _) => EntryAdvances(cfg, y, s);
    case RollCount(_) => EntryAdvances(cfg, y, s);
    case RollPublish(_) => EntryAdvances(cfg, y, s);
    case _ => RemoveAdvances(y, s);
  }

  // ----- schedules that let one session go on -----

  /** A session whose schedule it is, whatever an idle session would start. */
  function Turn(s: SessionId): Schedule {
    [(s, StartRemove)]
  }

  lemma {:induction false} InterleaveJoin(cfg: Config, y: Sys, a: Schedule, b: Schedule)
    ensures Interleave(cfg, y, a + b) == Interleave(cfg, Interleave(cfg, y, a), b)
    decreases |a|
  {
    hide Next;
    if a == [] {
      assert a + b == b;
    } else {
      assert (a + b)[1..] == a[1..] + b;
      InterleaveJoin(cfg, Next(cfg, y, a[0].0, a[0].1), a[1..], b);
    }
  }

  ghost predicate OthersStay(y: Sys, y': Sys, s: SessionId) {
    forall x :: x != s ==> PcOf(y', x) == PcOf(y, x)
  }

  lemma NextSound(cfg: Config, y: Sys, s: SessionId)
    requires Sound(cfg, y)
    ensures Sound(cfg, Next(cfg, y, s, StartRemove)) && OthersStay(y, Next(cfg, y, s, StartRemove), s)
  {
    StepSound(cfg, y, s, StartRemove);
    StepOnlyActs(cfg, y, s, StartRemove);
    hide Sound, Step;
  }

  /** A session that holds a lock comes to give it up. */
  lemma {:induction false} Releases(cfg: Config, y: Sys, s: SessionId) returns (schedule: Schedule)
    requires Sound(cfg, y) && HoldsLock(PcOf(y, s))
    ensures var y' := Interleave(cfg, y, schedule);
            Sound(cfg, y') && OthersStay(y, y', s) && y'.locks == y.locks - {PcOf(y, s).url}
    decreases Rank(y, s)
  {
    hide Sound, Next, Rank;
    var z := Next(cfg, y, s, StartRemove);
    Advances(cfg, y, s, StartRemove);
    NextSound(cfg, y, s);
    if PcOf(y, s).EntryRelease? {
      schedule := [];
    } else {
      schedule := Releases(cfg, z, s);
    }
    schedule := Turn(s) + schedule;
  }

  /** All locks are given up. */
  lemma {:induction false} Unlocks(cfg: Config, y: Sys) returns (schedule: Schedule)
    requires Sound(cfg, y)
    ensures Sound(cfg, Interleave(cfg, y, schedule)) && Interleave(cfg, y, schedule).locks == map[]
    decreases |y.locks|
  {
    if y.locks == map[] {
      schedule := [];
    } else {
      var u :| u in y.locks;
      var s := y.locks[u];
      hide Sound, Interleave, HoldsLock;
      var first := Releases(cfg, y, s);
      var z := Interleave(cfg, y, first);
      assert |z.locks| < |y.locks|;
      var rest := Unlocks(cfg, z);
      InterleaveJoin(cfg, y, first, rest);
      schedule := first + rest;
    }
  }

  ghost predicate OnlyLocks(y: Sys, s: SessionId) {
    forall u :: u in y.locks ==> y.locks[u] == s
  }

  /** While nobody else holds a lock, a session goes on to the end of its operation. */
  lemma {:induction false} Finishes(cfg: Config, y: Sys, s: SessionId) returns (schedule: Schedule)
    requires Sound(cfg, y) && OnlyLocks(y, s)
    ensures var y' := Interleave(cfg, y, schedule);
            Sound(cfg, y') && OthersStay(y, y', s) && PcOf(y', s).Idle? && y'.locks == map[]
    decreases Rank(y, s)
  {
    if PcOf(y, s).Idle? {
      schedule := [];
    } else {
      Advances(cfg, y, s, StartRemove);
      NextSound(cfg, y, s);
      hide Sound, Next, Rank;
      var z := Next(cfg, y, s, StartRemove);
      schedule := Finishes(cfg, z, s);
      schedule := Turn(s) + schedule;
    }
  }

  function UnderWay(y: Sys): set<SessionId> {
    set s | s in y.pc && !y.pc[s].Idle?
  }

  /** Once nothing is locked, the sessions under way finish one after the other. */
  lemma {:induction false} AllFinish(cfg: Config, y: Sys) returns (schedule: Schedule)
    requires Sound(cfg, y) && y.locks == map[]
    ensures AllIdle(Interleave(cfg, y, schedule))
    decreases |UnderWay(y)|
  {
    if UnderWay(y) == {} {
      schedule := [];
      forall s ensures PcOf(y, s).Idle? {
        assert s !in UnderWay(y);
      }
    } else {
      var s :| s in UnderWay(y);
      hide Sound, Interleave;
      var first := Finishes(cfg, y, s);
      var z := Interleave(cfg, y, first);
      assert UnderWay(z) == UnderWay(y) - {s} by {
        forall x ensures x in UnderWay(z) <==> x in UnderWay(y) && x != s {
          assert x in UnderWay(z) <==> !PcOf(z, x).Idle?;
          assert x in UnderWay(y) <==> !PcOf(y, x).Idle?;
        }
      }
      var rest := AllFinish(cfg, z);
      InterleaveJoin(cfg, y, first, rest);
      schedule := first + rest;
    }
  }

  /** From every reachable state some schedule leads to a reachable state at rest: there is no deadlock. */
  lemma ComesToRest(cfg: Config, y: Sys) returns (schedule: Schedule)
    requires Reachable(cfg, y)
    ensures Reachable(cfg, Interleave(cfg, y, schedule)) && AllIdle(Interleave(cfg, y, schedule))
  {
    var before :| y == Interleave(cfg, INITIAL, before);
    ReachableSound(cfg, y);
    hide Sound, Interleave;
    var first := Unlocks(cfg, y);
    var rest := AllFinish(cfg, Interleave(cfg, y, first));
    InterleaveJoin(cfg, y, first, rest);
    schedule := first + rest;
    InterleaveJoin(cfg, INITIAL, before, schedule);
  }

  /** In particular, a session that waits can be let go on: the holder of the lock it waits for is not blocked. */
  lemma HolderIsFree(cfg: Config, y: Sys, s: SessionId)
    requires Reachable(cfg, y) && IsBlocked(y, s)
    ensures var holder := y.locks[PcOf(y, s).url]; holder != s && !PcOf(y, holder).Idle? && !IsBlocked(y, holder)
  {
    ReachableSound(cfg, y);
  }
}
