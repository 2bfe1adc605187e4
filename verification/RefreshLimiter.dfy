/**
 The limiter in front of the tracker cache refresh, taken apart into its accesses: any number of threads
 read the clock, load the time of the last refresh, and compare and exchange it, in any order.
 */
module RefreshLimiter {
  const INTERVAL := 5

  /** Where a thread is: outside, with a clock reading, or past the interval check with the value it loaded. */
  datatype Pc = Outside | Read(now: int) | Loaded(now: int, seen: int)

  /** `installed` records the timestamps that successful exchanges have put in place, oldest first. */
  datatype Sys = Sys(updated: int, pc: map<nat, Pc>, installed: seq<int>)

  const INITIAL := Sys(0, map[], [])

  function PcOf(y: Sys, t: nat): Pc {
    if t in y.pc then y.pc[t] else Outside
  }

  /** One access of thread t; `clock` is what the clock shows to it, which need not agree with other threads. */
  function Step(y: Sys, t: nat, clock: int): Sys {
    match PcOf(y, t)
    case Outside => y.(pc := y.pc[t := Read(clock)])
    case Read(now) =>
      y.(pc := y.pc[t := if now - y.updated < INTERVAL then Outside else Loaded(now, y.updated)])
    case Loaded(now, seen) =>
      var z := y.(pc := y.pc[t := Outside]);
      if y.updated == seen then z.(updated := now, installed := y.installed + [now]) else z
  }

  function Run(y: Sys, schedule: seq<(nat, int)>): Sys
    decreases |schedule|
  {
    if schedule == [] then y else Run(Step(y, schedule[0].0, schedule[0].1), schedule[1..])
  }

  /** Neighbouring timestamps are at least five seconds apart. */
  ghost predicate Spaced(xs: seq<int>) {
    forall i :: 0 < i < |xs| ==> xs[i] - xs[i - 1] >= INTERVAL
  }

  ghost predicate Inv(y: Sys) {
    && Spaced(y.installed)
    && y.updated == (if y.installed == [] then 0 else y.installed[|y.installed| - 1])
    && (forall t: nat :: PcOf(y, t).Loaded? ==> PcOf(y, t).now - PcOf(y, t).seen >= INTERVAL)
  }

  lemma StepKeepsInv(y: Sys, t: nat, clock: int)
    requires Inv(y)
    ensures Inv(Step(y, t, clock))
    ensures Step(y, t, clock).installed == y.installed
         || (|Step(y, t, clock).installed| == |y.installed| + 1 && Step(y, t, clock).updated >= y.updated + INTERVAL)
  {
    var y' := Step(y, t, clock);
    forall x: nat | PcOf(y', x).Loaded? ensures PcOf(y', x).now - PcOf(y', x).seen >= INTERVAL {
      if x != t {
        assert PcOf(y', x) == PcOf(y, x);
      }
    }
    assert PcOf(y, t).Loaded? ==> PcOf(y, t).now - PcOf(y, t).seen >= INTERVAL;
  }

  /** The three accesses: a thread goes past its load exactly if five seconds have passed since what it loaded, and
      installs its clock exactly if nobody has installed another since; after that it is done either way. */
  lemma AccessVerdicts(y: Sys, t: nat, clock: int)
    ensures PcOf(y, t).Outside? ==> PcOf(Step(y, t, clock), t) == Read(clock)
    ensures PcOf(y, t).Read? && PcOf(y, t).now - y.updated >= 5 ==>
              PcOf(Step(y, t, clock), t) == Loaded(PcOf(y, t).now, y.updated)
    ensures PcOf(y, t).Read? && PcOf(y, t).now - y.updated < 5 ==> PcOf(Step(y, t, clock), t) == Outside
    ensures PcOf(y, t).Loaded? ==> PcOf(Step(y, t, clock), t) == Outside
    ensures Step(y, t, clock).installed
         == y.installed + if PcOf(y, t).Loaded? && PcOf(y, t).seen == y.updated then [PcOf(y, t).now] else []
  {
  }

  /** An undisturbed thread refreshes exactly when five seconds have passed since the last refresh. */
  lemma UndisturbedRefresh(y: Sys, t: nat, clock: int, idle: int)
    requires PcOf(y, t).Outside?
    ensures Run(y, [(t, clock), (t, idle), (t, idle)]).installed
         == y.installed + if clock - y.updated >= INTERVAL then [clock] else []
  {
    var schedule: seq<(nat, int)> := [(t, clock), (t, idle), (t, idle)];
    var y1 := Step(y, t, clock);
    var y2 := Step(y1, t, idle);
    assert schedule[1..][1..] == [(t, idle)] && |schedule[2..][1..]| == 0;
    assert Run(y2, schedule[2..]) == Step(y2, t, idle);
    assert Run(y1, schedule[1..]) == Run(y2, schedule[2..]);
  }

  lemma {:induction false} RunKeepsInv(y: Sys, schedule: seq<(nat, int)>)
    requires Inv(y)
    ensures Inv(Run(y, schedule))
    decreases |schedule|
  {
    if schedule != [] {
      StepKeepsInv(y, schedule[0].0, schedule[0].1);
      RunKeepsInv(Step(y, schedule[0].0, schedule[0].1), schedule[1..]);
    }
  }

  /** How many timestamps lie in the window from lo to hi. */
  function CountIn(xs: seq<int>, lo: int, hi: int): nat {
    if xs == [] then 0
    else CountIn(xs[..|xs| - 1], lo, hi) + if lo <= xs[|xs| - 1] <= hi then 1 else 0
  }

  /** In a spaced sequence nothing lies above last - 5 except the last element. */
  lemma {:induction false} CountBelow(xs: seq<int>, lo: int, hi: int, top: int)
    requires Spaced(xs) && (xs != [] ==> xs[|xs| - 1] <= top) && top <= hi
    ensures CountIn(xs, lo, hi) == CountIn(xs, lo, top)
  {
    if xs != [] {
      CountBelow(xs[..|xs| - 1], lo, hi, top);
    }
  }

  lemma {:induction false} WindowBound(xs: seq<int>, lo: int, hi: int)
    requires Spaced(xs)
    ensures CountIn(xs, lo, hi) <= if lo <= hi then (hi - lo) / INTERVAL + 1 else 0
  {
    if xs != [] {
      var init, last := xs[..|xs| - 1], xs[|xs| - 1];
      if last > hi {
        WindowBound(init, lo, hi);
      } else {
        CountBelow(init, lo, hi, last - INTERVAL);
        WindowBound(init, lo, last - INTERVAL);
      }
    }
  }

  /** In every interleaving, refreshes are at least five seconds apart, and a window of length T sees at most T / 5 + 1. */
  lemma RefreshesAreLimited(schedule: seq<(nat, int)>, lo: int, span: nat)
    ensures Spaced(Run(INITIAL, schedule).installed)
    ensures CountIn(Run(INITIAL, schedule).installed, lo, lo + span) <= span / 5 + 1
  {
    RunKeepsInv(INITIAL, schedule);
    WindowBound(Run(INITIAL, schedule).installed, lo, lo + span);
  }
}
