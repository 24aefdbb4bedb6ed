/**
  The stop channel of the sd_notify hooks is made once for all cycles: what that means for
  the watchdog of a service that is started again.
*/
module SystemdRestart {
  import opened Options
  import opened Lifecycle
  import opened LifecycleRuns
  import opened Systemd
  import opened SystemdCycle

  /** The serve's stop hook has run. */
  ghost predicate StopRan(m: Mount, s: Serve) {
    exists e :: e in s.trace && IsStop(m, e)
  }

  ghost predicate SomeStopRan(m: Mount, w: World) {
    exists k :: 0 <= k < |w.serves| && StopRan(m, w.serves[k])
  }

  /** A step adds at most one event, and only to the serve it touches. */
  lemma TraceGrows(c: Config, w: World, a: Action, k: nat)
    requires Inv(c, w) && Enabled(c, w, a) && k < |w.serves|
    ensures var w' := Step(c, w, a);
      && |w.serves| <= |w'.serves|
      && w.serves[k].trace <= w'.serves[k].trace
      && |w'.serves[k].trace| <= |w.serves[k].trace| + 1
      && (Touched(w, a) != Some(k) ==> w'.serves[k].trace == w.serves[k].trace)
  {
    hide ServeInv, ForwarderInv;
  }

  lemma NewServesAreSilent(c: Config, w: World, a: Action, k: nat)
    requires Inv(c, w) && Enabled(c, w, a) && |w.serves| <= k < |Step(c, w, a).serves|
    ensures Step(c, w, a).serves[k].trace == []
  {
    hide ServeInv, ForwarderInv;
  }

  /** When the step closes the stop channel. */
  lemma StopShape(c: Config, m: Mount, s: Sd, a: Action, delivered: bool)
    requires SdInv(c, m, s) && SdEnabled(c, m, s, Life(a, delivered))
    ensures var s', t := SdStep(c, m, s, Life(a, delivered)), Touched(s.w, a);
      s'.stop == (s.stop
                  || (t != None && t.value < |s.w.serves| && t.value < |s'.w.serves|
                      && |s'.w.serves[t.value].trace| > |s.w.serves[t.value].trace|
                      && IsStop(m, s'.w.serves[t.value].trace[|s.w.serves[t.value].trace|])))
  {
    hide ServeInv, ForwarderInv, LogFits, Marks, Step, Enabled;
  }

  lemma StopRanGrows(m: Mount, s: Serve, s': Serve)
    requires s.trace <= s'.trace && |s'.trace| <= |s.trace| + 1
    ensures StopRan(m, s') <==> StopRan(m, s) || (|s'.trace| > |s.trace| && IsStop(m, s'.trace[|s.trace|]))
  {
    var n := |s.trace|;
    assert s'.trace == s.trace + s'.trace[n..];
    if |s'.trace| > n {
      assert s'.trace[n] in s'.trace && s'.trace[n..] == [s'.trace[n]];
    }
    if StopRan(m, s) {
      var e :| e in s.trace && IsStop(m, e);
      assert e in s'.trace;
    }
  }

  lemma LifeKeepsStop(c: Config, m: Mount, s: Sd, a: Action, delivered: bool)
    requires SdInv(c, m, s) && SdEnabled(c, m, s, Life(a, delivered))
    requires s.stop <==> SomeStopRan(m, s.w)
    ensures var s' := SdStep(c, m, s, Life(a, delivered)); s'.stop <==> SomeStopRan(m, s'.w)
  {
    hide LogFits, Step, Enabled, Inv, Marks, SdStep, StopRan, IsStop, Touched;
    var s' := SdStep(c, m, s, Life(a, delivered));
    StepShape(c, m, s, a, delivered);
    StopShape(c, m, s, a, delivered);
    forall k | 0 <= k < |s.w.serves|
      ensures k < |s'.w.serves| && |s.w.serves[k].trace| <= |s'.w.serves[k].trace|
      ensures StopRan(m, s'.w.serves[k]) <==>
              StopRan(m, s.w.serves[k])
              || (Touched(s.w, a) == Some(k) && |s'.w.serves[k].trace| > |s.w.serves[k].trace|
                  && IsStop(m, s'.w.serves[k].trace[|s.w.serves[k].trace|]))
    {
      TraceGrows(c, s.w, a, k);
      StopRanGrows(m, s.w.serves[k], s'.w.serves[k]);
    }
    forall k | |s.w.serves| <= k < |s'.w.serves|
      ensures !StopRan(m, s'.w.serves[k])
    {
      NewServesAreSilent(c, s.w, a, k);
      SilentHasNotStopped(m, s'.w.serves[k]);
    }
  }

  lemma SilentHasNotStopped(m: Mount, s: Serve)
    requires s.trace == []
    ensures !StopRan(m, s)
  {
  }

  lemma {:induction false} RunKeepsStop(c: Config, m: Mount, s: Sd, run: seq<SdAction>, end: Sd)
    requires SdInv(c, m, s) && Mounted(c, m) && SdReaches(c, m, s, run, end)
    requires s.stop <==> SomeStopRan(m, s.w)
    ensures SdInv(c, m, end)
    ensures end.stop <==> SomeStopRan(m, end.w)
    decreases |run|
  {
    hide SdInv, SdEnabled, SomeStopRan;
    if run != [] {
      var next := SdStep(c, m, s, run[0]);
      if run[0].Life? {
        LifeKeepsSdInv(c, m, s, run[0].a, run[0].delivered);
        LifeKeepsStop(c, m, s, run[0].a, run[0].delivered);
      } else {
        WatchdogKeepsSdInv(c, m, s, run[0]);
        WatchdogLeavesLife(c, m, s, run[0]);
      }
      RunKeepsStop(c, m, next, run[1..], end);
    }
  }

  lemma WatchdogLeavesLife(c: Config, m: Mount, s: Sd, x: SdAction)
    requires SdEnabled(c, m, s, x) && !x.Life?
    ensures SdStep(c, m, s, x).w == s.w && SdStep(c, m, s, x).stop == s.stop
  {
  }

  /** In every run a live watchdog can end exactly when some cycle, its own or another, has run its stop hook. */
  lemma WatchdogEndsExactly(c: Config, m: Mount, run: seq<SdAction>, end: Sd, k: nat)
    requires Mounted(c, m) && SdReaches(c, m, Begin(), run, end) && k in end.alive
    ensures SdEnabled(c, m, end, Exit(k)) <==> SomeStopRan(m, end.w)
  {
    hide SdInv, SomeStopRan, SdReaches;
    BeginFits(c, m);
    NothingStopped(m);
    RunKeepsStop(c, m, Begin(), run, end);
  }

  lemma NothingStopped(m: Mount)
    ensures !SomeStopRan(m, Begin().w)
  {
  }

  /**
    The keepalive of cycle k is promised until its own stop hook. Before that hook has run the
    watchdog can end exactly when another cycle's has; for the newest cycle, an earlier one's.
  */
  lemma KeepaliveEndsEarlyExactly(c: Config, m: Mount, run: seq<SdAction>, end: Sd, k: nat)
    requires Mounted(c, m) && SdReaches(c, m, Begin(), run, end)
    requires k in end.alive && k < |end.w.serves| && !StopRan(m, end.w.serves[k])
    ensures SdEnabled(c, m, end, Exit(k)) <==>
            exists j :: 0 <= j < |end.w.serves| && j != k && StopRan(m, end.w.serves[j])
    ensures k == |end.w.serves| - 1 ==>
            (SdEnabled(c, m, end, Exit(k)) <==> exists j :: 0 <= j < k && StopRan(m, end.w.serves[j]))
  {
    hide StopRan, SdReaches;
    WatchdogEndsExactly(c, m, run, end, k);
  }

  // ---------------------------------------------------------------------------
  // A second cycle without its keepalive
  // ---------------------------------------------------------------------------

  /** While no watchdog has acted, every announced cycle has a live one that has not pinged. */
  ghost predicate AllWatched(s: Sd) {
    forall k :: 0 <= k < |s.logs| ==> (Sent(Ready) in s.logs[k] ==> k in s.alive) && Sent(Watchdog) !in s.logs[k]
  }

  lemma LifeKeepsWatched(c: Config, m: Mount, s: Sd, a: Action)
    requires SdInv(c, m, s) && AllWatched(s) && SdEnabled(c, m, s, Life(a, true)) && m.socket && m.watchdog
    ensures AllWatched(SdStep(c, m, s, Life(a, true)))
  {
    hide LogFits, Step, Inv, Enabled;
  }

  /** A run of the lifecycle in which no start hook fails, with every send getting through. */
  lemma {:induction false} Lift(c: Config, m: Mount, s: Sd, run: seq<Action>, w: World) returns (sdRun: seq<SdAction>, end: Sd)
    requires Mounted(c, m) && m.socket && m.watchdog && SdInv(c, m, s) && AllWatched(s)
    requires Reaches(c, s.w, run, w) && Smooth(run)
    ensures SdReaches(c, m, s, sdRun, end) && end.w == w
    ensures |end.logs| == |w.serves| && AllWatched(end)
    decreases |run|
  {
    hide SdInv, AllWatched, Step, Enabled;
    if run == [] {
      sdRun, end := [], s;
      LogsMatch(c, m, s);
    } else {
      var x := Life(run[0], true);
      LifeIsEnabled(c, m, s, run[0]);
      StepShape(c, m, s, run[0], true);
      LifeKeepsSdInv(c, m, s, run[0], true);
      LifeKeepsWatched(c, m, s, run[0]);
      var next, rest := SdStep(c, m, s, x), [];
      rest, end := Lift(c, m, next, run[1..], w);
      sdRun := [x] + rest;
      assert sdRun[1..] == rest;
    }
  }

  lemma LogsMatch(c: Config, m: Mount, s: Sd)
    requires SdInv(c, m, s)
    ensures |s.logs| == |s.w.serves|
  {
    hide Inv, LogFits;
  }

  lemma LifeIsEnabled(c: Config, m: Mount, s: Sd, a: Action)
    requires Enabled(c, s.w, a) && Disciplined(s.w, a) && (a.RunStartHook? ==> a.ok)
    ensures SdEnabled(c, m, s, Life(a, true))
  {
  }

  /**
    Such a run exists for every configuration under systemd with a watchdog: after one
    complete cycle the second one is launched and announced, its own stop hook has not run,
    and its live watchdog can end before a single ping.
  */
  lemma SecondCycleCanLoseItsKeepalive(c: Config, m: Mount) returns (run: seq<SdAction>, end: Sd)
    requires Mounted(c, m) && m.socket && m.watchdog
    ensures SdReaches(c, m, Begin(), run, end)
    ensures |end.w.serves| == |end.logs| == 2 && 1 in end.alive && end.w.serves[1].stage == Launched
    ensures Sent(Ready) in end.logs[1] && Sent(Watchdog) !in end.logs[1]
    ensures StopRan(m, end.w.serves[0]) && !StopRan(m, end.w.serves[1])
    ensures SdEnabled(c, m, end, Exit(1)) && 1 !in SdStep(c, m, end, Exit(1)).alive
  {
    hide Inv, Reaches, FullScript, AbortScript, UpToPc, StartScript, SdReaches, SdInv, StopRan, LogFits;
    InitInv(c);
    BeginFits(c, m);
    var first, mid := FullCycle(c, Init());
    var second, w := StartCycle(c, mid);
    LifecycleRuns.ReachesConcat(c, Init(), first, mid, second, w);
    run, end := Lift(c, m, Begin(), first + second, w);
    FirstHasStopped(c, m, first + second, w);
    SecondHasNot(c, m, first + second, w);
    EveryCycleIsOrdered(c, m, run, end, 1);
    KeepaliveEndsEarlyExactly(c, m, run, end, 1);
  }

  lemma FirstHasStopped(c: Config, m: Mount, run: seq<Action>, w: World)
    requires Mounted(c, m) && Reaches(c, Init(), run, w)
    requires |w.serves| > 0 && |w.drains| > 0 && w.drains[0] == Drain(0, Done)
    ensures StopRan(m, w.serves[0])
  {
    hide Reaches, Inv;
    DrainedIsFull(c, run, w, 0);
    var e := ShutdownHook(m.shut, false, false);
    assert ShutdownScript(c.shuts)[m.shut] == e;
    assert e in ShutdownScript(c.shuts);
    assert e in w.serves[0].trace;
  }

  lemma SecondHasNot(c: Config, m: Mount, run: seq<Action>, w: World)
    requires Reaches(c, Init(), run, w)
    requires 1 < |w.serves| && w.serves[1].stage == Launched && w.serves[1].claims == []
    ensures !StopRan(m, w.serves[1])
  {
    hide Reaches;
    RunKeepsInv(c, Init(), run, w);
    assert ServeInv(c, w, 1);
  }
}
