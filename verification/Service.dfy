/**
  The Service object of service.go, one caller at a time: the fields its methods
  update, the hook loop, and what one Start and one Shutdown show the world. The
  scripts are those of module Lifecycle, which covers the interleavings.
*/
module Service {
  import opened Options
  import opened Lifecycle

  // An error is either classified already, perhaps around a cause, or foreign; every hook failure ends up classified.
  datatype Error = Foreign(msg: string) | Family(code: string, cause: Option<Error>)

  datatype HookFailure = HookFailure(index: nat, err: Error)

  // What Shutdown joins: a hook failure, or the delegated server's own.
  datatype Failed = ByHook(phase: string, failure: HookFailure) | ByServer(err: Error)

  type HookResult = Option<Error>

  /** Wrapping gives any error the new code, classified or not. */
  function Wrap(err: Error, code: string): Error {
    Family(code, Some(err))
  }

  /** Classified errors keep their own code; foreign ones gain the phase's. */
  function WrapOnce(err: Error, code: string): Error {
    match err
    case Family(_, _) => err
    case Foreign(_) => Wrap(err, code)
  }

  function Failures(results: seq<HookResult>, code: string): seq<HookFailure> {
    if results == [] then []
    else
      var n := |results| - 1;
      var init := Failures(results[..n], code);
      if results[n] == None then init else init + [HookFailure(n, WrapOnce(results[n].value, code))]
  }

  /** The failure is that of the hook it names. */
  predicate Names(results: seq<HookResult>, code: string, f: HookFailure) {
    && f.index < |results| && results[f.index] != None
    && f.err == (if results[f.index].value.Family? then results[f.index].value else Family(code, Some(results[f.index].value)))
  }

  ghost predicate Listed(results: seq<HookResult>, code: string, fs: seq<HookFailure>) {
    && (forall j :: 0 <= j < |fs| ==> Names(results, code, fs[j]))
    && (forall j, k :: 0 <= j < k < |fs| ==> fs[j].index < fs[k].index)
  }

  lemma NamesNext(results: seq<HookResult>, code: string, f: HookFailure)
    requires results != [] && Names(results[..|results| - 1], code, f)
    ensures Names(results, code, f) && f.index < |results| - 1
  {
    hide WrapOnce;
  }

  lemma {:induction false} FailuresFailed(results: seq<HookResult>, code: string)
    ensures Listed(results, code, Failures(results, code))
  {
    hide Names, WrapOnce;
    if results != [] {
      var n := |results| - 1;
      var init := Failures(results[..n], code);
      FailuresFailed(results[..n], code);
      forall j | 0 <= j < |init|
        ensures Names(results, code, init[j]) && init[j].index < n
      {
        NamesNext(results, code, init[j]);
      }
      if results[n] != None {
        LastNames(results, code);
      }
    }
  }

  lemma LastNames(results: seq<HookResult>, code: string)
    requires results != [] && results[|results| - 1] != None
    ensures var n := |results| - 1; Names(results, code, HookFailure(n, WrapOnce(results[n].value, code)))
  {
  }

  lemma {:induction false} FailuresComplete(results: seq<HookResult>, code: string, i: nat)
    requires i < |results| && results[i] != None
    ensures exists j :: 0 <= j < |Failures(results, code)| && Failures(results, code)[j].index == i
  {
    hide WrapOnce;
    assert results != [];
    var n := |results| - 1;
    var init, fs := Failures(results[..n], code), Failures(results, code);
    if i < n {
      FailuresComplete(results[..n], code, i);
      var j :| 0 <= j < |init| && init[j].index == i;
      assert fs[j].index == i;
    } else {
      assert fs[|fs| - 1].index == i;
    }
  }

  /** The joined error lists exactly the failing hooks, in hook order, each with its index. */
  lemma FailuresAreExact(results: seq<HookResult>, code: string)
    ensures var fs := Failures(results, code);
      && (forall j :: 0 <= j < |fs| ==> Names(results, code, fs[j]))
      && (forall i :: 0 <= i < |results| && results[i] != None ==> exists j :: 0 <= j < |fs| && fs[j].index == i)
      && (forall j, k :: 0 <= j < k < |fs| ==> fs[j].index < fs[k].index)
  {
    hide Names, Failures;
    FailuresFailed(results, code);
    forall i | 0 <= i < |results| && results[i] != None
      ensures exists j :: 0 <= j < |Failures(results, code)| && Failures(results, code)[j].index == i
    {
      FailuresComplete(results, code, i);
    }
  }

  function Tagged(phase: string, fs: seq<HookFailure>): (r: seq<Failed>)
    ensures |r| == |fs| && forall i :: 0 <= i < |fs| ==> r[i] == ByHook(phase, fs[i])
  {
    seq(|fs|, i requires 0 <= i < |fs| => ByHook(phase, fs[i]))
  }

  const START_CODE := "server.start_hook_failed"
  const DRAIN_CODE := "server.drain_hook_failed"
  const SHUTDOWN_CODE := "server.shutdown_hook_failed"

  /** What Shutdown reports for a service it drained. */
  function Joined(drain: seq<HookResult>, server: HookResult, shutdown: seq<HookResult>): seq<Failed> {
    Tagged("drain", Failures(drain, DRAIN_CODE))
    + (match server case None => [] case Some(e) => [ByServer(Wrap(e, "server.shutdown_failed"))])
    + Tagged("shutdown", Failures(shutdown, SHUTDOWN_CODE))
  }

  // Where a failure stands in the joined error: drain hooks, the server, shutdown hooks.
  function Rank(f: Failed): nat {
    match f
    case ByServer(_) => 1
    case ByHook(phase, _) => if phase == "drain" then 0 else 2
  }

  predicate ComesBefore(a: Failed, b: Failed) {
    || Rank(a) < Rank(b)
    || (a.ByHook? && b.ByHook? && a.phase == b.phase && a.failure.index < b.failure.index)
  }

  ghost predicate InOrder(errs: seq<Failed>) {
    forall i, j :: 0 <= i < j < |errs| ==> ComesBefore(errs[i], errs[j])
  }

  /** What one phase contributes: each failing hook under its index, under its own code or else the phase's. */
  ghost predicate ReportsPhase(errs: seq<Failed>, phase: string, results: seq<HookResult>, code: string) {
    forall f :: ByHook(phase, f) in errs <==> Names(results, code, f)
  }

  /**
    The failures are exactly the failing drain hooks', the server's own around its cause, and
    the failing shutdown hooks', each once, in this order.
  */
  ghost predicate ReportsAll(errs: seq<Failed>, drain: seq<HookResult>, server: HookResult, shutdown: seq<HookResult>) {
    && InOrder(errs)
    && (forall i :: 0 <= i < |errs| && errs[i].ByHook? ==> errs[i].phase == "drain" || errs[i].phase == "shutdown")
    && ReportsPhase(errs, "drain", drain, "server.drain_hook_failed")
    && (forall e :: ByServer(e) in errs <==> server != None && e == Family("server.shutdown_failed", Some(server.value)))
    && ReportsPhase(errs, "shutdown", shutdown, "server.shutdown_hook_failed")
  }

  ghost predicate NoneFailed(results: seq<HookResult>) {
    forall i :: 0 <= i < |results| ==> results[i] == None
  }

  lemma FailuresAreNamed(results: seq<HookResult>, code: string, f: HookFailure)
    ensures f in Failures(results, code) <==> Names(results, code, f)
  {
    hide Failures;
    FailuresAreExact(results, code);
    if Names(results, code, f) {
      var j :| 0 <= j < |Failures(results, code)| && Failures(results, code)[j].index == f.index;
      assert Names(results, code, Failures(results, code)[j]);
    }
  }

  lemma TaggedHas(phase: string, fs: seq<HookFailure>, f: HookFailure)
    ensures ByHook(phase, f) in Tagged(phase, fs) <==> f in fs
  {
    if f in fs {
      var i :| 0 <= i < |fs| && fs[i] == f;
      assert Tagged(phase, fs)[i] == ByHook(phase, f);
    }
  }

  lemma PhaseInOrder(phase: string, results: seq<HookResult>, code: string)
    ensures var errs := Tagged(phase, Failures(results, code));
      && InOrder(errs)
      && (forall i :: 0 <= i < |errs| ==> errs[i].ByHook? && errs[i].phase == phase)
  {
    hide Failures, Names;
    FailuresAreExact(results, code);
  }

  lemma InThree(a: seq<Failed>, b: seq<Failed>, c: seq<Failed>)
    requires InOrder(a) && InOrder(c)
    requires forall i :: 0 <= i < |a| ==> Rank(a[i]) == 0
    requires |b| <= 1 && forall i :: 0 <= i < |b| ==> Rank(b[i]) == 1
    requires forall i :: 0 <= i < |c| ==> Rank(c[i]) == 2
    ensures InOrder(a + b + c)
  {
    var errs := a + b + c;
    forall i, j | 0 <= i < j < |errs|
      ensures ComesBefore(errs[i], errs[j])
    {
      assert Rank(errs[i]) == (if i < |a| then 0 else if i < |a| + |b| then 1 else 2);
      assert Rank(errs[j]) == (if j < |a| then 0 else if j < |a| + |b| then 1 else 2);
    }
  }

  lemma JoinedInOrder(drain: seq<HookResult>, server: HookResult, shutdown: seq<HookResult>)
    ensures var errs := Joined(drain, server, shutdown);
      && InOrder(errs)
      && (forall i :: 0 <= i < |errs| && errs[i].ByHook? ==> errs[i].phase == "drain" || errs[i].phase == "shutdown")
  {
    hide Failures;
    var a, c := Tagged("drain", Failures(drain, DRAIN_CODE)), Tagged("shutdown", Failures(shutdown, SHUTDOWN_CODE));
    var b := match server case None => [] case Some(e) => [ByServer(Wrap(e, "server.shutdown_failed"))];
    PhaseInOrder("drain", drain, DRAIN_CODE);
    PhaseInOrder("shutdown", shutdown, SHUTDOWN_CODE);
    assert |"drain"| == 5 && |"shutdown"| == 8;
    InThree(a, b, c);
    assert Joined(drain, server, shutdown) == a + b + c;
  }

  lemma JoinedReports(drain: seq<HookResult>, server: HookResult, shutdown: seq<HookResult>)
    ensures ReportsAll(Joined(drain, server, shutdown), drain, server, shutdown)
    ensures Joined(drain, server, shutdown) == [] <==> NoneFailed(drain) && server == None && NoneFailed(shutdown)
  {
    hide Failures, Names, ComesBefore;
    var errs := Joined(drain, server, shutdown);
    JoinedInOrder(drain, server, shutdown);
    forall f
      ensures ByHook("drain", f) in errs <==> Names(drain, "server.drain_hook_failed", f)
      ensures ByHook("shutdown", f) in errs <==> Names(shutdown, "server.shutdown_hook_failed", f)
    {
      TaggedHas("drain", Failures(drain, DRAIN_CODE), f);
      TaggedHas("shutdown", Failures(shutdown, SHUTDOWN_CODE), f);
      FailuresAreNamed(drain, DRAIN_CODE, f);
      FailuresAreNamed(shutdown, SHUTDOWN_CODE, f);
    }
    NoFailuresExactly(drain, DRAIN_CODE);
    NoFailuresExactly(shutdown, SHUTDOWN_CODE);
  }

  lemma NoFailuresExactly(results: seq<HookResult>, code: string)
    ensures Failures(results, code) == [] <==> NoneFailed(results)
  {
    hide Failures;
    FailuresAreExact(results, code);
    if Failures(results, code) != [] {
      assert Names(results, code, Failures(results, code)[0]);
    }
  }

  datatype StartError = ListenFailed(err: Error) | ConfigRejected(err: Error) | HooksFailed(fs: seq<HookFailure>)

  /** The delegated server of one serve. */
  class ActiveServe {
    var open: bool
    var gracefulCloses: nat

    constructor ()
      ensures open && gracefulCloses == 0
    {
      open, gracefulCloses := true, 0;
    }
  }

  datatype Phase = StartPhase | DrainPhase | ShutdownPhase

  function HookEvent(phase: Phase, i: nat, ready: bool, open: bool): Event {
    match phase
    case StartPhase => StartHook(i, open)
    case DrainPhase => DrainHook(i, ready, open)
    case ShutdownPhase => ShutdownHook(i, ready, open)
  }

  function HookEvents(phase: Phase, n: nat, ready: bool, open: bool): seq<Event> {
    seq(n, i requires 0 <= i < n => HookEvent(phase, i, ready, open))
  }

  lemma HookEventsAreScripts(n: nat, ready: bool)
    ensures HookEvents(StartPhase, n, ready, true) == StartScript(n)
    ensures HookEvents(DrainPhase, n, false, true) == DrainScript(n)
    ensures HookEvents(ShutdownPhase, n, false, false) == ShutdownScript(n)
  {
  }

  class Service {
    var serve: ActiveServe?
    var ln: bool
    var readyProbe: bool
    var trace: seq<Event>

    ghost predicate Valid()
      reads this, serve
    {
      (ln <==> serve != null) && (serve != null ==> serve.open && serve.gracefulCloses == 0)
    }

    constructor ()
      ensures Valid() && !ln && readyProbe && trace == []
    {
      serve, ln, readyProbe, trace := null, false, true, [];
    }

    predicate Running()
      reads this
    {
      ln
    }

    predicate Ready(check: Option<bool>)
      reads this
    {
      readyProbe && (check == None || check.value)
    }

    /** Runs every hook in order, failures or not, and collects the failures. */
    method RunHooks(phase: Phase, results: seq<HookResult>, code: string, s: ActiveServe) returns (errs: seq<HookFailure>)
      modifies this`trace
      ensures errs == Failures(results, code)
      ensures trace == old(trace) + HookEvents(phase, |results|, readyProbe, s.open)
    {
      errs := [];
      for i := 0 to |results|
        invariant errs == Failures(results[..i], code)
        invariant trace == old(trace) + HookEvents(phase, i, readyProbe, s.open)
      {
        trace := trace + [HookEvent(phase, i, readyProbe, s.open)];
        assert HookEvents(phase, i + 1, readyProbe, s.open) ==
               HookEvents(phase, i, readyProbe, s.open) + [HookEvent(phase, i, readyProbe, s.open)];
        assert results[..i + 1][..i] == results[..i];
        if results[i] != None {
          errs := errs + [HookFailure(i, WrapOnce(results[i].value, code))];
        }
      }
      assert results[..|results|] == results;
    }

    /** A failed start leaves no listener behind and shows nothing but its start hooks and the close. */
    method Start(listen: HookResult, config: HookResult, hooks: seq<HookResult>) returns (r: Option<StartError>)
      requires Valid() && !Running()
      modifies this
      ensures Valid() && readyProbe == old(readyProbe)
      ensures listen != None ==> r == Some(ListenFailed(Family("server.listen_failed", Some(listen.value))))
      ensures listen == None && config != None ==> r == Some(ConfigRejected(Family("server.config_invalid", None)))
      ensures listen != None || config != None ==> trace == old(trace) && !Running()
      ensures listen == config == None ==>
                if NoneFailed(hooks) then
                  r == None && Running() && fresh(serve)
                  && trace == old(trace) + StartScript(|hooks|) + [Launch]
                else
                  r == Some(HooksFailed(Failures(hooks, "server.start_hook_failed"))) && !Running()
                  && trace == old(trace) + StartScript(|hooks|) + [Close]
    {
      if listen != None {
        return Some(ListenFailed(Wrap(listen.value, "server.listen_failed")));
      }
      if config != None {
        return Some(ConfigRejected(Family("server.config_invalid", None)));
      }
      var s := new ActiveServe();
      ln, serve := true, s;
      var errs := RunHooks(StartPhase, hooks, START_CODE, s);
      HookEventsAreScripts(|hooks|, readyProbe);
      NoFailuresExactly(hooks, START_CODE);
      if errs != [] {
        ln, serve := false, null;
        s.open := false;
        trace := trace + [Close];
        return Some(HooksFailed(errs));
      }
      trace := trace + [Launch];
      return None;
    }

    /**
      Without a listener nothing happens at all, so a second Shutdown is a no-op. Otherwise
      the whole drain script is shown, the graceful channel is closed once, and the joined
      error lists the failing drain hooks, the server's failure and the failing shutdown hooks.
    */
    method Shutdown(drain: seq<HookResult>, server: HookResult, shutdown: seq<HookResult>) returns (errs: seq<Failed>)
      requires Valid()
      modifies this, serve
      ensures Valid() && !Running()
      ensures !old(Running()) ==> errs == [] && trace == old(trace) && readyProbe == old(readyProbe)
      ensures old(Running()) ==>
                && ReportsAll(errs, drain, server, shutdown)
                && (errs == [] <==> NoneFailed(drain) && server == None && NoneFailed(shutdown))
                && trace == old(trace) + UpToPc(Config(0, |drain|, |shutdown|), Done)
                && !readyProbe
                && !old(serve).open && old(serve).gracefulCloses == 1
    {
      var running, s := ln, serve;
      ln, serve := false, null;
      if !running {
        return [];
      }
      readyProbe := false;
      trace := trace + [Flip];
      var drainErrs := RunHooks(DrainPhase, drain, DRAIN_CODE, s);
      HookEventsAreScripts(|drain|, false);
      s.open := false;
      trace := trace + [Close];
      s.gracefulCloses := s.gracefulCloses + 1;
      trace := trace + [Signal];
      var hooksErrs := RunHooks(ShutdownPhase, shutdown, SHUTDOWN_CODE, s);
      HookEventsAreScripts(|shutdown|, false);
      assert trace == old(trace) + UpToPc(Config(0, |drain|, |shutdown|), Done);
      errs := Tagged("drain", drainErrs)
      + (match server case None => [] case Some(e) => [ByServer(Wrap(e, "server.shutdown_failed"))])
      + Tagged("shutdown", hooksErrs);
      JoinedReports(drain, server, shutdown);
    }
  }
}
