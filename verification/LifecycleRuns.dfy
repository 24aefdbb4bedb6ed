/**
  Runs that do happen: a service that starts and shuts down completely, and starts again.
*/
module LifecycleRuns {
  import opened Options
  import opened Lifecycle

  lemma {:induction false} ReachesConcat(c: Config, a: World, x: seq<Action>, b: World, y: seq<Action>, e: World)
    requires Reaches(c, a, x, b) && Reaches(c, b, y, e)
    ensures Reaches(c, a, x + y, e)
    decreases |x|
  {
    hide Step, Enabled, Disciplined;
    if x == [] {
      assert x + y == y;
    } else {
      assert (x + y)[1..] == x[1..] + y;
      ReachesConcat(c, Step(c, a, x[0]), x[1..], b, y, e);
    }
  }

  lemma ReachesOne(c: Config, w: World, a: Action)
    requires Inv(c, w) && Enabled(c, w, a) && Disciplined(w, a)
    ensures Reaches(c, w, [a], Step(c, w, a)) && Inv(c, Step(c, w, a))
  {
    hide Inv, Step, Enabled, Disciplined;
    assert [a][1..] == [];
    StepKeepsInv(c, w, a);
  }

  /** No start hook of the run fails. */
  predicate Smooth(run: seq<Action>) {
    forall i :: 0 <= i < |run| && run[i].RunStartHook? ==> run[i].ok
  }

  /** Everything but the newest serve is as it was. */
  ghost predicate OthersKept(w: World, w': World, k: nat) {
    && k < |w.serves| == |w'.serves|
    && forall j :: 0 <= j < |w.serves| && j != k ==> w'.serves[j] == w.serves[j]
  }

  lemma {:induction false} StartHooks(c: Config, w: World, k: nat) returns (run: seq<Action>, end: World)
    requires Inv(c, w) && w.starting == Some(k)
    requires k < |w.serves| && w.serves[k].stage.Starting? && !w.serves[k].stage.failed
    ensures Reaches(c, w, run, end) && Inv(c, end) && Smooth(run)
    ensures OthersKept(w, end, k) && end.drains == w.drains
    ensures end.ln == Some(k) && end.starting == None && end.serves[k].stage == Launched && end.serves[k].claims == []
    decreases c.starts - w.serves[k].stage.next
  {
    hide ForwarderInv, StartScript, UpToPc, AbortScript;
    assert ServeInv(c, w, k);
    if w.serves[k].stage.next == c.starts {
      ReachesOne(c, w, EndStart);
      run, end := [EndStart], Step(c, w, EndStart);
    } else {
      var next := Step(c, w, RunStartHook(true));
      ReachesOne(c, w, RunStartHook(true));
      var rest;
      rest, end := StartHooks(c, next, k);
      ReachesConcat(c, w, [RunStartHook(true)], next, rest, end);
      run := [RunStartHook(true)] + rest;
    }
  }

  /** A service that does not run can be started. */
  lemma StartCycle(c: Config, w: World) returns (run: seq<Action>, end: World)
    requires Inv(c, w) && w.ln == None
    ensures Reaches(c, w, run, end) && Inv(c, end) && Smooth(run)
    ensures |end.serves| == |w.serves| + 1 && w.serves <= end.serves && end.drains == w.drains
    ensures end.ln == Some(|w.serves|) && end.starting == None
    ensures end.serves[|w.serves|].stage == Launched && end.serves[|w.serves|].claims == []
  {
    hide ServeInv, ForwarderInv;
    var k, next := |w.serves|, Step(c, w, BeginStart);
    ReachesOne(c, w, BeginStart);
    var rest;
    rest, end := StartHooks(c, next, k);
    ReachesConcat(c, w, [BeginStart], next, rest, end);
    run := [BeginStart] + rest;
  }

  function Left(c: Config, pc: Pc): int {
    match pc
    case AtFlip => c.drains + c.shuts + 5
    case AtDrainHook(i) => c.drains - i + c.shuts + 4
    case AtClose => c.shuts + 3
    case AtSignal => c.shuts + 2
    case AtShutdownHook(i) => c.shuts - i + 1
    case Done => 0
  }

  lemma {:induction false} DrainAll(c: Config, w: World, d: nat) returns (run: seq<Action>, end: World)
    requires Inv(c, w) && d < |w.drains| && w.ln == None
    ensures Reaches(c, w, run, end) && Inv(c, end) && Smooth(run)
    ensures OthersKept(w, end, w.drains[d].serve) && end.ln == None
    ensures end.drains == w.drains[d := Drain(w.drains[d].serve, Done)]
    decreases Left(c, w.drains[d].pc)
  {
    hide ForwarderInv, StartScript, UpToPc, AbortScript;
    var k := w.drains[d].serve;
    assert ServeInv(c, w, k);
    if w.drains[d].pc == Done {
      run, end := [], w;
    } else {
      var next := Step(c, w, Advance(d));
      ReachesOne(c, w, Advance(d));
      var rest;
      rest, end := DrainAll(c, next, d);
      ReachesConcat(c, w, [Advance(d)], next, rest, end);
      run := [Advance(d)] + rest;
    }
  }

  /** A running service can be shut down completely. */
  lemma DrainCycle(c: Config, w: World, k: nat) returns (run: seq<Action>, end: World)
    requires Inv(c, w) && w.ln == Some(k) && w.starting == None
    ensures Reaches(c, w, run, end) && Inv(c, end) && Smooth(run)
    ensures OthersKept(w, end, k) && end.ln == None
    ensures end.drains == w.drains + [Drain(k, Done)]
  {
    hide ServeInv, ForwarderInv;
    var next := Step(c, w, Claim);
    ReachesOne(c, w, Claim);
    var rest;
    rest, end := DrainAll(c, next, |w.drains|);
    ReachesConcat(c, w, [Claim], next, rest, end);
    run := [Claim] + rest;
  }

  lemma FullCycle(c: Config, w: World) returns (run: seq<Action>, end: World)
    requires Inv(c, w) && w.ln == None
    ensures Reaches(c, w, run, end) && Inv(c, end) && Smooth(run)
    ensures |end.serves| == |w.serves| + 1 && w.serves <= end.serves && end.ln == None
    ensures end.drains == w.drains + [Drain(|w.serves|, Done)]
  {
    hide Inv, Reaches;
    var mid, rest;
    run, mid := StartCycle(c, w);
    rest, end := DrainCycle(c, mid, |w.serves|);
    ReachesConcat(c, w, run, mid, rest, end);
    run := run + rest;
  }

  lemma InitInv(c: Config)
    ensures Inv(c, Init())
  {
  }

  /**
    A service that is started and shut down twice runs every start, drain and shutdown hook
    twice, once for each serve.
  */
  lemma RestartRunsHooksAgain(c: Config) returns (run: seq<Action>, end: World)
    ensures Reaches(c, Init(), run, end)
    ensures |end.serves| == |end.drains| == 2 && end.drains[0].serve != end.drains[1].serve
    ensures end.serves[0].trace == end.serves[1].trace == FullScript(c)
  {
    hide Inv, Reaches, FullScript, AbortScript, UpToPc, StartScript;
    InitInv(c);
    var mid, rest;
    run, mid := FullCycle(c, Init());
    rest, end := FullCycle(c, mid);
    ReachesConcat(c, Init(), run, mid, rest, end);
    run := run + rest;
    DrainedIsFull(c, run, end, 0);
    DrainedIsFull(c, run, end, 1);
  }

  lemma DrainedIsFull(c: Config, run: seq<Action>, w: World, k: nat)
    requires Reaches(c, Init(), run, w)
    requires k < |w.serves| && k < |w.drains| && w.drains[k] == Drain(k, Done)
    ensures w.serves[k].trace == FullScript(c)
  {
    hide Reaches, FullScript, AbortScript, UpToPc, StartScript;
    EachServeFollowsTheScript(c, run, w, k);
    RunKeepsInv(c, Init(), run, w);
    assert ServeInv(c, w, k);
    assert w.serves[k].claims == [k];
  }

  /** The readiness probe never rises: not by a restart, not by anything. */
  lemma {:induction false} ReadinessNeverRises(c: Config, w: World, run: seq<Action>, end: World)
    requires Reaches(c, w, run, end) && !w.ready
    ensures !end.ready
    decreases |run|
  {
    if run != [] {
      ReadinessNeverRises(c, Step(c, w, run[0]), run[1..], end);
    }
  }
}
