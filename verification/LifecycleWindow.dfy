/**
  Shutdowns at any time: runs in which a Shutdown may fall between Start's publishing of a
  serve and its reading the serve back without the lock, all start hooks in between.
*/
module LifecycleWindow {
  import opened Options
  import opened Lifecycle
  import opened LifecycleRuns

  /** As Reaches, but a Shutdown may come at any moment. */
  ghost predicate WideReaches(c: Config, w: World, run: seq<Action>, end: World)
    decreases |run|
  {
    if run == [] then w == end
    else
      && Enabled(c, w, run[0]) && (run[0] == BeginStart ==> w.ln == None)
      && WideReaches(c, Step(c, w, run[0]), run[1..], end)
  }

  /** The start of serve k is over, with neither a launch nor an abort: it panicked. */
  predicate PanickedStart(w: World, k: nat) {
    k < |w.serves| && w.serves[k].stage.Starting? && w.starting != Some(k)
  }

  /** What holds whenever shutdowns come: the serve in its window is published exactly while no Shutdown took it. */
  ghost predicate WindowInv(c: Config, w: World) {
    && w.ln == w.serve
    && (w.serve != None ==> w.serve.value < |w.serves| && w.serves[w.serve.value].claims == [])
    && (w.starting != None ==>
          && Window(w) && (w.serve == None || w.serve == w.starting)
          && (w.serve == None <==> w.serves[w.starting.value].claims != []))
    && (forall k: nat :: PanickedStart(w, k) ==>
          !w.serves[k].stage.failed && w.serves[k].stage.next >= c.starts && w.serves[k].claims != [])
    && (w.panicked <==> exists k: nat :: PanickedStart(w, k))
  }

  /** The step leaves every serve's stage and claims, and who is starting, alone. */
  ghost predicate SameStarts(w: World, w': World) {
    && |w'.serves| == |w.serves| && w'.starting == w.starting && w'.ln == w.ln && w'.serve == w.serve
    && w'.panicked == w.panicked
    && forall k :: 0 <= k < |w.serves| ==>
         w'.serves[k].stage == w.serves[k].stage && w'.serves[k].claims == w.serves[k].claims
  }

  lemma SameStartsKeepWindow(c: Config, w: World, w': World)
    requires WindowInv(c, w) && SameStarts(w, w')
    ensures WindowInv(c, w')
  {
    assert forall k: nat :: PanickedStart(w', k) <==> PanickedStart(w, k);
  }

  lemma OtherStepsKeepStarts(c: Config, w: World, a: Action)
    requires Enabled(c, w, a)
    requires !a.BeginStart? && !a.RunStartHook? && !a.EndStart? && !a.Claim?
    ensures SameStarts(w, Step(c, w, a))
  {
  }

  lemma BeginKeepsWindow(c: Config, w: World)
    requires WindowInv(c, w) && Enabled(c, w, BeginStart) && w.ln == None
    ensures WindowInv(c, Step(c, w, BeginStart))
  {
    var w' := Step(c, w, BeginStart);
    assert forall k: nat :: PanickedStart(w', k) <==> PanickedStart(w, k);
  }

  lemma HookKeepsWindow(c: Config, w: World, ok: bool)
    requires WindowInv(c, w) && Enabled(c, w, RunStartHook(ok))
    ensures WindowInv(c, Step(c, w, RunStartHook(ok)))
  {
    var w' := Step(c, w, RunStartHook(ok));
    assert forall k: nat :: PanickedStart(w', k) <==> PanickedStart(w, k);
  }

  lemma ClaimKeepsWindow(c: Config, w: World)
    requires WindowInv(c, w) && Enabled(c, w, Claim)
    ensures WindowInv(c, Step(c, w, Claim))
  {
    var w' := Step(c, w, Claim);
    assert forall k: nat :: PanickedStart(w', k) <==> PanickedStart(w, k);
  }

  lemma EndKeepsWindow(c: Config, w: World)
    requires WindowInv(c, w) && Enabled(c, w, EndStart)
    ensures WindowInv(c, Step(c, w, EndStart))
  {
    var w', j := Step(c, w, EndStart), w.starting.value;
    assert forall k: nat :: k != j ==> (PanickedStart(w', k) <==> PanickedStart(w, k));
    assert !PanickedStart(w, j);
    assert PanickedStart(w', j) <==> !w.serves[j].stage.failed && w.serve == None;
  }

  lemma StepKeepsWindow(c: Config, w: World, a: Action)
    requires WindowInv(c, w) && Enabled(c, w, a) && (a == BeginStart ==> w.ln == None)
    ensures WindowInv(c, Step(c, w, a))
  {
    hide WindowInv, Step, SameStarts;
    match a
    case BeginStart => BeginKeepsWindow(c, w);
    case RunStartHook(ok) => HookKeepsWindow(c, w, ok);
    case EndStart => EndKeepsWindow(c, w);
    case Claim => ClaimKeepsWindow(c, w);
    case _ =>
      OtherStepsKeepStarts(c, w, a);
      SameStartsKeepWindow(c, w, Step(c, w, a));
  }

  lemma {:induction false} RunKeepsWindow(c: Config, w: World, run: seq<Action>, end: World)
    requires WindowInv(c, w) && WideReaches(c, w, run, end)
    ensures WindowInv(c, end)
    decreases |run|
  {
    hide WindowInv, Step, Enabled;
    if run != [] {
      StepKeepsWindow(c, w, run[0]);
      RunKeepsWindow(c, Step(c, w, run[0]), run[1..], end);
    }
  }

  /**
    Whenever Shutdowns come: at the end of a start whose hooks have all succeeded, the start
    panics if and only if some Shutdown has taken its serve, at any moment of the window, and
    otherwise it launches. A start with a failed hook never panics, taken or not.
  */
  lemma StartPanicsExactly(c: Config, run: seq<Action>, w: World)
    requires WideReaches(c, Init(), run, w) && Enabled(c, w, EndStart)
    ensures var k, w' := w.starting.value, Step(c, w, EndStart);
      && (PanickedStart(w', k) <==> !w.serves[k].stage.failed && w.serves[k].claims != [])
      && (w'.serves[k].stage == Launched <==> !w.serves[k].stage.failed && w.serves[k].claims == [])
      && (w'.serves[k].stage == Aborted <==> w.serves[k].stage.failed)
      && (w'.panicked <==> w.panicked || PanickedStart(w', k))
  {
    NoStartsYet(c);
    RunKeepsWindow(c, Init(), run, w);
  }

  lemma NoStartsYet(c: Config)
    ensures WindowInv(c, Init())
  {
  }

  /** A run has panicked exactly when some start has; each such start had no failed hook and was taken. */
  lemma PanickedExactly(c: Config, run: seq<Action>, w: World)
    requires WideReaches(c, Init(), run, w)
    ensures w.panicked <==> exists k: nat :: PanickedStart(w, k)
    ensures forall k: nat :: PanickedStart(w, k) ==> !w.serves[k].stage.failed && w.serves[k].claims != []
  {
    NoStartsYet(c);
    RunKeepsWindow(c, Init(), run, w);
  }

  // ---------------------------------------------------------------------------
  // A Shutdown before the first start hook
  // ---------------------------------------------------------------------------

  lemma {:induction false} HooksThenPanic(c: Config, w: World, k: nat) returns (run: seq<Action>, end: World)
    requires w.starting == Some(k) && w.serve == None && !w.panicked
    requires k < |w.serves| && w.serves[k].stage.Starting? && !w.serves[k].stage.failed
    ensures WideReaches(c, w, run, end) && Smooth(run) && end.panicked && PanickedStart(end, k)
    ensures forall i :: 0 <= i < |run| ==> run[i].RunStartHook? || run[i].EndStart?
    decreases c.starts - w.serves[k].stage.next
  {
    if w.serves[k].stage.next >= c.starts {
      run, end := [EndStart], Step(c, w, EndStart);
      assert run[1..] == [];
    } else {
      var next := Step(c, w, RunStartHook(true));
      var rest;
      rest, end := HooksThenPanic(c, next, k);
      run := [RunStartHook(true)] + rest;
      assert run[1..] == rest;
    }
  }

  /**
    For every configuration such a run exists: the service is started, shut down before its
    first start hook, and panics once all start hooks have succeeded.
  */
  lemma EarlyShutdownPanics(c: Config) returns (run: seq<Action>, end: World)
    ensures WideReaches(c, Init(), run, end) && Smooth(run) && end.panicked && PanickedStart(end, 0)
    ensures |run| >= 3 && run[0] == BeginStart && run[1] == Claim
    ensures forall i :: 2 <= i < |run| ==> run[i].RunStartHook? || run[i].EndStart?
  {
    var w0 := Init();
    var w1 := Step(c, w0, BeginStart);
    var w2 := Step(c, w1, Claim);
    var rest;
    rest, end := HooksThenPanic(c, w2, 0);
    assert rest != [];
    run := [BeginStart, Claim] + rest;
    assert run[1..] == [Claim] + rest && run[1..][1..] == rest;
  }
}
