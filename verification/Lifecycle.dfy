/**
  The service lifecycle of service.go as interleaved steps: repeated Starts, any
  number of concurrent Shutdown and Close calls, and one forwarder goroutine for
  each serve. A serve is named by its place in `serves`.
*/
module Lifecycle {
  import opened Options

  datatype Config = Config(starts: nat, drains: nat, shuts: nat)

  // What a serve's channel hands to the caller of Start.
  datatype Outcome = Failure(err: string) | Graceful

  datatype Stage = Starting(next: nat, failed: bool) | Aborted | Launched

  datatype Forwarder = Unborn | Peeking | Waiting | Finished

  // Observable effects. Each hook run notes what readiness and the listener were then.
  datatype Event =
    | StartHook(i: nat, open: bool)
    | Launch
    | Flip
    | DrainHook(i: nat, ready: bool, open: bool)
    | Close
    | Signal
    | ShutdownHook(i: nat, ready: bool, open: bool)

  datatype Serve = Serve(
    stage: Stage,
    open: bool,               // this service has not closed the listener
    raw: Option<string>,      // a failure waiting in the delegated server's channel
    reported: Option<string>, // what the server has put there; it carries at most one failure
    graceful: nat,            // how often the graceful channel has been closed
    forwarder: Forwarder,
    watches: nat,             // the serve whose graceful channel the forwarder reads
    errCh: seq<Outcome>,      // buffered, capacity one
    // history
    delivered: seq<Outcome>,  // every value ever put on errCh
    peeked: Option<string>,   // what the peek found
    claims: seq<nat>,         // the drains that took this serve
    trace: seq<Event>)

  datatype Pc = AtFlip | AtDrainHook(i: nat) | AtClose | AtSignal | AtShutdownHook(i: nat) | Done

  datatype Drain = Drain(serve: nat, pc: Pc)

  datatype World = World(
    ln: Option<nat>,
    serve: Option<nat>,
    ready: bool,
    starting: Option<nat>,
    serves: seq<Serve>,
    drains: seq<Drain>,
    panicked: bool)

  datatype Action =
    | BeginStart | RunStartHook(ok: bool) | EndStart
    | Fail(k: nat, err: string)
    | Peek(k: nat) | TakeFailure(k: nat) | TakeGraceful(k: nat) | Consume(k: nat)
    | Claim | Advance(d: nat)

  function Init(): World {
    World(None, None, true, None, [], [], false)
  }

  function NewServe(k: nat): Serve {
    Serve(Starting(0, false), true, None, None, 0, Unborn, k, [], [], None, [], [])
  }

  ghost predicate Enabled(c: Config, w: World, a: Action) {
    match a
    case BeginStart => w.starting == None
    case RunStartHook(_) => Window(w) && w.serves[w.starting.value].stage.next < c.starts
    case EndStart => Window(w) && w.serves[w.starting.value].stage.next >= c.starts
    case Fail(k, _) => k < |w.serves| && w.serves[k].stage == Launched && w.serves[k].reported == None
    case Peek(k) => k < |w.serves| && w.serves[k].forwarder == Peeking
    case TakeFailure(k) => k < |w.serves| && w.serves[k].forwarder == Waiting && w.serves[k].raw != None
    case TakeGraceful(k) =>
      k < |w.serves| && w.serves[k].forwarder == Waiting
      && w.serves[k].watches < |w.serves| && w.serves[w.serves[k].watches].graceful > 0
    case Consume(k) => k < |w.serves| && w.serves[k].errCh != []
    case Claim => w.ln != None ==> w.serve != None && w.serve.value < |w.serves|
    case Advance(d) => d < |w.drains| && w.drains[d].serve < |w.serves| && w.drains[d].pc != Done
  }

  /** Between publishing the listener and reading the graceful channel back. */
  predicate Window(w: World) {
    w.starting != None && w.starting.value < |w.serves| && w.serves[w.starting.value].stage.Starting?
  }

  function Delivering(s: Serve, o: Outcome): Serve {
    s.(errCh := s.errCh + [o], delivered := s.delivered + [o], forwarder := Finished)
  }

  /** One step of a drain: the new drain, the new serve and the new readiness. */
  function Advanced(c: Config, d: Drain, s: Serve, ready: bool): (r: (Drain, Serve, bool))
    requires d.pc != Done
  {
    match d.pc
    case AtFlip => (d.(pc := AtDrainHook(0)), s.(trace := s.trace + [Flip]), false)
    case AtDrainHook(i) =>
      if i < c.drains then (d.(pc := AtDrainHook(i + 1)), s.(trace := s.trace + [DrainHook(i, ready, s.open)]), ready)
      else (d.(pc := AtClose), s, ready)
    case AtClose => (d.(pc := AtSignal), s.(open := false, trace := s.trace + [Close]), ready)
    case AtSignal =>
      (d.(pc := AtShutdownHook(0)), s.(graceful := s.graceful + 1, trace := s.trace + [Signal]), ready)
    case AtShutdownHook(i) =>
      if i < c.shuts then
        (d.(pc := AtShutdownHook(i + 1)), s.(trace := s.trace + [ShutdownHook(i, ready, s.open)]), ready)
      else (d.(pc := Done), s, ready)
  }

  function Step(c: Config, w: World, a: Action): World
    requires Enabled(c, w, a)
  {
    match a
    case BeginStart =>
      var k := |w.serves|;
      w.(ln := Some(k), serve := Some(k), starting := Some(k), serves := w.serves + [NewServe(k)])
    case RunStartHook(ok) =>
      var k := w.starting.value;
      var s := w.serves[k];
      w.(serves := w.serves[k := s.(
        stage := Starting(s.stage.next + 1, s.stage.failed || !ok),
        trace := s.trace + [StartHook(s.stage.next, s.open)])])
    case EndStart =>
      var k := w.starting.value;
      var s := w.serves[k];
      if s.stage.failed then
        w.(ln := None, serve := None, starting := None,
           serves := w.serves[k := s.(stage := Aborted, open := false, trace := s.trace + [Close])])
      else if w.serve == None then w.(panicked := true, starting := None)
      else
        w.(starting := None,
           serves := w.serves[k := s.(stage := Launched, forwarder := Peeking, watches := w.serve.value,
                                      trace := s.trace + [Launch])])
    case Fail(k, err) => w.(serves := w.serves[k := w.serves[k].(raw := Some(err), reported := Some(err))])
    case Peek(k) =>
      var s := w.serves[k];
      var s1 := s.(peeked := s.raw);
      w.(serves := w.serves[k :=
        if s.raw == None then s1.(forwarder := Waiting)
        else Delivering(s1.(raw := None), Failure(s.raw.value))])
    case TakeFailure(k) =>
      var s := w.serves[k];
      w.(serves := w.serves[k := Delivering(s.(raw := None), Failure(s.raw.value))])
    case TakeGraceful(k) => w.(serves := w.serves[k := Delivering(w.serves[k], Graceful)])
    case Consume(k) => w.(serves := w.serves[k := w.serves[k].(errCh := w.serves[k].errCh[1..])])
    case Claim =>
      if w.ln == None then w
      else
        var k := w.serve.value;
        var s := w.serves[k];
        w.(ln := None, serve := None, drains := w.drains + [Drain(k, AtFlip)],
           serves := w.serves[k := s.(claims := s.claims + [|w.drains|])])
    case Advance(d) =>
      var k := w.drains[d].serve;
      var (d', s', ready') := Advanced(c, w.drains[d], w.serves[k], w.ready);
      w.(ready := ready', drains := w.drains[d := d'], serves := w.serves[k := s'])
  }

  /** No Start while the service runs, and no Shutdown inside Start's window. */
  ghost predicate Disciplined(w: World, a: Action) {
    && (a == BeginStart ==> w.ln == None)
    && (a == Claim ==> w.starting == None)
  }

  ghost predicate Reaches(c: Config, w: World, run: seq<Action>, end: World)
    decreases |run|
  {
    if run == [] then w == end
    else Enabled(c, w, run[0]) && Disciplined(w, run[0]) && Reaches(c, Step(c, w, run[0]), run[1..], end)
  }

  // ---------------------------------------------------------------------------
  // The script of one serve
  // ---------------------------------------------------------------------------

  function StartScript(n: nat): seq<Event> {
    seq(n, i requires 0 <= i < n => StartHook(i, true))
  }

  function DrainScript(n: nat): seq<Event> {
    seq(n, i requires 0 <= i < n => DrainHook(i, false, true))
  }

  function ShutdownScript(n: nat): seq<Event> {
    seq(n, i requires 0 <= i < n => ShutdownHook(i, false, false))
  }

  /** What a serve has shown when its drain stands at `pc`. */
  function UpToPc(c: Config, pc: Pc): seq<Event> {
    match pc
    case AtFlip => []
    case AtDrainHook(i) => [Flip] + DrainScript(i)
    case AtClose => [Flip] + DrainScript(c.drains)
    case AtSignal => [Flip] + DrainScript(c.drains) + [Close]
    case AtShutdownHook(i) => [Flip] + DrainScript(c.drains) + [Close, Signal] + ShutdownScript(i)
    case Done => [Flip] + DrainScript(c.drains) + [Close, Signal] + ShutdownScript(c.shuts)
  }

  function FullScript(c: Config): seq<Event> {
    StartScript(c.starts) + [Launch] + UpToPc(c, Done)
  }

  /** The whole script, event by event. */
  lemma ScriptInFull(c: Config)
    ensures var t, d := FullScript(c), c.starts + 2;
      && |t| == d + c.drains + 2 + c.shuts
      && (forall i :: 0 <= i < c.starts ==> t[i] == StartHook(i, true))
      && t[c.starts] == Launch && t[c.starts + 1] == Flip
      && (forall i :: 0 <= i < c.drains ==> t[d + i] == DrainHook(i, false, true))
      && t[d + c.drains] == Close && t[d + c.drains + 1] == Signal
      && (forall i :: 0 <= i < c.shuts ==> t[d + c.drains + 2 + i] == ShutdownHook(i, false, false))
  {
  }

  function AbortScript(c: Config): seq<Event> {
    StartScript(c.starts) + [Close]
  }

  predicate Closed(pc: Pc) {
    pc.AtSignal? || pc.AtShutdownHook? || pc == Done
  }

  predicate Signalled(pc: Pc) {
    pc.AtShutdownHook? || pc == Done
  }

  ghost predicate ServeInv(c: Config, w: World, k: nat)
    requires k < |w.serves|
  {
    var s := w.serves[k];
    && s.watches == k
    && match s.stage
       case Starting(next, _) =>
         && w.starting == w.ln == w.serve == Some(k)
         && next <= c.starts && s.claims == [] && s.open && s.graceful == 0
         && s.trace == StartScript(next)
       case Aborted =>
         s.claims == [] && !s.open && s.graceful == 0 && s.trace == AbortScript(c) && w.ln != Some(k)
       case Launched =>
         && w.starting != Some(k)
         && if s.claims == [] then
              && w.ln == w.serve == Some(k) && s.open && s.graceful == 0
              && s.trace == StartScript(c.starts) + [Launch]
            else
              && |s.claims| == 1 && s.claims[0] < |w.drains| && w.ln != Some(k)
              && var d := w.drains[s.claims[0]];
                && d.serve == k
                && PcFits(c, d.pc)
                && (d.pc != AtFlip ==> !w.ready)
                && s.open == !Closed(d.pc)
                && s.graceful == (if Signalled(d.pc) then 1 else 0)
                && s.trace == StartScript(c.starts) + [Launch] + UpToPc(c, d.pc)
  }

  ghost predicate PcFits(c: Config, pc: Pc) {
    (pc.AtDrainHook? ==> pc.i <= c.drains) && (pc.AtShutdownHook? ==> pc.i <= c.shuts)
  }

  /** The forwarder's side: what it has delivered and why. */
  ghost predicate ForwarderInv(s: Serve) {
    && (s.forwarder == Unborn <==> s.stage != Launched)
    && (s.forwarder != Finished ==> s.delivered == [])
    && (s.forwarder == Finished ==> |s.delivered| == 1)
    && s.errCh <= s.delivered
    && (s.forwarder == Unborn || s.forwarder == Peeking ==> s.peeked == None)
    && (s.peeked != None ==> s.delivered == [Failure(s.peeked.value)])
    && (Graceful in s.delivered ==> s.graceful > 0)
    && (s.raw != None || s.forwarder != Finished ==> s.raw == s.reported)
    && (forall i :: 0 <= i < |s.delivered| && s.delivered[i].Failure? ==> s.reported == Some(s.delivered[i].err))
  }

  ghost predicate Inv(c: Config, w: World) {
    && !w.panicked
    && w.ln == w.serve
    && (w.ln != None ==> w.ln.value < |w.serves|)
    && (w.starting != None ==> w.starting == w.ln && w.serves[w.starting.value].stage.Starting?)
    && (forall k :: 0 <= k < |w.serves| ==> ServeInv(c, w, k))
    && (forall k :: 0 <= k < |w.serves| ==> ForwarderInv(w.serves[k]))
    && (forall d :: 0 <= d < |w.drains| ==>
          w.drains[d].serve < |w.serves| && w.serves[w.drains[d].serve].claims == [d])
  }

  // ---------------------------------------------------------------------------
  // What every disciplined step keeps
  // ---------------------------------------------------------------------------

  /** A serve that the step does not touch keeps its place in the script. */
  lemma Untouched(c: Config, w: World, w': World, k: nat)
    requires k < |w.serves| && k < |w'.serves| && w'.serves[k] == w.serves[k]
    requires ServeInv(c, w, k)
    requires w.ln == Some(k) ==> w'.ln == w.ln && w'.serve == w.serve && w'.starting == w.starting
    requires w.ln != Some(k) ==> w'.ln != Some(k) && w'.starting != Some(k)
    requires w'.ready ==> w.ready
    requires |w.drains| <= |w'.drains|
    requires forall d :: 0 <= d < |w.drains| && w.drains[d].serve == k ==> w'.drains[d] == w.drains[d]
    ensures ServeInv(c, w', k)
  {
    hide StartScript, UpToPc, FullScript, AbortScript;
  }

  lemma ScriptGrows(i: nat)
    ensures StartScript(i) + [StartHook(i, true)] == StartScript(i + 1)
    ensures DrainScript(i) + [DrainHook(i, false, true)] == DrainScript(i + 1)
    ensures ShutdownScript(i) + [ShutdownHook(i, false, false)] == ShutdownScript(i + 1)
  {
  }

  lemma BeginStartKeepsInv(c: Config, w: World)
    requires Inv(c, w) && Enabled(c, w, BeginStart) && Disciplined(w, BeginStart)
    ensures Inv(c, Step(c, w, BeginStart))
  {
    var w' := Step(c, w, BeginStart);
    forall k | 0 <= k < |w'.serves|
      ensures ServeInv(c, w', k) && ForwarderInv(w'.serves[k])
    {
      if k < |w.serves| {
        Untouched(c, w, w', k);
      }
    }
  }

  lemma StartHookKeepsInv(c: Config, w: World, ok: bool)
    requires Inv(c, w) && Enabled(c, w, RunStartHook(ok))
    ensures Inv(c, Step(c, w, RunStartHook(ok)))
  {
    var w' := Step(c, w, RunStartHook(ok));
    var j := w.starting.value;
    assert ServeInv(c, w, j) && ForwarderInv(w.serves[j]);
    ScriptGrows(w.serves[j].stage.next);
    forall k | 0 <= k < |w'.serves|
      ensures ServeInv(c, w', k) && ForwarderInv(w'.serves[k])
    {
      if k != j {
        Untouched(c, w, w', k);
      }
    }
  }

  lemma EndStartKeepsInv(c: Config, w: World)
    requires Inv(c, w) && Enabled(c, w, EndStart)
    ensures Inv(c, Step(c, w, EndStart))
  {
    var w' := Step(c, w, EndStart);
    var j := w.starting.value;
    assert ServeInv(c, w, j) && ForwarderInv(w.serves[j]);
    forall k | 0 <= k < |w'.serves|
      ensures ServeInv(c, w', k) && ForwarderInv(w'.serves[k])
    {
      if k != j {
        Untouched(c, w, w', k);
      }
    }
  }

  /** The serve after a step on its channels. */
  function Channelled(w: World, a: Action, k: nat): Serve
    requires k < |w.serves|
  {
    var s := w.serves[k];
    match a
    case Fail(_, err) => s.(raw := Some(err), reported := Some(err))
    case Peek(_) =>
      if s.raw == None then s.(peeked := None, forwarder := Waiting)
      else Delivering(s.(peeked := s.raw, raw := None), Failure(s.raw.value))
    case TakeFailure(_) => if s.raw == None then s else Delivering(s.(raw := None), Failure(s.raw.value))
    case TakeGraceful(_) => Delivering(s, Graceful)
    case Consume(_) => if s.errCh == [] then s else s.(errCh := s.errCh[1..])
    case _ => s
  }

  lemma ChannelStepKeepsForwarder(c: Config, w: World, a: Action, k: nat)
    requires k < |w.serves| && Enabled(c, w, a) && ForwarderInv(w.serves[k])
    requires a == Peek(k) || a == TakeFailure(k) || a == TakeGraceful(k) || a == Consume(k) || (a.Fail? && a.k == k)
    requires w.serves[k].watches == k
    ensures ForwarderInv(Channelled(w, a, k))
    ensures Step(c, w, a) == w.(serves := w.serves[k := Channelled(w, a, k)])
  {
  }

  lemma ChannelledKeepsScript(c: Config, w: World, a: Action, k: nat)
    requires k < |w.serves| && ServeInv(c, w, k)
    ensures ServeInv(c, w.(serves := w.serves[k := Channelled(w, a, k)]), k)
  {
    hide StartScript, UpToPc, FullScript, AbortScript;
  }

  /** Steps on the channels of one serve leave the script alone. */
  lemma ChannelStepKeepsInv(c: Config, w: World, a: Action, j: nat)
    requires Inv(c, w) && Enabled(c, w, a)
    requires a == Peek(j) || a == TakeFailure(j) || a == TakeGraceful(j) || a == Consume(j) || (a.Fail? && a.k == j)
    ensures Inv(c, Step(c, w, a))
  {
    hide StartScript, UpToPc, FullScript, AbortScript, ForwarderInv, Step;
    assert j < |w.serves| && w.serves[j].watches == j by {
      assert ServeInv(c, w, j);
    }
    assert ForwarderInv(w.serves[j]);
    ChannelStepKeepsForwarder(c, w, a, j);
    ChannelledKeepsScript(c, w, a, j);
    var w' := w.(serves := w.serves[j := Channelled(w, a, j)]);
    SameClaims(w, a, j);
    hide ServeInv, Channelled;
    forall k | 0 <= k < |w'.serves|
      ensures ServeInv(c, w', k) && ForwarderInv(w'.serves[k])
    {
      if k != j {
        Untouched(c, w, w', k);
      }
    }
  }

  lemma SameClaims(w: World, a: Action, k: nat)
    requires k < |w.serves|
    ensures Channelled(w, a, k).stage == w.serves[k].stage && Channelled(w, a, k).claims == w.serves[k].claims
  {
  }

  lemma ClaimKeepsInv(c: Config, w: World)
    requires Inv(c, w) && Enabled(c, w, Claim) && Disciplined(w, Claim)
    ensures Inv(c, Step(c, w, Claim))
  {
    hide StartScript, FullScript, AbortScript;
    var w' := Step(c, w, Claim);
    if w.ln != None {
      var j := w.ln.value;
      assert ServeInv(c, w, j) && ForwarderInv(w.serves[j]);
      assert w'.serves[j].trace == w.serves[j].trace + UpToPc(c, AtFlip);
      forall k | 0 <= k < |w'.serves|
        ensures ServeInv(c, w', k) && ForwarderInv(w'.serves[k])
      {
        if k != j {
          Untouched(c, w, w', k);
        }
      }
    }
  }

  /** One step of a drain extends the script by what the next program point expects. */
  lemma AdvanceFollowsScript(c: Config, d: Drain, s: Serve, ready: bool, prefix: seq<Event>)
    requires d.pc != Done && PcFits(c, d.pc)
    requires (d.pc != AtFlip ==> !ready) && s.open == !Closed(d.pc) && s.trace == prefix + UpToPc(c, d.pc)
    ensures var (d', s', ready') := Advanced(c, d, s, ready);
      && PcFits(c, d'.pc) && !ready' && d'.pc != AtFlip
      && s'.open == !Closed(d'.pc)
      && s'.graceful - s.graceful == (if Signalled(d'.pc) then 1 else 0) - (if Signalled(d.pc) then 1 else 0)
      && s'.trace == prefix + UpToPc(c, d'.pc)
  {
    match d.pc
    case AtFlip =>
    case AtDrainHook(i) => ScriptGrows(i);
    case AtClose =>
    case AtSignal =>
    case AtShutdownHook(i) => ScriptGrows(i);
  }

  lemma AdvanceKeepsInv(c: Config, w: World, d: nat)
    requires Inv(c, w) && Enabled(c, w, Advance(d))
    ensures Inv(c, Step(c, w, Advance(d)))
  {
    hide StartScript, UpToPc, FullScript, AbortScript;
    var w' := Step(c, w, Advance(d));
    var j := w.drains[d].serve;
    var s := w.serves[j];
    assert ServeInv(c, w, j) && ForwarderInv(s) && s.claims == [d];
    AdvanceFollowsScript(c, w.drains[d], s, w.ready, StartScript(c.starts) + [Launch]);
    assert ServeInv(c, w', j);
    assert ForwarderInv(w'.serves[j]);
    forall k | 0 <= k < |w'.serves|
      ensures ServeInv(c, w', k) && ForwarderInv(w'.serves[k])
    {
      if k != j {
        Untouched(c, w, w', k);
      }
    }
  }

  lemma StepKeepsInv(c: Config, w: World, a: Action)
    requires Inv(c, w) && Enabled(c, w, a) && Disciplined(w, a)
    ensures Inv(c, Step(c, w, a))
  {
    hide Inv, Step;
    match a
    case BeginStart => BeginStartKeepsInv(c, w);
    case RunStartHook(ok) => StartHookKeepsInv(c, w, ok);
    case EndStart => EndStartKeepsInv(c, w);
    case Fail(k, _) => ChannelStepKeepsInv(c, w, a, k);
    case Peek(k) => ChannelStepKeepsInv(c, w, a, k);
    case TakeFailure(k) => ChannelStepKeepsInv(c, w, a, k);
    case TakeGraceful(k) => ChannelStepKeepsInv(c, w, a, k);
    case Consume(k) => ChannelStepKeepsInv(c, w, a, k);
    case Claim => ClaimKeepsInv(c, w);
    case Advance(d) => AdvanceKeepsInv(c, w, d);
  }

  lemma {:induction false} RunKeepsInv(c: Config, w: World, run: seq<Action>, end: World)
    requires Inv(c, w) && Reaches(c, w, run, end)
    ensures Inv(c, end)
    decreases |run|
  {
    hide Inv, Step;
    if run != [] {
      StepKeepsInv(c, w, run[0]);
      RunKeepsInv(c, Step(c, w, run[0]), run[1..], end);
    }
  }

  // ---------------------------------------------------------------------------
  // Main results, for every disciplined run
  // ---------------------------------------------------------------------------

  /**
    The serve channel protocol: a serve is claimed at most once and its graceful channel
    closed at most once; its error channel gets at most one value, always into an empty
    buffer; a graceful value comes only after the close; a failure is the one the server
    reported, and one found by the peek is the value delivered.
  */
  lemma ServeChannelProtocol(c: Config, run: seq<Action>, w: World, k: nat)
    requires Reaches(c, Init(), run, w) && k < |w.serves|
    ensures var s := w.serves[k];
      && !w.panicked
      && |s.claims| <= 1 && s.graceful <= 1
      && |s.delivered| <= 1 && |s.errCh| <= 1
      && (s.forwarder != Finished ==> s.errCh == [])
      && (Graceful in s.delivered ==> s.graceful == 1)
      && (s.peeked != None ==> s.delivered == [Failure(s.peeked.value)])
      && (forall e :: Failure(e) in s.delivered ==> s.reported == Some(e))
      && s.errCh <= s.delivered
  {
    hide StartScript, UpToPc, FullScript, AbortScript;
    RunKeepsInv(c, Init(), run, w);
    assert ServeInv(c, w, k) && ForwarderInv(w.serves[k]);
  }

  /** No two Shutdown calls ever drain the same serve. */
  lemma OneDrainPerServe(c: Config, run: seq<Action>, w: World, d: nat, e: nat)
    requires Reaches(c, Init(), run, w) && d < e < |w.drains|
    ensures w.drains[d].serve != w.drains[e].serve
  {
    hide ServeInv, ForwarderInv;
    RunKeepsInv(c, Init(), run, w);
  }

  lemma ScriptPrefix(c: Config, pc: Pc)
    requires PcFits(c, pc)
    ensures UpToPc(c, pc) <= UpToPc(c, Done)
  {
    match pc
    case AtDrainHook(i) =>
      assert DrainScript(i) <= DrainScript(c.drains);
      assert [Flip] + DrainScript(i) <= [Flip] + DrainScript(c.drains);
    case AtShutdownHook(i) => assert ShutdownScript(i) <= ShutdownScript(c.shuts);
    case _ =>
  }

  lemma PrefixUnder<T>(a: seq<T>, b: seq<T>, c: seq<T>)
    requires b <= c
    ensures a + b <= a + c
  {
  }

  /**
    What the world sees of each serve is a prefix of one fixed script: the start hooks in
    order, the launch, readiness down, the drain hooks in order while readiness is down and
    the listener open, the close, the signal, the shutdown hooks in order with the listener
    closed. A failed start shows its start hooks and the close and nothing else, ever.
  */
  lemma EachServeFollowsTheScript(c: Config, run: seq<Action>, w: World, k: nat)
    requires Reaches(c, Init(), run, w) && k < |w.serves|
    ensures var s := w.serves[k];
      if s.stage == Aborted then s.trace == AbortScript(c)
      else
        && s.trace <= FullScript(c)
        && (forall d :: 0 <= d < |w.drains| && w.drains[d] == Drain(k, Done) ==> s.trace == FullScript(c))
        && ((forall d :: 0 <= d < |w.drains| ==> w.drains[d].serve != k) ==> s.trace <= StartScript(c.starts) + [Launch])
  {
    hide UpToPc;
    RunKeepsInv(c, Init(), run, w);
    assert ServeInv(c, w, k);
    var s := w.serves[k];
    match s.stage
    case Starting(next, _) => assert StartScript(next) <= StartScript(c.starts);
    case Aborted =>
    case Launched =>
      if s.claims != [] {
        var pc := w.drains[s.claims[0]].pc;
        ScriptPrefix(c, pc);
        PrefixUnder(StartScript(c.starts) + [Launch], UpToPc(c, pc), UpToPc(c, Done));
      }
  }

  ghost predicate ReadyInv(w: World) {
    !w.ready ==> exists d :: 0 <= d < |w.drains| && w.drains[d].pc != AtFlip
  }

  lemma StepKeepsReadyInv(c: Config, w: World, a: Action)
    requires Enabled(c, w, a) && ReadyInv(w)
    ensures ReadyInv(Step(c, w, a))
  {
    var w' := Step(c, w, a);
    if !w.ready {
      var d :| 0 <= d < |w.drains| && w.drains[d].pc != AtFlip;
      assert w'.drains[d].pc != AtFlip;
    } else if a.Advance? && !w'.ready {
      assert w'.drains[a.d].pc != AtFlip;
    }
  }

  lemma {:induction false} RunKeepsReadyInv(c: Config, w: World, run: seq<Action>, end: World)
    requires ReadyInv(w) && Reaches(c, w, run, end)
    ensures ReadyInv(end)
    decreases |run|
  {
    hide ReadyInv, Step;
    if run != [] {
      StepKeepsReadyInv(c, w, run[0]);
      RunKeepsReadyInv(c, Step(c, w, run[0]), run[1..], end);
    }
  }

  lemma FlipMarksDrain(c: Config, n: nat, pc: Pc)
    ensures Flip in StartScript(n) + [Launch] + UpToPc(c, pc) <==> pc != AtFlip
  {
    if pc != AtFlip {
      assert UpToPc(c, pc)[0] == Flip;
    }
  }

  /** Over all restarts: the service counts as ready exactly until its first drain begins. */
  lemma ReadyUntilFirstDrain(c: Config, run: seq<Action>, w: World)
    requires Reaches(c, Init(), run, w)
    ensures w.ready <==> forall k :: 0 <= k < |w.serves| ==> Flip !in w.serves[k].trace
  {
    hide UpToPc, ForwarderInv;
    RunKeepsInv(c, Init(), run, w);
    RunKeepsReadyInv(c, Init(), run, w);
    if w.ready {
      forall k | 0 <= k < |w.serves|
        ensures Flip !in w.serves[k].trace
      {
        assert ServeInv(c, w, k);
        if w.serves[k].stage == Launched && w.serves[k].claims != [] {
          FlipMarksDrain(c, c.starts, w.drains[w.serves[k].claims[0]].pc);
        }
      }
    } else {
      var d :| 0 <= d < |w.drains| && w.drains[d].pc != AtFlip;
      assert ServeInv(c, w, w.drains[d].serve);
      FlipMarksDrain(c, c.starts, w.drains[d].pc);
    }
  }

  /** After the graceful signal the forwarder of that serve can always deliver its value. */
  lemma SignalResolvesForwarder(c: Config, run: seq<Action>, w: World, k: nat)
    requires Reaches(c, Init(), run, w) && k < |w.serves|
    requires w.serves[k].graceful > 0 && w.serves[k].delivered == []
    ensures Enabled(c, w, Peek(k)) || Enabled(c, w, TakeGraceful(k))
  {
    hide StartScript, UpToPc, FullScript, AbortScript;
    RunKeepsInv(c, Init(), run, w);
    assert ServeInv(c, w, k) && ForwarderInv(w.serves[k]);
  }

  /** A failure that is there at the peek is what the caller of Start gets, whatever else is ready. */
  lemma PeekedFailureWins(c: Config, run: seq<Action>, w: World, k: nat)
    requires Reaches(c, Init(), run, w) && Enabled(c, w, Peek(k))
    ensures var s, s' := w.serves[k], Step(c, w, Peek(k)).serves[k];
      if s.reported != None then s'.delivered == s'.errCh == [Failure(s.reported.value)] && s'.forwarder == Finished
      else s'.delivered == [] && s'.forwarder == Waiting
  {
    hide StartScript, UpToPc, FullScript, AbortScript;
    RunKeepsInv(c, Init(), run, w);
    assert ServeInv(c, w, k) && ForwarderInv(w.serves[k]);
  }
}
