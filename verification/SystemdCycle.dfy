/**
  The sd_notify hooks mounted on the service lifecycle: any run of module Lifecycle, with
  the hooks at fixed places, any sends failing, and one watchdog goroutine for each READY.
*/
module SystemdCycle {
  import opened Options
  import opened Lifecycle
  import opened Systemd

  // Where Install put the hooks; whether there is a socket and the manager asked for a watchdog.
  datatype Mount = Mount(start: nat, drain: nat, shut: nat, socket: bool, watchdog: bool)

  // One serve's log: what the lifecycle showed and what went out on the socket.
  datatype Mark = Shown(e: Event) | Sent(msg: Message)

  datatype Sd = Sd(
    w: World,
    logs: seq<seq<Mark>>,
    alive: set<nat>,  // the serves whose watchdog goroutine runs
    stop: bool)       // the stop channel is closed

  // A lifecycle step, a tick of serve k's watchdog, or that watchdog seeing the stop channel.
  datatype SdAction = Life(a: Action, delivered: bool) | Ping(k: nat, delivered: bool) | Exit(k: nat)

  function Begin(): Sd {
    Sd(Init(), [], {}, false)
  }

  /** The serve whose trace a step may lengthen. */
  function Touched(w: World, a: Action): Option<nat> {
    match a
    case RunStartHook(_) => w.starting
    case EndStart => w.starting
    case Advance(d) => if d < |w.drains| then Some(w.drains[d].serve) else None
    case _ => None
  }

  function MessageOf(m: Mount, e: Event): Option<Message> {
    match e
    case StartHook(i, _) => if i == m.start then Some(Ready) else None
    case DrainHook(i, _, _) => if i == m.drain then Some(Stopping) else None
    case _ => None
  }

  predicate IsStop(m: Mount, e: Event) {
    e.ShutdownHook? && e.i == m.shut
  }

  /** A hook whose send fails fails; the start hooks' failures fail the start. */
  ghost predicate SdEnabled(c: Config, m: Mount, s: Sd, x: SdAction) {
    match x
    case Life(a, delivered) =>
      && Enabled(c, s.w, a) && Disciplined(s.w, a)
      && (a.RunStartHook? && s.w.serves[s.w.starting.value].stage.next == m.start ==> a.ok == (m.socket ==> delivered))
    case Ping(k, _) => k in s.alive
    case Exit(k) => k in s.alive && s.stop
  }

  function Marks(m: Mount, e: Event, delivered: bool): seq<Mark> {
    [Shown(e)] + if MessageOf(m, e) != None && m.socket && delivered then [Sent(MessageOf(m, e).value)] else []
  }

  function SdStep(c: Config, m: Mount, s: Sd, x: SdAction): Sd
    requires SdEnabled(c, m, s, x)
  {
    match x
    case Exit(k) => s.(alive := s.alive - {k})
    case Ping(k, delivered) =>
      if delivered && k < |s.logs| then s.(logs := s.logs[k := s.logs[k] + [Sent(Watchdog)]]) else s
    case Life(a, delivered) =>
      var w' := Step(c, s.w, a);
      var s1 := s.(w := w', logs := if a == BeginStart then s.logs + [[]] else s.logs);
      var t := Touched(s.w, a);
      if t == None || t.value >= |s.w.serves| || t.value >= |w'.serves| || t.value >= |s.logs|
         || |w'.serves[t.value].trace| <= |s.w.serves[t.value].trace| then s1
      else
        var k := t.value;
        var e := w'.serves[k].trace[|s.w.serves[k].trace|];
        s1.(logs := s1.logs[k := s1.logs[k] + Marks(m, e, delivered)],
            alive := if MessageOf(m, e) == Some(Ready) && m.socket && delivered && m.watchdog then s.alive + {k} else s.alive,
            stop := s.stop || IsStop(m, e))
  }

  // ---------------------------------------------------------------------------
  // What Install mounts
  // ---------------------------------------------------------------------------

  /** What a hook sends. */
  function Says(h: Hook): Option<Message> {
    match h
    case NotifyReady => Some(Ready)
    case NotifyStopping => Some(Stopping)
    case _ => None
  }

  predicate ConsumersOnly(hooks: seq<Hook>) {
    forall i :: 0 <= i < |hooks| ==> hooks[i].Consumer?
  }

  /** The mount behind the consumer's own hooks. */
  function MountBehind(l: HookLists, socket: bool, watchdog: bool): Mount {
    Mount(|l.start|, |l.drain|, |l.shutdown|, socket, watchdog)
  }

  /**
    Running the lists that Install leaves behind sends and stops exactly what the mount behind
    the consumer's own hooks says, hook by hook.
  */
  lemma InstalledIsMounted(l: HookLists, socket: bool, watchdog: bool)
    requires ConsumersOnly(l.start) && ConsumersOnly(l.drain) && ConsumersOnly(l.shutdown)
    ensures var m, after := MountBehind(l, socket, watchdog), Installed(l);
      && Mounted(Config(|after.start|, |after.drain|, |after.shutdown|), m)
      && (forall i, open :: 0 <= i < |after.start| ==> MessageOf(m, StartHook(i, open)) == Says(after.start[i]))
      && (forall i, ready, open :: 0 <= i < |after.drain| ==>
            MessageOf(m, DrainHook(i, ready, open)) == Says(after.drain[i]))
      && (forall i, ready, open :: 0 <= i < |after.shutdown| ==>
            MessageOf(m, ShutdownHook(i, ready, open)) == Says(after.shutdown[i])
            && (IsStop(m, ShutdownHook(i, ready, open)) <==> after.shutdown[i] == StopWatchdog))
  {
  }

  ghost predicate SdReaches(c: Config, m: Mount, s: Sd, run: seq<SdAction>, end: Sd)
    decreases |run|
  {
    if run == [] then s == end
    else SdEnabled(c, m, s, run[0]) && SdReaches(c, m, SdStep(c, m, s, run[0]), run[1..], end)
  }

  // ---------------------------------------------------------------------------
  // The order of one serve's log
  // ---------------------------------------------------------------------------

  /** What one serve's log never breaks, each clause about the order of two marks. */
  ghost predicate InOrder(log: seq<Mark>) {
    && (forall i :: 0 <= i < |log| && log[i].Sent? && log[i].msg != Ready ==>
          exists j :: 0 <= j < i && log[j] == Sent(Ready))
    && (forall i, j :: 0 <= i < j < |log| && log[i] == log[j] && log[i].Sent? ==> log[i].msg == Watchdog)
    && (forall i, j :: 0 <= i < j < |log| && log[j] == Sent(Ready) ==> log[i] != Shown(Launch) && log[i] != Shown(Close))
    && (forall i, j :: 0 <= i < j < |log| && log[j] == Sent(Stopping) ==> log[i] != Shown(Close) && log[i] != Shown(Signal))
  }

  /** The lifecycle's part of a log. */
  function EventsOf(log: seq<Mark>): seq<Event> {
    if log == [] then []
    else
      var n := |log| - 1;
      EventsOf(log[..n]) + if log[n].Shown? then [log[n].e] else []
  }

  lemma EventsOfMarks(m: Mount, log: seq<Mark>, e: Event, delivered: bool)
    ensures EventsOf(log + Marks(m, e, delivered)) == EventsOf(log) + [e]
  {
    var shown := log + [Shown(e)];
    assert shown[..|log|] == log;
    if Marks(m, e, delivered) == [Shown(e)] {
    } else {
      var all := shown + [Sent(MessageOf(m, e).value)];
      assert all[..|shown|] == shown;
      assert log + Marks(m, e, delivered) == all;
    }
  }

  /** How the log and the trace of a serve go together. */
  ghost predicate LogFits(m: Mount, s: Serve, log: seq<Mark>, alive: bool) {
    && InOrder(log)
    && EventsOf(log) == s.trace
    && (Shown(Launch) in log ==> Launch in s.trace)
    && (Shown(Close) in log ==> Close in s.trace)
    && (Shown(Signal) in log ==> Signal in s.trace)
    && (Sent(Ready) in log ==> StartHook(m.start, true) in s.trace)
    && (Sent(Stopping) in log ==> DrainHook(m.drain, false, true) in s.trace)
    && (alive ==> Sent(Ready) in log)
    && (m.socket && s.stage.Starting? && !s.stage.failed && s.stage.next > m.start ==> Sent(Ready) in log)
    && (m.socket && s.stage == Launched ==> Sent(Ready) in log)
  }

  ghost predicate SdInv(c: Config, m: Mount, s: Sd) {
    && Inv(c, s.w)
    && |s.logs| == |s.w.serves|
    && (forall k :: k in s.alive ==> k < |s.logs|)
    && (forall k :: 0 <= k < |s.logs| ==> LogFits(m, s.w.serves[k], s.logs[k], k in s.alive))
  }

  // ---------------------------------------------------------------------------
  // What a step adds to a log
  // ---------------------------------------------------------------------------

  lemma ShownKeepsOrder(log: seq<Mark>, e: Event)
    requires InOrder(log)
    ensures InOrder(log + [Shown(e)])
  {
    var next := log + [Shown(e)];
    forall i | 0 <= i < |next| && next[i].Sent? && next[i].msg != Ready
      ensures exists j :: 0 <= j < i && next[j] == Sent(Ready)
    {
      var j :| 0 <= j < i && log[j] == Sent(Ready);
      assert next[j] == Sent(Ready);
    }
  }

  lemma SentKeepsOrder(log: seq<Mark>, msg: Message)
    requires InOrder(log)
    requires msg != Ready ==> Sent(Ready) in log
    requires msg != Watchdog ==> Sent(msg) !in log
    requires msg == Ready ==> Shown(Launch) !in log && Shown(Close) !in log
    requires msg == Stopping ==> Shown(Close) !in log && Shown(Signal) !in log
    ensures InOrder(log + [Sent(msg)])
  {
    var next := log + [Sent(msg)];
    forall i | 0 <= i < |next| && next[i].Sent? && next[i].msg != Ready
      ensures exists j :: 0 <= j < i && next[j] == Sent(Ready)
    {
      var j :| 0 <= j < i && j < |log| && log[j] == Sent(Ready);
      assert next[j] == Sent(Ready);
    }
    assert forall i :: 0 <= i < |log| ==> next[i] == log[i] && log[i] in log;
  }

  /** Only the stage and the trace of a serve matter to its log. */
  lemma SameStageFits(m: Mount, s: Serve, s': Serve, log: seq<Mark>, alive: bool)
    requires LogFits(m, s, log, alive) && s'.stage == s.stage && s'.trace == s.trace
    ensures LogFits(m, s', log, alive)
  {
    hide InOrder;
  }

  lemma StartHookFits(m: Mount, s: Serve, s': Serve, log: seq<Mark>, alive: bool, ok: bool, delivered: bool)
    requires LogFits(m, s, log, alive)
    requires s.stage.Starting? && s.trace == StartScript(s.stage.next)
    requires s'.stage == Starting(s.stage.next + 1, s.stage.failed || !ok)
    requires s'.trace == s.trace + [StartHook(s.stage.next, true)]
    requires s.stage.next == m.start ==> ok == (m.socket ==> delivered)
    ensures var e := StartHook(s.stage.next, true);
            var sent := MessageOf(m, e) == Some(Ready) && m.socket && delivered;
            LogFits(m, s', log + Marks(m, e, delivered), alive || (sent && m.watchdog))
  {
    hide InOrder, EventsOf;
    var e := StartHook(s.stage.next, true);
    var shown := log + [Shown(e)];
    EventsOfMarks(m, log, e, delivered);
    ShownKeepsOrder(log, e);
    if s.stage.next == m.start && m.socket && delivered {
      SentKeepsOrder(shown, Ready);
      assert log + Marks(m, e, delivered) == shown + [Sent(Ready)];
      assert Sent(Ready) in shown + [Sent(Ready)];
    } else {
      assert log + Marks(m, e, delivered) == shown;
    }
  }

  lemma DrainHookFits(c: Config, m: Mount, s: Serve, s': Serve, log: seq<Mark>, alive: bool, i: nat, delivered: bool)
    requires LogFits(m, s, log, alive)
    requires s.stage == Launched == s'.stage
    requires s.trace == StartScript(c.starts) + [Launch] + UpToPc(c, AtDrainHook(i))
    requires s'.trace == s.trace + [DrainHook(i, false, true)]
    ensures LogFits(m, s', log + Marks(m, DrainHook(i, false, true), delivered), alive)
  {
    hide InOrder, EventsOf;
    var e := DrainHook(i, false, true);
    var shown := log + [Shown(e)];
    EventsOfMarks(m, log, e, delivered);
    ShownKeepsOrder(log, e);
    assert Close !in s.trace && Signal !in s.trace && DrainHook(i, false, true) !in s.trace;
    if i == m.drain && m.socket && delivered {
      SentKeepsOrder(shown, Stopping);
      assert log + Marks(m, e, delivered) == shown + [Sent(Stopping)];
      assert forall x :: x in log ==> x in shown + [Sent(Stopping)];
    } else {
      assert log + Marks(m, e, delivered) == shown;
    }
  }

  lemma OtherFits(m: Mount, s: Serve, s': Serve, log: seq<Mark>, alive: bool, e: Event, delivered: bool)
    requires LogFits(m, s, log, alive)
    requires !e.StartHook? && !e.DrainHook?
    requires s'.trace == s.trace + [e]
    requires s'.stage == s.stage || s'.stage == Aborted
             || (s'.stage == Launched && s.stage.Starting? && !s.stage.failed && s.stage.next > m.start)
    ensures LogFits(m, s', log + Marks(m, e, delivered), alive)
  {
    hide InOrder, EventsOf;
    EventsOfMarks(m, log, e, delivered);
    ShownKeepsOrder(log, e);
    assert log + Marks(m, e, delivered) == log + [Shown(e)];
  }

  // ---------------------------------------------------------------------------
  // What every step keeps
  // ---------------------------------------------------------------------------

  /** The mount's hooks are among the configured ones. */
  predicate Mounted(c: Config, m: Mount) {
    m.start < c.starts && m.drain < c.drains && m.shut < c.shuts
  }

  lemma TouchedStart(c: Config, m: Mount, s: Sd, ok: bool, delivered: bool)
    requires SdInv(c, m, s) && SdEnabled(c, m, s, Life(RunStartHook(ok), delivered))
    ensures var k, s' := s.w.starting.value, SdStep(c, m, s, Life(RunStartHook(ok), delivered));
            LogFits(m, s'.w.serves[k], s'.logs[k], k in s'.alive)
  {
    hide LogFits, StartScript;
    var k := s.w.starting.value;
    assert ServeInv(c, s.w, k);
    var a := RunStartHook(ok);
    var sv, sv' := s.w.serves[k], Step(c, s.w, a).serves[k];
    StartHookFits(m, sv, sv', s.logs[k], k in s.alive, ok, delivered);
  }

  lemma TouchedEnd(c: Config, m: Mount, s: Sd, delivered: bool)
    requires SdInv(c, m, s) && SdEnabled(c, m, s, Life(EndStart, delivered)) && Mounted(c, m)
    ensures var k, s' := s.w.starting.value, SdStep(c, m, s, Life(EndStart, delivered));
            LogFits(m, s'.w.serves[k], s'.logs[k], k in s'.alive)
  {
    hide LogFits, StartScript;
    var k := s.w.starting.value;
    assert ServeInv(c, s.w, k);
    var sv, sv' := s.w.serves[k], Step(c, s.w, EndStart).serves[k];
    OtherFits(m, sv, sv', s.logs[k], k in s.alive, if sv.stage.failed then Close else Launch, delivered);
  }

  lemma TouchedDrain(c: Config, m: Mount, s: Sd, d: nat, delivered: bool)
    requires SdInv(c, m, s) && SdEnabled(c, m, s, Life(Advance(d), delivered))
    ensures var k, s' := s.w.drains[d].serve, SdStep(c, m, s, Life(Advance(d), delivered));
            LogFits(m, s'.w.serves[k], s'.logs[k], k in s'.alive)
  {
    hide LogFits, StartScript, UpToPc;
    var k := s.w.drains[d].serve;
    assert ServeInv(c, s.w, k);
    var sv := s.w.serves[k];
    assert sv.claims == [d];
    var sv' := Step(c, s.w, Advance(d)).serves[k];
    match s.w.drains[d].pc
    case AtFlip => OtherFits(m, sv, sv', s.logs[k], k in s.alive, Flip, delivered);
    case AtDrainHook(i) =>
      if i < c.drains {
        DrainHookFits(c, m, sv, sv', s.logs[k], k in s.alive, i, delivered);
      } else {
        SameStageFits(m, sv, sv', s.logs[k], k in s.alive);
      }
    case AtClose => OtherFits(m, sv, sv', s.logs[k], k in s.alive, Close, delivered);
    case AtSignal => OtherFits(m, sv, sv', s.logs[k], k in s.alive, Signal, delivered);
    case AtShutdownHook(i) =>
      if i < c.shuts {
        OtherFits(m, sv, sv', s.logs[k], k in s.alive, ShutdownHook(i, s.w.ready, sv.open), delivered);
      } else {
        SameStageFits(m, sv, sv', s.logs[k], k in s.alive);
      }
  }

  /** A lifecycle step leaves the stage and the trace of the other serves alone. */
  lemma OthersStay(c: Config, w: World, a: Action, k: nat)
    requires Inv(c, w) && Enabled(c, w, a) && k < |w.serves| && Touched(w, a) != Some(k)
    ensures var w' := Step(c, w, a);
      |w'.serves| >= |w.serves| && w'.serves[k].stage == w.serves[k].stage && w'.serves[k].trace == w.serves[k].trace
  {
    hide ServeInv, ForwarderInv;
  }

  lemma StepShape(c: Config, m: Mount, s: Sd, a: Action, delivered: bool)
    requires SdInv(c, m, s) && SdEnabled(c, m, s, Life(a, delivered))
    ensures var s' := SdStep(c, m, s, Life(a, delivered));
      && s'.w == Step(c, s.w, a)
      && |s'.logs| == |s'.w.serves|
      && |s'.logs| == |s.logs| + (if a == BeginStart then 1 else 0)
      && (a == BeginStart ==> s'.logs[|s.logs|] == [] && s'.w.serves[|s.logs|] == NewServe(|s.logs|))
      && (forall k :: 0 <= k < |s.logs| && Touched(s.w, a) != Some(k) ==>
            s'.logs[k] == s.logs[k] && (k in s'.alive <==> k in s.alive))
      && (forall k :: k in s'.alive ==> k in s.alive || Touched(s.w, a) == Some(k))
      && (s.stop ==> s'.stop)
  {
    hide ServeInv, ForwarderInv, LogFits, Marks;
  }

  lemma TouchedFits(c: Config, m: Mount, s: Sd, a: Action, delivered: bool, k: nat)
    requires SdInv(c, m, s) && SdEnabled(c, m, s, Life(a, delivered)) && Mounted(c, m)
    requires Touched(s.w, a) == Some(k)
    ensures var s' := SdStep(c, m, s, Life(a, delivered));
      k < |s.logs| && k < |s'.logs| && k < |s'.w.serves| && LogFits(m, s'.w.serves[k], s'.logs[k], k in s'.alive)
  {
    hide LogFits, ServeInv, ForwarderInv, Marks;
    StepShape(c, m, s, a, delivered);
    match a
    case RunStartHook(ok) => TouchedStart(c, m, s, ok, delivered);
    case EndStart => TouchedEnd(c, m, s, delivered);
    case Advance(d) => TouchedDrain(c, m, s, d, delivered);
  }

  lemma LifeKeepsSdInv(c: Config, m: Mount, s: Sd, a: Action, delivered: bool)
    requires SdInv(c, m, s) && SdEnabled(c, m, s, Life(a, delivered)) && Mounted(c, m)
    ensures SdInv(c, m, SdStep(c, m, s, Life(a, delivered)))
  {
    hide LogFits, ServeInv, ForwarderInv, SdStep, Step, Inv;
    var s' := SdStep(c, m, s, Life(a, delivered));
    StepKeepsInv(c, s.w, a);
    StepShape(c, m, s, a, delivered);
    forall k | 0 <= k < |s'.logs|
      ensures LogFits(m, s'.w.serves[k], s'.logs[k], k in s'.alive)
    {
      if Touched(s.w, a) == Some(k) {
        TouchedFits(c, m, s, a, delivered, k);
      } else if k < |s.logs| {
        OthersStay(c, s.w, a, k);
        SameStageFits(m, s.w.serves[k], s'.w.serves[k], s.logs[k], k in s.alive);
      } else {
        NewServeFits(m, k);
      }
    }
    if Touched(s.w, a) != None && Touched(s.w, a).value in s'.alive {
      TouchedFits(c, m, s, a, delivered, Touched(s.w, a).value);
    }
  }

  lemma NewServeFits(m: Mount, k: nat)
    ensures LogFits(m, NewServe(k), [], false)
  {
  }

  lemma PingFits(m: Mount, s: Serve, log: seq<Mark>)
    requires LogFits(m, s, log, true)
    ensures LogFits(m, s, log + [Sent(Watchdog)], true)
  {
    hide InOrder;
    SentKeepsOrder(log, Watchdog);
    assert (log + [Sent(Watchdog)])[..|log|] == log;
    assert forall x :: x in log ==> x in log + [Sent(Watchdog)];
  }

  lemma WatchdogKeepsSdInv(c: Config, m: Mount, s: Sd, x: SdAction)
    requires SdInv(c, m, s) && SdEnabled(c, m, s, x) && !x.Life?
    ensures SdInv(c, m, SdStep(c, m, s, x))
  {
    hide LogFits, Inv;
    var s' := SdStep(c, m, s, x);
    forall k | 0 <= k < |s'.logs|
      ensures LogFits(m, s'.w.serves[k], s'.logs[k], k in s'.alive)
    {
      if x.Ping? && x.k == k {
        PingFits(m, s.w.serves[k], s.logs[k]);
      } else if x.Exit? && x.k == k {
        ExitFits(m, s.w.serves[k], s.logs[k]);
      }
    }
  }

  lemma ExitFits(m: Mount, s: Serve, log: seq<Mark>)
    requires LogFits(m, s, log, true)
    ensures LogFits(m, s, log, false)
  {
    hide InOrder;
  }

  lemma {:induction false} RunKeepsSdInv(c: Config, m: Mount, s: Sd, run: seq<SdAction>, end: Sd)
    requires SdInv(c, m, s) && Mounted(c, m) && SdReaches(c, m, s, run, end)
    ensures SdInv(c, m, end) && (s.stop ==> end.stop)
    decreases |run|
  {
    hide SdInv, SdStep, SdEnabled;
    if run != [] {
      if run[0].Life? {
        LifeKeepsSdInv(c, m, s, run[0].a, run[0].delivered);
      } else {
        WatchdogKeepsSdInv(c, m, s, run[0]);
      }
      StopStays(c, m, s, run[0]);
      RunKeepsSdInv(c, m, SdStep(c, m, s, run[0]), run[1..], end);
    }
  }

  lemma StopStays(c: Config, m: Mount, s: Sd, x: SdAction)
    requires SdEnabled(c, m, s, x)
    ensures s.stop ==> SdStep(c, m, s, x).stop
  {
    hide Step, Enabled;
  }

  lemma BeginFits(c: Config, m: Mount)
    ensures SdInv(c, m, Begin())
  {
  }

  // ---------------------------------------------------------------------------
  // Every start/stop cycle
  // ---------------------------------------------------------------------------

  /**
    In every cycle of every run, whatever sends fail: nothing goes out before READY, READY and
    STOPPING go out at most once, READY precedes the launch and STOPPING the listener's close
    and the graceful signal. A cycle that launched under systemd has announced itself, and a
    watchdog runs only for such a cycle.
  */
  lemma EveryCycleIsOrdered(c: Config, m: Mount, run: seq<SdAction>, end: Sd, k: nat)
    requires Mounted(c, m) && SdReaches(c, m, Begin(), run, end) && k < |end.logs|
    ensures k < |end.w.serves| && EventsOf(end.logs[k]) == end.w.serves[k].trace
    ensures InOrder(end.logs[k])
    ensures m.socket && end.w.serves[k].stage == Launched ==> Sent(Ready) in end.logs[k]
    ensures k in end.alive ==> Sent(Ready) in end.logs[k]
  {
    hide InOrder, Inv;
    BeginFits(c, m);
    RunKeepsSdInv(c, m, Begin(), run, end);
  }

  /**
    What one event of the lifecycle does: it is logged, the start hook in its place sends READY
    and the drain hook in its place STOPPING when there is a socket and the send gets through,
    READY starts a watchdog when one is asked for, and the stop hook in its place closes stop.
  */
  lemma EventSends(c: Config, m: Mount, s: Sd, a: Action, delivered: bool, k: nat, e: Event)
    requires SdInv(c, m, s) && SdEnabled(c, m, s, Life(a, delivered)) && Touched(s.w, a) == Some(k) && k < |s.logs|
    requires k < |Step(c, s.w, a).serves| && Step(c, s.w, a).serves[k].trace == s.w.serves[k].trace + [e]
    ensures var s' := SdStep(c, m, s, Life(a, delivered));
      var ready := m.socket && delivered && e.StartHook? && e.i == m.start;
      var stopping := m.socket && delivered && e.DrainHook? && e.i == m.drain;
      && k < |s'.logs|
      && s'.logs[k] == s.logs[k] + [Shown(e)]
                       + (if ready then [Sent(Ready)] else if stopping then [Sent(Stopping)] else [])
      && (k in s'.alive <==> k in s.alive || (ready && m.watchdog))
      && (s'.stop <==> s.stop || (e.ShutdownHook? && e.i == m.shut))
  {
    hide ServeInv, ForwarderInv, LogFits, Step, Enabled;
    var before, after := s.w.serves[k].trace, Step(c, s.w, a).serves[k].trace;
    assert after[|before|] == e;
    assert s.logs[k] + ([Shown(e)] + [Sent(Ready)]) == s.logs[k] + [Shown(e)] + [Sent(Ready)];
    assert s.logs[k] + ([Shown(e)] + [Sent(Stopping)]) == s.logs[k] + [Shown(e)] + [Sent(Stopping)];
    assert s.logs[k] + ([Shown(e)] + []) == s.logs[k] + [Shown(e)] + [];
  }
}
