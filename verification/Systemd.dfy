/**
  The sd_notify hooks and the watchdog keepalive of systemd/hooks.go and
  systemd/notify.go, one caller at a time, and how far apart the keepalive's signals are.
*/
module Systemd {
  import opened Options

  datatype Message = Ready | Stopping | Watchdog

  // What the socket did with one state line; without a socket nothing is sent.
  datatype Send = NoSocket | Delivered | SendFailed

  datatype Attempt = Attempt(msg: Message, send: Send)

  function CountSent(log: seq<Attempt>, msg: Message): nat {
    if log == [] then 0
    else CountSent(log[..|log| - 1], msg) + if log[|log| - 1] == Attempt(msg, Delivered) then 1 else 0
  }

  function CountFailed(log: seq<Attempt>): nat {
    if log == [] then 0
    else CountFailed(log[..|log| - 1]) + if log[|log| - 1].send == SendFailed then 1 else 0
  }

  function SentAt(log: seq<Attempt>, msg: Message): set<nat> {
    set i: nat | i < |log| && log[i].msg == msg && log[i].send == Delivered
  }

  function FailedAt(log: seq<Attempt>): set<nat> {
    set i: nat | i < |log| && log[i].send == SendFailed
  }

  lemma {:induction false} SentExactly(log: seq<Attempt>, msg: Message)
    ensures CountSent(log, msg) == |SentAt(log, msg)|
  {
    if log != [] {
      var n := |log| - 1;
      var before := SentAt(log[..n], msg);
      SentExactly(log[..n], msg);
      var added := if log[n].msg == msg && log[n].send == Delivered then {n} else {};
      forall i: nat
        ensures i in SentAt(log, msg) <==> i in before + added
      {
        assert i < n ==> log[..n][i] == log[i];
      }
      assert SentAt(log, msg) == before + added;
    }
  }

  lemma {:induction false} FailedExactly(log: seq<Attempt>)
    ensures CountFailed(log) == |FailedAt(log)|
  {
    if log != [] {
      var n := |log| - 1;
      var before := FailedAt(log[..n]);
      FailedExactly(log[..n]);
      var added := if log[n].send == SendFailed then {n} else {};
      forall i: nat
        ensures i in FailedAt(log) <==> i in before + added
      {
        assert i < n ==> log[..n][i] == log[i];
      }
      assert FailedAt(log) == before + added;
    }
  }

  /** What counts: delivered messages of the kind, and failed sends of any kind; nothing without a socket. */
  lemma CountsExactly(log: seq<Attempt>, msg: Message)
    ensures CountSent(log, msg) == |SentAt(log, msg)|
    ensures CountFailed(log) == |FailedAt(log)|
  {
    SentExactly(log, msg);
    FailedExactly(log);
  }

  lemma NextCounts(log: seq<Attempt>, a: Attempt, msg: Message)
    ensures CountSent(log + [a], msg) == CountSent(log, msg) + if a == Attempt(msg, Delivered) then 1 else 0
    ensures CountFailed(log + [a]) == CountFailed(log) + if a.send == SendFailed then 1 else 0
  {
    assert (log + [a])[..|log|] == log;
  }

  // The process-wide counters; the log of all attempts is only there to say what they count.
  class Counters {
    var readySent: nat
    var stoppingSent: nat
    var watchdogPings: nat
    var notifyFailures: nat
    ghost var log: seq<Attempt>

    ghost predicate Valid()
      reads this
    {
      && readySent == CountSent(log, Ready)
      && stoppingSent == CountSent(log, Stopping)
      && watchdogPings == CountSent(log, Watchdog)
      && notifyFailures == CountFailed(log)
    }

    constructor ()
      ensures Valid() && log == []
    {
      readySent, stoppingSent, watchdogPings, notifyFailures := 0, 0, 0, 0;
      log := [];
    }

    /** One state line. Only successful sends count for their kind; failures count together. */
    method Notify(msg: Message, send: Send) returns (sent: bool, failed: bool)
      requires Valid()
      modifies this
      ensures Valid() && log == old(log) + [Attempt(msg, send)]
      ensures sent == (send == Delivered) && failed == (send == SendFailed)
    {
      hide CountSent, CountFailed;
      NextCounts(log, Attempt(msg, send), Ready);
      NextCounts(log, Attempt(msg, send), Stopping);
      NextCounts(log, Attempt(msg, send), Watchdog);
      log := log + [Attempt(msg, send)];
      if send == SendFailed {
        notifyFailures := notifyFailures + 1;
        return false, true;
      }
      if send == NoSocket {
        return false, false;
      }
      match msg {
        case Ready => readySent := readySent + 1;
        case Stopping => stoppingSent := stoppingSent + 1;
        case Watchdog => watchdogPings := watchdogPings + 1;
      }
      return true, false;
    }

    /** Pings on every tick until stop is seen; a failed ping is retried on the next tick. */
    method RunWatchdog(selects: seq<Select>) returns (handled: nat)
      requires Valid()
      modifies this
      ensures Valid()
      ensures handled <= |selects| && (handled < |selects| ==> selects[handled] == Stop)
      ensures forall i :: 0 <= i < handled ==> selects[i].Tick?
      ensures log == old(log) + Pings(selects, handled)
    {
      handled := 0;
      while handled < |selects|
        invariant Valid() && handled <= |selects|
        invariant forall i :: 0 <= i < handled ==> selects[i].Tick?
        invariant log == old(log) + Pings(selects, handled)
      {
        if selects[handled] == Stop {
          return;
        }
        var sent, failed := Notify(Watchdog, selects[handled].send);
        handled := handled + 1;
        if failed {
          continue;
        }
      }
    }
  }

  // What the watchdog's select finds ready.
  datatype Select = Stop | Tick(time: int, send: Send)

  function Pings(selects: seq<Select>, n: nat): (log: seq<Attempt>)
    requires n <= |selects| && forall i :: 0 <= i < n ==> selects[i].Tick?
    ensures |log| == n && forall i :: 0 <= i < n ==> log[i].msg == Watchdog && log[i].send == selects[i].send
  {
    seq(n, i requires 0 <= i < n => Attempt(Watchdog, selects[i].send))
  }

  // ---------------------------------------------------------------------------
  // The hooks
  // ---------------------------------------------------------------------------

  datatype Hook = Consumer(name: string) | NotifyReady | NotifyStopping | StopWatchdog

  datatype HookLists = HookLists(start: seq<Hook>, drain: seq<Hook>, shutdown: seq<Hook>)

  /** Appended, never replaced: the consumer's hooks keep their places. */
  function Installed(l: HookLists): HookLists {
    HookLists(l.start + [NotifyReady], l.drain + [NotifyStopping], l.shutdown + [StopWatchdog])
  }

  class ServiceConfig {
    var startHooks: seq<Hook>
    var drainHooks: seq<Hook>
    var shutdownHooks: seq<Hook>

    constructor (l: HookLists)
      ensures Lists() == l
    {
      startHooks, drainHooks, shutdownHooks := l.start, l.drain, l.shutdown;
    }

    function Lists(): HookLists
      reads this
    {
      HookLists(startHooks, drainHooks, shutdownHooks)
    }

    method Install()
      modifies this
      ensures Lists() == Installed(old(Lists()))
    {
      startHooks := startHooks + [NotifyReady];
      drainHooks := drainHooks + [NotifyStopping];
      shutdownHooks := shutdownHooks + [StopWatchdog];
    }
  }

  // What the environment says about the watchdog: an error, or the interval, zero for none.
  datatype Interval = Unreadable | Every(ns: int)

  class Hooks {
    const counters: Counters
    var stopped: bool
    var closes: nat

    ghost predicate Valid()
      reads this, counters
    {
      counters.Valid() && closes == (if stopped then 1 else 0)
    }

    constructor (c: Counters)
      requires c.Valid()
      ensures Valid() && counters == c && !stopped
    {
      counters, stopped, closes := c, false, 0;
    }

    /**
      Only a failed send fails the start. The keepalive starts exactly when READY went out and
      a watchdog is asked for, with half its interval.
    */
    method Start(send: Send, interval: Interval) returns (ok: bool, pingEvery: Option<int>)
      requires Valid()
      modifies counters
      ensures Valid() && counters.log == old(counters.log) + [Attempt(Ready, send)]
      ensures ok == (send != SendFailed)
      ensures pingEvery == if send == Delivered && interval.Every? && interval.ns > 0 then Some(interval.ns / 2) else None
    {
      var sent, failed := counters.Notify(Ready, send);
      if failed {
        return false, None;
      }
      if !sent || interval == Unreadable || interval.ns <= 0 {
        return true, None;
      }
      return true, Some(interval.ns / 2);
    }

    method Drain(send: Send) returns (ok: bool)
      requires Valid()
      modifies counters
      ensures Valid() && counters.log == old(counters.log) + [Attempt(Stopping, send)]
      ensures ok == (send != SendFailed)
    {
      var sent, failed := counters.Notify(Stopping, send);
      return !failed;
    }

    /** Closes the stop channel, once however often it runs. */
    method Shutdown()
      requires Valid()
      modifies this
      ensures Valid() && stopped && closes == 1
    {
      if !stopped {
        stopped, closes := true, closes + 1;
      }
    }
  }

  // ---------------------------------------------------------------------------
  // How far apart the signals are
  // ---------------------------------------------------------------------------

  /**
    Ticks come with the period from READY on, at most `late` after they are due. Tick i of the
    sequence is the (i + 1)-th tick of the ticker.
  */
  predicate OnSchedule(ready: int, period: nat, late: nat, ticks: seq<Select>) {
    forall i :: 0 <= i < |ticks| ==>
      ticks[i].Tick? && ready + (i + 1) * period <= ticks[i].time <= ready + (i + 1) * period + late
  }

  /** When the last signal went out: READY itself or the last ping that got through. */
  function LastSignal(ready: int, ticks: seq<Select>): int {
    if ticks == [] then ready
    else
      var t := ticks[|ticks| - 1];
      if t.Tick? && t.send == Delivered then t.time else LastSignal(ready, ticks[..|ticks| - 1])
  }

  /** How many pings in a row were lost just now. */
  function Losses(ticks: seq<Select>): nat {
    if ticks == [] then 0
    else
      var t := ticks[|ticks| - 1];
      if t.Tick? && t.send == Delivered then 0 else 1 + Losses(ticks[..|ticks| - 1])
  }

  /** How old the last signal is. */
  function Age(ready: int, ticks: seq<Select>, now: int): int {
    now - LastSignal(ready, ticks)
  }

  lemma {:induction false} LastSignalTime(ready: int, period: nat, late: nat, ticks: seq<Select>)
    requires OnSchedule(ready, period, late, ticks)
    ensures Losses(ticks) <= |ticks|
    ensures var due := ready + (|ticks| - Losses(ticks)) * period; due <= LastSignal(ready, ticks) <= due + late
  {
    if ticks != [] {
      LastSignalTime(ready, period, late, ticks[..|ticks| - 1]);
    }
  }

  /**
    At every moment from READY until the watchdog is stopped, the last signal is at most
    (m + 1) periods and the lateness old, if never more than m pings in a row are lost. The
    moment is one at which the next tick is not overdue.
  */
  lemma SignalIsRecent(ready: int, period: nat, late: nat, ticks: seq<Select>, m: nat, now: int)
    requires OnSchedule(ready, period, late, ticks) && Losses(ticks) <= m
    requires now <= ready + (|ticks| + 1) * period + late
    ensures Age(ready, ticks, now) <= (m + 1) * period + late
  {
    LastSignalTime(ready, period, late, ticks);
    var sent := |ticks| - Losses(ticks);
    assert (|ticks| + 1) * period - sent * period == (Losses(ticks) + 1) * period;
    Scale(Losses(ticks) + 1, m + 1, period);
  }

  lemma Scale(a: nat, b: nat, period: nat)
    requires a <= b
    ensures a * period <= b * period
  {
  }

  /** The manager's deadline holds up to the moment at which the next tick is due. */
  ghost predicate DeadlineHolds(ready: int, interval: nat, ticks: seq<Select>) {
    forall now :: now <= ready + (|ticks| + 1) * (interval / 2) ==> Age(ready, ticks, now) <= interval
  }

  lemma DeadlineHoldsExactly(ready: int, interval: nat, ticks: seq<Select>)
    requires interval == 2 || interval >= 4
    requires OnSchedule(ready, interval / 2, 0, ticks)
    ensures DeadlineHolds(ready, interval, ticks) <==> Losses(ticks) <= 1
  {
    var period, lost := interval / 2, Losses(ticks);
    LastSignalTime(ready, period, 0, ticks);
    var now := ready + (|ticks| + 1) * period;
    assert (|ticks| + 1) * period - (|ticks| - lost) * period == (lost + 1) * period;
    assert Age(ready, ticks, now) == (lost + 1) * period;
    if lost <= 1 {
      Scale(lost + 1, 2, period);
    } else {
      Scale(3, lost + 1, period);
      assert Age(ready, ticks, now) > interval;
    }
  }

  predicate Lost(t: Select) {
    !(t.Tick? && t.send == Delivered)
  }

  predicate TwoLostAt(ticks: seq<Select>, i: nat)
    requires 0 < i < |ticks|
  {
    Lost(ticks[i - 1]) && Lost(ticks[i])
  }

  predicate NoTwoLost(ticks: seq<Select>) {
    forall i :: 0 < i < |ticks| ==> !TwoLostAt(ticks, i)
  }

  lemma {:induction false} LossesSeen(ticks: seq<Select>)
    ensures Losses(ticks) >= 1 <==> ticks != [] && Lost(ticks[|ticks| - 1])
    ensures Losses(ticks) >= 2 <==> |ticks| >= 2 && TwoLostAt(ticks, |ticks| - 1)
  {
    if ticks != [] {
      LossesSeen(ticks[..|ticks| - 1]);
    }
  }

  /**
    With ticks on time, pinging at half the interval, rounded down, meets the deadline at every
    moment of the run, tick after tick, exactly when no two pings in a row are lost. (At an
    interval of three units two may be lost; the manager counts in microseconds and the ticker
    in nanoseconds.)
  */
  lemma DeadlineIsMetExactly(ready: int, interval: nat, ticks: seq<Select>)
    requires interval == 2 || interval >= 4
    requires OnSchedule(ready, interval / 2, 0, ticks)
    ensures (forall n :: 0 <= n <= |ticks| ==> DeadlineHolds(ready, interval, ticks[..n])) <==> NoTwoLost(ticks)
  {
    hide DeadlineHolds, Lost;
    forall n | 0 <= n <= |ticks|
      ensures DeadlineHolds(ready, interval, ticks[..n]) <==> (n >= 2 ==> !TwoLostAt(ticks, n - 1))
    {
      DeadlineHoldsExactly(ready, interval, ticks[..n]);
      LossesSeen(ticks[..n]);
    }
    if forall n :: 0 <= n <= |ticks| ==> DeadlineHolds(ready, interval, ticks[..n]) {
      forall i | 0 < i < |ticks|
        ensures !TwoLostAt(ticks, i)
      {
        assert DeadlineHolds(ready, interval, ticks[..i + 1]);
      }
    }
  }
}
