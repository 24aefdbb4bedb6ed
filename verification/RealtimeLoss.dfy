/**
  Two ends of ExactlyOnce and ReconnectHealsExactly: where a client that names no event
  starts, and a run in which a lost event stays lost.
*/
module RealtimeLoss {
  import opened Options
  import opened Realtime
  import opened RealtimeProtocol
  import opened RealtimeSerial

  // ---------------------------------------------------------------------------
  // Where a client without a first cursor starts
  // ---------------------------------------------------------------------------

  ghost predicate StartInv(s: Setup, w: World) {
    w.phase != Away && w.before == [] && s.firstId == "" ==>
      w.past.from == w.past.base && (w.phase == Streaming ==> w.past.start == w.past.base)
  }

  lemma StepKeepsStart(s: Setup, w: World, a: Action)
    requires InLog(s, w) && StartInv(s, w) && Enabled(s, w, a)
    ensures StartInv(s, Step(s, w, a))
    ensures w.before != [] ==> Step(s, w, a).before != [] && Step(s, w, a).past.start == w.past.start
  {
    hide Kept, PosAfter, Keeps;
  }

  lemma {:induction false} RunKeepsStart(s: Setup, w: World, run: seq<Action>, end: World, lossless: bool)
    requires StartInv(s, w) && SerialRun(s, w, run, end, lossless)
    ensures StartInv(s, end)
    ensures w.before != [] ==> end.past.start == w.past.start
    decreases |run|
  {
    hide StartInv, Step, Enabled, Disciplined, InLog;
    if run != [] {
      StepKeepsStart(s, w, run[0]);
      RunKeepsStart(s, Step(s, w, run[0]), run[1..], end, lossless);
    }
  }

  /**
    Without a first cursor the first connection starts at the position from which everything
    was still to be broadcast when it subscribed; once something is received, `start` is fixed.
  */
  lemma StartIsSubscription(s: Setup, first: seq<Action>, mid: World, rest: seq<Action>, end: World)
    requires s.firstId == "" && SerialRun(s, Init(), first, mid, true) && SerialRun(s, mid, rest, end, true)
    ensures mid.phase == Streaming && mid.before == [] ==> mid.past.start == mid.past.base
    ensures mid.before != [] ==> end.past.start == mid.past.start
  {
    RunKeepsStart(s, Init(), first, mid, true);
    RunKeepsStart(s, mid, rest, end, true);
  }

  // ---------------------------------------------------------------------------
  // A loss that no reconnect heals
  // ---------------------------------------------------------------------------

  lemma {:induction false} SerialConcat(s: Setup, a: World, x: seq<Action>, b: World, y: seq<Action>, c: World)
    requires SerialRun(s, a, x, b, false) && SerialRun(s, b, y, c, false)
    ensures SerialRun(s, a, x + y, c, false)
    decreases |x|
  {
    hide Step, Enabled, Disciplined, InLog;
    if x == [] {
      assert x + y == y;
    } else {
      assert (x + y)[1..] == x[1..] + y;
      SerialConcat(s, Step(s, a, x[0]), x[1..], b, y, c);
    }
  }

  lemma SerialStep(s: Setup, w: World, run: seq<Action>, mid: World, a: Action) returns (run': seq<Action>, end: World)
    requires SerialRun(s, w, run, mid, false)
    requires InLog(s, mid) && Enabled(s, mid, a) && Disciplined(s, mid, a)
    ensures SerialRun(s, w, run', end, false) && end == Step(s, mid, a)
  {
    end := Step(s, mid, a);
    assert [a][1..] == [];
    assert SerialRun(s, mid, [a], end, false);
    SerialConcat(s, w, run, mid, [a], end);
    run' := run + [a];
  }

  /** A client without a cursor, connected before the first event, that lost event 1 to a full channel. */
  lemma LoseTheSecond(s: Setup) returns (run: seq<Action>, w: World)
    requires |s.log| >= 3 && GoodIds(s.log) && s.hasStore && s.filter == None && s.firstId == "" && s.cap == 1
    ensures SerialRun(s, Init(), run, w, false)
    ensures InLog(s, w)
    ensures w.appended == 2 && w.inFlight == {} && w.phase == Streaming && w.replay == [] && w.replayed == {}
    ensures w.chan == [0] && w.sent == [] && w.got == 0 && w.before == []
  {
    hide SerialRun;
    w := Init();
    run := [];
    assert SerialRun(s, w, run, w, false) by {
      SerialEmpty(s, w);
    }
    run, w := SerialStep(s, Init(), run, w, Subscribe);
    run, w := SerialStep(s, Init(), run, w, Snapshot);
    run, w := SerialStep(s, Init(), run, w, Append);
    run, w := SerialStep(s, Init(), run, w, Broadcast(0));
    assert w.inFlight == {} && w.chan == [0];
    run, w := SerialStep(s, Init(), run, w, Append);
    run, w := SerialStep(s, Init(), run, w, Broadcast(1));
    assert w.inFlight == {} && w.chan == [0];
  }

  lemma SerialEmpty(s: Setup, w: World)
    ensures SerialRun(s, w, [], w, false)
  {
  }

  lemma ReceiveTheThird(s: Setup, run0: seq<Action>, w0: World) returns (run: seq<Action>, w: World)
    requires |s.log| >= 3 && GoodIds(s.log) && s.hasStore && s.filter == None && s.firstId == "" && s.cap == 1
    requires SerialRun(s, Init(), run0, w0, false) && InLog(s, w0)
    requires w0.appended == 2 && w0.inFlight == {} && w0.phase == Streaming && w0.replay == [] && w0.replayed == {}
    requires w0.chan == [0] && w0.sent == [] && w0.got == 0 && w0.before == []
    ensures SerialRun(s, Init(), run, w, false)
    ensures InLog(s, w)
    ensures w.phase == Away && w.appended == 3 && w.inFlight == {} && w.before == [0, 2]
  {
    hide SerialRun;
    run, w := SerialStep(s, Init(), run0, w0, ForwardOne);
    assert w.sent == [0];
    run, w := SerialStep(s, Init(), run, w, Append);
    run, w := SerialStep(s, Init(), run, w, Broadcast(2));
    assert w.inFlight == {} && w.chan == [2];
    run, w := SerialStep(s, Init(), run, w, ForwardOne);
    assert w.sent == [0, 2];
    run, w := SerialStep(s, Init(), run, w, Receive);
    run, w := SerialStep(s, Init(), run, w, Receive);
    run, w := SerialStep(s, Init(), run, w, Disconnect);
  }

  /**
    A loss that the reconnect does not heal, in a run with serialized publishes and a channel
    of one place: the second event is dropped, the third received, and the replay of the
    reconnect starts behind both.
  */
  lemma UnhealedLossIsReachable(s: Setup) returns (run: seq<Action>, w: World)
    requires |s.log| >= 3 && GoodIds(s.log) && s.hasStore && s.filter == None && s.firstId == "" && s.cap == 1
    ensures SerialRun(s, Init(), run, w, false) && InLog(s, w) && w.phase == Subscribed
    ensures 1 < w.appended && w.before == [0, 2] && 1 !in Step(s, w, Snapshot).replay
  {
    hide SerialRun, Kept;
    run, w := LoseTheSecond(s);
    run, w := ReceiveTheThird(s, run, w);
    assert Fin(w) == 3;
    assert s.log[2].id == Cursor(s, w.before);
    run, w := SerialStep(s, Init(), run, w, Subscribe);
    ReconnectHealsExactly(s, run, w, 1);
    assert 2 in w.before;
  }

  // ---------------------------------------------------------------------------
  // What the client has, and what it names
  // ---------------------------------------------------------------------------

  /** Only receiving an event changes what the client has, by that event; a disconnect loses nothing of it. */
  lemma ReceivedGrows(s: Setup, w: World, a: Action)
    requires InLog(s, w) && Enabled(s, w, a) && (w.phase == Away ==> w.got == 0)
    ensures var w' := Step(s, w, a);
      && w'.got <= |w'.sent| && (w'.phase == Away ==> w'.got == 0)
      && Received(w') == Received(w) + if a == Receive then [w.sent[w.got]] else []
  {
    hide Kept, PosAfter, Keeps;
    var w' := Step(s, w, a);
    if a == Receive {
      assert w'.sent[..w'.got] == w.sent[..w.got] + [w.sent[w.got]];
    } else if a == ReplayOne || a == ForwardOne {
      assert w'.sent[..w.got] == w.sent[..w.got];
    } else if a == Subscribe || a == Disconnect {
      assert w'.sent[..w'.got] == [];
    }
  }

  /** The client names the last event with an ID that it has received, or its first cursor if there is none. */
  lemma {:induction false} CursorExactly(s: Setup, received: seq<nat>)
    requires Below(received, |s.log|)
    ensures if forall i :: 0 <= i < |received| ==> s.log[received[i]].id == "" then Cursor(s, received) == s.firstId
            else exists i :: 0 <= i < |received| && s.log[received[i]].id == Cursor(s, received) != ""
                   && forall j :: i < j < |received| ==> s.log[received[j]].id == ""
  {
    if received != [] {
      var n := |received| - 1;
      if s.log[received[n]].id == "" {
        CursorExactly(s, received[..n]);
        assert forall i :: 0 <= i < n ==> received[..n][i] == received[i];
        if !(forall i :: 0 <= i < n ==> s.log[received[i]].id == "") {
          var i :| 0 <= i < n && s.log[received[..n][i]].id == Cursor(s, received[..n]) != ""
                   && forall j :: i < j < n ==> s.log[received[..n][j]].id == "";
          assert s.log[received[i]].id == Cursor(s, received) != "";
        }
      } else {
        assert s.log[received[n]].id == Cursor(s, received) != "";
      }
    }
  }
}
