/**
  When one connection can send an event twice: only an unnamed event that the client
  wants, stored after an event the client can name.
*/
module RealtimeRepeats {
  import opened Options
  import opened Realtime
  import opened RealtimeProtocol
  import opened RealtimeDelivery

  /** A name some client may present: its first cursor, or that of an event it can receive. */
  ghost predicate Nameable(s: Setup, id: string) {
    id != "" && (id == s.firstId || exists r :: 0 <= r < |s.log| && Keeps(s.filter, s.log[r]) && s.log[r].id == id)
  }

  ghost predicate RepeatsAt(s: Setup, q: nat, p: nat) {
    && q < p < |s.log|
    && Nameable(s, s.log[q].id)
    && Keeps(s.filter, s.log[p]) && s.log[p].id == ""
  }

  /** There are a store, a channel with room, and a wanted unnamed event behind a nameable one. */
  ghost predicate MayRepeat(s: Setup) {
    s.hasStore && s.cap > 0 && exists q: nat, p: nat :: RepeatsAt(s, q, p)
  }

  // ---------------------------------------------------------------------------
  // Only then
  // ---------------------------------------------------------------------------

  ghost predicate AllKept(s: Setup, ps: seq<nat>) {
    forall i :: 0 <= i < |ps| ==> ps[i] < |s.log| && Keeps(s.filter, s.log[ps[i]])
  }

  /** Where everything comes from: wanted events only, a replay only behind the cursor. */
  ghost predicate SourceInv(s: Setup, w: World)
    requires InLog(s, w)
  {
    && AllKept(s, w.before)
    && (w.phase != Away ==>
          && AllKept(s, w.sent) && AllKept(s, w.chan) && AllKept(s, w.replay)
          && (s.cap == 0 ==> w.past.taken + w.chan == [])
          && (w.past.written + w.replay != [] ==>
                && s.hasStore && Cursor(s, w.before) != ""
                && 0 < w.past.from <= |s.log| && s.log[w.past.from - 1].id == Cursor(s, w.before)))
  }

  lemma ReplayIsKept(s: Setup, lo: nat, hi: nat)
    requires hi <= |s.log|
    ensures AllKept(s, Kept(s.log, s.filter, lo, hi))
  {
    hide Keeps;
    var ps := Kept(s.log, s.filter, lo, hi);
    KeptMeaning(s.log, s.filter, lo, hi);
    assert forall i :: 0 <= i < |ps| ==> ps[i] in ps;
  }

  lemma SnapshotSource(s: Setup, w: World)
    requires InLog(s, w) && SourceInv(s, w) && Enabled(s, w, Snapshot)
    requires w.past.written == [] && w.replay == []
    ensures InLog(s, Step(s, w, Snapshot)) && SourceInv(s, Step(s, w, Snapshot))
  {
    hide Cursor, Kept, Keeps, AllKept;
    var w' := Step(s, w, Snapshot);
    var store, cursor := s.log[..w.appended], Cursor(s, w.before);
    if s.hasStore && cursor != "" {
      var pos := PosAfter(store, cursor);
      ReplayIsKept(s, pos, w.appended);
      if pos == |store| && !(pos > 0 && store[pos - 1].id == cursor) {
        KeptNothing(s, pos);
      }
    }
    assert w'.past.written + w'.replay == w'.replay;
  }

  lemma KeptNothing(s: Setup, n: nat)
    requires n <= |s.log|
    ensures Kept(s.log, s.filter, n, n) == []
  {
  }

  lemma SnapshotKeepsSource(s: Setup, w: World)
    requires Inv(s, w) && SourceInv(s, w) && Enabled(s, w, Snapshot)
    ensures InLog(s, Step(s, w, Snapshot)) && SourceInv(s, Step(s, w, Snapshot))
  {
    hide ChannelInv, Covered, CursorInv, Cursor, Step, SourceInv;
    SnapshotSource(s, w);
  }

  lemma StreamKeepsSource(s: Setup, w: World, a: Action)
    requires Inv(s, w) && SourceInv(s, w) && Enabled(s, w, a) && (a == ReplayOne || a == ForwardOne)
    ensures InLog(s, Step(s, w, a)) && SourceInv(s, Step(s, w, a))
  {
    hide ChannelInv, Covered, CursorInv, StreamInv, Cursor, Keeps;
    var w' := Step(s, w, a);
    if a == ReplayOne {
      assert w'.past.written + w'.replay == w.past.written + w.replay;
    } else {
      assert w'.past.taken + w'.chan == w.past.taken + w.chan;
    }
  }

  lemma ProducerKeepsSource(s: Setup, w: World, a: Action)
    requires Inv(s, w) && SourceInv(s, w) && Enabled(s, w, a) && (a.Append? || a.Broadcast?)
    ensures InLog(s, Step(s, w, a)) && SourceInv(s, Step(s, w, a))
  {
    hide ChannelInv, Covered, CursorInv, StreamInv, Cursor, Keeps;
  }

  lemma ClientKeepsSource(s: Setup, w: World, a: Action)
    requires Inv(s, w) && SourceInv(s, w) && Enabled(s, w, a)
    requires a == Subscribe || a == Receive || a == Disconnect
    ensures InLog(s, Step(s, w, a)) && SourceInv(s, Step(s, w, a))
  {
    hide ChannelInv, Covered, CursorInv, StreamInv, Cursor, Keeps;
  }

  lemma StepKeepsSource(s: Setup, w: World, a: Action)
    requires Inv(s, w) && SourceInv(s, w) && Enabled(s, w, a)
    ensures InLog(s, Step(s, w, a)) && SourceInv(s, Step(s, w, a))
  {
    hide Inv, SourceInv, Step, InLog;
    match a
    case Snapshot => SnapshotKeepsSource(s, w);
    case ReplayOne => StreamKeepsSource(s, w, a);
    case ForwardOne => StreamKeepsSource(s, w, a);
    case Append => ProducerKeepsSource(s, w, a);
    case Broadcast(_) => ProducerKeepsSource(s, w, a);
    case _ => ClientKeepsSource(s, w, a);
  }

  lemma {:induction false} RunKeepsSource(s: Setup, w: World, run: seq<Action>, end: World)
    requires Inv(s, w) && SourceInv(s, w) && Reaches(s, w, run, end)
    ensures Inv(s, end) && SourceInv(s, end)
    decreases |run|
  {
    hide SourceInv, Step, ChannelInv, Covered, StreamInv, CursorInv;
    if run != [] {
      StepKeepsInv(s, w, run[0]);
      StepKeepsSource(s, w, run[0]);
      RunKeepsSource(s, Step(s, w, run[0]), run[1..], end);
    }
  }

  lemma {:induction false} CursorIsNameable(s: Setup, received: seq<nat>)
    requires Below(received, |s.log|) && AllKept(s, received) && Cursor(s, received) != ""
    ensures Nameable(s, Cursor(s, received))
  {
    if received != [] {
      var n := |received| - 1;
      if s.log[received[n]].id == "" {
        CursorIsNameable(s, received[..n]);
      } else {
        assert Keeps(s.filter, s.log[received[n]]);
      }
    }
  }

  lemma {:induction false} IdIsReplayed(log: seq<Event>, ps: seq<nat>, p: nat)
    requires Below(ps, |log|) && p in ps && p < |log| && log[p].id != ""
    ensures Duplicate(IdsOf(log, ps), log[p])
  {
    var init, last := ps[..|ps| - 1], ps[|ps| - 1];
    assert ps == init + [last];
    if p in init {
      IdIsReplayed(log, init, p);
    }
  }

  lemma RepeatIsUnnamed(s: Setup, w: World, p: nat)
    requires Inv(s, w) && SourceInv(s, w) && w.phase != Away
    requires p in w.past.written && p in Forwarded(s.log, w.past.taken, w.replayed)
    ensures MayRepeat(s)
  {
    var h := w.past;
    ForwardedMembers(s.log, h.taken, w.replayed);
    KeptMeaning(s.log, s.filter, h.from, h.snap);
    assert p in h.written + w.replay;
    if s.log[p].id != "" {
      IdIsReplayed(s.log, h.written, p);
    }
    assert h.taken + w.chan != [];
    CursorIsNameable(s, w.before);
    assert RepeatsAt(s, h.from - 1, p);
  }

  lemma RepeatNeedsUnnamed(s: Setup, w: World)
    requires Inv(s, w) && SourceInv(s, w) && w.phase != Away
    ensures Distinct(w.sent) || MayRepeat(s)
  {
    hide MayRepeat, SourceInv, Covered, CursorInv;
    var h := w.past;
    KeptMeaning(s.log, s.filter, h.from, h.snap);
    DistinctPrefix(h.written, w.replay);
    DistinctPrefix(h.taken, w.chan);
    var forwarded := Forwarded(s.log, h.taken, w.replayed);
    ForwardedDistinct(s.log, h.taken, w.replayed);
    if p :| p in h.written && p in forwarded {
      RepeatIsUnnamed(s, w, p);
    } else {
      DistinctConcat(h.written, forwarded);
    }
  }

  /**
    In every run, with any number of producers and whatever the IDs, no event is sent twice
    on one connection unless some wanted event without an ID lies behind a nameable one.
  */
  lemma NoEventIsSentTwice(s: Setup, run: seq<Action>, w: World)
    requires !MayRepeat(s)
    requires Reaches(s, Init(), run, w) && w.phase != Away
    ensures Distinct(w.sent)
  {
    RunKeepsSource(s, Init(), run, w);
    RepeatNeedsUnnamed(s, w);
  }

  // ---------------------------------------------------------------------------
  // Then indeed
  // ---------------------------------------------------------------------------

  lemma {:induction false} ReachesConcat(s: Setup, a: World, x: seq<Action>, b: World, y: seq<Action>, c: World)
    requires Reaches(s, a, x, b) && Reaches(s, b, y, c)
    ensures Reaches(s, a, x + y, c)
    decreases |x|
  {
    hide Step, Enabled, InLog;
    if x == [] {
      assert x + y == y;
    } else {
      assert (x + y)[1..] == x[1..] + y;
      ReachesConcat(s, Step(s, a, x[0]), x[1..], b, y, c);
    }
  }

  lemma ReachesOne(s: Setup, w: World, a: Action)
    requires InLog(s, w) && Enabled(s, w, a)
    ensures Reaches(s, w, [a], Step(s, w, a))
  {
    assert [a][1..] == [];
  }

  /** The store grows to the whole log, nothing of it broadcast yet. */
  lemma {:induction false} AppendAll(s: Setup, w: World) returns (run: seq<Action>, end: World)
    requires InLog(s, w)
    ensures Reaches(s, w, run, end) && InLog(s, end)
    ensures end == w.(appended := |s.log|, inFlight := end.inFlight)
    ensures forall p :: w.appended <= p < |s.log| ==> p in end.inFlight
    ensures forall p :: p in w.inFlight ==> p in end.inFlight
    decreases |s.log| - w.appended
  {
    if w.appended == |s.log| {
      run, end := [], w;
    } else {
      var next := Step(s, w, Append);
      var rest;
      rest, end := AppendAll(s, next);
      ReachesOne(s, w, Append);
      run := [Append] + rest;
      ReachesConcat(s, w, [Append], next, rest, end);
    }
  }

  /** The replay list is written out. */
  lemma {:induction false} ReplayAll(s: Setup, w: World) returns (run: seq<Action>, end: World)
    requires InLog(s, w) && w.phase == Streaming
    requires Below(w.replay, w.appended)
    ensures Reaches(s, w, run, end) && InLog(s, end) && end.phase == Streaming
    ensures end.replay == [] && end.sent == w.sent + w.replay && end.chan == w.chan
    decreases |w.replay|
  {
    if w.replay == [] {
      run, end := [], w;
      assert w.sent + w.replay == w.sent;
    } else {
      var next := Step(s, w, ReplayOne);
      var rest;
      rest, end := ReplayAll(s, next);
      ReachesOne(s, w, ReplayOne);
      run := [ReplayOne] + rest;
      ReachesConcat(s, w, [ReplayOne], next, rest, end);
      assert next.sent + next.replay == w.sent + w.replay;
    }
  }

  /** A client that is about to name an event before p while p is still to be broadcast. */
  ghost predicate AboutToRepeat(s: Setup, w: World, q: nat, p: nat) {
    && InLog(s, w) && w.phase == Away && w.appended == |s.log|
    && RepeatsAt(s, q, p) && p in w.inFlight
    && s.log[q].id == Cursor(s, w.before)
  }

  lemma SubscribeAndSnapshot(s: Setup, w: World, q: nat, p: nat) returns (run: seq<Action>, end: World)
    requires AboutToRepeat(s, w, q, p) && s.hasStore && s.cap > 0
    ensures Reaches(s, w, run, end) && InLog(s, end) && end.phase == Streaming
    ensures p in end.replay && end.chan == [p] && end.sent == []
  {
    hide PosAfter, Kept, Keeps;
    var w1 := Step(s, w, Subscribe);
    var w2 := Step(s, w1, Snapshot);
    var pos := PosAfter(s.log, s.log[q].id);
    assert s.log[..w.appended] == s.log;
    assert pos <= q + 1;
    KeptMeaning(s.log, s.filter, pos, w.appended);
    end := Step(s, w2, Broadcast(p));
    ReachesOne(s, w, Subscribe);
    ReachesOne(s, w1, Snapshot);
    ReachesOne(s, w2, Broadcast(p));
    ReachesConcat(s, w, [Subscribe], w1, [Snapshot], w2);
    run := [Subscribe] + [Snapshot];
    ReachesConcat(s, w, run, w2, [Broadcast(p)], end);
    run := run + [Broadcast(p)];
  }

  lemma RepeatFollows(s: Setup, w: World, q: nat, p: nat) returns (run: seq<Action>, end: World)
    requires AboutToRepeat(s, w, q, p) && s.hasStore && s.cap > 0
    ensures Reaches(s, w, run, end) && end.phase == Streaming && !Distinct(end.sent)
  {
    hide Reaches, Kept, Cursor;
    var start, x, rest, y;
    start, x := SubscribeAndSnapshot(s, w, q, p);
    rest, y := ReplayAll(s, x);
    end := Step(s, y, ForwardOne);
    ReachesOne(s, y, ForwardOne);
    ReachesConcat(s, w, start, x, rest, y);
    run := start + rest;
    ReachesConcat(s, w, run, y, [ForwardOne], end);
    run := run + [ForwardOne];
    assert y.sent == x.replay;
    var i :| 0 <= i < |x.replay| && x.replay[i] == p;
    assert end.sent[i] == p && end.sent[|x.replay|] == p;
  }

  /** The client takes the one event in its channel and leaves. */
  lemma TakeAndLeave(s: Setup, w: World, r: nat) returns (run: seq<Action>, end: World)
    requires InLog(s, w) && w.phase == Streaming && w.replay == [] && w.chan == [r] && w.replayed == {}
    requires w.sent == [] && w.got == 0 && w.before == [] && r < |s.log|
    ensures Reaches(s, w, run, end) && InLog(s, end)
    ensures end.phase == Away && end.appended == w.appended && end.inFlight == w.inFlight && end.before == [r]
  {
    hide Reaches;
    var w1 := Step(s, w, ForwardOne);
    assert w1.sent == [r];
    var w2 := Step(s, w1, Receive);
    end := Step(s, w2, Disconnect);
    ReachesOne(s, w, ForwardOne);
    ReachesOne(s, w1, Receive);
    ReachesOne(s, w2, Disconnect);
    ReachesConcat(s, w, [ForwardOne], w1, [Receive], w2);
    run := [ForwardOne] + [Receive];
    ReachesConcat(s, w, run, w2, [Disconnect], end);
    run := run + [Disconnect];
  }

  /** A first client receives event r live and leaves; nothing else has been broadcast. */
  lemma ReceiveLive(s: Setup, r: nat) returns (run: seq<Action>, end: World)
    requires s.cap > 0 && r < |s.log| && Keeps(s.filter, s.log[r]) && s.log[r].id != ""
    ensures Reaches(s, Init(), run, end) && InLog(s, end) && end.phase == Away && end.appended == |s.log|
    ensures end.before == [r] && forall p :: 0 <= p < |s.log| && p != r ==> p in end.inFlight
  {
    hide Reaches, Keeps, PosAfter;
    var w0 := Init();
    var w1 := Step(s, w0, Subscribe);
    var w2 := Step(s, w1, Snapshot);
    assert w2.replay == [];
    ReachesOne(s, w0, Subscribe);
    ReachesOne(s, w1, Snapshot);
    ReachesConcat(s, w0, [Subscribe], w1, [Snapshot], w2);
    run := [Subscribe] + [Snapshot];
    var rest, w3;
    rest, w3 := AppendAll(s, w2);
    ReachesConcat(s, w0, run, w2, rest, w3);
    run := run + rest;
    var w4 := Step(s, w3, Broadcast(r));
    ReachesOne(s, w3, Broadcast(r));
    ReachesConcat(s, w0, run, w3, [Broadcast(r)], w4);
    run := run + [Broadcast(r)];
    rest, end := TakeAndLeave(s, w4, r);
    ReachesConcat(s, w0, run, w4, rest, end);
    run := run + rest;
  }

  lemma RepeatIsReachable(s: Setup) returns (run: seq<Action>, end: World)
    requires MayRepeat(s)
    ensures Reaches(s, Init(), run, end) && end.phase != Away && !Distinct(end.sent)
  {
    hide Reaches, Keeps;
    var q: nat, p: nat :| RepeatsAt(s, q, p);
    var start, w;
    if s.log[q].id == s.firstId {
      start, w := AppendAll(s, Init());
    } else {
      var r: nat :| r < |s.log| && Keeps(s.filter, s.log[r]) && s.log[r].id == s.log[q].id;
      start, w := ReceiveLive(s, r);
    }
    var rest;
    rest, end := RepeatFollows(s, w, q, p);
    ReachesConcat(s, Init(), start, w, rest, end);
    run := start + rest;
  }

  /** Some run sends some event twice on one connection exactly when the log and the filter allow it. */
  lemma SentTwiceExactly(s: Setup)
    ensures (exists run, w :: Reaches(s, Init(), run, w) && w.phase != Away && !Distinct(w.sent)) <==> MayRepeat(s)
  {
    hide MayRepeat, Reaches;
    if MayRepeat(s) {
      var run, w := RepeatIsReachable(s);
    }
    forall run, w | Reaches(s, Init(), run, w) && w.phase != Away && !Distinct(w.sent)
      ensures MayRepeat(s)
    {
      if !MayRepeat(s) {
        NoEventIsSentTwice(s, run, w);
      }
    }
  }

  /**
    The nameable event need not be wanted, and the event that lends its ID may come after the
    repeated one: a log of an unwanted "x", a wanted event without an ID and a wanted "x".
  */
  lemma NamesakeSuffices(s: Setup)
    requires s.hasStore && s.cap > 0 && |s.log| == 3
    requires s.log[0].id == s.log[2].id != "" && s.log[1].id == ""
    requires Keeps(s.filter, s.log[1]) && Keeps(s.filter, s.log[2])
    ensures exists run, w :: Reaches(s, Init(), run, w) && w.phase != Away && !Distinct(w.sent)
  {
    hide Reaches;
    assert RepeatsAt(s, 0, 1);
    SentTwiceExactly(s);
  }
}
