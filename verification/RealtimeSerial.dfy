/**
  Whole runs with serialized publishes: any number of connections, losses on the
  wire and reconnects with the last received ID.
*/
module RealtimeSerial {
  import opened Options
  import opened Realtime
  import opened RealtimeProtocol
  import opened RealtimeDelivery

  /** The event the client would name, if any, is stored and its own broadcast is over. */
  ghost predicate CursorSettled(s: Setup, w: World)
    requires InLog(s, w)
  {
    NamedBelow(s, Cursor(s, w.before), Fin(w))
  }

  /** One publish at a time, and no subscription while the cursor's own broadcast is pending. */
  ghost predicate Disciplined(s: Setup, w: World, a: Action)
    requires InLog(s, w)
  {
    && (a == Append ==> w.inFlight == {})
    && (a == Subscribe ==> CursorSettled(s, w))
  }

  ghost predicate SerialRun(s: Setup, w: World, run: seq<Action>, end: World, lossless: bool)
    decreases |run|
  {
    if run == [] then w == end
    else
      && InLog(s, w) && Enabled(s, w, run[0])
      && Disciplined(s, w, run[0])
      && (lossless ==> !Overflows(s, w, run[0]))
      && SerialRun(s, Step(s, w, run[0]), run[1..], end, lossless)
  }

  /** The position just after the last one received, or `start` when nothing was. */
  function UpTo(w: World): nat {
    if w.before == [] then w.past.start else w.before[|w.before| - 1] + 1
  }

  ghost predicate Within(ps: seq<nat>, lo: nat, hi: nat) {
    forall i :: 0 <= i < |ps| ==> lo <= ps[i] < hi
  }

  function Fin(w: World): nat {
    Base(w.appended, w.inFlight)
  }

  /** Broadcasts happen one by one, so the channel is in log order. */
  ghost predicate Ordered(w: World) {
    var arrived := w.past.taken + w.chan;
    && (forall p :: p in w.inFlight ==> p == w.appended - 1)
    && (w.phase != Away ==>
          w.past.base <= Fin(w) && Increasing(arrived) && Within(arrived, w.past.base, Fin(w)))
  }

  /** Each snapshot continues where the client stopped. */
  ghost predicate Continues(s: Setup, w: World)
    requires Below(w.before, |s.log|)
  {
    && Increasing(w.before)
    && (w.phase == Subscribed ==> w.past.base <= |s.log| && NamedBelow(s, Cursor(s, w.before), w.past.base))
    && (w.phase == Streaming ==> w.past.from <= w.past.base && UpTo(w) == w.past.from)
    && ((w.phase == Streaming || w.before != []) && s.firstId != "" ==>
          0 < w.past.start <= |s.log| && s.log[w.past.start - 1].id == s.firstId)
  }

  ghost predicate NamedBelow(s: Setup, id: string, n: nat)
    requires n <= |s.log|
  {
    id != "" ==> exists q :: 0 <= q < n && s.log[q].id == id
  }

  ghost predicate SerialInv(s: Setup, w: World) {
    Inv(s, w) && Ordered(w) && Continues(s, w)
  }

  lemma {:induction false} ForwardedIncreasing(log: seq<Event>, ps: seq<nat>, replayed: set<string>, lo: nat, hi: nat)
    requires Below(ps, |log|) && Increasing(ps) && Within(ps, lo, hi)
    ensures Increasing(Forwarded(log, ps, replayed)) && Within(Forwarded(log, ps, replayed), lo, hi)
  {
    if ps != [] {
      var last := ps[|ps| - 1];
      ForwardedIncreasing(log, ps[..|ps| - 1], replayed, lo, last);
    }
  }

  ghost predicate AllWanted(s: Setup, ps: seq<nat>) {
    forall i :: 0 <= i < |ps| ==> ps[i] < |s.log| && Keeps(s.filter, s.log[ps[i]])
  }

  /** After a settled snapshot everything forwarded lies behind it. */
  lemma ForwardedBehindSnapshot(s: Setup, w: World)
    requires GoodIds(s.log) && StreamInv(s, w) && w.replay == []
    requires Within(w.past.taken, w.past.from, |s.log|) && AllWanted(s, w.past.taken)
    ensures Within(Forwarded(s.log, w.past.taken, w.replayed), w.past.snap, |s.log|)
  {
    var h := w.past;
    assert h.written + w.replay == h.written;
    KeptMeaning(s.log, s.filter, h.from, h.snap);
    ForwardedMembers(s.log, h.taken, w.replayed);
    var out := Forwarded(s.log, h.taken, w.replayed);
    forall i | 0 <= i < |out|
      ensures h.snap <= out[i] < |s.log|
    {
      var p := out[i];
      assert p in out;
      var j :| 0 <= j < |h.taken| && h.taken[j] == p;
      IdNamesPosition(s.log, h.written, p);
    }
  }

  lemma IncreasingConcat(a: seq<nat>, b: seq<nat>, mid: nat, hi: nat)
    requires Increasing(a) && Increasing(b) && Below(a, mid) && Within(b, mid, hi)
    ensures Increasing(a + b)
  {
  }

  lemma LastBounds(a: seq<nat>)
    requires Increasing(a) && a != []
    ensures Below(a, a[|a| - 1] + 1)
  {
  }

  lemma IncreasingPrefix(a: seq<nat>, b: seq<nat>)
    requires Increasing(a) && b <= a
    ensures Increasing(b)
  {
  }

  lemma TakenInOrder(w: World, lo: nat, hi: nat)
    requires Increasing(w.past.taken + w.chan) && Within(w.past.taken + w.chan, lo, hi)
    ensures Increasing(w.past.taken) && Within(w.past.taken, lo, hi)
  {
    var arrived := w.past.taken + w.chan;
    assert forall i :: 0 <= i < |w.past.taken| ==> w.past.taken[i] == arrived[i];
  }

  lemma WrittenInOrder(s: Setup, w: World)
    requires StreamInv(s, w)
    ensures Increasing(w.past.written) && Within(w.past.written, w.past.from, w.past.snap)
  {
    var plan := Kept(s.log, s.filter, w.past.from, w.past.snap);
    KeptMeaning(s.log, s.filter, w.past.from, w.past.snap);
    forall i | 0 <= i < |w.past.written|
      ensures w.past.from <= w.past.written[i] < w.past.snap
    {
      assert plan[i] == w.past.written[i] && plan[i] in plan;
    }
    IncreasingPrefix(plan, w.past.written);
  }

  lemma SentIncreasing(s: Setup, w: World)
    requires GoodIds(s.log) && StreamInv(s, w) && ChannelInv(s, w) && Ordered(w) && w.phase == Streaming
    requires w.past.from <= w.past.base
    ensures Increasing(w.sent) && Within(w.sent, w.past.from, |s.log|)
  {
    var h := w.past;
    WrittenInOrder(s, w);
    TakenInOrder(w, h.base, Fin(w));
    if w.replay == [] {
      assert forall i :: 0 <= i < |h.taken| ==> h.taken[i] == (h.taken + w.chan)[i];
      ForwardedBehindSnapshot(s, w);
      ForwardedIncreasing(s.log, h.taken, w.replayed, h.base, |s.log|);
      IncreasingConcat(h.written, Forwarded(s.log, h.taken, w.replayed), h.snap, |s.log|);
    }
  }

  lemma EverSentIncreasing(s: Setup, w: World)
    requires GoodIds(s.log) && SerialInv(s, w) && w.phase == Streaming
    ensures Increasing(w.before + w.sent)
  {
    SentIncreasing(s, w);
    if w.before != [] {
      LastBounds(w.before);
      IncreasingConcat(w.before, w.sent, w.past.from, |s.log|);
    } else {
      assert w.before + w.sent == w.sent;
    }
  }

  // ---------------------------------------------------------------------------
  // What a disciplined step keeps, losses included
  // ---------------------------------------------------------------------------

  lemma BaseWhenSerial(n: nat, inFlight: set<nat>)
    requires forall p :: p in inFlight ==> p == n - 1
    ensures Base(n, inFlight) == if inFlight == {} then n else n - 1
  {
    if inFlight != {} {
      var p :| p in inFlight;
      assert n - 1 in inFlight;
      assert Base(n, inFlight) == Base(n - 1, inFlight);
    }
  }

  lemma ProducerKeepsOrdered(s: Setup, w: World, a: Action)
    requires InLog(s, w) && Ordered(w) && Enabled(s, w, a) && Disciplined(s, w, a) && (a.Append? || a.Broadcast?)
    ensures Ordered(Step(s, w, a))
  {
    var w' := Step(s, w, a);
    BaseWhenSerial(w.appended, w.inFlight);
    BaseWhenSerial(w'.appended, w'.inFlight);
    var arrived := w.past.taken + w.chan;
    if w'.chan != w.chan {
      assert w'.past.taken + w'.chan == arrived + [w.appended - 1];
    }
  }

  lemma StepKeepsOrdered(s: Setup, w: World, a: Action)
    requires InLog(s, w) && Ordered(w) && Enabled(s, w, a) && Disciplined(s, w, a)
    ensures Ordered(Step(s, w, a))
  {
    hide Disciplined, Kept, Cursor, Forwarded;
    var w' := Step(s, w, a);
    match a
    case Append => ProducerKeepsOrdered(s, w, a);
    case Broadcast(p) => ProducerKeepsOrdered(s, w, a);
    case Subscribe => assert w'.past.taken + w'.chan == [];
    case ForwardOne => assert w'.past.taken + w'.chan == w.past.taken + w.chan;
    case _ =>
  }

  lemma CursorOfReceived(s: Setup, w: World)
    requires GoodIds(s.log) && InLog(s, w)
    ensures Cursor(s, w.before) == if w.before == [] then s.firstId else s.log[w.before[|w.before| - 1]].id
  {
  }

  lemma SameName(log: seq<Event>, p: nat, q: nat)
    requires GoodIds(log) && p < |log| && q < |log| && log[p].id == log[q].id
    ensures p == q
  {
    assert p < q || q < p || p == q;
  }

  /** With a cursor the snapshot runs from just after its event to the end of the store. */
  lemma SnapshotRange(s: Setup, w: World, q: nat)
    requires GoodIds(s.log) && s.hasStore
    requires InLog(s, w) && Enabled(s, w, Snapshot)
    requires q < w.appended && s.log[q].id == Cursor(s, w.before)
    ensures var w' := Step(s, w, Snapshot);
            w'.past.from == q + 1 && w'.past.snap == w.appended
            && w'.replay == Kept(s.log, s.filter, q + 1, w.appended)
  {
    var store := s.log[..w.appended];
    assert store[q].id == s.log[q].id;
    var pos := PosAfter(store, s.log[q].id);
    assert store[pos - 1] == s.log[pos - 1];
    SameName(s.log, pos - 1, q);
  }

  lemma SnapshotContinues(s: Setup, w: World)
    requires GoodIds(s.log) && s.hasStore
    requires InLog(s, w) && Continues(s, w) && Enabled(s, w, Snapshot)
    requires w.past.from == w.past.base <= w.appended
    ensures Below(Step(s, w, Snapshot).before, |s.log|)
    ensures Continues(s, Step(s, w, Snapshot))
  {
    CursorOfReceived(s, w);
    var c := Cursor(s, w.before);
    if c != "" {
      var q :| 0 <= q < w.past.base && s.log[q].id == c;
      SnapshotRange(s, w, q);
      if w.before != [] {
        SameName(s.log, q, w.before[|w.before| - 1]);
      }
    }
  }

  lemma DisconnectContinues(s: Setup, w: World)
    requires GoodIds(s.log) && SerialInv(s, w) && Enabled(s, w, Disconnect)
    requires Below(w.before + w.sent, |s.log|)
    ensures Below(Step(s, w, Disconnect).before, |s.log|)
    ensures Continues(s, Step(s, w, Disconnect))
  {
    var w' := Step(s, w, Disconnect);
    if w.phase == Streaming {
      EverSentIncreasing(s, w);
      IncreasingPrefix(w.before + w.sent, w'.before);
    } else {
      assert w'.before == w.before;
    }
  }

  lemma OthersContinue(s: Setup, w: World, a: Action)
    requires InLog(s, w) && Continues(s, w) && Enabled(s, w, a) && Disciplined(s, w, a)
    requires a != Snapshot && a != Disconnect
    ensures Below(Step(s, w, a).before, |s.log|)
    ensures Continues(s, Step(s, w, a))
  {
    var w' := Step(s, w, a);
    assert w'.before == w.before && w'.past.start == w.past.start;
    assert a != Subscribe ==> w'.phase == w.phase && w'.past.from == w.past.from && w'.past.base == w.past.base;
  }

  lemma StepContinues(s: Setup, w: World, a: Action)
    requires GoodIds(s.log) && s.hasStore
    requires SerialInv(s, w) && Enabled(s, w, a) && Disciplined(s, w, a)
    requires Below(w.before + w.sent, |s.log|)
    ensures Below(Step(s, w, a).before, |s.log|)
    ensures Continues(s, Step(s, w, a))
  {
    hide Ordered, Continues, Step;
    match a
    case Snapshot => SnapshotContinues(s, w);
    case Disconnect => DisconnectContinues(s, w);
    case _ => OthersContinue(s, w, a);
  }

  lemma StepKeepsSerial(s: Setup, w: World, a: Action)
    requires GoodIds(s.log) && s.hasStore
    requires SerialInv(s, w) && Enabled(s, w, a) && Disciplined(s, w, a)
    ensures SerialInv(s, Step(s, w, a))
  {
    hide Ordered, Continues, Step, Disciplined, Enabled;
    StepKeepsInv(s, w, a);
    StepKeepsOrdered(s, w, a);
    StepContinues(s, w, a);
  }

  lemma {:induction false} RunKeepsSerial(s: Setup, w: World, run: seq<Action>, end: World, lossless: bool)
    requires GoodIds(s.log) && s.hasStore
    requires SerialInv(s, w) && SerialRun(s, w, run, end, lossless)
    ensures SerialInv(s, end)
    decreases |run|
  {
    hide SerialInv, Step, Enabled, Disciplined, InLog;
    if run != [] {
      StepKeepsSerial(s, w, run[0]);
      RunKeepsSerial(s, Step(s, w, run[0]), run[1..], end, lossless);
    }
  }

  // ---------------------------------------------------------------------------
  // Lossy runs: order is kept, and what a reconnect heals
  // ---------------------------------------------------------------------------

  /**
    Even when full channels drop events, the client sees the log in strictly increasing
    order over all its connections together.
  */
  lemma LossyDeliveryIsInOrder(s: Setup, run: seq<Action>, w: World)
    requires GoodIds(s.log) && s.hasStore
    requires SerialRun(s, Init(), run, w, false) && w.got <= |w.sent|
    ensures Increasing(Received(w))
    ensures w.phase == Streaming ==> Increasing(w.before + w.sent)
  {
    RunKeepsSerial(s, Init(), run, w, false);
    if w.phase == Streaming {
      EverSentIncreasing(s, w);
      IncreasingPrefix(w.before + w.sent, Received(w));
    } else {
      assert w.phase == Subscribed ==> w.sent == [];
    }
  }

  /** The cursor's event is the last one received, and comes before every lost event that it leaves to heal. */
  lemma CursorBelowLost(s: Setup, w: World, p: nat, q: nat)
    requires GoodIds(s.log) && InLog(s, w) && Increasing(w.before)
    requires q < w.appended && s.log[q].id == Cursor(s, w.before)
    requires p < w.appended && p !in w.before
    requires forall q :: p <= q < |s.log| ==> s.log[q].id != s.firstId
    ensures q < p <==> forall r :: r in w.before ==> r < p
  {
    CursorOfReceived(s, w);
    if w.before != [] {
      LastBounds(w.before);
      SameName(s.log, q, w.before[|w.before| - 1]);
      assert q in w.before;
    }
  }

  lemma HealsExactly(s: Setup, w: World, p: nat)
    requires GoodIds(s.log) && s.hasStore
    requires InLog(s, w) && Continues(s, w) && Enabled(s, w, Snapshot) && w.past.base <= w.appended && w.replay == []
    requires p < w.appended && Keeps(s.filter, s.log[p]) && p !in w.before
    requires forall q :: p <= q < |s.log| ==> s.log[q].id != s.firstId
    ensures p in Step(s, w, Snapshot).replay <==>
            Cursor(s, w.before) != "" && forall q :: q in w.before ==> q < p
  {
    hide Kept, Cursor;
    if Cursor(s, w.before) != "" {
      var q :| 0 <= q < w.past.base && s.log[q].id == Cursor(s, w.before);
      SnapshotRange(s, w, q);
      KeptMeaning(s.log, s.filter, q + 1, w.appended);
      CursorBelowLost(s, w, p, q);
    }
  }

  /**
    A reconnect replays a wanted event that earlier connections lost exactly when the
    client has a cursor to show and received nothing later than that event. (So a
    reconnect does not replay the gap when a later event got through before the drop.)
  */
  lemma ReconnectHealsExactly(s: Setup, run: seq<Action>, w: World, p: nat)
    requires GoodIds(s.log) && s.hasStore
    requires SerialRun(s, Init(), run, w, false) && InLog(s, w) && w.phase == Subscribed
    requires p < w.appended && Keeps(s.filter, s.log[p]) && p !in w.before
    requires forall q :: p <= q < |s.log| ==> s.log[q].id != s.firstId
    ensures p in Step(s, w, Snapshot).replay <==>
            Cursor(s, w.before) != "" && forall q :: q in w.before ==> q < p
  {
    RunKeepsSerial(s, Init(), run, w, false);
    HealsExactly(s, w, p);
  }

  // ---------------------------------------------------------------------------
  // Lossless runs: exactly once
  // ---------------------------------------------------------------------------

  /** Nothing wanted is missing: neither from what was received nor from the channel. */
  ghost predicate Whole(s: Setup, w: World)
    requires w.appended <= |s.log|
  {
    && w.past.start <= UpTo(w) <= w.appended
    && w.before == Kept(s.log, s.filter, w.past.start, UpTo(w))
    && (w.phase != Away ==> w.past.taken + w.chan == Kept(s.log, s.filter, w.past.base, Fin(w)))
  }

  ghost predicate LosslessInv(s: Setup, w: World) {
    SerialInv(s, w) && Whole(s, w)
  }

  lemma {:induction false} PrefixOfKept(log: seq<Event>, filter: Filter, lo: nat, hi: nat, xs: seq<nat>)
    requires hi <= |log|
    requires xs != [] && xs <= Kept(log, filter, lo, hi)
    ensures lo < xs[|xs| - 1] + 1 <= hi
    ensures xs == Kept(log, filter, lo, xs[|xs| - 1] + 1)
  {
    var init := Kept(log, filter, lo, hi - 1);
    if xs <= init {
      PrefixOfKept(log, filter, lo, hi - 1, xs);
    } else {
      assert xs == Kept(log, filter, lo, hi);
      assert xs == init + [hi - 1];
    }
  }

  lemma {:induction false} ForwardedPrefix(log: seq<Event>, a: seq<nat>, b: seq<nat>, replayed: set<string>)
    requires Below(a + b, |log|)
    ensures Below(a, |log|)
    ensures Forwarded(log, a, replayed) <= Forwarded(log, a + b, replayed)
  {
    assert forall i :: 0 <= i < |a| ==> a[i] == (a + b)[i];
    if b == [] {
      assert a + b == a;
    } else {
      assert (a + b)[..|a + b| - 1] == a + b[..|b| - 1];
      ForwardedPrefix(log, a, b[..|b| - 1], replayed);
    }
  }

  /** Skipping the replayed IDs cuts the live events exactly at the snapshot. */
  lemma {:induction false} DedupCutsAtSnapshot(s: Setup, from: nat, base: nat, snap: nat, hi: nat)
    requires GoodIds(s.log) && from <= base <= snap <= |s.log| && hi <= |s.log|
    ensures Forwarded(s.log, Kept(s.log, s.filter, base, hi), IdsOf(s.log, Kept(s.log, s.filter, from, snap)))
         == Kept(s.log, s.filter, snap, hi)
  {
    hide Keeps, IdsOf, Duplicate, GoodIds;
    if base < hi {
      var plan := Kept(s.log, s.filter, from, snap);
      var init := Kept(s.log, s.filter, base, hi - 1);
      DedupCutsAtSnapshot(s, from, base, snap, hi - 1);
      if Keeps(s.filter, s.log[hi - 1]) {
        ForwardedSnoc(s.log, init, hi - 1, IdsOf(s.log, plan));
        IdNamesPosition(s.log, plan, hi - 1);
        KeptHas(s.log, s.filter, from, snap, hi - 1);
      }
    }
  }

  lemma ForwardedSnoc(log: seq<Event>, ps: seq<nat>, p: nat, replayed: set<string>)
    requires Below(ps, |log|) && p < |log|
    ensures Below(ps + [p], |log|)
    ensures Forwarded(log, ps + [p], replayed) ==
            Forwarded(log, ps, replayed) + if Duplicate(replayed, log[p]) then [] else [p]
  {
    assert (ps + [p])[..|ps|] == ps;
  }

  /** How far into the log this connection has got once everything in hand is sent. */
  function Reach(w: World): nat {
    if Fin(w) < w.past.snap then w.past.snap else Fin(w)
  }

  lemma SentIsPrefix(s: Setup, w: World)
    requires GoodIds(s.log) && InLog(s, w) && StreamInv(s, w) && w.phase == Streaming
    requires w.past.from <= w.past.base && Fin(w) <= |s.log|
    requires w.past.taken + w.chan == Kept(s.log, s.filter, w.past.base, Fin(w))
    ensures w.sent <= Kept(s.log, s.filter, w.past.from, Reach(w))
    ensures w.replay == [] && w.chan == [] ==> w.sent == Kept(s.log, s.filter, w.past.from, Reach(w))
  {
    var h := w.past;
    KeptSplit(s.log, s.filter, h.from, h.snap, Reach(w));
    var rest := Kept(s.log, s.filter, h.snap, Reach(w));
    if w.replay == [] {
      assert h.written + w.replay == h.written;
      DedupCutsAtSnapshot(s, h.from, h.base, h.snap, Fin(w));
      ForwardedPrefix(s.log, h.taken, w.chan, w.replayed);
      assert Forwarded(s.log, h.taken + w.chan, w.replayed) == rest;
      if w.chan == [] {
        assert h.taken + w.chan == h.taken;
      }
    } else {
      assert w.sent == h.written;
    }
  }

  /** Everything ever received or sent is a piece of the log with nothing left out. */
  lemma EverSentIsPrefix(s: Setup, w: World)
    requires GoodIds(s.log) && LosslessInv(s, w) && w.phase == Streaming
    ensures Reach(w) <= w.appended <= |s.log|
    ensures w.before + w.sent <= Kept(s.log, s.filter, w.past.start, Reach(w))
    ensures w.replay == [] && w.chan == [] ==> w.before + w.sent == Kept(s.log, s.filter, w.past.start, Reach(w))
  {
    SentIsPrefix(s, w);
    KeptSplit(s.log, s.filter, w.past.start, w.past.from, Reach(w));
  }

  lemma AppendKeepsWhole(s: Setup, w: World, a: Action)
    requires InLog(s, w) && Ordered(w) && Whole(s, w)
    requires a.Append? && Enabled(s, w, a) && Disciplined(s, w, a)
    ensures var w' := Step(s, w, a); w'.appended <= |s.log| && Whole(s, w')
  {
    var w' := Step(s, w, a);
    BaseWhenSerial(w.appended, w.inFlight);
    BaseWhenSerial(w'.appended, w'.inFlight);
  }

  lemma BroadcastKeepsWhole(s: Setup, w: World, a: Action)
    requires InLog(s, w) && Ordered(w) && Whole(s, w)
    requires a.Broadcast? && Enabled(s, w, a) && Disciplined(s, w, a) && !Overflows(s, w, a)
    ensures var w' := Step(s, w, a); w'.appended <= |s.log| && Whole(s, w')
  {
    var w' := Step(s, w, a);
    BaseWhenSerial(w.appended, w.inFlight);
    BaseWhenSerial(w'.appended, w'.inFlight);
    if w.phase != Away {
      var arrived := w.past.taken + w.chan;
      assert w'.past.taken + w'.chan == if Wanted(s, w, a.p) then arrived + [a.p] else arrived;
    }
  }

  lemma SubscribeKeepsWhole(s: Setup, w: World)
    requires InLog(s, w) && Whole(s, w) && Enabled(s, w, Subscribe)
    ensures Whole(s, Step(s, w, Subscribe))
  {
    var w' := Step(s, w, Subscribe);
    assert w'.past.taken + w'.chan == [];
    assert UpTo(w') == UpTo(w);
  }

  lemma SnapshotKeepsWhole(s: Setup, w: World)
    requires InLog(s, w) && Whole(s, w) && Enabled(s, w, Snapshot)
    requires w.past.from <= w.appended
    ensures Whole(s, Step(s, w, Snapshot))
  {
  }

  lemma StreamKeepsWhole(s: Setup, w: World, a: Action)
    requires InLog(s, w) && Whole(s, w)
    requires Enabled(s, w, a) && (a == ReplayOne || a == ForwardOne || a == Receive)
    ensures Whole(s, Step(s, w, a))
  {
    var w' := Step(s, w, a);
    assert w'.past.taken + w'.chan == w.past.taken + w.chan;
  }

  lemma DisconnectKeepsWhole(s: Setup, w: World)
    requires GoodIds(s.log) && InLog(s, w) && LosslessInv(s, w) && Enabled(s, w, Disconnect)
    ensures Whole(s, Step(s, w, Disconnect))
  {
    hide SerialInv, Kept;
    var w' := Step(s, w, Disconnect);
    if w.phase == Streaming {
      EverSentIsPrefix(s, w);
      assert w'.before <= w.before + w.sent;
      if w'.before != [] {
        PrefixOfKept(s.log, s.filter, w.past.start, Reach(w), w'.before);
      }
    } else {
      assert w'.before == w.before;
    }
  }

  lemma StepKeepsLossless(s: Setup, w: World, a: Action)
    requires GoodIds(s.log) && s.hasStore
    requires LosslessInv(s, w) && Enabled(s, w, a) && Disciplined(s, w, a) && !Overflows(s, w, a)
    ensures LosslessInv(s, Step(s, w, a))
  {
    hide Whole, Ordered, Continues, Step, Disciplined;
    StepKeepsSerial(s, w, a);
    match a
    case Append => AppendKeepsWhole(s, w, a);
    case Broadcast(p) => BroadcastKeepsWhole(s, w, a);
    case Subscribe => SubscribeKeepsWhole(s, w);
    case Snapshot => SnapshotKeepsWhole(s, w);
    case ReplayOne => StreamKeepsWhole(s, w, a);
    case ForwardOne => StreamKeepsWhole(s, w, a);
    case Receive => StreamKeepsWhole(s, w, a);
    case Disconnect => DisconnectKeepsWhole(s, w);
  }

  lemma {:induction false} RunKeepsLossless(s: Setup, w: World, run: seq<Action>, end: World)
    requires GoodIds(s.log) && s.hasStore
    requires LosslessInv(s, w) && SerialRun(s, w, run, end, true)
    ensures LosslessInv(s, end)
    decreases |run|
  {
    hide LosslessInv, Step, Enabled, Disciplined, InLog;
    if run != [] {
      StepKeepsLossless(s, w, run[0]);
      RunKeepsLossless(s, Step(s, w, run[0]), run[1..], end);
    }
  }

  lemma InitIsLossless(s: Setup)
    ensures LosslessInv(s, Init())
  {
  }

  lemma ReceivedIsPrefix(s: Setup, w: World)
    requires GoodIds(s.log) && LosslessInv(s, w)
    ensures Received(w) <= Kept(s.log, s.filter, w.past.start, w.appended)
    ensures w.phase == Streaming && w.replay == [] && w.chan == [] && w.got == |w.sent| && w.inFlight == {} ==>
              Received(w) == Kept(s.log, s.filter, w.past.start, w.appended)
  {
    hide ChannelInv, Covered, CursorInv, Ordered, Kept, Forwarded, Cursor;
    if w.phase == Streaming {
      EverSentIsPrefix(s, w);
      KeptSplit(s.log, s.filter, w.past.start, Reach(w), w.appended);
      assert Received(w) <= w.before + w.sent;
      assert w.got == |w.sent| ==> Received(w) == w.before + w.sent;
    } else {
      KeptSplit(s.log, s.filter, w.past.start, UpTo(w), w.appended);
      assert Received(w) == w.before;
    }
  }

  /**
    Whole-run exactly-once. Whatever the connects, disconnects and losses on the wire, what
    the client has received over all connections is a gap-free, duplicate-free, in-order
    prefix of the wanted log from `start` on; `start` follows the event of the first cursor.
  */
  lemma ExactlyOnce(s: Setup, run: seq<Action>, w: World)
    requires GoodIds(s.log) && s.hasStore
    requires SerialRun(s, Init(), run, w, true) && w.got <= |w.sent| && w.appended <= |s.log|
    ensures Received(w) <= Kept(s.log, s.filter, w.past.start, w.appended)
    ensures Received(w) != [] && s.firstId != "" ==>
              0 < w.past.start <= |s.log| && s.log[w.past.start - 1].id == s.firstId
    ensures w.phase == Streaming && w.replay == [] && w.chan == [] && w.got == |w.sent| && w.inFlight == {} ==>
              Received(w) == Kept(s.log, s.filter, w.past.start, w.appended)
  {
    hide ChannelInv, Covered, CursorInv, Ordered, Whole, Step, Enabled, SerialRun, Kept;
    InitIsLossless(s);
    RunKeepsLossless(s, Init(), run, w);
    ReceivedIsPrefix(s, w);
  }

  /**
    The discipline is needed: whenever the client's cursor event is still to be broadcast,
    there is a way to go on that delivers it twice without any loss.
  */
  lemma PendingCursorIsDeliveredTwice(s: Setup, w: World) returns (run: seq<Action>, end: World)
    requires GoodIds(s.log) && s.hasStore && s.cap > 0
    requires SerialInv(s, w) && w.phase == Away && w.before != []
    requires w.before[|w.before| - 1] in w.inFlight && Keeps(s.filter, s.log[w.before[|w.before| - 1]])
    ensures Reaches(s, w, run, end) && end.got <= |end.sent|
    ensures Received(end) == w.before + [w.before[|w.before| - 1]]
  {
    hide ChannelInv, Covered, CursorInv, Continues;
    var p := w.before[|w.before| - 1];
    StepKeepsInv(s, w, Subscribe);
    var w1 := Step(s, w, Subscribe);
    StepKeepsInv(s, w1, Broadcast(p));
    var w2 := Step(s, w1, Broadcast(p));
    end := CursorForwarded(s, w2, p);
    ReachesCons(s, w1, Broadcast(p), [Snapshot, ForwardOne, Receive], end);
    run := [Broadcast(p)] + [Snapshot, ForwardOne, Receive];
    ReachesCons(s, w, Subscribe, run, end);
    run := [Subscribe] + run;
  }

  lemma CursorForwarded(s: Setup, w: World, p: nat) returns (end: World)
    requires GoodIds(s.log) && s.hasStore
    requires Inv(s, w) && w.phase == Subscribed && w.replayed == {} && w.chan == [p] && w.appended == p + 1
    requires w.before != [] && w.before[|w.before| - 1] == p
    ensures Reaches(s, w, [Snapshot, ForwardOne, Receive], end)
    ensures end.before == w.before && end.sent == [p] && end.got == 1
  {
    hide ChannelInv, Covered, StreamInv, CursorInv;
    CursorOfReceived(s, w);
    SnapshotRange(s, w, p);
    StepKeepsInv(s, w, Snapshot);
    var w1 := Step(s, w, Snapshot);
    assert w1.replay == [] && w1.replayed == {} && w1.sent == [];
    StepKeepsInv(s, w1, ForwardOne);
    var w2 := Step(s, w1, ForwardOne);
    end := Step(s, w2, Receive);
    ReachesCons(s, w2, Receive, [], end);
    ReachesCons(s, w1, ForwardOne, [Receive], end);
    ReachesCons(s, w, Snapshot, [ForwardOne] + [Receive], end);
    assert [Snapshot] + ([ForwardOne] + [Receive]) == [Snapshot, ForwardOne, Receive];
  }

  lemma ReachesCons(s: Setup, w: World, a: Action, rest: seq<Action>, end: World)
    requires InLog(s, w) && Enabled(s, w, a) && Reaches(s, Step(s, w, a), rest, end)
    ensures Reaches(s, w, [a] + rest, end)
  {
    assert ([a] + rest)[1..] == rest;
  }

  lemma SerialNil(s: Setup, w: World)
    ensures SerialRun(s, w, [], w, true)
  {
  }

  lemma SerialCons(s: Setup, w: World, a: Action, rest: seq<Action>, end: World)
    requires InLog(s, w) && Enabled(s, w, a) && Disciplined(s, w, a) && !Overflows(s, w, a)
    requires SerialRun(s, Step(s, w, a), rest, end, true)
    ensures SerialRun(s, w, [a] + rest, end, true)
  {
    assert ([a] + rest)[1..] == rest;
  }

  lemma FromPendingSubscription(s: Setup, w: World) returns (run: seq<Action>, end: World)
    requires |s.log| >= 2 && GoodIds(s.log) && s.hasStore && s.filter == None && s.firstId == s.log[0].id
    requires w == World(2, {1}, Subscribed, [], [], {}, [], 0, [], Past(1, 1, 1, 0, [], [], {}))
    ensures SerialRun(s, w, run, end, true)
    ensures end.phase == Away && end.before == [1] && 1 in end.inFlight
  {
    hide SerialRun;
    SnapshotRange(s, w, 0);
    var w1 := Step(s, w, Snapshot);
    assert Kept(s.log, s.filter, 1, 2) == [1];
    var w2 := Step(s, w1, ReplayOne);
    var w3 := Step(s, w2, Receive);
    end := Step(s, w3, Disconnect);
    assert end.before == [1];
    SerialNil(s, end);
    SerialCons(s, w3, Disconnect, [], end);
    assert [Disconnect] + [] == [Disconnect];
    SerialCons(s, w2, Receive, [Disconnect], end);
    run := [Receive] + [Disconnect];
    SerialCons(s, w1, ReplayOne, run, end);
    run := [ReplayOne] + run;
    SerialCons(s, w, Snapshot, run, end);
    run := [Snapshot] + run;
  }

  /** Such a moment is reachable by a disciplined, lossless run from any log of two named events. */
  lemma PendingCursorIsReachable(s: Setup) returns (run: seq<Action>, w: World)
    requires |s.log| >= 2 && GoodIds(s.log) && s.hasStore && s.filter == None && s.firstId == s.log[0].id
    ensures SerialRun(s, Init(), run, w, true)
    ensures w.phase == Away && w.before == [1] && 1 in w.inFlight
  {
    hide SerialRun;
    var w0 := Init();
    var w1 := Step(s, w0, Append);
    var w2 := Step(s, w1, Broadcast(0));
    assert w2.inFlight == {};
    var w3 := Step(s, w2, Subscribe);
    var w4 := Step(s, w3, Append);
    assert w4.inFlight == {1};
    run, w := FromPendingSubscription(s, w4);
    SerialCons(s, w3, Append, run, w);
    run := [Append] + run;
    SerialCons(s, w2, Subscribe, run, w);
    run := [Subscribe] + run;
    SerialCons(s, w1, Broadcast(0), run, w);
    run := [Broadcast(0)] + run;
    SerialCons(s, w0, Append, run, w);
    run := [Append] + run;
  }
}
