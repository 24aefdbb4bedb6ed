/**
  One SSE client against any number of concurrent producers.

  A run fixes the final store log up front; at every moment the store holds the
  prefix of length `appended`, and an event is named by its log position. Every
  producer first appends and later finishes its broadcast, so a position in
  `inFlight` has been stored but not yet broadcast. A broadcast is one
  non-blocking send into the subscriber's bounded channel.
*/
module RealtimeProtocol {
  import opened Options
  import opened Realtime

  datatype Setup = Setup(log: seq<Event>, filter: Filter, cap: nat, hasStore: bool, firstId: string)

  datatype Phase = Away | Subscribed | Streaming

  datatype World = World(
    appended: nat,
    inFlight: set<nat>,
    phase: Phase,
    chan: seq<nat>,         // the subscriber's channel
    replay: seq<nat>,       // snapshot events not written yet
    replayed: set<string>,  // the IDs written from the snapshot
    sent: seq<nat>,         // written on this connection
    got: nat,               // how many of `sent` have reached the client
    before: seq<nat>,       // received on earlier connections
    past: Past)

  // The history of the current connection. No step decides anything by it.
  datatype Past = Past(
    base: nat,              // every position from here on was unbroadcast at subscription
    from: nat, snap: nat,   // the snapshot covered positions [from, snap)
    start: nat,             // `from` of the first connection that delivered anything
    written: seq<nat>,      // sent out of the snapshot
    taken: seq<nat>,        // received from the channel
    dropped: set<nat>)      // broadcast while the channel was full

  datatype Action =
    | Append | Broadcast(p: nat)
    | Subscribe | Snapshot | ReplayOne | ForwardOne
    | Receive | Disconnect

  function Init(): World {
    World(0, {}, Away, [], [], {}, [], 0, [], Past(0, 0, 0, 0, [], [], {}))
  }

  function Received(w: World): seq<nat>
    requires w.got <= |w.sent|
  {
    w.before + w.sent[..w.got]
  }

  /** What the browser presents as Last-Event-ID: the last non-empty ID it has received. */
  function Cursor(s: Setup, received: seq<nat>): string
    requires Below(received, |s.log|)
  {
    if received == [] then s.firstId
    else
      var last := received[|received| - 1];
      if s.log[last].id != "" then s.log[last].id else Cursor(s, received[..|received| - 1])
  }

  /** The least position such that everything from it up to n is still to be broadcast. */
  function Base(n: nat, inFlight: set<nat>): (b: nat)
    ensures b <= n && forall p :: b <= p < n ==> p in inFlight
    ensures b > 0 ==> b - 1 !in inFlight
  {
    if n > 0 && n - 1 in inFlight then Base(n - 1, inFlight) else n
  }

  function IdsOf(log: seq<Event>, ps: seq<nat>): (ids: set<string>)
    requires Below(ps, |log|)
  {
    if ps == [] then {}
    else
      var init, id := IdsOf(log, ps[..|ps| - 1]), log[ps[|ps| - 1]].id;
      if id == "" then init else init + {id}
  }

  /** What is left of `ps` once the replayed IDs are skipped. */
  function Forwarded(log: seq<Event>, ps: seq<nat>, replayed: set<string>): seq<nat>
    requires Below(ps, |log|)
  {
    if ps == [] then []
    else
      var init, last := Forwarded(log, ps[..|ps| - 1], replayed), ps[|ps| - 1];
      if Duplicate(replayed, log[last]) then init else init + [last]
  }

  ghost predicate InLog(s: Setup, w: World) {
    && w.appended <= |s.log|
    && (forall p :: p in w.inFlight ==> p < w.appended)
    && Below(w.before, w.appended) && Below(w.chan, w.appended) && Below(w.replay, w.appended)
    && w.got <= |w.sent|
    && (w.phase != Streaming ==> w.sent == [])
  }

  ghost predicate Enabled(s: Setup, w: World, a: Action) {
    match a
    case Append => w.appended < |s.log|
    case Broadcast(p) => p in w.inFlight
    case Subscribe => w.phase == Away
    case Snapshot => w.phase == Subscribed
    case ReplayOne => w.phase == Streaming && w.replay != []
    case ForwardOne => w.phase == Streaming && w.replay == [] && w.chan != []
    case Receive => w.phase != Away && w.got < |w.sent|
    case Disconnect => w.phase != Away
  }

  /** A broadcast this subscriber wants. */
  predicate Wanted(s: Setup, w: World, p: nat)
    requires p < |s.log|
  {
    w.phase != Away && Keeps(s.filter, s.log[p])
  }

  function Snapshotted(s: Setup, w: World): World
    requires InLog(s, w)
  {
    var store := s.log[..w.appended];
    var cursor := Cursor(s, w.before);
    if !s.hasStore || cursor == "" then w
    else
      var pos := PosAfter(store, cursor);
      var w1 := w.(replay := Kept(s.log, s.filter, pos, w.appended));
      if pos > 0 && store[pos - 1].id == cursor then w1.(past := w.past.(from := pos, snap := w.appended)) else w1
  }

  function Step(s: Setup, w: World, a: Action): World
    requires InLog(s, w) && Enabled(s, w, a)
  {
    match a
    case Append => w.(appended := w.appended + 1, inFlight := w.inFlight + {w.appended})
    case Broadcast(p) =>
      var w1 := w.(inFlight := w.inFlight - {p});
      if !Wanted(s, w, p) then w1
      else if |w.chan| >= s.cap then w1.(past := w.past.(dropped := w.past.dropped + {p}))
      else w1.(chan := w.chan + [p])
    case Subscribe =>
      var b := Base(w.appended, w.inFlight);
      w.(phase := Subscribed, chan := [], replay := [], replayed := {}, sent := [], got := 0,
         past := Past(b, b, b, w.past.start, [], [], {}))
    case Snapshot =>
      var w1 := Snapshotted(s, w);
      var start := if w.before == [] then w1.past.from else w.past.start;
      w1.(phase := Streaming, past := w1.past.(start := start))
    case ReplayOne =>
      var p := w.replay[0];
      var id := s.log[p].id;
      w.(sent := w.sent + [p], replay := w.replay[1..],
         replayed := if id == "" then w.replayed else w.replayed + {id},
         past := w.past.(written := w.past.written + [p]))
    case ForwardOne =>
      var p := w.chan[0];
      w.(sent := if Duplicate(w.replayed, s.log[p]) then w.sent else w.sent + [p], chan := w.chan[1..],
         past := w.past.(taken := w.past.taken + [p]))
    case Receive => w.(got := w.got + 1)
    case Disconnect =>
      w.(phase := Away, before := Received(w), chan := [], replay := [], replayed := {}, sent := [], got := 0)
  }

  /** A broadcast that finds this subscriber interested but its channel full. */
  predicate Overflows(s: Setup, w: World, a: Action) {
    a.Broadcast? && a.p < |s.log| && Wanted(s, w, a.p) && |w.chan| >= s.cap
  }

  ghost predicate Reaches(s: Setup, w: World, run: seq<Action>, end: World)
    decreases |run|
  {
    if run == [] then w == end
    else InLog(s, w) && Enabled(s, w, run[0]) && Reaches(s, Step(s, w, run[0]), run[1..], end)
  }

  // ---------------------------------------------------------------------------
  // What every step keeps, for every log, filter, capacity and interleaving
  // ---------------------------------------------------------------------------

  ghost predicate ChannelInv(s: Setup, w: World)
    requires w.appended <= |s.log|
  {
    var arrived := w.past.taken + w.chan;
    && Below(arrived, w.appended)
    && Distinct(arrived)
    && (forall i :: 0 <= i < |arrived| ==> Keeps(s.filter, s.log[arrived[i]]) && arrived[i] !in w.inFlight)
    && (forall i :: 0 <= i < |arrived| ==> arrived[i] !in w.past.dropped)
    && (forall p :: p in w.past.dropped ==> p < w.appended && p !in w.inFlight)
    && |w.chan| <= s.cap
  }

  /** Since the subscription no wanted broadcast has gone anywhere else. */
  ghost predicate Covered(s: Setup, w: World)
    requires w.appended <= |s.log|
  {
    forall p :: w.past.base <= p < w.appended && Keeps(s.filter, s.log[p]) ==>
      p in w.inFlight || p in w.past.dropped || p in w.past.taken || p in w.chan
  }

  ghost predicate StreamInv(s: Setup, w: World) {
    var h := w.past;
    && w.appended <= |s.log|
    && h.base <= h.snap <= w.appended
    && h.from <= h.snap
    && Below(h.written, |s.log|) && Below(h.taken, |s.log|)
    && Kept(s.log, s.filter, h.from, h.snap) == h.written + w.replay
    && (h.taken != [] ==> w.replay == [])
    && w.replayed == IdsOf(s.log, h.written)
    && w.sent == h.written + Forwarded(s.log, h.taken, w.replayed)
    && (w.phase == Subscribed ==> h.taken == [] && w.replay == [] && h.written == [] && h.from == h.snap == h.base)
  }

  /** A snapshot that could find the cursor event starts just after it. */
  ghost predicate CursorInv(s: Setup, w: World)
    requires InLog(s, w) && StreamInv(s, w)
  {
    w.phase == Streaming && s.hasStore && Cursor(s, w.before) != "" ==>
      forall q :: 0 <= q < w.past.snap && s.log[q].id == Cursor(s, w.before) ==>
        w.past.from > 0 && s.log[w.past.from - 1].id == Cursor(s, w.before)
  }

  ghost predicate Inv(s: Setup, w: World) {
    && InLog(s, w)
    && (w.phase != Away ==>
          ChannelInv(s, w) && Covered(s, w) && StreamInv(s, w) && CursorInv(s, w) && Below(w.sent, w.appended))
  }

  lemma {:induction false} ForwardedMembers(log: seq<Event>, ps: seq<nat>, replayed: set<string>)
    requires Below(ps, |log|)
    ensures forall p :: p in Forwarded(log, ps, replayed) <==> p in ps && !Duplicate(replayed, log[p])
  {
    if ps != [] {
      ForwardedMembers(log, ps[..|ps| - 1], replayed);
      assert ps == ps[..|ps| - 1] + [ps[|ps| - 1]];
    }
  }

  lemma EnqueueKeepsChannel(s: Setup, w: World, p: nat)
    requires InLog(s, w) && ChannelInv(s, w) && Enabled(s, w, Broadcast(p))
    ensures ChannelInv(s, Step(s, w, Broadcast(p)))
  {
    var w' := Step(s, w, Broadcast(p));
    var arrived := w.past.taken + w.chan;
    if w'.chan != w.chan {
      assert w'.past.taken + w'.chan == arrived + [p];
    }
  }

  lemma BroadcastKeepsInv(s: Setup, w: World, p: nat)
    requires Inv(s, w) && Enabled(s, w, Broadcast(p))
    ensures Inv(s, Step(s, w, Broadcast(p)))
  {
    hide ChannelInv, Kept, Forwarded, IdsOf, Cursor;
    var w' := Step(s, w, Broadcast(p));
    if w.phase != Away {
      EnqueueKeepsChannel(s, w, p);
      assert Covered(s, w');
      assert StreamInv(s, w');
    }
  }

  lemma AppendKeepsInv(s: Setup, w: World)
    requires Inv(s, w) && Enabled(s, w, Append)
    ensures Inv(s, Step(s, w, Append))
  {
    hide Kept, Forwarded, IdsOf, Cursor;
    var w' := Step(s, w, Append);
    if w.phase != Away {
      assert ChannelInv(s, w');
      assert Covered(s, w');
      assert StreamInv(s, w');
    }
  }

  lemma SubscribeKeepsInv(s: Setup, w: World)
    requires Inv(s, w) && Enabled(s, w, Subscribe)
    ensures Inv(s, Step(s, w, Subscribe))
  {
    var w' := Step(s, w, Subscribe);
    assert w'.past.taken + w'.chan == [];
    assert StreamInv(s, w');
  }

  lemma SnapshotKeepsInv(s: Setup, w: World)
    requires Inv(s, w) && Enabled(s, w, Snapshot)
    ensures Inv(s, Step(s, w, Snapshot))
  {
    hide Cursor;
    var w' := Step(s, w, Snapshot);
    assert w'.past.written + w'.replay == w'.replay;
    assert StreamInv(s, w');
    assert ChannelInv(s, w');
    assert Covered(s, w');
    SnapshotFindsCursor(s, w);
  }

  lemma SnapshotFindsCursor(s: Setup, w: World)
    requires InLog(s, w) && StreamInv(s, w) && Enabled(s, w, Snapshot)
    requires StreamInv(s, Step(s, w, Snapshot))
    ensures CursorInv(s, Step(s, w, Snapshot))
  {
    var w' := Step(s, w, Snapshot);
    var store, cursor := s.log[..w.appended], Cursor(s, w.before);
    forall q | 0 <= q < w'.past.snap && s.log[q].id == cursor && s.hasStore && cursor != ""
      ensures w'.past.from > 0 && s.log[w'.past.from - 1].id == cursor
    {
      assert store[q].id == cursor;
    }
  }

  lemma ReplayKeepsStream(s: Setup, w: World)
    requires InLog(s, w) && StreamInv(s, w) && Enabled(s, w, ReplayOne)
    ensures StreamInv(s, Step(s, w, ReplayOne))
  {
    var w' := Step(s, w, ReplayOne);
    assert w'.past.written + w'.replay == w.past.written + w.replay;
    assert w'.past.written[..|w'.past.written| - 1] == w.past.written;
  }

  lemma ReplayKeepsInv(s: Setup, w: World)
    requires Inv(s, w) && Enabled(s, w, ReplayOne)
    ensures Inv(s, Step(s, w, ReplayOne))
  {
    hide Kept, Cursor;
    var w' := Step(s, w, ReplayOne);
    ReplayKeepsStream(s, w);
    assert ChannelInv(s, w');
    assert Covered(s, w');
  }

  lemma ForwardKeepsStream(s: Setup, w: World)
    requires InLog(s, w) && StreamInv(s, w) && Enabled(s, w, ForwardOne)
    ensures StreamInv(s, Step(s, w, ForwardOne))
  {
    var w' := Step(s, w, ForwardOne);
    assert w'.past.taken[..|w'.past.taken| - 1] == w.past.taken;
  }

  lemma ForwardKeepsInv(s: Setup, w: World)
    requires Inv(s, w) && Enabled(s, w, ForwardOne)
    ensures Inv(s, Step(s, w, ForwardOne))
  {
    hide Kept, Cursor;
    var w' := Step(s, w, ForwardOne);
    ForwardKeepsStream(s, w);
    assert w'.past.taken + w'.chan == w.past.taken + w.chan;
    assert w.chan == [w.chan[0]] + w'.chan;
    assert ChannelInv(s, w');
    assert Covered(s, w');
  }

  lemma ClientKeepsInv(s: Setup, w: World, a: Action)
    requires Inv(s, w) && Enabled(s, w, a) && (a == Receive || a == Disconnect)
    ensures Inv(s, Step(s, w, a))
  {
  }

  lemma StepKeepsInv(s: Setup, w: World, a: Action)
    requires Inv(s, w) && Enabled(s, w, a)
    ensures Inv(s, Step(s, w, a))
  {
    hide Inv, Step;
    match a
    case Append => AppendKeepsInv(s, w);
    case Broadcast(p) => BroadcastKeepsInv(s, w, p);
    case Subscribe => SubscribeKeepsInv(s, w);
    case Snapshot => SnapshotKeepsInv(s, w);
    case ReplayOne => ReplayKeepsInv(s, w);
    case ForwardOne => ForwardKeepsInv(s, w);
    case Receive => ClientKeepsInv(s, w, a);
    case Disconnect => ClientKeepsInv(s, w, a);
  }

  lemma {:induction false} RunKeepsInv(s: Setup, w: World, run: seq<Action>, end: World)
    requires Inv(s, w) && Reaches(s, w, run, end)
    ensures Inv(s, end)
    decreases |run|
  {
    hide Inv, Step;
    if run != [] {
      StepKeepsInv(s, w, run[0]);
      RunKeepsInv(s, Step(s, w, run[0]), run[1..], end);
    }
  }
}
