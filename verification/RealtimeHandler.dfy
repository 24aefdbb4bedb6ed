/**
  The handler's own loops, on events and a stream that may stop accepting writes.
  `HandlerOutput` says what one connection writes; the last lemma shows that the
  interleaved machine of RealtimeProtocol writes exactly that.
*/
module RealtimeHandler {
  import opened Options
  import opened Realtime
  import opened RealtimeProtocol

  /** A store as the handler sees it: whether a read fails and whether it filters by itself. */
  datatype Store = Store(log: seq<Event>, failing: bool, filters: bool)

  const STREAM_ERROR := Event("", "replay store read failed")

  /** The response stream: it accepts `budget` more writes before the client is gone. */
  class Stream {
    var sent: seq<Event>
    var budget: nat

    constructor (budget: nat)
      ensures sent == [] && this.budget == budget
    {
      sent := [];
      this.budget := budget;
    }

    method Send(e: Event) returns (ok: bool)
      modifies this
      ensures ok == (old(budget) > 0)
      ensures sent == if ok then old(sent) + [e] else old(sent)
      ensures budget == if ok then old(budget) - 1 else 0
    {
      ok := budget > 0;
      if ok {
        sent := sent + [e];
        budget := budget - 1;
      }
    }
  }

  function Selected(es: seq<Event>, filter: Filter): seq<Event> {
    if es == [] then []
    else
      var init := Selected(es[..|es| - 1], filter);
      if Keeps(filter, es[|es| - 1]) then init + [es[|es| - 1]] else init
  }

  function Names(es: seq<Event>): set<string> {
    set e | e in es && e.id != "" :: e.id
  }

  function Undupped(es: seq<Event>, replayed: set<string>): seq<Event> {
    if es == [] then []
    else
      var init := Undupped(es[..|es| - 1], replayed);
      if Duplicate(replayed, es[|es| - 1]) then init else init + [es[|es| - 1]]
  }

  /** Everything one connection writes when the client stays: the replay, then what it does not repeat. */
  function HandlerOutput(replay: seq<Event>, inbox: seq<Event>): seq<Event> {
    replay + Undupped(inbox, Names(replay))
  }

  function Take<T>(s: seq<T>, n: nat): seq<T> {
    if n < |s| then s[..n] else s
  }

  /** The wanted events the store holds after `lastId`; None when the read fails. */
  function Missed(store: Store, lastId: string, filter: Filter): Option<seq<Event>> {
    if store.failing then None else Some(Selected(store.log[PosAfter(store.log, lastId)..], filter))
  }

  method EventsAfter(store: Store, lastId: string, filter: Filter) returns (r: Option<seq<Event>>)
    ensures r == Missed(store, lastId, filter)
  {
    if store.failing {
      return None;
    }
    var all := store.log[PosAfter(store.log, lastId)..];
    if filter == None {
      SelectedWithoutFilter(all);
      return Some(all);
    }
    if store.filters {
      return Some(Selected(all, filter));
    }
    var events := [];
    for i := 0 to |all|
      invariant events == Selected(all[..i], filter)
    {
      assert all[..i + 1][..i] == all[..i];
      if SafeFilter(filter.value, all[i]) {
        events := events + [all[i]];
      }
    }
    assert all[..|all|] == all;
    return Some(events);
  }

  lemma {:induction false} SelectedWithoutFilter(es: seq<Event>)
    ensures Selected(es, None) == es
  {
    if es != [] {
      SelectedWithoutFilter(es[..|es| - 1]);
    }
  }

  /**
    Writes the missed events in order. The connection is abandoned (ok is false) after a
    store failure, which is announced first, and after a refused write.
  */
  method ReplayMissedEvents(stream: Stream, store: Option<Store>, lastId: string, filter: Filter)
    returns (replayed: set<string>, ok: bool)
    modifies stream
    ensures store == None || lastId == "" ==>
              ok && replayed == {} && stream.sent == old(stream.sent) && stream.budget == old(stream.budget)
    ensures store != None && lastId != "" && Missed(store.value, lastId, filter) == None ==>
              !ok && stream.sent == old(stream.sent) + Take([STREAM_ERROR], old(stream.budget))
    ensures store != None && lastId != "" && Missed(store.value, lastId, filter) != None ==>
              var missed := Missed(store.value, lastId, filter).value;
              var written := Take(missed, old(stream.budget));
              && stream.sent == old(stream.sent) + written
              && replayed == Names(written)
              && ok == (|missed| <= old(stream.budget))
              && stream.budget == old(stream.budget) - |written|
  {
    replayed := {};
    if store == None || lastId == "" {
      return {}, true;
    }
    var r := EventsAfter(store.value, lastId, filter);
    if r == None {
      var _ := stream.Send(STREAM_ERROR);
      return {}, false;
    }
    var events := r.value;
    for i := 0 to |events|
      invariant i <= old(stream.budget) && stream.budget == old(stream.budget) - i
      invariant stream.sent == old(stream.sent) + events[..i]
      invariant replayed == Names(events[..i])
    {
      var written := stream.Send(events[i]);
      if !written {
        return replayed, false;
      }
      assert events[..i + 1] == events[..i] + [events[i]];
      assert Names(events[..i + 1]) == Names(events[..i]) + Names([events[i]]);
      if events[i].id != "" {
        replayed := replayed + {events[i].id};
      }
    }
    assert events[..|events|] == events;
    return replayed, true;
  }

  /** Forwards what the loop receives before the client leaves or the channel closes. */
  method ForwardLive(stream: Stream, inbox: seq<Event>, replayed: set<string>)
    modifies stream
    ensures stream.sent == old(stream.sent) + Take(Undupped(inbox, replayed), old(stream.budget))
  {
    hide Undupped;
    UnduppedStart(inbox, replayed);
    for i := 0 to |inbox|
      invariant var out := Undupped(inbox[..i], replayed);
                |out| <= old(stream.budget) && stream.budget == old(stream.budget) - |out|
                && stream.sent == old(stream.sent) + out
    {
      UnduppedSnoc(inbox, i, replayed);
      if !Duplicate(replayed, inbox[i]) {
        var written := stream.Send(inbox[i]);
        if !written {
          return;
        }
      }
    }
    assert inbox[..|inbox|] == inbox;
  }

  lemma UnduppedStart(es: seq<Event>, replayed: set<string>)
    ensures Undupped(es[..0], replayed) == []
  {
  }

  lemma UnduppedSnoc(es: seq<Event>, i: nat, replayed: set<string>)
    requires i < |es|
    ensures Undupped(es[..i + 1], replayed) ==
            Undupped(es[..i], replayed) + if Duplicate(replayed, es[i]) then [] else [es[i]]
    ensures Undupped(es[..i + 1], replayed) <= Undupped(es, replayed)
  {
    assert es[..i + 1][..i] == es[..i];
    UnduppedPrefix(es, i + 1, replayed);
  }

  lemma {:induction false} UnduppedPrefix(es: seq<Event>, n: nat, replayed: set<string>)
    requires n <= |es|
    ensures Undupped(es[..n], replayed) <= Undupped(es, replayed)
    decreases |es| - n
  {
    if n == |es| {
      assert es[..n] == es;
    } else {
      UnduppedPrefix(es, n + 1, replayed);
      assert es[..n + 1][..n] == es[..n];
    }
  }

  /** One connection, after the subscription: replay, then the live loop unless the replay gave up. */
  method Handle(stream: Stream, store: Option<Store>, lastId: string, filter: Filter, inbox: seq<Event>)
    requires stream.sent == []
    modifies stream
    ensures store == None || lastId == "" ==> stream.sent == Take(inbox, old(stream.budget))
    ensures store != None && lastId != "" ==>
              stream.sent ==
                match Missed(store.value, lastId, filter)
                case None => Take([STREAM_ERROR], old(stream.budget))
                case Some(missed) => Take(HandlerOutput(missed, inbox), old(stream.budget))
  {
    hide Undupped, Missed, Names;
    UnduppedNothing(inbox);
    var replayed, ok := ReplayMissedEvents(stream, store, lastId, filter);
    if ok {
      ForwardLive(stream, inbox, replayed);
    }
  }

  lemma {:induction false} UnduppedNothing(es: seq<Event>)
    ensures Undupped(es, {}) == es
  {
    if es != [] {
      UnduppedNothing(es[..|es| - 1]);
    }
  }

  // ---------------------------------------------------------------------------
  // The interleaved machine writes what the handler's loops write
  // ---------------------------------------------------------------------------

  function EventsAt(log: seq<Event>, ps: seq<nat>): (es: seq<Event>)
    requires Below(ps, |log|)
    ensures |es| == |ps| && forall i :: 0 <= i < |ps| ==> es[i] == log[ps[i]]
  {
    seq(|ps|, i requires 0 <= i < |ps| => log[ps[i]])
  }

  lemma {:induction false} KeptIsSelected(log: seq<Event>, filter: Filter, lo: nat, hi: nat)
    requires lo <= hi <= |log|
    ensures EventsAt(log, Kept(log, filter, lo, hi)) == Selected(log[lo..hi], filter)
  {
    if lo < hi {
      KeptIsSelected(log, filter, lo, hi - 1);
      assert log[lo..hi][..hi - 1 - lo] == log[lo..hi - 1];
    }
  }

  lemma {:induction false} ForwardedIsUndupped(log: seq<Event>, ps: seq<nat>, replayed: set<string>)
    requires Below(ps, |log|)
    ensures Below(Forwarded(log, ps, replayed), |log|)
    ensures EventsAt(log, Forwarded(log, ps, replayed)) == Undupped(EventsAt(log, ps), replayed)
  {
    if ps != [] {
      ForwardedIsUndupped(log, ps[..|ps| - 1], replayed);
      assert EventsAt(log, ps)[..|ps| - 1] == EventsAt(log, ps[..|ps| - 1]);
    }
  }

  lemma {:induction false} IdsAreNames(log: seq<Event>, ps: seq<nat>)
    requires Below(ps, |log|)
    ensures IdsOf(log, ps) == Names(EventsAt(log, ps))
  {
    if ps != [] {
      var init, last := ps[..|ps| - 1], ps[|ps| - 1];
      IdsAreNames(log, init);
      assert EventsAt(log, ps) == EventsAt(log, init) + [log[last]];
      assert Names(EventsAt(log, ps)) == Names(EventsAt(log, init)) + Names([log[last]]);
    }
  }

  /**
    For every log, filter and interleaving: once a connection has emptied its replay list,
    it has written exactly what the handler writes when its store read returns the snapshot
    and its loop receives the events taken from the channel.
  */
  lemma ConnectionWritesHandlerOutput(s: Setup, run: seq<Action>, w: World)
    requires Reaches(s, Init(), run, w) && w.phase == Streaming && w.replay == []
    requires w.past.from <= w.past.snap <= |s.log| && Below(w.past.taken, |s.log|) && Below(w.sent, |s.log|)
    ensures EventsAt(s.log, w.sent) ==
            HandlerOutput(Selected(s.log[w.past.from..w.past.snap], s.filter), EventsAt(s.log, w.past.taken))
  {
    RunKeepsInv(s, Init(), run, w);
    assert w.past.written + w.replay == w.past.written;
    KeptIsSelected(s.log, s.filter, w.past.from, w.past.snap);
    IdsAreNames(s.log, w.past.written);
    ForwardedIsUndupped(s.log, w.past.taken, w.replayed);
    var out := Forwarded(s.log, w.past.taken, w.replayed);
    assert EventsAt(s.log, w.past.written + out) == EventsAt(s.log, w.past.written) + EventsAt(s.log, out);
  }

  // ---------------------------------------------------------------------------
  // What the store read means
  // ---------------------------------------------------------------------------

  /** The read starts right behind the first event with the client's ID: the wanted events from there on. */
  lemma MissedIsRest(store: Store, a: seq<Event>, e: Event, b: seq<Event>, filter: Filter)
    requires !store.failing && store.log == a + [e] + b
    requires forall i :: 0 <= i < |a| ==> a[i].id != e.id
    ensures Missed(store, e.id, filter) == Some(EventsAt(store.log, Kept(store.log, filter, |a| + 1, |store.log|)))
  {
    hide Selected, Kept;
    var log := store.log;
    assert log[|a|] == e;
    var pos := PosAfter(log, e.id);
    assert forall p :: 0 <= p < |a| ==> log[p] == a[p];
    assert pos == |a| + 1;
    KeptIsSelected(log, filter, pos, |log|);
    assert log[pos..|log|] == log[pos..];
  }

  /** An ID that is not in the store gives nothing; a failing store gives no result at all. */
  lemma MissedWithoutCursor(store: Store, lastId: string, filter: Filter)
    ensures Missed(store, lastId, filter) == None <==> store.failing
    ensures !store.failing && (forall i :: 0 <= i < |store.log| ==> store.log[i].id != lastId) ==>
              Missed(store, lastId, filter) == Some([])
  {
    if forall i :: 0 <= i < |store.log| ==> store.log[i].id != lastId {
      assert PosAfter(store.log, lastId) == |store.log|;
      assert store.log[|store.log|..] == [];
    }
  }

  /**
    Every snapshot step of the machine is the handler's store read with the client's cursor,
    whether or not the store filters by itself; without a store or a cursor nothing is replayed.
  */
  lemma SnapshotIsStoreRead(s: Setup, run: seq<Action>, w: World, filters: bool)
    requires Reaches(s, Init(), run, w) && InLog(s, w) && Enabled(s, w, Snapshot)
    ensures var replay := Step(s, w, Snapshot).replay;
      && Below(replay, |s.log|)
      && if s.hasStore && Cursor(s, w.before) != "" then
           Missed(Store(s.log[..w.appended], false, filters), Cursor(s, w.before), s.filter) == Some(EventsAt(s.log, replay))
         else replay == []
  {
    hide Cursor, Kept, Selected, ChannelInv, Covered, CursorInv;
    RunKeepsInv(s, Init(), run, w);
    var store := s.log[..w.appended];
    if s.hasStore && Cursor(s, w.before) != "" {
      var pos := PosAfter(store, Cursor(s, w.before));
      KeptIsSelected(s.log, s.filter, pos, w.appended);
      assert store[pos..] == s.log[pos..w.appended];
    }
  }
}
