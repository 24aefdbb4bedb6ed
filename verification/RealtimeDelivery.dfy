/**
  What one connection delivers, under any interleaving of concurrent producers.
*/
module RealtimeDelivery {
  import opened Options
  import opened Realtime
  import opened RealtimeProtocol

  lemma {:induction false} IdNamesPosition(log: seq<Event>, ps: seq<nat>, p: nat)
    requires GoodIds(log) && Below(ps, |log|) && p < |log|
    ensures Duplicate(IdsOf(log, ps), log[p]) <==> p in ps
  {
    if ps != [] {
      var init, last := ps[..|ps| - 1], ps[|ps| - 1];
      IdNamesPosition(log, init, p);
      assert ps == init + [last];
      assert p < last || last < p || p == last;
    }
  }

  lemma {:induction false} ForwardedDistinct(log: seq<Event>, ps: seq<nat>, replayed: set<string>)
    requires Below(ps, |log|) && Distinct(ps)
    ensures Distinct(Forwarded(log, ps, replayed))
  {
    if ps != [] {
      var init, last := ps[..|ps| - 1], ps[|ps| - 1];
      ForwardedDistinct(log, init, replayed);
      ForwardedMembers(log, init, replayed);
      var out := Forwarded(log, init, replayed);
      forall i | 0 <= i < |out|
        ensures out[i] != last
      {
        assert out[i] in out;
        assert out[i] in init;
      }
    }
  }

  lemma DistinctConcat<T>(a: seq<T>, b: seq<T>)
    requires Distinct(a) && Distinct(b) && forall x :: x in a ==> x !in b
    ensures Distinct(a + b)
  {
    forall i, j | 0 <= i < j < |a + b|
      ensures (a + b)[i] != (a + b)[j]
    {
      if i < |a| <= j {
        assert a[i] in a && b[j - |a|] in b;
      }
    }
  }

  lemma DistinctPrefix<T>(a: seq<T>, b: seq<T>)
    requires Distinct(a + b)
    ensures Distinct(a)
  {
    forall i, j | 0 <= i < j < |a|
      ensures a[i] != a[j]
    {
      assert (a + b)[i] == a[i] && (a + b)[j] == a[j];
    }
  }

  lemma Fate(s: Setup, w: World, p: nat)
    requires GoodIds(s.log) && Inv(s, w) && w.phase == Streaming
    requires w.past.from <= p < w.appended && Keeps(s.filter, s.log[p]) && p !in w.inFlight
    ensures p in w.sent || p in w.replay || p in w.chan <==> !(w.past.snap <= p && p in w.past.dropped)
  {
    var h := w.past;
    KeptMeaning(s.log, s.filter, h.from, h.snap);
    ForwardedMembers(s.log, h.taken, w.replayed);
    assert p in h.written + w.replay <==> p < h.snap;
    if h.snap <= p {
      IdNamesPosition(s.log, h.written, p);
      assert p in h.taken + w.chan ==> p !in h.dropped;
    }
  }

  /** A replaying connection reads the log from just after the event its client named. */
  lemma ReplayFollowsCursor(s: Setup, run: seq<Action>, w: World, q: nat)
    requires GoodIds(s.log) && s.hasStore
    requires Reaches(s, Init(), run, w) && w.phase == Streaming
    requires Below(w.before, |s.log|) && q < w.past.snap && q < |s.log| && s.log[q].id == Cursor(s, w.before)
    ensures w.past.from == q + 1
  {
    RunKeepsInv(s, Init(), run, w);
    assert q < w.past.from - 1 || w.past.from - 1 < q || q == w.past.from - 1;
  }

  /**
    The exact fate of every wanted event after the cursor whose broadcast is over: it has
    been sent, or it waits in the replay list or in the channel, unless it was appended
    after the snapshot and met a full channel; then it is in none of the three.
  */
  lemma DeliveredUnlessDropped(s: Setup, run: seq<Action>, w: World, p: nat)
    requires GoodIds(s.log)
    requires Reaches(s, Init(), run, w) && w.phase == Streaming
    requires w.past.from <= p < w.appended <= |s.log| && Keeps(s.filter, s.log[p]) && p !in w.inFlight
    ensures p in w.sent || p in w.replay || p in w.chan <==> !(w.past.snap <= p && p in w.past.dropped)
  {
    RunKeepsInv(s, Init(), run, w);
    Fate(s, w, p);
  }
}
