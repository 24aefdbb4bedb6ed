/**
  The replay/live merge of realtime/handler.go.

  `Handler` subscribes to the broadcaster, reads the store, replays what the
  client missed and then forwards the live channel, skipping the IDs it has
  already replayed. This module holds the vocabulary shared by its two views:
  the handler's own loops (module RealtimeHandler) and the interleaving of one
  client with any number of producers (module RealtimeProtocol).
*/
module Realtime {
  import opened Options

  datatype Event = Event(id: string, data: string)

  // What a user-supplied filter does with one event.
  datatype Verdict = Match | NoMatch | Panic

  type Filter = Option<Event -> Verdict>

  /** Panicking predicates count as a non-match. */
  predicate SafeFilter(pred: Event -> Verdict, e: Event) {
    pred(e) == Match
  }

  predicate Keeps(filter: Filter, e: Event) {
    filter.Some? ==> SafeFilter(filter.value, e)
  }

  /** An event is dropped exactly when a filter turns it down or panics on it. */
  lemma DroppedExactly(filter: Filter, e: Event)
    ensures !Keeps(filter, e) <==> filter.Some? && (filter.value(e) == NoMatch || filter.value(e) == Panic)
  {
  }

  /** The position just after the first event named `id`, or the end of the log. */
  function PosAfter(log: seq<Event>, id: string): (pos: nat)
    ensures pos <= |log|
    ensures pos < |log| ==> pos > 0 && log[pos - 1].id == id
    ensures forall p :: 0 <= p < pos - 1 ==> log[p].id != id
    ensures (exists p :: 0 <= p < |log| && log[p].id == id) ==> pos > 0 && log[pos - 1].id == id
  {
    if log == [] then 0
    else if log[0].id == id then 1
    else
      var rest := PosAfter(log[1..], id);
      assert forall p :: 0 < p < |log| ==> log[p] == log[1..][p - 1];
      1 + rest
  }

  /** The log positions in [lo, hi) that pass the filter, in log order. */
  function Kept(log: seq<Event>, filter: Filter, lo: nat, hi: nat): (ps: seq<nat>)
    requires hi <= |log|
    ensures Below(ps, hi)
  {
    if hi <= lo then []
    else if Keeps(filter, log[hi - 1]) then Kept(log, filter, lo, hi - 1) + [hi - 1]
    else Kept(log, filter, lo, hi - 1)
  }

  lemma {:induction false} KeptHas(log: seq<Event>, filter: Filter, lo: nat, hi: nat, p: nat)
    requires hi <= |log|
    ensures p in Kept(log, filter, lo, hi) <==> lo <= p < hi && Keeps(filter, log[p])
  {
    hide Keeps;
    if lo < hi {
      KeptHas(log, filter, lo, hi - 1, p);
    }
  }

  lemma {:induction false} KeptIncreases(log: seq<Event>, filter: Filter, lo: nat, hi: nat)
    requires hi <= |log|
    ensures Increasing(Kept(log, filter, lo, hi))
  {
    hide Keeps;
    if lo < hi {
      KeptIncreases(log, filter, lo, hi - 1);
    }
  }

  lemma KeptMeaning(log: seq<Event>, filter: Filter, lo: nat, hi: nat)
    requires hi <= |log|
    ensures var ps := Kept(log, filter, lo, hi);
      && (forall p :: p in ps <==> lo <= p < hi && Keeps(filter, log[p]))
      && Increasing(ps)
  {
    hide Keeps, Kept;
    KeptIncreases(log, filter, lo, hi);
    forall p: nat
      ensures p in Kept(log, filter, lo, hi) <==> lo <= p < hi && Keeps(filter, log[p])
    {
      KeptHas(log, filter, lo, hi, p);
    }
  }

  ghost predicate Below(ps: seq<nat>, n: nat) {
    forall i :: 0 <= i < |ps| ==> ps[i] < n
  }

  ghost predicate Increasing(ps: seq<nat>) {
    forall i, j :: 0 <= i < j < |ps| ==> ps[i] < ps[j]
  }

  ghost predicate Distinct<T>(s: seq<T>) {
    forall i, j :: 0 <= i < j < |s| ==> s[i] != s[j]
  }

  lemma {:induction false} KeptSplit(log: seq<Event>, filter: Filter, lo: nat, mid: nat, hi: nat)
    requires lo <= mid <= hi <= |log|
    ensures Kept(log, filter, lo, hi) == Kept(log, filter, lo, mid) + Kept(log, filter, mid, hi)
  {
    if mid < hi {
      KeptSplit(log, filter, lo, mid, hi - 1);
      var a, b := Kept(log, filter, lo, mid), Kept(log, filter, mid, hi - 1);
      assert a + (b + [hi - 1]) == (a + b) + [hi - 1];
    } else {
      assert Kept(log, filter, lo, mid) + [] == Kept(log, filter, lo, mid);
    }
  }

  /** What `forwardLive` lets through: everything but the named duplicates of the replay. */
  predicate Duplicate(replayed: set<string>, e: Event) {
    e.id != "" && e.id in replayed
  }

  /** The assumption on the store: every event is named, and no name is used twice. */
  ghost predicate GoodIds(log: seq<Event>) {
    && (forall p :: 0 <= p < |log| ==> log[p].id != "")
    && (forall p, q :: 0 <= p < q < |log| ==> log[p].id != log[q].id)
  }
}
