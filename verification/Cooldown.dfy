/**
  The capture cooldown of flightrecorderhealth/adapter.go. The decision is made under a
  mutex, so any interleaving of health batches is a sequence of decisions; the clock is
  read inside the locked section and never runs backwards.
*/
module Cooldown {
  import opened Options
  import opened Sorting
  import Text

  type Results = map<string, Option<string>>

  // One locked section: the clock at the check, whether the recorder would capture, and when
  // it captures and the stamp is taken.
  datatype Decision = Decision(check: int, fires: bool, at: int, stamp: int)

  predicate Blocked(cooldown: int, last: Option<int>, now: int) {
    cooldown > 0 && last != None && now - last.value < cooldown
  }

  predicate Captures(cooldown: int, last: Option<int>, d: Decision) {
    !Blocked(cooldown, last, d.check) && d.fires
  }

  class Trigger {
    const cooldown: int
    const hasRecorder: bool
    var lastCapture: Option<int>
    var captured: seq<int>   // when captures were made, oldest first

    constructor (cooldown: int, hasRecorder: bool)
      ensures this.cooldown == cooldown && this.hasRecorder == hasRecorder
      ensures lastCapture == None && captured == []
    {
      this.cooldown, this.hasRecorder := cooldown, hasRecorder;
      lastCapture, captured := None, [];
    }

    /** The batch's results come back untouched, whatever the trigger decides. */
    method RecordHealthCheck(batch: Results, d: Decision) returns (results: Results)
      modifies this
      ensures results == batch
      ensures if hasRecorder && d.fires
                 && (cooldown <= 0 || old(lastCapture) == None || d.check - old(lastCapture).value >= cooldown)
              then captured == old(captured) + [d.at] && lastCapture == Some(d.stamp)
              else captured == old(captured) && lastCapture == old(lastCapture)
    {
      results := batch;
      if !hasRecorder {
        return;
      }
      if cooldown > 0 && lastCapture != None && d.check - lastCapture.value < cooldown {
        return;
      }
      if d.fires {
        captured := captured + [d.at];
        lastCapture := Some(d.stamp);
      }
    }

    /** A whole run of decisions in the order the mutex admits them. */
    method RunBatches(batches: seq<Results>, ds: seq<Decision>)
      requires |batches| == |ds| && hasRecorder && lastCapture == None && captured == []
      modifies this
      ensures captured == CapturedBy(cooldown, ds)
    {
      for i := 0 to |ds|
        invariant captured == CapturedBy(cooldown, ds[..i]) && lastCapture == LastStamp(cooldown, ds[..i])
      {
        assert ds[..i + 1][..i] == ds[..i];
        var _ := RecordHealthCheck(batches[i], ds[i]);
      }
      assert ds[..|ds|] == ds;
    }
  }

  /** The stamp of the latest capture after the given decisions. */
  function LastStamp(cooldown: int, ds: seq<Decision>): Option<int> {
    if ds == [] then None
    else
      var before, d := LastStamp(cooldown, ds[..|ds| - 1]), ds[|ds| - 1];
      if Captures(cooldown, before, d) then Some(d.stamp) else before
  }

  function CapturedBy(cooldown: int, ds: seq<Decision>): seq<int> {
    if ds == [] then []
    else
      var init, d := CapturedBy(cooldown, ds[..|ds| - 1]), ds[|ds| - 1];
      if Captures(cooldown, LastStamp(cooldown, ds[..|ds| - 1]), d) then init + [d.at] else init
  }

  /** Decision i captures. */
  predicate CapturedAt(cooldown: int, ds: seq<Decision>, i: nat)
    requires i < |ds|
  {
    Captures(cooldown, LastStamp(cooldown, ds[..i]), ds[i])
  }

  /** The stamp that counts is that of the latest capture. */
  lemma {:induction false} LastStampExactly(cooldown: int, ds: seq<Decision>)
    ensures LastStamp(cooldown, ds) == None <==> forall i :: 0 <= i < |ds| ==> !CapturedAt(cooldown, ds, i)
    ensures LastStamp(cooldown, ds) != None ==>
              exists i :: 0 <= i < |ds| && CapturedAt(cooldown, ds, i) && LastStamp(cooldown, ds) == Some(ds[i].stamp)
                          && forall j :: i < j < |ds| ==> !CapturedAt(cooldown, ds, j)
  {
    hide Captures;
    if ds != [] {
      var n := |ds| - 1;
      LastStampExactly(cooldown, ds[..n]);
      forall i | 0 <= i < n
        ensures CapturedAt(cooldown, ds[..n], i) <==> CapturedAt(cooldown, ds, i)
      {
        assert ds[..n][..i] == ds[..i];
      }
      if CapturedAt(cooldown, ds, n) {
        assert LastStamp(cooldown, ds) == Some(ds[n].stamp);
      } else if LastStamp(cooldown, ds[..n]) != None {
        var i :| 0 <= i < n && CapturedAt(cooldown, ds[..n], i) && LastStamp(cooldown, ds[..n]) == Some(ds[..n][i].stamp)
                 && forall j :: i < j < n ==> !CapturedAt(cooldown, ds[..n], j);
        assert CapturedAt(cooldown, ds, i) && forall j :: i < j < |ds| ==> !CapturedAt(cooldown, ds, j);
      }
    }
  }

  /**
    A batch that the recorder would capture is captured exactly when the cooldown is off or
    over: every earlier capture was stamped at least the cooldown before.
  */
  lemma CapturesExactly(cooldown: int, ds: seq<Decision>, i: nat)
    requires Monotone(ds) && i < |ds|
    ensures CapturedAt(cooldown, ds, i) <==>
            && ds[i].fires
            && (cooldown <= 0
                || forall j :: 0 <= j < i && CapturedAt(cooldown, ds, j) ==> ds[i].check - ds[j].stamp >= cooldown)
  {
    hide LastStamp;
    var before := ds[..i];
    LastStampExactly(cooldown, before);
    forall j | 0 <= j < i
      ensures CapturedAt(cooldown, before, j) <==> CapturedAt(cooldown, ds, j)
    {
      assert before[..j] == ds[..j];
    }
    if LastStamp(cooldown, before) != None {
      var k :| 0 <= k < i && CapturedAt(cooldown, before, k) && LastStamp(cooldown, before) == Some(before[k].stamp)
               && forall j :: k < j < i ==> !CapturedAt(cooldown, before, j);
      assert CapturedAt(cooldown, ds, k);
      forall j | 0 <= j < i && CapturedAt(cooldown, ds, j)
        ensures ds[j].stamp <= ds[k].stamp
      {
        assert j <= k;
        assert j < k ==> ds[j].stamp <= ds[k].check <= ds[k].stamp;
      }
    }
  }

  ghost predicate Monotone(ds: seq<Decision>) {
    && (forall i :: 0 <= i < |ds| ==> ds[i].check <= ds[i].at <= ds[i].stamp)
    && (forall i, j :: 0 <= i < j < |ds| ==> ds[i].stamp <= ds[j].check)
  }

  ghost predicate Spaced(cs: seq<int>, gap: int) {
    forall i, j :: 0 <= i < j < |cs| ==> cs[i] + gap <= cs[j]
  }

  /** The stamp is at or after every capture so far, and the captures are spaced. */
  lemma {:induction false} CapturesAreSpaced(cooldown: int, ds: seq<Decision>)
    requires cooldown > 0 && Monotone(ds)
    ensures var cs := CapturedBy(cooldown, ds);
      && Spaced(cs, cooldown)
      && (cs != [] ==> LastStamp(cooldown, ds) != None && forall i :: 0 <= i < |cs| ==> cs[i] <= LastStamp(cooldown, ds).value)
  {
    if ds != [] {
      CapturesAreSpaced(cooldown, ds[..|ds| - 1]);
    }
  }

  function CountIn(cs: seq<int>, lo: int, hi: int): nat {
    if cs == [] then 0
    else CountIn(cs[..|cs| - 1], lo, hi) + if lo <= cs[|cs| - 1] <= hi then 1 else 0
  }

  lemma {:induction false} CountUpTo(cs: seq<int>, lo: int, hi: int, top: int)
    requires top <= hi && forall i :: 0 <= i < |cs| ==> cs[i] <= top
    ensures CountIn(cs, lo, hi) == CountIn(cs, lo, top)
  {
    if cs != [] {
      CountUpTo(cs[..|cs| - 1], lo, hi, top);
    }
  }

  lemma {:induction false} CountBelow(cs: seq<int>, lo: int, hi: int)
    requires forall i :: 0 <= i < |cs| ==> cs[i] < lo
    ensures CountIn(cs, lo, hi) == 0
  {
    if cs != [] {
      CountBelow(cs[..|cs| - 1], lo, hi);
    }
  }

  lemma {:induction false} SpacedCount(cs: seq<int>, gap: int, lo: int, hi: int)
    requires gap > 0 && Spaced(cs, gap)
    ensures CountIn(cs, lo, hi) > 0 ==> (CountIn(cs, lo, hi) - 1) * gap <= hi - lo
  {
    if cs != [] {
      var init, last := cs[..|cs| - 1], cs[|cs| - 1];
      if last > hi {
        SpacedCount(init, gap, lo, hi);
      } else if last < lo {
        CountBelow(init, lo, hi);
      } else {
        var n := CountIn(init, lo, hi);
        CountUpTo(init, lo, hi, last - gap);
        SpacedCount(init, gap, lo, last - gap);
        if n > 0 {
          assert (n - 1) * gap + gap == n * gap;
        }
      }
    }
  }

  /** Any two captures are at least the cooldown apart. */
  lemma CooldownSeparatesCaptures(cooldown: int, ds: seq<Decision>, i: nat, j: nat)
    requires cooldown > 0 && Monotone(ds)
    requires i < j < |CapturedBy(cooldown, ds)|
    ensures CapturedBy(cooldown, ds)[i] + cooldown <= CapturedBy(cooldown, ds)[j]
  {
    CapturesAreSpaced(cooldown, ds);
  }

  /** Any window of length `width` holds at most width / cooldown + 1 captures. */
  lemma CooldownBoundsWindows(cooldown: int, ds: seq<Decision>, start: int, width: nat)
    requires cooldown > 0 && Monotone(ds)
    ensures CountIn(CapturedBy(cooldown, ds), start, start + width) <= width / cooldown + 1
  {
    var n := CountIn(CapturedBy(cooldown, ds), start, start + width);
    CapturesAreSpaced(cooldown, ds);
    SpacedCount(CapturedBy(cooldown, ds), cooldown, start, start + width);
    if n > 0 {
      DivisionBound(n - 1, cooldown, width);
    }
  }

  lemma DivisionBound(n: nat, d: int, w: nat)
    requires d > 0 && n * d <= w
    ensures n <= w / d
  {
    assert w < (w / d + 1) * d;
    assert n * d < (w / d + 1) * d;
  }

  /** The failing services, sorted by name, whatever order the map is walked in. */
  method FailingServiceNames(results: Results) returns (names: seq<string>)
    ensures Ascending(Text.Less, names)
    ensures forall n :: n in names <==> n in results && results[n] != None
  {
    names := [];
    var rest := results.Keys;
    while rest != {}
      invariant rest <= results.Keys && NoRepeats(names)
      invariant forall n :: n in names <==> n in results && n !in rest && results[n] != None
      decreases rest
    {
      var name :| name in rest;
      rest := rest - {name};
      if results[name] != None {
        names := names + [name];
      }
    }
    Text.LessIsStrictOrder();
    SortMeaning(Text.Less, names);
    names := Sort(Text.Less, names);
  }
}
