/**
  The metrics collector of metrics.go: the sections its mutex makes atomic, one scrape, and
  the conservation of requests over every interleaving.
*/
module Metrics {
  import opened Options
  import opened Histogram
  import opened Sorting
  import Text
  import Labels

  datatype SeriesKey = SeriesKey(verb: string, route: string, status: string)

  predicate KeyLess(a: SeriesKey, b: SeriesKey) {
    || Text.Less(a.verb, b.verb)
    || (a.verb == b.verb && Text.Less(a.route, b.route))
    || (a.verb == b.verb && a.route == b.route && Text.Less(a.status, b.status))
  }

  lemma KeyOrder()
    ensures StrictOrder(KeyLess)
  {
    forall a, b, c: SeriesKey
      ensures !KeyLess(a, a)
      ensures KeyLess(a, b) && KeyLess(b, c) ==> KeyLess(a, c)
      ensures a == b || KeyLess(a, b) || KeyLess(b, a)
    {
      Irreflexive(a);
      Connected(a, b);
      if KeyLess(a, b) && KeyLess(b, c) {
        Transitive(a, b, c);
      }
    }
  }

  lemma Irreflexive(a: SeriesKey)
    ensures !KeyLess(a, a)
  {
    Text.LessIrreflexive(a.verb);
    Text.LessIrreflexive(a.route);
    Text.LessIrreflexive(a.status);
  }

  lemma Connected(a: SeriesKey, b: SeriesKey)
    ensures a == b || KeyLess(a, b) || KeyLess(b, a)
  {
    Text.LessTotal(a.verb, b.verb);
    Text.LessTotal(a.route, b.route);
    Text.LessTotal(a.status, b.status);
  }

  lemma Transitive(a: SeriesKey, b: SeriesKey, c: SeriesKey)
    requires KeyLess(a, b) && KeyLess(b, c)
    ensures KeyLess(a, c)
  {
    if Text.Less(a.verb, b.verb) && Text.Less(b.verb, c.verb) {
      Text.LessTransitive(a.verb, b.verb, c.verb);
    } else if a.verb == b.verb == c.verb {
      if Text.Less(a.route, b.route) && Text.Less(b.route, c.route) {
        Text.LessTransitive(a.route, b.route, c.route);
      } else if a.route == b.route == c.route {
        Text.LessTransitive(a.status, b.status, c.status);
      }
    }
  }

  /** The collected series after one more observation. */
  function Recorded(m: map<SeriesKey, Hist>, key: SeriesKey, duration: real): map<SeriesKey, Hist>
    requires forall k :: k in m ==> WellFormed(m[k])
  {
    m[key := Observed(if key in m then m[key] else Empty(), duration)]
  }

  // One finished request: its series and its duration in seconds.
  datatype Sample = Sample(key: SeriesKey, duration: real)

  /** The durations of one series, in the order in which its requests finished. */
  function DurationsOf(samples: seq<Sample>, key: SeriesKey): seq<real> {
    if samples == [] then []
    else
      var n := |samples| - 1;
      DurationsOf(samples[..n], key) + if samples[n].key == key then [samples[n].duration] else []
  }

  /** There is a series exactly for the keys with finished requests, and it is their histogram. */
  ghost predicate Summarises(m: map<SeriesKey, Hist>, samples: seq<Sample>) {
    forall key :: (key in m <==> DurationsOf(samples, key) != [])
      && (key in m ==> m[key] == HistOf(DurationsOf(samples, key)))
  }

  lemma NextDurations(samples: seq<Sample>, sample: Sample, key: SeriesKey)
    ensures DurationsOf(samples + [sample], key) ==
            DurationsOf(samples, key) + if sample.key == key then [sample.duration] else []
  {
    assert (samples + [sample])[..|samples|] == samples;
  }

  lemma NextHist(ds: seq<real>, d: real)
    ensures HistOf(ds + [d]) == Observed(HistOf(ds), d)
  {
    assert (ds + [d])[..|ds|] == ds;
  }

  lemma RecordedSummarises(m: map<SeriesKey, Hist>, samples: seq<Sample>, key: SeriesKey, duration: real)
    requires Summarises(m, samples) && forall k :: k in m ==> WellFormed(m[k])
    ensures Summarises(Recorded(m, key, duration), samples + [Sample(key, duration)])
  {
    hide Observed, Empty, HistOf, DurationsOf, BOUNDS;
    var sample := Sample(key, duration);
    var m' := Recorded(m, key, duration);
    NothingObserved();
    NextHist(DurationsOf(samples, key), duration);
    forall k
      ensures k in m' <==> DurationsOf(samples + [sample], k) != []
      ensures k in m' ==> m'[k] == HistOf(DurationsOf(samples + [sample], k))
    {
      NextDurations(samples, sample, k);
      assert DurationsOf(samples, k) + [] == DurationsOf(samples, k);
    }
  }

  lemma NothingObserved()
    ensures HistOf([]) == Empty()
  {
  }

  // One series in the exposition, with its label texts as written between the quotes.
  datatype HistogramBlock = HistogramBlock(
    verb: string, route: string, status: string,
    buckets: seq<nat>, infinite: nat, sum: real, count: nat)

  datatype TotalLine = TotalLine(verb: string, route: string, status: string, count: nat)

  function BlockOf(key: SeriesKey, h: Hist): HistogramBlock
    requires WellFormed(h)
  {
    HistogramBlock(Labels.EscapeLabelValue(key.verb), Labels.EscapeLabelValue(key.route), key.status,
                   h.buckets[..|BOUNDS|], h.buckets[|BOUNDS|], h.sum, h.count)
  }

  function TotalOf(printable: char -> bool, key: SeriesKey, h: Hist): TotalLine {
    TotalLine(Labels.Quoted(printable, Labels.EscapeLabelValue(key.verb)), Labels.Quoted(printable, Labels.EscapeLabelValue(key.route)),
              Labels.Quoted(printable, key.status), h.count)
  }

  lemma EmptyIsWellFormed()
    ensures WellFormed(Empty())
  {
  }

  lemma ObservedIsWellFormed()
    ensures forall h, d :: WellFormed(h) ==> WellFormed(Observed(h, d))
  {
  }

  /** One quoted label, as a reader of the format gets it. */
  function ReadBack(text: string): Option<string> {
    match Labels.ReadLabel(text + "\"")
    case None => None
    case Some(r) => Some(r.0)
  }

  /** What one scraped series says about the durations of its finished requests. */
  ghost predicate Shows(printable: char -> bool, key: SeriesKey, ds: seq<real>, block: HistogramBlock, total: TotalLine) {
    && ReadBack(block.verb) == Some(key.verb) && ReadBack(block.route) == Some(key.route) && block.status == key.status
    && |block.buckets| == |BOUNDS|
    && (forall i :: 0 <= i < |BOUNDS| ==>
          block.buckets[i] == CountIn(ds, i > 0, if i > 0 then BOUNDS[i - 1] else 0.0, BOUNDS[i]))
    && block.infinite == block.count == total.count == |ds|
    && block.sum == Total(ds)
    && (Printable(printable, key.verb) ==> ReadBack(total.verb) == Some(key.verb))
    && (Printable(printable, key.route) ==> ReadBack(total.route) == Some(key.route))
    && (Printable(printable, key.status) ==> ReadBack(total.status) == Some(key.status))
  }

  /** Printable, and nothing to escape. */
  predicate Printable(printable: char -> bool, s: string) {
    forall i :: 0 <= i < |s| ==> printable(s[i]) && !Labels.Special(s[i])
  }

  lemma EscapedOnce(s: string)
    ensures ReadBack(Labels.EscapeLabelValue(s)) == Some(s)
  {
    hide Labels.EscapeLabelValue, Labels.ReadLabel;
    Labels.EscapedLabelReadsBack(s, "");
    assert Labels.EscapeLabelValue(s) + "\"" + "" == Labels.EscapeLabelValue(s) + "\"";
  }

  lemma EscapedTwice(printable: char -> bool, s: string)
    requires Labels.GoPrintable(printable) && Printable(printable, s)
    ensures ReadBack(Labels.Quoted(printable, Labels.EscapeLabelValue(s))) == Some(s)
  {
    hide Labels.EscapeLabelValue, Labels.ReadLabel, Labels.Quoted;
    Labels.DoublyEscapedLabelReadsBack(printable, s, "");
    var text := Labels.Quoted(printable, Labels.EscapeLabelValue(s));
    assert text + "\"" + "" == text + "\"";
  }

  lemma QuotedOnce(printable: char -> bool, s: string)
    requires Labels.GoPrintable(printable) && Printable(printable, s)
    ensures ReadBack(Labels.Quoted(printable, s)) == Some(s)
  {
    hide Labels.ReadLabel, Labels.Quoted;
    Labels.QuotedReadsBack(printable, s, "");
    var text := Labels.Quoted(printable, s);
    assert text + "\"" + "" == text + "\"";
  }

  lemma BlockShows(printable: char -> bool, key: SeriesKey, ds: seq<real>)
    requires Labels.GoPrintable(printable)
    ensures Shows(printable, key, ds, BlockOf(key, HistOf(ds)), TotalOf(printable, key, HistOf(ds)))
  {
    hide Labels.EscapeLabelValue, Labels.ReadLabel, Labels.Quoted, Labels.GoPrintable, ReadBack, Printable, HistOf, BOUNDS;
    EscapedOnce(key.verb);
    EscapedOnce(key.route);
    if Printable(printable, key.verb) {
      EscapedTwice(printable, key.verb);
    }
    if Printable(printable, key.route) {
      EscapedTwice(printable, key.route);
    }
    if Printable(printable, key.status) {
      QuotedOnce(printable, key.status);
    }
    BoundsIncrease();
    BucketsMeanIntervals(ds, 0);
    forall i | 0 <= i < |BOUNDS|
      ensures HistOf(ds).buckets[i] == CountIn(ds, i > 0, if i > 0 then BOUNDS[i - 1] else 0.0, BOUNDS[i])
    {
      BucketsMeanIntervals(ds, i);
    }
  }

  class Collector {
    const printable: char -> bool  // what `%q` takes as printable
    var byRoute: map<SeriesKey, RouteSeries>
    var inFlight: int
    ghost var samples: seq<Sample>  // every finished request

    ghost predicate Valid()
      reads this, byRoute.Values
    {
      Separate() && Summarises(Value(), samples)
    }

    ghost predicate Separate()
      reads this, byRoute.Values
    {
      && (forall k :: k in byRoute ==> WellFormed(byRoute[k].Value()))
      && (forall j, k :: j in byRoute && k in byRoute && byRoute[j] == byRoute[k] ==> j == k)
    }

    ghost function Value(): map<SeriesKey, Hist>
      reads this, byRoute.Values
    {
      map k | k in byRoute :: byRoute[k].Value()
    }

    constructor (printable: char -> bool)
      ensures Valid() && samples == [] && inFlight == 0 && this.printable == printable
    {
      this.printable, byRoute, inFlight, samples := printable, map[], 0, [];
      new;
      assert Value() == map[];
      NoSamples();
    }

    /** The first locked section of a request. */
    method Enter()
      requires Valid()
      modifies this`inFlight
      ensures inFlight == old(inFlight) + 1 && Valid()
    {
      hide Summarises, WellFormed;
      inFlight := inFlight + 1;
      assert Value() == old(Value());
    }

    method Lookup(key: SeriesKey)
      requires Separate()
      modifies this`byRoute
      ensures Separate() && key in byRoute
      ensures Value() == if key in old(Value()) then old(Value()) else old(Value())[key := Empty()]
      ensures forall s :: s in byRoute.Values ==> s in old(byRoute.Values) || fresh(s)
    {
      hide BOUNDS, Empty, WellFormed;
      EmptyIsWellFormed();
      if key !in byRoute {
        var series := new RouteSeries();
        byRoute := byRoute[key := series];
      }
    }

    method ObserveAt(key: SeriesKey, duration: real)
      requires Separate() && key in byRoute
      modifies byRoute[key]
      ensures Separate()
      ensures Value() == old(Value())[key := Observed(old(Value())[key], duration)]
    {
      hide BOUNDS, Observed, WellFormed;
      ObservedIsWellFormed();
      byRoute[key].Observe(duration);
    }

    /** The second locked section: it is not reached when the handler panics. */
    method Finish(verb: string, pattern: string, status: string, duration: real)
      requires Valid()
      modifies this, byRoute.Values
      ensures Valid() && inFlight == old(inFlight) - 1
      ensures samples ==
              old(samples) + [Sample(SeriesKey(verb, if pattern == "" then "unmatched" else pattern, status), duration)]
    {
      hide BOUNDS, Recorded, WellFormed, Summarises;
      var route := pattern;
      if route == "" {
        route := "unmatched";
      }
      inFlight := inFlight - 1;
      assert Value() == old(Value());
      var key := SeriesKey(verb, route, status);
      ghost var before := Value();
      RecordedSummarises(before, samples, key, duration);
      Record(key, duration);
      assert Value() == Recorded(before, key, duration);
      samples := samples + [Sample(key, duration)];
      assert Value() == Recorded(before, key, duration);
      assert Separate();
      assert Summarises(Value(), samples);
    }

    method Record(key: SeriesKey, duration: real)
      requires Separate()
      modifies this`byRoute, byRoute.Values
      ensures Separate() && Value() == Recorded(old(Value()), key, duration)
    {
      hide BOUNDS, Observed, Empty, WellFormed;
      Lookup(key);
      ObserveAt(key, duration);
    }

    /** The series in exposition order, whatever order the map is walked in. */
    method SortedRoutes() returns (keys: seq<SeriesKey>)
      ensures Ascending(KeyLess, keys)
      ensures forall k :: k in keys <==> k in byRoute
    {
      keys := [];
      var rest := byRoute.Keys;
      while rest != {}
        invariant rest <= byRoute.Keys
        invariant NoRepeats(keys)
        invariant forall k :: k in keys <==> k in byRoute && k !in rest
        decreases rest
      {
        var k :| k in rest;
        rest := rest - {k};
        keys := keys + [k];
      }
      KeyOrder();
      SortMeaning(KeyLess, keys);
      keys := Sort(KeyLess, keys);
    }

    method WriteHistogram() returns (keys: seq<SeriesKey>, blocks: seq<HistogramBlock>)
      requires Separate()
      ensures Ascending(KeyLess, keys) && forall k :: k in keys <==> k in byRoute
      ensures |blocks| == |keys|
      ensures forall i :: 0 <= i < |keys| ==>
                keys[i] in byRoute && WellFormed(byRoute[keys[i]].Value())
                && blocks[i] == BlockOf(keys[i], byRoute[keys[i]].Value())
    {
      hide Labels.EscapeLabelValue, KeyLess, StrictOrder, Ascending, BOUNDS;
      keys := SortedRoutes();
      assert forall i :: 0 <= i < |keys| ==> keys[i] in keys;
      blocks := [];
      for i := 0 to |keys|
        invariant |blocks| == i
        invariant forall j :: 0 <= j < i ==> blocks[j] == BlockOf(keys[j], byRoute[keys[j]].Value())
      {
        var key := keys[i];
        var series := byRoute[key];
        var lines := EmittedLines(Hist(series.buckets, series.count, series.sum));
        blocks := blocks + [HistogramBlock(
          Labels.EscapeLabelValue(key.verb), Labels.EscapeLabelValue(key.route), key.status,
          lines, series.buckets[|BOUNDS|], series.sum, series.count)];
      }
    }

    method WriteResponseTotals() returns (keys: seq<SeriesKey>, totals: seq<TotalLine>)
      requires Separate()
      ensures Ascending(KeyLess, keys) && forall k :: k in keys <==> k in byRoute
      ensures |totals| == |keys|
      ensures forall i :: 0 <= i < |keys| ==>
                keys[i] in byRoute && totals[i] == TotalOf(printable, keys[i], byRoute[keys[i]].Value())
    {
      hide Labels.EscapeLabelValue, Labels.Quoted, KeyLess, StrictOrder, Ascending, BOUNDS;
      keys := SortedRoutes();
      assert forall i :: 0 <= i < |keys| ==> keys[i] in keys;
      totals := [];
      for i := 0 to |keys|
        invariant |totals| == i
        invariant forall j :: 0 <= j < i ==> totals[j] == TotalOf(printable, keys[j], byRoute[keys[j]].Value())
      {
        var key := keys[i];
        totals := totals + [TotalLine(
          Labels.Quoted(printable, Labels.EscapeLabelValue(key.verb)), Labels.Quoted(printable, Labels.EscapeLabelValue(key.route)),
          Labels.Quoted(printable, key.status), byRoute[key].count)];
      }
    }

    /**
      One scrape, all under one lock: the gauge, and one histogram block and one total for every
      series with a finished request, both in the same strictly ascending order, each showing
      the durations of exactly its own requests.
    */
    method Scrape() returns (keys: seq<SeriesKey>, gauge: int, blocks: seq<HistogramBlock>, totals: seq<TotalLine>)
      requires Valid() && Labels.GoPrintable(printable)
      ensures gauge == inFlight
      ensures Ascending(KeyLess, keys) && forall k :: k in keys <==> DurationsOf(samples, k) != []
      ensures |blocks| == |totals| == |keys|
      ensures forall i :: 0 <= i < |keys| ==> Shows(printable, keys[i], DurationsOf(samples, keys[i]), blocks[i], totals[i])
    {
      hide Labels.EscapeLabelValue, Labels.Quoted, Labels.GoPrintable, KeyLess, BOUNDS, Shows, BlockOf, TotalOf, HistOf;
      gauge := inFlight;
      keys, blocks := WriteHistogram();
      var again: seq<SeriesKey>;
      again, totals := WriteResponseTotals();
      KeyOrder();
      AscendingUnique(KeyLess, again, keys);
      forall i | 0 <= i < |keys|
        ensures Shows(printable, keys[i], DurationsOf(samples, keys[i]), blocks[i], totals[i])
      {
        assert keys[i] in Value() && Value()[keys[i]] == byRoute[keys[i]].Value();
        BlockShows(printable, keys[i], DurationsOf(samples, keys[i]));
      }
      assert forall k :: k in byRoute <==> k in Value();
    }
  }

  /** The exposition order is a function of the set of series alone. */
  lemma OneExpositionOrder(a: seq<SeriesKey>, b: seq<SeriesKey>, keys: set<SeriesKey>)
    requires Ascending(KeyLess, a) && Ascending(KeyLess, b)
    requires (forall k :: k in a <==> k in keys) && (forall k :: k in b <==> k in keys)
    ensures a == b
  {
    KeyOrder();
    AscendingUnique(KeyLess, a, b);
  }

  // ---------------------------------------------------------------------------
  // Every interleaving of requests
  // ---------------------------------------------------------------------------

  // Request number r runs from the r-th Enter on; it ends by finishing or by a panic.
  datatype World = World(
    entered: nat,
    active: set<nat>,
    panicked: set<nat>,
    inFlight: int,
    byRoute: map<SeriesKey, Hist>)

  datatype Action = EnterStep | FinishStep(r: nat, key: SeriesKey, duration: real) | PanicStep(r: nat)

  ghost predicate Enabled(w: World, a: Action) {
    && (forall k :: k in w.byRoute ==> WellFormed(w.byRoute[k]))
    && (a != EnterStep ==> a.r in w.active)
  }

  function Step(w: World, a: Action): World
    requires Enabled(w, a)
  {
    match a
    case EnterStep => w.(entered := w.entered + 1, active := w.active + {w.entered}, inFlight := w.inFlight + 1)
    case FinishStep(r, key, d) =>
      w.(active := w.active - {r}, inFlight := w.inFlight - 1, byRoute := Recorded(w.byRoute, key, d))
    case PanicStep(r) => w.(active := w.active - {r}, panicked := w.panicked + {r})
  }

  ghost predicate Reaches(w: World, run: seq<Action>, end: World)
    decreases |run|
  {
    if run == [] then w == end
    else Enabled(w, run[0]) && Reaches(Step(w, run[0]), run[1..], end)
  }

  function Init(): World {
    World(0, {}, {}, 0, map[])
  }

  ghost function SumCounts(m: map<SeriesKey, Hist>): nat
    decreases |m|
  {
    if m == map[] then 0
    else
      var k :| k in m;
      assert |m - {k}| < |m| by { assert m.Keys == (m - {k}).Keys + {k}; }
      m[k].count + SumCounts(m - {k})
  }

  lemma {:induction false} SumWithout(m: map<SeriesKey, Hist>, k: SeriesKey)
    requires k in m
    ensures SumCounts(m) == m[k].count + SumCounts(m - {k})
    decreases |m|
  {
    var j :| j in m && SumCounts(m) == m[j].count + SumCounts(m - {j});
    if j != k {
      assert |m - {j}| < |m| by { assert m.Keys == (m - {j}).Keys + {j}; }
      assert |m - {k}| < |m| by { assert m.Keys == (m - {k}).Keys + {k}; }
      SumWithout(m - {j}, k);
      SumWithout(m - {k}, j);
      assert m - {j} - {k} == m - {k} - {j};
    }
  }

  lemma SumOfRecorded(m: map<SeriesKey, Hist>, key: SeriesKey, d: real)
    requires forall k :: k in m ==> WellFormed(m[k])
    ensures SumCounts(Recorded(m, key, d)) == SumCounts(m) + 1
  {
    var m' := Recorded(m, key, d);
    SumWithout(m', key);
    assert m' - {key} == m - {key};
    if key in m {
      SumWithout(m, key);
    } else {
      assert m - {key} == m;
    }
  }

  ghost predicate Inv(w: World) {
    && (forall k :: k in w.byRoute ==> WellFormed(w.byRoute[k]))
    && (forall r :: r in w.active ==> r < w.entered)
    && (forall r :: r in w.panicked ==> r < w.entered)
    && w.active !! w.panicked
    && w.inFlight == |w.active| + |w.panicked|
    && w.entered == w.inFlight + SumCounts(w.byRoute)
  }

  lemma FinishKeepsInv(w: World, r: nat, key: SeriesKey, d: real)
    requires Inv(w) && Enabled(w, FinishStep(r, key, d))
    ensures Inv(Step(w, FinishStep(r, key, d)))
  {
    hide SumCounts, Observed, Empty, WellFormed;
    EmptyIsWellFormed();
    ObservedIsWellFormed();
    SumOfRecorded(w.byRoute, key, d);
    assert w.active == (w.active - {r}) + {r};
    assert |w.active| == |w.active - {r}| + 1;
  }

  lemma EnterKeepsInv(w: World)
    requires Inv(w) && Enabled(w, EnterStep)
    ensures Inv(Step(w, EnterStep))
  {
    hide SumCounts, WellFormed;
    assert w.entered !in w.active && w.entered !in w.panicked;
  }

  lemma PanicKeepsInv(w: World, r: nat)
    requires Inv(w) && Enabled(w, PanicStep(r))
    ensures Inv(Step(w, PanicStep(r)))
  {
    hide SumCounts, WellFormed;
    assert w.active == (w.active - {r}) + {r};
    assert r !in w.panicked;
  }

  lemma StepKeepsInv(w: World, a: Action)
    requires Inv(w) && Enabled(w, a)
    ensures Inv(Step(w, a))
  {
    hide Inv, Step;
    match a
    case EnterStep => EnterKeepsInv(w);
    case FinishStep(r, key, d) => FinishKeepsInv(w, r, key, d);
    case PanicStep(r) => PanicKeepsInv(w, r);
  }

  lemma {:induction false} RunKeepsInv(w: World, run: seq<Action>, end: World)
    requires Inv(w) && Reaches(w, run, end)
    ensures Inv(end)
    decreases |run|
  {
    hide Inv, Step;
    if run != [] {
      StepKeepsInv(w, run[0]);
      RunKeepsInv(Step(w, run[0]), run[1..], end);
    }
  }

  /**
    In every interleaving the requests that entered are those in flight plus those counted in
    some series, and the gauge is the running requests plus every request that ever panicked:
    a panic leaves the gauge up for good.
  */
  lemma RequestsAreConserved(run: seq<Action>, w: World)
    requires Reaches(Init(), run, w)
    ensures w.entered == w.inFlight + SumCounts(w.byRoute)
    ensures w.inFlight == |w.active| + |w.panicked|
  {
    hide Step, Enabled, SumCounts, WellFormed, Reaches;
    InitInv();
    RunKeepsInv(Init(), run, w);
  }

  lemma InitInv()
    ensures Inv(Init())
  {
    hide SumCounts, WellFormed;
    NothingCounted();
  }

  lemma NothingCounted()
    ensures SumCounts(map[]) == 0
  {
  }

  /** The finished requests of a run, in order. */
  function SamplesOf(run: seq<Action>): seq<Sample> {
    if run == [] then []
    else (if run[0].FinishStep? then [Sample(run[0].key, run[0].duration)] else []) + SamplesOf(run[1..])
  }

  lemma {:induction false} RunSummarises(w: World, samples: seq<Sample>, run: seq<Action>, end: World)
    requires Summarises(w.byRoute, samples) && Reaches(w, run, end)
    ensures Summarises(end.byRoute, samples + SamplesOf(run))
    decreases |run|
  {
    hide Recorded, Summarises, WellFormed;
    if run == [] {
      assert samples + [] == samples;
    } else {
      var a := run[0];
      var more := if a.FinishStep? then [Sample(a.key, a.duration)] else [];
      if a.FinishStep? {
        RecordedSummarises(w.byRoute, samples, a.key, a.duration);
      } else {
        assert samples + more == samples;
      }
      RunSummarises(Step(w, a), samples + more, run[1..], end);
      assert samples + more + SamplesOf(run[1..]) == samples + SamplesOf(run);
    }
  }

  /**
    In every interleaving each series is the histogram of the durations of the requests that
    finished under its key, in the order they did, and there is a series exactly for those keys.
  */
  lemma SeriesAreHistograms(run: seq<Action>, w: World, key: SeriesKey)
    requires Reaches(Init(), run, w)
    ensures key in w.byRoute <==> DurationsOf(SamplesOf(run), key) != []
    ensures key in w.byRoute ==> w.byRoute[key] == HistOf(DurationsOf(SamplesOf(run), key))
  {
    hide DurationsOf, HistOf;
    NoSamples();
    RunSummarises(Init(), [], run, w);
    assert [] + SamplesOf(run) == SamplesOf(run);
  }

  lemma NoSamples()
    ensures Summarises(map[], [])
  {
  }

  /** The order of the exposition: by method, then by route, then by status. */
  lemma KeyLessExactly(a: SeriesKey, b: SeriesKey)
    ensures KeyLess(a, b) <==>
            if a.verb != b.verb then Text.Less(a.verb, b.verb)
            else if a.route != b.route then Text.Less(a.route, b.route)
            else Text.Less(a.status, b.status)
  {
    Text.LessIrreflexive(a.verb);
    Text.LessIrreflexive(a.route);
  }
}
