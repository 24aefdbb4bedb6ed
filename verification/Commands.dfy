/**
  The command drain of cqrs/commands.go and the middleware merge of cqrs/domain.go: the
  tracker sits outermost, so its count covers whole command chains.
*/
module Commands {
  import opened Options

  // ---------------------------------------------------------------------------
  // Merging the domain configuration
  // ---------------------------------------------------------------------------

  datatype Layer = Tracker | Custom(name: string)

  // One projection-host option: what it sets and to what.
  datatype HostOption = HostOption(name: string, value: string)

  datatype Domain = Domain(
    middleware: seq<Layer>,
    projections: seq<string>,
    hostOptions: seq<HostOption>,
    checkpointStore: Option<string>,
    rest: string)   // every field the merge passes through

  datatype DeadLetters = DeadLetters(store: Option<string>, threshold: string)

  datatype EventConfig = EventConfig(
    domain: Option<Domain>,
    commandMiddleware: seq<Layer>,
    checkpointStore: Option<string>,
    hostOptions: seq<HostOption>,
    logger: Option<string>,
    flightRecorder: Option<string>,
    metrics: Option<string>,
    deadLetters: Option<DeadLetters>)

  const BOOTSTRAP: seq<string> := ["appkit-host"]
  const NO_REST := ""

  function Flatten<T>(groups: seq<seq<T>>): seq<T> {
    if groups == [] then [] else groups[0] + Flatten(groups[1..])
  }

  lemma FlattenThree<T>(a: seq<T>, b: seq<T>, c: seq<T>)
    ensures Flatten([a, b, c]) == a + b + c
  {
    assert [a, b, c][1..] == [b, c] && [b, c][1..] == [c] && [c][1..] == [];
    assert Flatten([c]) == c;
    assert Flatten([b, c]) == b + c;
  }

  function MergedChain(cfg: EventConfig): seq<Layer> {
    [Tracker] + (if cfg.domain.Some? then cfg.domain.value.middleware else []) + cfg.commandMiddleware
  }

  /** What applying options one after the other leaves set. */
  function Applied(options: seq<HostOption>): map<string, string> {
    if options == [] then map[]
    else
      var last := options[|options| - 1];
      Applied(options[..|options| - 1])[last.name := last.value]
  }

  function Wire(name: string, value: Option<string>): seq<HostOption> {
    if value == None then [] else [HostOption(name, value.value)]
  }

  /** Where dead letters go: the consumer's store before the one built at construction. */
  function DeadLetterStore(cfg: EventConfig, dlqStore: Option<string>): Option<string> {
    if cfg.deadLetters == None then None
    else if cfg.deadLetters.value.store != None then cfg.deadLetters.value.store
    else dlqStore
  }

  function DeadLetterOptions(cfg: EventConfig, dlqStore: Option<string>): seq<HostOption> {
    match DeadLetterStore(cfg, dlqStore)
    case None => []
    case Some(store) => [HostOption("dead-letters", store + "@" + cfg.deadLetters.value.threshold)]
  }

  /** What the wrapper's own fields set. */
  function Derived(cfg: EventConfig, dlqStore: Option<string>): seq<HostOption> {
    Wire("logger", cfg.logger) + Wire("flight-recorder", cfg.flightRecorder) + Wire("metrics", cfg.metrics)
    + DeadLetterOptions(cfg, dlqStore)
  }

  method HostOptions(cfg: EventConfig, dlqStore: Option<string>) returns (opts: seq<HostOption>)
    ensures opts == cfg.hostOptions + Derived(cfg, dlqStore)
  {
    hide Derived, Wire, DeadLetterOptions;
    opts := cfg.hostOptions;
    if cfg.logger != None {
      opts := opts + [HostOption("logger", cfg.logger.value)];
    }
    WireIs("logger", cfg.logger);
    ghost var o1 := cfg.hostOptions + Wire("logger", cfg.logger);
    assert opts == o1;
    if cfg.flightRecorder != None {
      opts := opts + [HostOption("flight-recorder", cfg.flightRecorder.value)];
    }
    WireIs("flight-recorder", cfg.flightRecorder);
    ghost var o2 := o1 + Wire("flight-recorder", cfg.flightRecorder);
    assert opts == o2;
    if cfg.metrics != None {
      opts := opts + [HostOption("metrics", cfg.metrics.value)];
    }
    WireIs("metrics", cfg.metrics);
    ghost var o3 := o2 + Wire("metrics", cfg.metrics);
    assert opts == o3;
    if cfg.deadLetters != None {
      var store := cfg.deadLetters.value.store;
      if store == None {
        store := dlqStore;
      }
      DeadLettersAre(cfg, dlqStore, store);
      if store != None {
        opts := opts + [HostOption("dead-letters", store.value + "@" + cfg.deadLetters.value.threshold)];
      }
    } else {
      NoDeadLetters(cfg, dlqStore);
    }
    assert opts == o3 + DeadLetterOptions(cfg, dlqStore);
    DerivedOnto(cfg, dlqStore);
  }

  lemma WireIs(name: string, value: Option<string>)
    ensures value == None ==> Wire(name, value) == []
    ensures value != None ==> Wire(name, value) == [HostOption(name, value.value)]
  {
  }

  lemma NoDeadLetters(cfg: EventConfig, dlqStore: Option<string>)
    requires cfg.deadLetters == None
    ensures DeadLetterOptions(cfg, dlqStore) == []
  {
  }

  lemma DeadLettersAre(cfg: EventConfig, dlqStore: Option<string>, store: Option<string>)
    requires cfg.deadLetters != None
    requires store == if cfg.deadLetters.value.store != None then cfg.deadLetters.value.store else dlqStore
    ensures store == None ==> DeadLetterOptions(cfg, dlqStore) == []
    ensures store != None ==>
              DeadLetterOptions(cfg, dlqStore)
              == [HostOption("dead-letters", store.value + "@" + cfg.deadLetters.value.threshold)]
  {
  }

  lemma DerivedOnto(cfg: EventConfig, dlqStore: Option<string>)
    ensures cfg.hostOptions + Derived(cfg, dlqStore)
         == cfg.hostOptions + Wire("logger", cfg.logger) + Wire("flight-recorder", cfg.flightRecorder)
            + Wire("metrics", cfg.metrics) + DeadLetterOptions(cfg, dlqStore)
  {
    hide Wire, DeadLetterOptions;
  }

  function DomainOptions(cfg: EventConfig): seq<HostOption> {
    if cfg.domain.Some? then cfg.domain.value.hostOptions else []
  }

  /**
    The tracker comes first, then the domain's layers, then the configured ones; the
    bootstrap projection appears only when the consumer has none; the wrapper's checkpoint
    store wins over the domain's; the wrapper's host options come last.
  */
  method MergeDomain(cfg: EventConfig, dlqStore: Option<string>) returns (d: Domain)
    ensures d.middleware == MergedChain(cfg)
    ensures d.middleware != [] && d.middleware[0] == Tracker
    ensures d.middleware[1..] == (if cfg.domain == None then [] else cfg.domain.value.middleware) + cfg.commandMiddleware
    ensures d.projections ==
            if cfg.domain.Some? && cfg.domain.value.projections != [] then cfg.domain.value.projections else BOOTSTRAP
    ensures d.hostOptions ==
            (if cfg.domain == None then [] else cfg.domain.value.hostOptions) + cfg.hostOptions + Derived(cfg, dlqStore)
    ensures d.checkpointStore ==
            if cfg.checkpointStore.Some? then cfg.checkpointStore
            else if cfg.domain.Some? then cfg.domain.value.checkpointStore else None
    ensures d.rest == if cfg.domain.Some? then cfg.domain.value.rest else NO_REST
  {
    var derived := HostOptions(cfg, dlqStore);
    if cfg.domain == None {
      return Domain([Tracker] + cfg.commandMiddleware, BOOTSTRAP, derived, cfg.checkpointStore, NO_REST);
    }
    d := cfg.domain.value;
    FlattenThree([Tracker], d.middleware, cfg.commandMiddleware);
    d := d.(middleware := Flatten([[Tracker], d.middleware, cfg.commandMiddleware]));
    d := d.(hostOptions := d.hostOptions + derived);
    if |d.projections| == 0 {
      d := d.(projections := BOOTSTRAP);
    }
    if cfg.checkpointStore.Some? {
      d := d.(checkpointStore := cfg.checkpointStore);
    }
  }

  /** Options applied later win. */
  lemma {:induction false} LaterOptionsWin(own: seq<HostOption>, later: seq<HostOption>)
    ensures Applied(own + later) == Applied(own) + Applied(later)
  {
    if later == [] {
      assert own + later == own;
    } else {
      assert (own + later)[..|own + later| - 1] == own + later[..|later| - 1];
      LaterOptionsWin(own, later[..|later| - 1]);
    }
  }

  /** What the wrapper itself says about one host option. */
  function Wired(cfg: EventConfig, dlqStore: Option<string>, name: string): Option<string> {
    if name == "logger" then cfg.logger
    else if name == "flight-recorder" then cfg.flightRecorder
    else if name == "metrics" then cfg.metrics
    else if name == "dead-letters" && cfg.deadLetters != None then
      var own := cfg.deadLetters.value;
      if own.store != None then Some(own.store.value + "@" + own.threshold)
      else if dlqStore != None then Some(dlqStore.value + "@" + own.threshold)
      else None
    else None
  }

  /** A map that holds exactly one value under a name, or nothing. */
  predicate Holds(m: map<string, string>, name: string, value: Option<string>) {
    if value == None then m == map[] else m == map[name := value.value]
  }

  lemma WireHolds(name: string, value: Option<string>)
    ensures Holds(Applied(Wire(name, value)), name, value)
  {
    if value != None {
      var options := Wire(name, value);
      assert options[..|options| - 1] == [];
    }
  }

  lemma DeadLettersHold(cfg: EventConfig, dlqStore: Option<string>)
    ensures Holds(Applied(DeadLetterOptions(cfg, dlqStore)), "dead-letters", Wired(cfg, dlqStore, "dead-letters"))
  {
    var options := DeadLetterOptions(cfg, dlqStore);
    if options != [] {
      assert options[..|options| - 1] == [];
    }
  }

  lemma NamesDiffer()
    ensures "logger" != "flight-recorder" && "logger" != "metrics" && "logger" != "dead-letters"
    ensures "flight-recorder" != "metrics" && "flight-recorder" != "dead-letters" && "metrics" != "dead-letters"
  {
    assert |"logger"| == 6 && |"flight-recorder"| == 15 && |"metrics"| == 7 && |"dead-letters"| == 12;
  }

  lemma DerivedInParts(cfg: EventConfig, dlqStore: Option<string>)
    ensures Applied(Derived(cfg, dlqStore)) ==
            Applied(Wire("logger", cfg.logger)) + Applied(Wire("flight-recorder", cfg.flightRecorder))
            + Applied(Wire("metrics", cfg.metrics)) + Applied(DeadLetterOptions(cfg, dlqStore))
  {
    hide Applied, Wire, DeadLetterOptions;
    var a, b := Wire("logger", cfg.logger), Wire("flight-recorder", cfg.flightRecorder);
    var c, d := Wire("metrics", cfg.metrics), DeadLetterOptions(cfg, dlqStore);
    LaterOptionsWin(a, b);
    LaterOptionsWin(a + b, c);
    LaterOptionsWin(a + b + c, d);
  }

  /** The derived options set exactly what the wrapper says. */
  lemma DerivedSaysWired(cfg: EventConfig, dlqStore: Option<string>, name: string)
    ensures var m, w := Applied(Derived(cfg, dlqStore)), Wired(cfg, dlqStore, name);
      (name in m <==> w != None) && (name in m ==> m[name] == w.value)
  {
    hide Applied, Wire, DeadLetterOptions, Derived;
    DerivedInParts(cfg, dlqStore);
    WireHolds("logger", cfg.logger);
    WireHolds("flight-recorder", cfg.flightRecorder);
    WireHolds("metrics", cfg.metrics);
    DeadLettersHold(cfg, dlqStore);
    NamesDiffer();
  }

  /**
    What each host option of the merged domain ends up as: the logger, the flight recorder and
    the metrics are the wrapper's own when it has them, dead letters go to the consumer's store,
    else to the one built, when they are configured; everything else is as the consumer's host
    options say, else as the domain says.
  */
  lemma DerivedOptionsWin(cfg: EventConfig, dlqStore: Option<string>, name: string)
    ensures var m := Applied(DomainOptions(cfg) + cfg.hostOptions + Derived(cfg, dlqStore));
      var wired, chosen, own := Wired(cfg, dlqStore, name), Applied(cfg.hostOptions), Applied(DomainOptions(cfg));
      && (name in m <==> wired != None || name in chosen || name in own)
      && (name in m ==>
            m[name] == (if wired != None then wired.value else if name in chosen then chosen[name] else own[name]))
  {
    hide Applied, Derived, DomainOptions, Wired;
    LaterOptionsWin(DomainOptions(cfg), cfg.hostOptions);
    LaterOptionsWin(DomainOptions(cfg) + cfg.hostOptions, Derived(cfg, dlqStore));
    DerivedSaysWired(cfg, dlqStore, name);
  }

  // ---------------------------------------------------------------------------
  // What one dispatch does
  // ---------------------------------------------------------------------------

  // A layer may call the rest of the chain any number of times and may panic.
  datatype Exec = Exec(calls: seq<Exec>, panics: bool)

  datatype Event = Enter | Visit(depth: nat) | Exit

  /** An execution that a chain allows. The tracker calls on once and passes panics through. */
  ghost predicate Runs(chain: seq<Layer>, e: Exec)
    decreases |chain|
  {
    if chain == [] then e.calls == []
    else
      && (forall i :: 0 <= i < |e.calls| ==> Runs(chain[1..], e.calls[i]))
      && (chain[0] == Tracker ==> |e.calls| == 1 && e.panics == e.calls[0].panics)
  }

  /** The tracked and visible effects of an execution in time order; the exit is deferred, so a panic keeps it. */
  function Trace(chain: seq<Layer>, e: Exec, depth: nat): seq<Event>
    requires Runs(chain, e)
    decreases |chain|, 1, 0
  {
    if chain == [] then [Visit(depth)]
    else if chain[0] == Tracker then [Enter] + Trace(chain[1..], e.calls[0], depth + 1) + [Exit]
    else [Visit(depth)] + CallsTrace(chain, e, depth, |e.calls|)
  }

  /** The first n calls to the rest of the chain, the layer itself acting after each. */
  function CallsTrace(chain: seq<Layer>, e: Exec, depth: nat, n: nat): seq<Event>
    requires chain != [] && Runs(chain, e) && n <= |e.calls|
    decreases |chain|, 0, n
  {
    if n == 0 then []
    else CallsTrace(chain, e, depth, n - 1) + Trace(chain[1..], e.calls[n - 1], depth + 1) + [Visit(depth)]
  }

  ghost predicate OnlyVisits(t: seq<Event>) {
    forall i :: 0 <= i < |t| ==> t[i].Visit?
  }

  predicate NoTracker(chain: seq<Layer>) {
    forall i :: 0 <= i < |chain| ==> chain[i] != Tracker
  }

  lemma {:induction false} InnerLayersOnlyVisit(chain: seq<Layer>, e: Exec, depth: nat)
    requires Runs(chain, e) && NoTracker(chain)
    ensures OnlyVisits(Trace(chain, e, depth))
    decreases |chain|, 1, 0
  {
    if chain != [] {
      CallsOnlyVisit(chain, e, depth, |e.calls|);
    }
  }

  lemma {:induction false} CallsOnlyVisit(chain: seq<Layer>, e: Exec, depth: nat, n: nat)
    requires chain != [] && Runs(chain, e) && NoTracker(chain) && n <= |e.calls|
    ensures OnlyVisits(CallsTrace(chain, e, depth, n))
    decreases |chain|, 0, n
  {
    if n > 0 {
      CallsOnlyVisit(chain, e, depth, n - 1);
      InnerLayersOnlyVisit(chain[1..], e.calls[n - 1], depth + 1);
    }
  }

  /** Consumers cannot name the tracker, so their layers are custom. */
  predicate ConsumerConfig(cfg: EventConfig) {
    NoTracker(cfg.commandMiddleware) && (cfg.domain.Some? ==> NoTracker(cfg.domain.value.middleware))
  }

  /**
    For any consumer layers and any way they behave, panics and retries included, a dispatch
    enters first, exits last, and does everything else in between.
  */
  lemma TrackerCoversTheChain(cfg: EventConfig, e: Exec)
    requires ConsumerConfig(cfg) && Runs(MergedChain(cfg), e)
    ensures Covered(Trace(MergedChain(cfg), e, 0))
  {
    var chain := MergedChain(cfg);
    InnerLayersOnlyVisit(chain[1..], e.calls[0], 1);
  }

  ghost predicate Covered(t: seq<Event>) {
    |t| >= 2 && t[0] == Enter && t[|t| - 1] == Exit && OnlyVisits(t[1..|t| - 1])
  }

  // ---------------------------------------------------------------------------
  // The tracker
  // ---------------------------------------------------------------------------

  // What other goroutines do to the count between two looks of a drain.
  datatype Move = In | Out

  // One turn of the drain loop: its context has ended, or the ticker fires after these moves.
  datatype Round = Cancel | Wait(moves: seq<Move>)

  datatype DrainResult = Drained | Cancelled | StillWaiting

  function Moved(pending: int, moves: seq<Move>): int {
    if moves == [] then pending
    else Moved(pending, moves[..|moves| - 1]) + if moves[|moves| - 1] == In then 1 else -1
  }

  /** The count that look i of a drain reads. */
  function CountAt(pending: int, rounds: seq<Round>, i: nat): int
    requires i <= |rounds|
  {
    if i == 0 then pending
    else
      var before := CountAt(pending, rounds, i - 1);
      if rounds[i - 1] == Cancel then before else Moved(before, rounds[i - 1].moves)
  }

  /** Look i is reached: every earlier one read a positive count and was not cancelled. */
  predicate Looks(pending: int, rounds: seq<Round>, i: nat)
    requires i <= |rounds|
  {
    forall j :: 0 <= j < i ==> CountAt(pending, rounds, j) > 0 && rounds[j] != Cancel
  }

  class InFlightTracker {
    var pending: int

    constructor ()
      ensures pending == 0
    {
      pending := 0;
    }

    method Enter()
      modifies this
      ensures pending == old(pending) + 1
    {
      pending := pending + 1;
    }

    method Exit()
      modifies this
      ensures pending == old(pending) - 1
    {
      pending := pending - 1;
    }

    method PendingCount() returns (n: int)
      ensures n == pending
    {
      n := pending;
    }

    /** Other goroutines run, one locked section after the other. */
    method Others(moves: seq<Move>)
      modifies this
      ensures pending == Moved(old(pending), moves)
    {
      for i := 0 to |moves|
        invariant pending == Moved(old(pending), moves[..i])
      {
        assert moves[..i + 1][..i] == moves[..i];
        if moves[i] == In {
          Enter();
        } else {
          Exit();
        }
      }
      assert moves[..|moves|] == moves;
    }

    /**
      Looks at the count until it is not positive. It returns nil exactly when some look that
      it reaches reads zero, and the error exactly when it is cancelled after a positive look.
    */
    method Drain(rounds: seq<Round>) returns (r: DrainResult)
      modifies this
      ensures r == Drained <==> exists i :: 0 <= i <= |rounds| && ReadsZeroAt(old(pending), rounds, i)
      ensures r == Cancelled <==> exists i :: 0 <= i < |rounds| && GivesUpAt(old(pending), rounds, i)
      ensures r == Drained ==> pending <= 0
    {
      hide CountAt, Looks;
      var i := 0;
      var n := PendingCount();
      FirstLook(old(pending), rounds);
      while n > 0
        invariant 0 <= i <= |rounds| && n == pending == CountAt(old(pending), rounds, i)
        invariant Looks(old(pending), rounds, i)
        decreases |rounds| - i, n > 0
      {
        OnlyOneEnd(old(pending), rounds, i);
        if i == |rounds| {
          return StillWaiting;
        }
        if rounds[i] == Cancel {
          assert GivesUpAt(old(pending), rounds, i);
          return Cancelled;
        }
        NextLook(old(pending), rounds, i);
        Others(rounds[i].moves);
        i := i + 1;
        n := PendingCount();
      }
      OnlyOneEnd(old(pending), rounds, i);
      assert ReadsZeroAt(old(pending), rounds, i);
      return Drained;
    }
  }

  predicate ReadsZeroAt(pending: int, rounds: seq<Round>, i: nat)
    requires i <= |rounds|
  {
    Looks(pending, rounds, i) && CountAt(pending, rounds, i) <= 0
  }

  predicate GivesUpAt(pending: int, rounds: seq<Round>, i: nat)
    requires i < |rounds|
  {
    Looks(pending, rounds, i) && CountAt(pending, rounds, i) > 0 && rounds[i] == Cancel
  }

  lemma FirstLook(pending: int, rounds: seq<Round>)
    ensures Looks(pending, rounds, 0) && CountAt(pending, rounds, 0) == pending
  {
  }

  lemma NextLook(pending: int, rounds: seq<Round>, i: nat)
    requires i < |rounds| && Looks(pending, rounds, i) && CountAt(pending, rounds, i) > 0 && rounds[i].Wait?
    ensures Looks(pending, rounds, i + 1)
    ensures CountAt(pending, rounds, i + 1) == Moved(CountAt(pending, rounds, i), rounds[i].moves)
  {
  }

  /** A drain that reaches look i has not ended before, and what look i finds settles whether it ends there. */
  lemma OnlyOneEnd(pending: int, rounds: seq<Round>, i: nat)
    requires i <= |rounds| && Looks(pending, rounds, i)
    ensures forall k :: 0 <= k < i ==> !ReadsZeroAt(pending, rounds, k) && !GivesUpAt(pending, rounds, k)
    ensures CountAt(pending, rounds, i) <= 0 || i == |rounds| || rounds[i] == Cancel ==>
              (forall k :: i < k <= |rounds| ==> !ReadsZeroAt(pending, rounds, k))
              && (forall k :: i < k < |rounds| ==> !GivesUpAt(pending, rounds, k))
  {
    hide CountAt;
  }

  // ---------------------------------------------------------------------------
  // Every interleaving of commands
  // ---------------------------------------------------------------------------

  // A dispatched command: its whole trace and how far it has got.
  datatype Command = Command(trace: seq<Event>, pos: nat)

  datatype World = World(commands: map<nat, Command>, pending: int, inside: set<nat>)

  datatype Action = Dispatch(id: nat, e: Exec) | Run(id: nat)

  ghost predicate Enabled(cfg: EventConfig, w: World, a: Action) {
    match a
    case Dispatch(id, e) => id !in w.commands && Runs(MergedChain(cfg), e)
    case Run(id) => id in w.commands && w.commands[id].pos < |w.commands[id].trace|
  }

  function Step(cfg: EventConfig, w: World, a: Action): World
    requires Enabled(cfg, w, a)
  {
    match a
    case Dispatch(id, e) => w.(commands := w.commands[id := Command(Trace(MergedChain(cfg), e, 0), 0)])
    case Run(id) =>
      var c := w.commands[id];
      var w1 := w.(commands := w.commands[id := c.(pos := c.pos + 1)]);
      match c.trace[c.pos]
      case Enter => w1.(pending := w.pending + 1, inside := w.inside + {id})
      case Exit => w1.(pending := w.pending - 1, inside := w.inside - {id})
      case Visit(_) => w1
  }

  ghost predicate Reaches(cfg: EventConfig, w: World, run: seq<Action>, end: World)
    decreases |run|
  {
    if run == [] then w == end
    else Enabled(cfg, w, run[0]) && Reaches(cfg, Step(cfg, w, run[0]), run[1..], end)
  }

  function Init(): World {
    World(map[], 0, {})
  }

  predicate Inside(c: Command) {
    1 <= c.pos < |c.trace|
  }

  ghost predicate Inv(w: World) {
    && (forall id :: id in w.commands ==> Covered(w.commands[id].trace) && w.commands[id].pos <= |w.commands[id].trace|)
    && (forall id :: id in w.inside <==> id in w.commands && Inside(w.commands[id]))
    && w.pending == |w.inside|
  }

  lemma CoveredAt(t: seq<Event>, pos: nat)
    requires Covered(t) && pos < |t|
    ensures |t| >= 2
    ensures t[pos] == Enter <==> pos == 0
    ensures t[pos] == Exit <==> pos == |t| - 1
  {
    if 1 <= pos < |t| - 1 {
      assert t[pos] == t[1..|t| - 1][pos - 1];
    }
  }

  lemma RunStepKeepsInv(cfg: EventConfig, w: World, id: nat)
    requires Inv(w) && Enabled(cfg, w, Run(id))
    ensures Inv(Step(cfg, w, Run(id)))
  {
    hide Covered;
    var c := w.commands[id];
    CoveredAt(c.trace, c.pos);
    if c.pos == 0 {
      assert id !in w.inside;
    } else if c.pos == |c.trace| - 1 {
      assert w.inside == (w.inside - {id}) + {id};
    }
  }

  lemma DispatchKeepsInv(cfg: EventConfig, w: World, id: nat, e: Exec)
    requires ConsumerConfig(cfg) && Inv(w) && Enabled(cfg, w, Dispatch(id, e))
    ensures Inv(Step(cfg, w, Dispatch(id, e)))
  {
    hide Covered, Trace, MergedChain, ConsumerConfig;
    TrackerCoversTheChain(cfg, e);
  }

  lemma StepKeepsInv(cfg: EventConfig, w: World, a: Action)
    requires ConsumerConfig(cfg) && Inv(w) && Enabled(cfg, w, a)
    ensures Inv(Step(cfg, w, a))
  {
    hide Inv, Step, Runs;
    match a
    case Dispatch(id, e) => DispatchKeepsInv(cfg, w, id, e);
    case Run(id) => RunStepKeepsInv(cfg, w, id);
  }

  lemma {:induction false} RunKeepsInv(cfg: EventConfig, w: World, run: seq<Action>, end: World)
    requires ConsumerConfig(cfg) && Inv(w) && Reaches(cfg, w, run, end)
    ensures Inv(end)
    decreases |run|
  {
    hide Inv, Step;
    if run != [] {
      StepKeepsInv(cfg, w, run[0]);
      RunKeepsInv(cfg, Step(cfg, w, run[0]), run[1..], end);
    }
  }

  /** In every interleaving the count is the number of commands inside the chain, never negative. */
  lemma PendingCountsCommands(cfg: EventConfig, run: seq<Action>, w: World)
    requires ConsumerConfig(cfg) && Reaches(cfg, Init(), run, w)
    ensures w.pending == |set id | id in w.commands && Inside(w.commands[id])|
  {
    RunKeepsInv(cfg, Init(), run, w);
    assert w.inside == set id | id in w.commands && Inside(w.commands[id]);
  }

  /** Whenever any inner layer or the handler acts, the count is at least one. */
  lemma InnerLayersRunCounted(cfg: EventConfig, run: seq<Action>, w: World, id: nat)
    requires ConsumerConfig(cfg) && Reaches(cfg, Init(), run, w)
    requires Enabled(cfg, w, Run(id)) && w.commands[id].trace[w.commands[id].pos].Visit?
    ensures w.pending >= 1
  {
    RunKeepsInv(cfg, Init(), run, w);
    assert id in w.inside;
    assert w.inside == (w.inside - {id}) + {id};
  }

  /** Every command that has entered has also left. */
  ghost predicate AllLeft(commands: map<nat, Command>) {
    forall id :: id in commands && commands[id].pos > 0 ==> commands[id].pos >= |commands[id].trace|
  }

  lemma EmptyWhenAllLeft(w: World)
    requires Inv(w)
    ensures w.pending <= 0 <==> AllLeft(w.commands)
  {
    if w.inside != {} {
      var id :| id in w.inside;
      assert w.commands[id].pos > 0;
      assert w.inside == (w.inside - {id}) + {id};
    }
  }

  /** In every interleaving the count is zero exactly when every command that has entered has also left. */
  lemma EmptyMeansAllLeft(cfg: EventConfig, run: seq<Action>, w: World)
    requires ConsumerConfig(cfg) && Reaches(cfg, Init(), run, w)
    ensures w.pending <= 0 <==> AllLeft(w.commands)
  {
    RunKeepsInv(cfg, Init(), run, w);
    EmptyWhenAllLeft(w);
  }
}
