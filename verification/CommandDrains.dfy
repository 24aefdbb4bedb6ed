/**
  Drains among running commands: any number of drain loops, each looking at the tracker's
  count while commands enter, run and leave in any order.
*/
module CommandDrains {
  import opened Options
  import opened Commands

  // Between two looks a drain sleeps until the ticker fires or its context ends.
  datatype Phase = Looking | Sleeping | ReturnedNil | GaveUp

  datatype Drain = Drain(
    phase: Phase,
    // history
    begun: map<nat, Command>,   // the commands when it began
    counts: seq<int>,           // what its looks read
    last: map<nat, Command>)    // the commands at its last look

  datatype Service = Service(w: World, drains: map<nat, Drain>)

  datatype Move = Work(a: Action) | Begin(d: nat) | Look(d: nat) | Tick(d: nat) | Stop(d: nat)

  ghost predicate CanMove(cfg: EventConfig, s: Service, x: Move) {
    match x
    case Work(a) => Enabled(cfg, s.w, a)
    case Begin(d) => d !in s.drains
    case Look(d) => d in s.drains && s.drains[d].phase == Looking
    case Tick(d) => d in s.drains && s.drains[d].phase == Sleeping
    case Stop(d) => d in s.drains && s.drains[d].phase == Sleeping
  }

  function Moved(cfg: EventConfig, s: Service, x: Move): Service
    requires CanMove(cfg, s, x)
  {
    match x
    case Work(a) => s.(w := Step(cfg, s.w, a))
    case Begin(d) => s.(drains := s.drains[d := Drain(Looking, s.w.commands, [], map[])])
    case Look(d) =>
      s.(drains := s.drains[d := s.drains[d].(
        phase := if s.w.pending > 0 then Sleeping else ReturnedNil,
        counts := s.drains[d].counts + [s.w.pending],
        last := s.w.commands)])
    case Tick(d) => s.(drains := s.drains[d := s.drains[d].(phase := Looking)])
    case Stop(d) => s.(drains := s.drains[d := s.drains[d].(phase := GaveUp)])
  }

  ghost predicate Gets(cfg: EventConfig, s: Service, run: seq<Move>, end: Service)
    decreases |run|
  {
    if run == [] then s == end
    else CanMove(cfg, s, run[0]) && Gets(cfg, Moved(cfg, s, run[0]), run[1..], end)
  }

  /** The same commands, some of them further on, and perhaps more of them. */
  ghost predicate Later(a: map<nat, Command>, b: map<nat, Command>) {
    forall id :: id in a ==> id in b && a[id].trace == b[id].trace && a[id].pos <= b[id].pos <= |b[id].trace|
  }

  ghost predicate AllPositive(counts: seq<int>) {
    forall i :: 0 <= i < |counts| ==> counts[i] > 0
  }

  ghost predicate DrainInv(d: Drain, commands: map<nat, Command>) {
    && Later(d.begun, commands)
    && (d.counts != [] ==> Later(d.begun, d.last) && Later(d.last, commands))
    && (d.phase != Looking ==> d.counts != [])
    && (if d.phase == ReturnedNil then
          AllPositive(d.counts[..|d.counts| - 1]) && d.counts[|d.counts| - 1] == 0 && AllLeft(d.last)
        else AllPositive(d.counts) && (d.counts != [] ==> !AllLeft(d.last)))
  }

  ghost predicate ServiceInv(s: Service) {
    Inv(s.w) && forall d :: d in s.drains ==> DrainInv(s.drains[d], s.w.commands)
  }

  lemma LaterStill(a: map<nat, Command>, b: map<nat, Command>, c: map<nat, Command>)
    requires Later(a, b) && Later(b, c)
    ensures Later(a, c)
  {
  }

  lemma WorkGoesOn(cfg: EventConfig, w: World, a: Action)
    requires forall id :: id in w.commands ==> w.commands[id].pos <= |w.commands[id].trace|
    requires Enabled(cfg, w, a)
    ensures Later(w.commands, Step(cfg, w, a).commands)
  {
    hide Covered, Runs, Trace, MergedChain;
    var after := Step(cfg, w, a).commands;
    forall id | id in w.commands
      ensures id in after && after[id].trace == w.commands[id].trace
      ensures w.commands[id].pos <= after[id].pos <= |after[id].trace|
    {
      match a {
        case Dispatch(other, _) => assert id != other;
        case Run(other) => assert id != other ==> after[id] == w.commands[id];
      }
    }
  }

  lemma CommandsInBounds(w: World)
    requires Inv(w)
    ensures forall id :: id in w.commands ==> w.commands[id].pos <= |w.commands[id].trace|
  {
    hide Covered;
  }

  lemma WorkKeepsDrains(cfg: EventConfig, s: Service, a: Action)
    requires ConsumerConfig(cfg) && ServiceInv(s) && CanMove(cfg, s, Work(a))
    ensures ServiceInv(Moved(cfg, s, Work(a)))
  {
    hide Inv, Later, AllLeft, AllPositive, Enabled, Step;
    StepKeepsInv(cfg, s.w, a);
    CommandsInBounds(s.w);
    WorkGoesOn(cfg, s.w, a);
    var after := Step(cfg, s.w, a).commands;
    forall d | d in s.drains
      ensures DrainInv(s.drains[d], after)
    {
      LaterStill(s.drains[d].begun, s.w.commands, after);
      if s.drains[d].counts != [] {
        LaterStill(s.drains[d].last, s.w.commands, after);
      }
    }
  }

  lemma SameTime(w: World)
    requires Inv(w)
    ensures Later(w.commands, w.commands) && w.pending >= 0
  {
    hide Covered;
  }

  lemma LookKeepsDrains(cfg: EventConfig, s: Service, d: nat)
    requires ServiceInv(s) && CanMove(cfg, s, Look(d))
    ensures ServiceInv(Moved(cfg, s, Look(d)))
  {
    hide Inv, Later, AllLeft;
    SameTime(s.w);
    EmptyWhenAllLeft(s.w);
    var counts := s.drains[d].counts + [s.w.pending];
    assert counts[..|counts| - 1] == s.drains[d].counts;
  }

  lemma OtherMovesKeepDrains(cfg: EventConfig, s: Service, x: Move)
    requires ServiceInv(s) && CanMove(cfg, s, x) && !x.Work? && !x.Look?
    ensures ServiceInv(Moved(cfg, s, x))
  {
    hide Inv, Later, AllLeft;
    SameTime(s.w);
  }

  lemma {:induction false} RunKeepsServiceInv(cfg: EventConfig, s: Service, run: seq<Move>, end: Service)
    requires ConsumerConfig(cfg) && ServiceInv(s) && Gets(cfg, s, run, end)
    ensures ServiceInv(end)
    decreases |run|
  {
    hide ServiceInv, Moved, ConsumerConfig;
    if run != [] {
      match run[0] {
        case Work(a) => WorkKeepsDrains(cfg, s, a);
        case Look(d) => LookKeepsDrains(cfg, s, d);
        case _ => OtherMovesKeepDrains(cfg, s, run[0]);
      }
      RunKeepsServiceInv(cfg, Moved(cfg, s, run[0]), run[1..], end);
    }
  }

  lemma InitService()
    ensures ServiceInv(Service(Init(), map[]))
  {
  }

  /**
    In every interleaving a drain that has returned nil did so at a look that read zero after
    positive ones, at a moment when every command that had entered had left; so every command
    that had entered before the drain began has left, and stays so.
  */
  lemma DrainedMeansAllLeft(cfg: EventConfig, run: seq<Move>, s: Service, d: nat)
    requires ConsumerConfig(cfg) && Gets(cfg, Service(Init(), map[]), run, s)
    requires d in s.drains && s.drains[d].phase == ReturnedNil
    ensures var drain := s.drains[d];
      && AllLeft(drain.last)
      && Later(drain.begun, drain.last) && Later(drain.last, s.w.commands)
      && drain.counts != [] && drain.counts[|drain.counts| - 1] == 0 && AllPositive(drain.counts[..|drain.counts| - 1])
      && (forall id :: id in drain.begun && drain.begun[id].pos > 0 ==>
            id in s.w.commands && s.w.commands[id].pos == |s.w.commands[id].trace|)
  {
    hide Inv, ConsumerConfig;
    InitService();
    RunKeepsServiceInv(cfg, Service(Init(), map[]), run, s);
  }

  /** A drain that gave up never read zero, and some command was inside at its last look. */
  lemma CancelledMeansNeverEmpty(cfg: EventConfig, run: seq<Move>, s: Service, d: nat)
    requires ConsumerConfig(cfg) && Gets(cfg, Service(Init(), map[]), run, s)
    requires d in s.drains && s.drains[d].phase == GaveUp
    ensures s.drains[d].counts != [] && AllPositive(s.drains[d].counts) && !AllLeft(s.drains[d].last)
  {
    hide Inv, ConsumerConfig, Later, AllLeft;
    InitService();
    RunKeepsServiceInv(cfg, Service(Init(), map[]), run, s);
  }

  /** A look ends the drain exactly when every command that has entered has left. */
  lemma LookEndsExactly(cfg: EventConfig, run: seq<Move>, s: Service, d: nat)
    requires ConsumerConfig(cfg) && Gets(cfg, Service(Init(), map[]), run, s) && CanMove(cfg, s, Look(d))
    ensures Moved(cfg, s, Look(d)).drains[d].phase == ReturnedNil <==> AllLeft(s.w.commands)
  {
    hide Inv, ConsumerConfig, AllLeft;
    InitService();
    RunKeepsServiceInv(cfg, Service(Init(), map[]), run, s);
    EmptyWhenAllLeft(s.w);
  }

  lemma {:induction false} BegunStays(cfg: EventConfig, s: Service, run: seq<Move>, end: Service, d: nat)
    requires Gets(cfg, s, run, end) && d in s.drains
    ensures d in end.drains && end.drains[d].begun == s.drains[d].begun
    decreases |run|
  {
    hide Step, Enabled;
    if run != [] {
      BegunStays(cfg, Moved(cfg, s, run[0]), run[1..], end, d);
    }
  }

  lemma {:induction false} GetsConcat(cfg: EventConfig, a: Service, x: seq<Move>, b: Service, y: seq<Move>, c: Service)
    requires Gets(cfg, a, x, b) && Gets(cfg, b, y, c)
    ensures Gets(cfg, a, x + y, c)
    decreases |x|
  {
    hide Moved, CanMove;
    if x == [] {
      assert x + y == y;
    } else {
      assert (x + y)[1..] == x[1..] + y;
      GetsConcat(cfg, Moved(cfg, a, x[0]), x[1..], b, y, c);
    }
  }

  /**
    For every run in two parts with a drain beginning in between: if the drain has returned nil
    by the end, every command that had entered when it began has left.
  */
  lemma DrainWaitsForEarlierCommands(cfg: EventConfig, first: seq<Move>, mid: Service, d: nat, rest: seq<Move>, end: Service,
                                     id: nat)
    requires ConsumerConfig(cfg) && Gets(cfg, Service(Init(), map[]), first, mid) && CanMove(cfg, mid, Begin(d))
    requires Gets(cfg, Moved(cfg, mid, Begin(d)), rest, end)
    requires d in end.drains && end.drains[d].phase == ReturnedNil
    requires id in mid.w.commands && mid.w.commands[id].pos > 0
    ensures id in end.w.commands && end.w.commands[id].pos == |end.w.commands[id].trace|
  {
    hide ConsumerConfig, Gets, AllLeft, Later, AllPositive;
    var begun := Moved(cfg, mid, Begin(d));
    BegunStays(cfg, begun, rest, end, d);
    OneMove(cfg, mid, Begin(d));
    GetsConcat(cfg, Service(Init(), map[]), first, mid, [Begin(d)], begun);
    GetsConcat(cfg, Service(Init(), map[]), first + [Begin(d)], begun, rest, end);
    DrainedMeansAllLeft(cfg, first + [Begin(d)] + rest, end, d);
  }

  lemma OneMove(cfg: EventConfig, s: Service, x: Move)
    requires CanMove(cfg, s, x)
    ensures Gets(cfg, s, [x], Moved(cfg, s, x))
  {
    assert [x][1..] == [];
  }
}
