/**
 * Progress and termination: a lexicographic measure decreases at every step of the
 * pipeline, and once the context is cancelled some step is possible until Run returns.
 */
module PipelineLiveness {
  import opened DnsParse
  import opened Rules
  import opened IpsetClient
  import opened PipelineRun
  import opened PipelineSafety

  /** Source activity left, events queued, worker phases, lookups and writes left, shutdown phase. */
  datatype Measure = Measure(source: nat, queued: nat, phases: nat, dispatch: nat, shutdown: nat)

  predicate Less(m: Measure, n: Measure) {
    || m.source < n.source
    || (m.source == n.source && m.queued < n.queued)
    || (m.source == n.source && m.queued == n.queued && m.phases < n.phases)
    || (m.source == n.source && m.queued == n.queued && m.phases == n.phases && m.dispatch < n.dispatch)
    || (m.source == n.source && m.queued == n.queued && m.phases == n.phases && m.dispatch == n.dispatch
        && m.shutdown < n.shutdown)
  }

  function Rank(p: Phase): nat {
    match p
    case Received(_) => 9
    case Counted(_) => 8
    case Timed(_, _) => 7
    case Looked(_, _, _) => 6
    case Fresh(_) => 5
    case Parsed(_, _) => 4
    case Suppressed(_) => 3
    case Failed(_) => 3
    case Dispatching(_, _, _, _) => 3
    case Added(_, _, _, _, _) => 3
    case Waiting => 2
    case Leaving => 1
    case Exited => 0
  }

  /** Two steps for each write to come, one for each lookup. */
  function WorkLeft(c: Config): Phase -> nat {
    (p: Phase) => match p
      case Dispatching(i, load, names, todo) => 2 * (|todo| + |CallsFor(c, i, load, names)|) + |names|
      case Added(i, load, names, todo, _) => 2 * (|todo| + |CallsFor(c, i, load, names)|) + |names| + 1
      case _ => 0
  }

  function MeasureOf(c: Config, s: State): Measure {
    Measure(
      match s.source
      case Running => if s.sent <= |c.events| then |c.events| - s.sent + 2 else 2
      case Reporting => 1
      case Done => 0,
      |s.queue|,
      Sum(Rank, s.workers),
      Sum(WorkLeft(c), s.workers),
      match s.main
      case AwaitSource => c.Workers() + 3
      case Closing => c.Workers() + 2
      case Joining(joined) => if joined <= c.Workers() then c.Workers() + 1 - joined else 1
      case Finished => 0)
  }

  /** A worker's step takes an event, or moves to a lower phase, or does one write. */
  predicate RankDrops(c: Config, s: State, s': State, w: nat)
    requires w < |s.workers|
  {
    && |s'.workers| == |s.workers|
    && var p, p' := s.workers[w], s'.workers[w];
    || |s'.queue| < |s.queue|
    || (s'.queue == s.queue && Rank(p') < Rank(p))
    || (s'.queue == s.queue && Rank(p') == Rank(p) && WorkLeft(c)(p') < WorkLeft(c)(p))
  }

  lemma {:induction false} WorkRankDrops(c: Config, s: State, w: nat, clock: int, order: seq<string>)
    requires Enabled(c, s, Work(w, clock, order))
    ensures RankDrops(c, s, WorkStep(c, s, w, clock, order), w)
  {
    var p := s.workers[w];
    if p.Waiting? || p.Leaving? || p.Received? || p.Counted? {
    } else if p.Timed? || p.Looked? || p.Fresh? {
      LookupRankDrops(c, s, w, clock, order);
    } else if p.Suppressed? || p.Failed? {
      AwayRankDrops(c, s, w, clock, order);
    } else {
      DispatchRankDrops(c, s, w, clock, order);
    }
  }

  lemma {:induction false} LookupRankDrops(c: Config, s: State, w: nat, clock: int, order: seq<string>)
    requires w < |s.workers| && (s.workers[w].Timed? || s.workers[w].Looked? || s.workers[w].Fresh?)
    ensures RankDrops(c, s, WorkStep(c, s, w, clock, order), w)
  {
    match s.workers[w]
    case Timed(i, now) => ReadRankDrops(c, s, w, i, now);
    case Looked(i, now, hit) => CacheRankDrops(c, s, w, i, now, hit);
    case Fresh(i) => ParseRankDrops(c, s, w, i, order);
  }

  lemma {:induction false} ReadRankDrops(c: Config, s: State, w: nat, i: nat, now: int)
    requires w < |s.workers| && s.workers[w] == Timed(i, now)
    ensures RankDrops(c, s, ReadCache(c, s, w, i, now), w)
  {
  }

  lemma {:induction false} CacheRankDrops(c: Config, s: State, w: nat, i: nat, now: int, hit: bool)
    requires w < |s.workers| && s.workers[w] == Looked(i, now, hit)
    ensures RankDrops(c, s, WriteCache(c, s, w, i, now, hit), w)
  {
  }

  lemma {:induction false} ParseRankDrops(c: Config, s: State, w: nat, i: nat, order: seq<string>)
    requires w < |s.workers| && s.workers[w] == Fresh(i)
    ensures RankDrops(c, s, ParsePayload(c, s, w, i, order), w)
  {
  }

  lemma {:induction false} AwayRankDrops(c: Config, s: State, w: nat, clock: int, order: seq<string>)
    requires w < |s.workers| && (s.workers[w].Suppressed? || s.workers[w].Failed?)
    ensures RankDrops(c, s, WorkStep(c, s, w, clock, order), w)
  {
  }

  lemma {:induction false} DispatchRankDrops(c: Config, s: State, w: nat, clock: int, order: seq<string>)
    requires w < |s.workers| && (s.workers[w].Parsed? || s.workers[w].Dispatching? || s.workers[w].Added?)
    ensures RankDrops(c, s, WorkStep(c, s, w, clock, order), w)
  {
    var p := s.workers[w];
    if p.Parsed? {
    } else if p.Dispatching? {
      DispatchingRankDrops(c, s, w, clock, order);
    } else {
    }
  }

  lemma {:induction false} DispatchingRankDrops(c: Config, s: State, w: nat, clock: int, order: seq<string>)
    requires w < |s.workers| && s.workers[w].Dispatching?
    ensures RankDrops(c, s, WorkStep(c, s, w, clock, order), w)
  {
    var p := s.workers[w];
    if p.todo != [] {
      WriteRankDrops(c, s, w);
    } else if p.names != [] {
      LookUpRankDrops(c, s, w);
    }
  }

  lemma {:induction false} WriteRankDrops(c: Config, s: State, w: nat)
    requires w < |s.workers| && s.workers[w].Dispatching? && s.workers[w].todo != []
    ensures RankDrops(c, s, WriteNext(s, w, s.workers[w]), w)
  {
    var p := s.workers[w];
    WriteLowers(c, p, AddOutcome(s.kernel, p.todo[0].name, p.todo[0].ip));
  }

  lemma {:induction false} LookUpRankDrops(c: Config, s: State, w: nat)
    requires w < |s.workers| && s.workers[w].Dispatching? && s.workers[w].todo == [] && s.workers[w].names != []
    ensures RankDrops(c, s, LookUpNext(c, s, w, s.workers[w]), w)
  {
    LookupLowers(c, s.workers[w]);
  }

  lemma {:induction false} WriteLowers(c: Config, p: Phase, o: Outcome)
    requires p.Dispatching? && p.todo != []
    ensures WorkLeft(c)(Added(p.i, p.load, p.names, p.todo[1..], o)) < WorkLeft(c)(p)
  {
  }

  lemma {:induction false} LookupLowers(c: Config, p: Phase)
    requires p.Dispatching? && p.todo == [] && p.names != []
    ensures var calls := CallsOfMatch(c, p.i, p.load, Match(p.load.rules, p.names[0]));
      WorkLeft(c)(Dispatching(p.i, p.load, p.names[1..], calls)) < WorkLeft(c)(p)
  {
  }

  lemma {:induction false} WorkDecreases(c: Config, s: State, s': State, w: nat)
    requires w < |s.workers| && Shape(s, s', w) && RankDrops(c, s, s', w)
    ensures Less(MeasureOf(c, s'), MeasureOf(c, s))
  {
    SumUpdate(Rank, s.workers, w, s'.workers[w]);
    SumUpdate(WorkLeft(c), s.workers, w, s'.workers[w]);
  }

  /** Every step of the pipeline decreases the measure; the environment's steps leave it. */
  lemma {:induction false} MeasureDecreases(c: Config, s: State, a: Action)
    requires Channels(c, s) && Enabled(c, s, a)
    ensures if a.External() then MeasureOf(c, Step(c, s, a)) == MeasureOf(c, s)
            else Less(MeasureOf(c, Step(c, s, a)), MeasureOf(c, s))
  {
    if a.Work? {
      var s' := WorkStep(c, s, a.w, a.clock, a.order);
      WorkShape(c, s, a.w, a.clock, a.order);
      WorkRankDrops(c, s, a.w, a.clock, a.order);
      WorkDecreases(c, s, s', a.w);
    }
  }

  // ---------------------------------------------------------------- progress

  /** A step of the pipeline itself is possible. */
  ghost predicate CanStep(c: Config, s: State) {
    exists a: Action :: !a.External() && Enabled(c, s, a)
  }

  /** A worker can always move, except to wait for an open, empty channel or when it has exited. */
  lemma {:induction false} WorkerCanStep(c: Config, s: State, w: nat)
    requires Channels(c, s) && w < |s.workers| && !s.workers[w].Exited?
    requires s.workers[w].Waiting? ==> s.queue != [] || s.closed
    ensures CanStep(c, s)
  {
    var p := s.workers[w];
    var order: seq<string> := [];
    if p.Fresh? && c.Decoded(p.i).Some? {
      order := SomeOrder(c.Decoded(p.i).value.answers);
    }
    SumFull(HasExited, s.workers);
    assert HasExited(p) == 0;
    assert Enabled(c, s, Work(w, 0, order));
  }

  /** After cancellation the pipeline is stuck exactly when Run has returned. */
  lemma {:induction false} StuckIffReturned(c: Config, s: State)
    requires Reachable(c, s) && s.cancelled
    ensures !CanStep(c, s) <==> s.main.Finished?
  {
    ProtocolHolds(c, s);
    SumFull(HasExited, s.workers);
    if s.main.Finished? {
      forall a: Action | !a.External() ensures !Enabled(c, s, a) {
        if a.Work? && a.w < |s.workers| {
          assert HasExited(s.workers[a.w]) == 1;
        }
      }
    } else if s.source.Running? {
      assert Enabled(c, s, SourceReturn);
    } else if s.source.Reporting? {
      assert Enabled(c, s, SourceReport);
    } else if s.main.AwaitSource? {
      assert Enabled(c, s, MainReceive);
    } else if s.main.Closing? {
      assert Enabled(c, s, MainClose);
    } else if s.main.joined == c.Workers() {
      assert Enabled(c, s, MainReturn);
    } else if s.workerDone > 0 {
      assert Enabled(c, s, MainJoin);
    } else {
      SomeoneLeft(s.workers);
      var w :| 0 <= w < |s.workers| && !s.workers[w].Exited?;
      WorkerCanStep(c, s, w);
    }
  }

  lemma {:induction false} SomeoneLeft(ws: seq<Phase>)
    requires Sum(HasExited, ws) < |ws|
    ensures exists w | 0 <= w < |ws| :: !ws[w].Exited?
  {
    if ws[0].Exited? {
      SomeoneLeft(ws[1..]);
      var w :| 0 <= w < |ws| - 1 && !ws[1..][w].Exited?;
      assert ws[w + 1] == ws[1..][w];
    }
  }

  /** Before cancellation the pipeline only comes to rest with every event sent and handled and every worker waiting. */
  lemma {:induction false} RestsOnlyWhenIdle(c: Config, s: State)
    requires Reachable(c, s) && !s.cancelled && !CanStep(c, s)
    ensures s.sent == |c.events| && s.queue == [] && (forall w | 0 <= w < |s.workers| :: s.workers[w].Waiting?)
    ensures multiset(Ids(s.history.handled)) == multiset(Span(0, |c.events|))
  {
    ProtocolHolds(c, s);
    forall w | 0 <= w < |s.workers| ensures s.workers[w].Waiting? && s.queue == [] {
      if s.workers[w].Exited? || !s.workers[w].Waiting? || s.queue != [] {
        WorkerCanStep(c, s, w);
      }
    }
    assert s.workers[0].Waiting?;
    assert !Enabled(c, s, SourceSend);
    NobodyBusy(s.workers);
  }

  // ---------------------------------------------------------------- termination

  lemma {:induction false} RunExtends(c: Config, states: seq<State>, actions: seq<Action>, a: Action)
    requires IsRun(c, states, actions) && Enabled(c, states[|actions|], a)
    ensures IsRun(c, states + [Step(c, states[|actions|], a)], actions + [a])
  {
  }

  lemma {:induction false} ReachableStep(c: Config, s: State, a: Action)
    requires Reachable(c, s) && Enabled(c, s, a)
    ensures Reachable(c, Step(c, s, a))
  {
    var states, actions :| IsRun(c, states, actions) && states[|actions|] == s;
    RunExtends(c, states, actions, a);
    assert (states + [Step(c, s, a)])[|actions + [a]|] == Step(c, s, a);
  }

  lemma {:induction false} CancelledStays(c: Config, s: State, a: Action)
    requires Enabled(c, s, a) && s.cancelled
    ensures Step(c, s, a).cancelled
  {
    if a.Work? {
      WorkShape(c, s, a.w, a.clock, a.order);
    }
  }

  /** Possible steps, from `s`, that end in `t`. */
  ghost predicate Leads(c: Config, s: State, actions: seq<Action>, t: State)
    decreases |actions|
  {
    if actions == [] then s == t
    else Enabled(c, s, actions[0]) && Leads(c, Step(c, s, actions[0]), actions[1..], t)
  }

  /** From every cancelled reachable state the pipeline's own steps can lead to the return of Run. */
  lemma {:induction false} RunReturns(c: Config, s: State) returns (actions: seq<Action>, t: State)
    requires Reachable(c, s) && s.cancelled
    ensures Leads(c, s, actions, t) && (forall a | a in actions :: !a.External())
    ensures t.main.Finished?
  {
    actions, t := RunsOn(c, s, MeasureOf(c, s));
  }

  lemma {:induction false} RunsOn(c: Config, s: State, left: Measure) returns (actions: seq<Action>, t: State)
    requires Reachable(c, s) && s.cancelled && MeasureOf(c, s) == left
    ensures Leads(c, s, actions, t) && (forall a | a in actions :: !a.External())
    ensures t.main.Finished?
    decreases left.source, left.queued, left.phases, left.dispatch, left.shutdown
  {
    StuckIffReturned(c, s);
    if s.main.Finished? {
      actions, t := [], s;
    } else {
      var a, next, less := StepOn(c, s);
      var rest;
      rest, t := RunsOn(c, next, less);
      actions := [a] + rest;
    }
  }

  /** Some step of the pipeline, and what it leaves to do. */
  lemma {:induction false} StepOn(c: Config, s: State) returns (a: Action, next: State, less: Measure)
    requires Reachable(c, s) && s.cancelled && CanStep(c, s)
    ensures !a.External() && Enabled(c, s, a) && next == Step(c, s, a)
    ensures Reachable(c, next) && next.cancelled && MeasureOf(c, next) == less && Less(less, MeasureOf(c, s))
  {
    a :| !a.External() && Enabled(c, s, a);
    next, less := Step(c, s, a), MeasureOf(c, Step(c, s, a));
    ProtocolHolds(c, s);
    MeasureDecreases(c, s, a);
    ReachableStep(c, s, a);
    CancelledStays(c, s, a);
  }

  /** A run can deliver and handle every event of the source, and then return. */
  lemma {:induction false} EverythingCanBeHandled(c: Config) returns (actions: seq<Action>, t: State)
    ensures Leads(c, Init(c), actions, t) && t.main.Finished? && t.sent == |c.events|
    ensures multiset(Ids(t.history.handled)) == multiset(Span(0, |c.events|))
  {
    InitReachable(c);
    var before, s := RunsToRest(c, Init(c), MeasureOf(c, Init(c)));
    RestsOnlyWhenIdle(c, s);
    var cancelled := Step(c, s, Cancel);
    ReachableStep(c, s, Cancel);
    var after;
    after, t := RunReturns(c, cancelled);
    assert ([Cancel] + after)[1..] == after;
    LeadsOn(c, Init(c), before, s, [Cancel] + after, t);
    actions := before + ([Cancel] + after);
    SentOnlyGrows(c, cancelled, after, t);
    LeadsReachable(c, cancelled, after, t);
    ProtocolHolds(c, t);
    ReturnMeansDrained(c, t);
  }

  lemma {:induction false} InitReachable(c: Config)
    ensures Reachable(c, Init(c))
  {
    assert IsRun(c, [Init(c)], []);
  }

  /** Without cancellation, the pipeline's own steps come to rest. */
  lemma {:induction false} RunsToRest(c: Config, s: State, left: Measure) returns (actions: seq<Action>, t: State)
    requires Reachable(c, s) && !s.cancelled && MeasureOf(c, s) == left
    ensures Leads(c, s, actions, t) && Reachable(c, t) && !t.cancelled && !CanStep(c, t)
    decreases left.source, left.queued, left.phases, left.dispatch, left.shutdown
  {
    if !CanStep(c, s) {
      actions, t := [], s;
    } else {
      var a, next, less := StepTowardsRest(c, s);
      var rest;
      rest, t := RunsToRest(c, next, less);
      actions := [a] + rest;
    }
  }

  lemma {:induction false} StepTowardsRest(c: Config, s: State) returns (a: Action, next: State, less: Measure)
    requires Reachable(c, s) && !s.cancelled && CanStep(c, s)
    ensures Enabled(c, s, a) && next == Step(c, s, a)
    ensures Reachable(c, next) && !next.cancelled && MeasureOf(c, next) == less && Less(less, MeasureOf(c, s))
  {
    a :| !a.External() && Enabled(c, s, a);
    next, less := Step(c, s, a), MeasureOf(c, Step(c, s, a));
    ProtocolHolds(c, s);
    MeasureDecreases(c, s, a);
    ReachableStep(c, s, a);
    StaysUncancelled(c, s, a);
  }

  lemma {:induction false} StaysUncancelled(c: Config, s: State, a: Action)
    requires Enabled(c, s, a) && !a.Cancel? && !s.cancelled
    ensures !Step(c, s, a).cancelled
  {
    if a.Work? {
      WorkShape(c, s, a.w, a.clock, a.order);
    }
  }

  lemma {:induction false} LeadsOn(c: Config, s: State, p: seq<Action>, mid: State, q: seq<Action>, t: State)
    requires Leads(c, s, p, mid) && Leads(c, mid, q, t)
    ensures Leads(c, s, p + q, t)
    decreases |p|
  {
    if p == [] {
      assert p + q == q;
    } else {
      assert (p + q)[1..] == p[1..] + q;
      LeadsOn(c, Step(c, s, p[0]), p[1..], mid, q, t);
    }
  }

  lemma {:induction false} LeadsReachable(c: Config, s: State, actions: seq<Action>, t: State)
    requires Reachable(c, s) && Leads(c, s, actions, t)
    ensures Reachable(c, t)
    decreases |actions|
  {
    if actions != [] {
      ReachableStep(c, s, actions[0]);
      LeadsReachable(c, Step(c, s, actions[0]), actions[1..], t);
    }
  }

  lemma {:induction false} SentOnlyGrows(c: Config, s: State, actions: seq<Action>, t: State)
    requires Leads(c, s, actions, t)
    ensures t.sent >= s.sent
    decreases |actions|
  {
    if actions != [] {
      SentGrows(c, s, actions[0]);
      SentOnlyGrows(c, Step(c, s, actions[0]), actions[1..], t);
    }
  }

  lemma {:induction false} SentGrows(c: Config, s: State, a: Action)
    requires Enabled(c, s, a)
    ensures Step(c, s, a).sent >= s.sent
  {
    if a.Work? {
      WorkShape(c, s, a.w, a.clock, a.order);
    }
  }

  /** However the steps are interleaved after cancellation, they can only come to rest with Run returned. */
  lemma {:induction false} RestMeansReturned(c: Config, s: State, actions: seq<Action>, t: State)
    requires Reachable(c, s) && s.cancelled && Leads(c, s, actions, t) && !CanStep(c, t)
    ensures t.main.Finished?
    decreases |actions|
  {
    if actions == [] {
      StuckIffReturned(c, s);
    } else {
      ReachableStep(c, s, actions[0]);
      CancelledStays(c, s, actions[0]);
      RestMeansReturned(c, Step(c, s, actions[0]), actions[1..], t);
    }
  }

  /** The environment does not keep the pipeline from a possible step forever. */
  ghost predicate Fair(c: Config, run: nat -> State, act: nat -> Action) {
    forall k: nat :: CanStep(c, run(k)) ==> exists j: nat :: j >= k && !act(j).External()
  }

  ghost predicate IsEndlessRun(c: Config, run: nat -> State, act: nat -> Action) {
    forall k: nat :: StepAt(c, run, act, k)
  }

  ghost predicate StepAt(c: Config, run: nat -> State, act: nat -> Action, k: nat) {
    Enabled(c, run(k), act(k)) && run(k + 1) == Step(c, run(k), act(k))
  }

  /** Every endless fair run in which the context is cancelled reaches the return of Run, and stays there. */
  lemma {:induction false} EveryFairRunReturns(c: Config, run: nat -> State, act: nat -> Action, n: nat)
    returns (m: nat)
    requires Reachable(c, run(n)) && run(n).cancelled && IsEndlessRun(c, run, act) && Fair(c, run, act)
    ensures m >= n && forall k: nat | k >= m :: run(k).main.Finished?
  {
    m := FinitelyManySteps(c, run, act, n);
    forall k: nat | k >= m ensures run(k).main.Finished? {
      ReachableAlong(c, run, act, n, k);
      assert !CanStep(c, run(k));
      StuckIffReturned(c, run(k));
    }
  }

  lemma {:induction false} ReachableAlong(c: Config, run: nat -> State, act: nat -> Action, n: nat, k: nat)
    requires Reachable(c, run(n)) && run(n).cancelled && IsEndlessRun(c, run, act) && n <= k
    ensures Reachable(c, run(k)) && run(k).cancelled
  {
    if n < k {
      ReachableAlong(c, run, act, n, k - 1);
      assert StepAt(c, run, act, k - 1);
      CancelledNext(c, run(k - 1), act(k - 1), run(k - 1 + 1));
    }
  }

  lemma {:induction false} CancelledNext(c: Config, s: State, a: Action, s': State)
    requires Reachable(c, s) && s.cancelled && Enabled(c, s, a) && s' == Step(c, s, a)
    ensures Reachable(c, s') && s'.cancelled
  {
    ReachableStep(c, s, a);
    CancelledStays(c, s, a);
  }

  /** An endless run: from some point on, the environment is the only one that moves. */
  lemma {:induction false} FinitelyManySteps(c: Config, run: nat -> State, act: nat -> Action, n: nat) returns (m: nat)
    requires Reachable(c, run(n)) && IsEndlessRun(c, run, act)
    ensures m >= n && forall k: nat | k >= m :: act(k).External()
  {
    m := StepsRunOut(c, run, act, n, MeasureOf(c, run(n)));
  }

  lemma {:induction false} StepsRunOut(c: Config, run: nat -> State, act: nat -> Action, n: nat, left: Measure)
    returns (m: nat)
    requires Reachable(c, run(n)) && IsEndlessRun(c, run, act) && MeasureOf(c, run(n)) == left
    ensures m >= n && forall k: nat | k >= m :: act(k).External()
    decreases left.source, left.queued, left.phases, left.dispatch, left.shutdown
  {
    if k: nat :| k >= n && !act(k).External() {
      var first := FirstStep(c, run, act, n, k);
      var next, less := NextLowers(c, run, act, first);
      m := StepsRunOut(c, run, act, next, less);
    } else {
      m := n;
    }
  }

  lemma {:induction false} NextLowers(c: Config, run: nat -> State, act: nat -> Action, k: nat)
    returns (next: nat, less: Measure)
    requires Reachable(c, run(k)) && IsEndlessRun(c, run, act) && !act(k).External()
    ensures next > k && Reachable(c, run(next)) && MeasureOf(c, run(next)) == less && Less(less, MeasureOf(c, run(k)))
  {
    next, less := k + 1, MeasureOf(c, run(k + 1));
    assert StepAt(c, run, act, k);
    ProtocolHolds(c, run(k));
    MeasureDecreases(c, run(k), act(k));
    ReachableStep(c, run(k), act(k));
  }

  lemma {:induction false} ExternalStands(c: Config, s: State, a: Action, s': State)
    requires Reachable(c, s) && Enabled(c, s, a) && a.External() && s' == Step(c, s, a)
    ensures Reachable(c, s') && MeasureOf(c, s') == MeasureOf(c, s)
  {
    ProtocolHolds(c, s);
    MeasureDecreases(c, s, a);
    ReachableStep(c, s, a);
  }

  /** The first step of the pipeline at or after `n`; until then the measure stands still. */
  lemma {:induction false} FirstStep(c: Config, run: nat -> State, act: nat -> Action, n: nat, k: nat)
    returns (first: nat)
    requires Reachable(c, run(n)) && n <= k && !act(k).External() && IsEndlessRun(c, run, act)
    ensures n <= first <= k && !act(first).External() && Reachable(c, run(first))
    ensures MeasureOf(c, run(first)) == MeasureOf(c, run(n))
    decreases k - n
  {
    if act(n).External() {
      assert StepAt(c, run, act, n);
      ExternalStands(c, run(n), act(n), run(n + 1));
      first := FirstStep(c, run, act, n + 1, k);
    } else {
      first := n;
    }
  }
}
