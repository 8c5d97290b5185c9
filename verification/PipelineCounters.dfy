/**
 * The metrics counters of a run: each one equals a count over the events and
 * writes of the history, up to the ones a worker has not counted yet.
 */
module PipelineCounters {
  import opened Prelude
  import opened DnsParse
  import opened IpsetClient
  import opened Events
  import opened PipelineRun
  import opened Rules
  import opened PipelineSafety
  import opened PipelineWrites
  import opened PipelineResults

  function CountHandled(f: Handled -> bool, handled: seq<Handled>): nat {
    if handled == [] then 0
    else CountHandled(f, handled[..|handled| - 1]) + if f(handled[|handled| - 1]) then 1 else 0
  }

  function WithVerdict(v: Verdict): Handled -> bool {
    (x: Handled) => x.verdict == v
  }

  function WithHeading(c: Config, d: Direction): Handled -> bool {
    (x: Handled) => c.Heading(x.i) == d
  }

  function CountAdds(o: Outcome, adds: seq<AddRecord>): nat {
    if adds == [] then 0
    else CountAdds(o, adds[..|adds| - 1]) + if adds[|adds| - 1].outcome == o then 1 else 0
  }

  /** Events with this heading that a worker has counted and still holds. */
  function HoldsCounted(c: Config, d: Direction): Phase -> nat {
    (p: Phase) => if p.Busy() && !p.Received? && c.Heading(p.i) == d then 1 else 0
  }

  /** Writes with this outcome that are not counted yet. */
  function HoldsUncounted(o: Outcome): Phase -> nat {
    (p: Phase) => if p.Added? && p.outcome == o then 1 else 0
  }

  ghost predicate EventsRight(c: Config, s: State) {
    var n, handled := s.counters, s.history.handled;
    && n.eventsSend == CountHandled(WithHeading(c, DirSend), handled) + Sum(HoldsCounted(c, DirSend), s.workers)
    && n.eventsRecv == CountHandled(WithHeading(c, DirRecv), handled) + Sum(HoldsCounted(c, DirRecv), s.workers)
    && n.dedupHits == CountHandled(WithVerdict(Duplicate), handled)
    && n.parseErrors == CountHandled(WithVerdict(Unparsed), handled)
  }

  /** The domains of the rules found, one for each successful lookup. */
  function MatchedDomains(lookups: seq<LookupRecord>): multiset<string> {
    if lookups == [] then multiset{}
    else
      var last := lookups[|lookups| - 1];
      MatchedDomains(lookups[..|lookups| - 1])
        + if last.found.Some? then multiset{last.found.value.domain} else multiset{}
  }

  ghost predicate WritesRight(s: State) {
    var n, adds := s.counters, s.history.adds;
    && n.matches == MatchedDomains(s.history.lookups)
    && CountAdds(Written, adds) == n.writes + Sum(HoldsUncounted(Written), s.workers)
    && CountAdds(MissingSet, adds) == n.errorsMissing + Sum(HoldsUncounted(MissingSet), s.workers)
    && CountAdds(BadArgument, adds) == n.errorsOther + Sum(HoldsUncounted(BadArgument), s.workers)
  }

  /** What a worker's step does to the counters. */
  predicate CounterEffect(c: Config, s: State, s': State, w: nat)
    requires w < |s.workers|
  {
    && |s'.workers| == |s.workers|
    && var p, p' := s.workers[w], s'.workers[w];
    && s'.counters == (match p
         case Received(i) => CountEvent(s.counters, c.Heading(i))
         case Suppressed(_) => s.counters.(dedupHits := s.counters.dedupHits + 1)
         case Failed(_) => s.counters.(parseErrors := s.counters.parseErrors + 1)
         case Added(_, _, _, _, outcome) => CountAdd(s.counters, outcome)
         case Dispatching(_, load, names, todo) =>
           if todo == [] && names != [] then CountMatch(s.counters, Match(load.rules, names[0])) else s.counters
         case _ => s.counters)
    && (p'.Received? ==> p.Waiting?)
    && (p.Waiting? && p'.Busy() ==> p'.Received?)
  }

  lemma {:induction false} WorkCounterEffect(c: Config, s: State, w: nat, clock: int, order: seq<string>)
    requires Enabled(c, s, Work(w, clock, order))
    ensures CounterEffect(c, s, WorkStep(c, s, w, clock, order), w)
  {
    match s.workers[w]
    case Received(i) => ArrivalCounters(c, s, w, i);
    case Parsed(i, parsedOrder) => LoadCounters(c, s, w, i, parsedOrder);
    case Dispatching(_, _, names, todo) =>
      if todo != [] {
        WriteCounters(c, s, w);
      } else if names != [] {
        LookupCounters(c, s, w);
      }
    case Added(_, _, _, _, _) => CountWriteCounters(c, s, w);
    case _ => QuietCounters(c, s, w, clock, order);
  }

  lemma {:induction false} ArrivalCounters(c: Config, s: State, w: nat, i: nat)
    requires w < |s.workers| && s.workers[w] == Received(i)
    ensures CounterEffect(c, s, CountArrival(c, s, w, i), w)
  {
  }

  lemma {:induction false} LoadCounters(c: Config, s: State, w: nat, i: nat, order: seq<string>)
    requires w < |s.workers| && s.workers[w] == Parsed(i, order)
    ensures CounterEffect(c, s, LoadSnapshot(c, s, w, i, order), w)
  {
  }

  lemma {:induction false} WriteCounters(c: Config, s: State, w: nat)
    requires w < |s.workers| && s.workers[w].Dispatching? && s.workers[w].todo != []
    ensures CounterEffect(c, s, WriteNext(s, w, s.workers[w]), w)
  {
  }

  lemma {:induction false} LookupCounters(c: Config, s: State, w: nat)
    requires w < |s.workers| && s.workers[w].Dispatching? && s.workers[w].todo == [] && s.workers[w].names != []
    ensures CounterEffect(c, s, LookUpNext(c, s, w, s.workers[w]), w)
  {
  }

  lemma {:induction false} CountWriteCounters(c: Config, s: State, w: nat)
    requires w < |s.workers| && s.workers[w].Added?
    ensures CounterEffect(c, s, CountWrite(s, w, s.workers[w]), w)
  {
  }

  lemma {:induction false} QuietCounters(c: Config, s: State, w: nat, clock: int, order: seq<string>)
    requires Enabled(c, s, Work(w, clock, order))
    requires var p := s.workers[w]; !p.Received? && !p.Parsed? && !p.Dispatching? && !p.Added?
    ensures CounterEffect(c, s, WorkStep(c, s, w, clock, order), w)
  {
  }

  lemma {:induction false} CountHandledNext(f: Handled -> bool, handled: seq<Handled>, handled': seq<Handled>, i: nat)
    requires PutAway(handled, handled', i)
    ensures CountHandled(f, handled') == CountHandled(f, handled) + if f(handled'[|handled|]) then 1 else 0
  {
    assert handled'[..|handled'| - 1] == handled;
  }

  /** One heading: counted events are handled or in hand. */
  lemma {:induction false} HeadingKept(c: Config, s: State, s': State, w: nat, d: Direction, before: nat)
    requires w < |s.workers| && Shape(s, s', w) && CounterEffect(c, s, s', w)
    requires before == CountHandled(WithHeading(c, d), s.history.handled) + Sum(HoldsCounted(c, d), s.workers)
    ensures CountHandled(WithHeading(c, d), s'.history.handled) + Sum(HoldsCounted(c, d), s'.workers)
      == before + if s.workers[w].Received? && c.Heading(s.workers[w].i) == d then 1 else 0
  {
    var p, p' := s.workers[w], s'.workers[w];
    SumUpdate(HoldsCounted(c, d), s.workers, w, p');
    if p.Busy() && !p'.Busy() {
      CountHandledNext(WithHeading(c, d), s.history.handled, s'.history.handled, p.i);
    }
  }

  lemma {:induction false} EventsWork(c: Config, s: State, s': State, w: nat)
    requires EventsRight(c, s)
    requires w < |s.workers| && Shape(s, s', w) && WriteEffect(c, s, s', w) && CounterEffect(c, s, s', w)
    ensures EventsRight(c, s')
  {
    ArrivalsCounted(c, s, s', w);
    HeadingKept(c, s, s', w, DirSend, s.counters.eventsSend);
    HeadingKept(c, s, s', w, DirRecv, s.counters.eventsRecv);
    VerdictsCounted(c, s, s', w);
  }

  lemma {:induction false} ArrivalsCounted(c: Config, s: State, s': State, w: nat)
    requires w < |s.workers| && CounterEffect(c, s, s', w)
    ensures var p, n, n' := s.workers[w], s.counters, s'.counters;
      && n'.eventsSend == n.eventsSend + (if p.Received? && c.Heading(p.i) == DirSend then 1 else 0)
      && n'.eventsRecv == n.eventsRecv + (if p.Received? && c.Heading(p.i) == DirRecv then 1 else 0)
  {
  }

  lemma {:induction false} VerdictsCounted(c: Config, s: State, s': State, w: nat)
    requires s.counters.dedupHits == CountHandled(WithVerdict(Duplicate), s.history.handled)
    requires s.counters.parseErrors == CountHandled(WithVerdict(Unparsed), s.history.handled)
    requires w < |s.workers| && Shape(s, s', w) && WriteEffect(c, s, s', w) && CounterEffect(c, s, s', w)
    ensures s'.counters.dedupHits == CountHandled(WithVerdict(Duplicate), s'.history.handled)
    ensures s'.counters.parseErrors == CountHandled(WithVerdict(Unparsed), s'.history.handled)
  {
    var p, p' := s.workers[w], s'.workers[w];
    if p.Busy() && !p'.Busy() {
      CountHandledNext(WithVerdict(Duplicate), s.history.handled, s'.history.handled, p.i);
      CountHandledNext(WithVerdict(Unparsed), s.history.handled, s'.history.handled, p.i);
    }
  }

  /** One outcome: completed writes are counted or about to be. */
  lemma {:induction false} OutcomeKept(c: Config, s: State, s': State, w: nat, o: Outcome)
    requires w < |s.workers| && Shape(s, s', w) && WriteEffect(c, s, s', w)
    ensures var p := s.workers[w];
      CountAdds(o, s'.history.adds) + Sum(HoldsUncounted(o), s.workers)
        == CountAdds(o, s.history.adds) + Sum(HoldsUncounted(o), s'.workers)
           + if p.Added? && p.outcome == o then 1 else 0
  {
    var p, adds, adds' := s.workers[w], s.history.adds, s'.history.adds;
    SumUpdate(HoldsUncounted(o), s.workers, w, s'.workers[w]);
    if p.Dispatching? && p.todo != [] {
      assert adds'[..|adds'| - 1] == adds;
    }
  }

  lemma {:induction false} WritesWork(c: Config, s: State, s': State, w: nat)
    requires WritesRight(s)
    requires w < |s.workers| && Shape(s, s', w) && WriteEffect(c, s, s', w) && CounterEffect(c, s, s', w)
    ensures WritesRight(s')
  {
    OutcomeCounted(c, s, s', w);
    OutcomeKept(c, s, s', w, Written);
    OutcomeKept(c, s, s', w, MissingSet);
    OutcomeKept(c, s, s', w, BadArgument);
    MatchesKept(c, s, s', w);
  }

  lemma {:induction false} OutcomeCounted(c: Config, s: State, s': State, w: nat)
    requires w < |s.workers| && CounterEffect(c, s, s', w)
    ensures var p, n, n' := s.workers[w], s.counters, s'.counters;
      && n'.writes == n.writes + (if p.Added? && p.outcome == Written then 1 else 0)
      && n'.errorsMissing == n.errorsMissing + (if p.Added? && p.outcome == MissingSet then 1 else 0)
      && n'.errorsOther == n.errorsOther + (if p.Added? && p.outcome == BadArgument then 1 else 0)
  {
  }

  lemma {:induction false} MatchesKept(c: Config, s: State, s': State, w: nat)
    requires s.counters.matches == MatchedDomains(s.history.lookups)
    requires w < |s.workers| && WriteEffect(c, s, s', w) && CounterEffect(c, s, s', w)
    ensures s'.counters.matches == MatchedDomains(s'.history.lookups)
  {
    var p := s.workers[w];
    if p.Dispatching? && p.todo == [] && p.names != [] {
      var x := LookupRecord(p.i, p.names[0], Match(p.load.rules, p.names[0]));
      MatchNext(s.counters, s'.counters, s.history.lookups, s'.history.lookups, x);
    } else {
      MatchesSame(c, s, s', w);
    }
  }

  /** A lookup is recorded and counted. */
  lemma {:induction false} MatchNext(n: Counters, n': Counters, lookups: seq<LookupRecord>,
                                     lookups': seq<LookupRecord>, x: LookupRecord)
    requires n.matches == MatchedDomains(lookups)
    requires n' == CountMatch(n, x.found) && lookups' == lookups + [x]
    ensures n'.matches == MatchedDomains(lookups')
  {
    assert lookups'[..|lookups'| - 1] == lookups;
  }

  lemma {:induction false} MatchesSame(c: Config, s: State, s': State, w: nat)
    requires w < |s.workers| && WriteEffect(c, s, s', w) && CounterEffect(c, s, s', w)
    requires var p := s.workers[w]; !(p.Dispatching? && p.todo == [] && p.names != [])
    ensures s'.counters.matches == s.counters.matches && s'.history.lookups == s.history.lookups
  {
  }

  lemma {:induction false} CountersStep(c: Config, s: State, a: Action)
    requires EventsRight(c, s) && WritesRight(s) && Enabled(c, s, a)
    ensures EventsRight(c, Step(c, s, a)) && WritesRight(Step(c, s, a))
  {
    if a.Work? {
      WorkShape(c, s, a.w, a.clock, a.order);
      WorkWriteEffect(c, s, a.w, a.clock, a.order);
      WorkCounterEffect(c, s, a.w, a.clock, a.order);
      EventsWork(c, s, Step(c, s, a), a.w);
      WritesWork(c, s, Step(c, s, a), a.w);
    } else {
      OutsideKeepsCounters(c, s, a);
    }
  }

  lemma {:induction false} OutsideKeepsCounters(c: Config, s: State, a: Action)
    requires EventsRight(c, s) && WritesRight(s) && !a.Work?
    ensures EventsRight(c, Step(c, s, a)) && WritesRight(Step(c, s, a))
  {
    OutsideSame(c, s, a);
    SameRight(c, s, Step(c, s, a));
  }

  /** Neither the counters nor what they count. */
  predicate SameCounts(s: State, s': State) {
    && s'.counters == s.counters && s'.workers == s.workers && s'.history.handled == s.history.handled
    && s'.history.adds == s.history.adds && s'.history.lookups == s.history.lookups
  }

  lemma {:induction false} OutsideSame(c: Config, s: State, a: Action)
    requires !a.Work?
    ensures SameCounts(s, Step(c, s, a))
  {
  }

  lemma {:induction false} SameRight(c: Config, s: State, s': State)
    requires EventsRight(c, s) && WritesRight(s) && SameCounts(s, s')
    ensures EventsRight(c, s') && WritesRight(s')
  {
  }

  lemma {:induction false} CountersInit(c: Config)
    ensures EventsRight(c, Init(c)) && WritesRight(Init(c))
  {
    var ws := Init(c).workers;
    SumZeroInitially(HoldsCounted(c, DirSend), ws);
    SumZeroInitially(HoldsCounted(c, DirRecv), ws);
    SumZeroInitially(HoldsUncounted(Written), ws);
    SumZeroInitially(HoldsUncounted(MissingSet), ws);
    SumZeroInitially(HoldsUncounted(BadArgument), ws);
  }

  lemma {:induction false} CountersAlong(c: Config, states: seq<State>, actions: seq<Action>, n: nat)
    requires IsRun(c, states, actions) && n <= |actions|
    ensures EventsRight(c, states[n]) && WritesRight(states[n])
  {
    if n == 0 {
      CountersInit(c);
    } else {
      CountersAlong(c, states, actions, n - 1);
      CountersStep(c, states[n - 1], actions[n - 1]);
    }
  }

  /** In every reachable state the counters agree with the history up to what is still being counted. */
  lemma {:induction false} CountersHold(c: Config, s: State)
    requires Reachable(c, s)
    ensures EventsRight(c, s) && WritesRight(s)
  {
    var states, actions :| IsRun(c, states, actions) && states[|actions|] == s;
    CountersAlong(c, states, actions, |actions|);
  }

  lemma {:induction false} VerdictsAddUp(handled: seq<Handled>)
    ensures CountHandled(WithVerdict(Duplicate), handled) + CountHandled(WithVerdict(Unparsed), handled)
      + CountHandled(WithVerdict(NoRules), handled) + CountHandled(WithVerdict(Dispatched), handled) == |handled|
  {
    if handled != [] {
      VerdictsAddUp(handled[..|handled| - 1]);
    }
  }

  lemma {:induction false} HeadingsAddUp(c: Config, handled: seq<Handled>)
    ensures CountHandled(WithHeading(c, DirSend), handled) + CountHandled(WithHeading(c, DirRecv), handled)
      + CountHandled(WithHeading(c, DirOther), handled) == |handled|
  {
    if handled != [] {
      HeadingsAddUp(c, handled[..|handled| - 1]);
    }
  }

  lemma {:induction false} OutcomesAddUp(adds: seq<AddRecord>)
    ensures CountAdds(Written, adds) + CountAdds(MissingSet, adds) + CountAdds(BadArgument, adds) == |adds|
  {
    if adds != [] {
      OutcomesAddUp(adds[..|adds| - 1]);
    }
  }

  /** Events that a worker has counted and still holds. */
  function HoldsAnyCounted(p: Phase): nat {
    if p.Busy() && !p.Received? then 1 else 0
  }

  /** Writes that are not counted yet. */
  function HoldsAnyUncounted(p: Phase): nat {
    if p.Added? then 1 else 0
  }

  lemma {:induction false} HeldHeadingsAddUp(c: Config, ws: seq<Phase>)
    ensures Sum(HoldsCounted(c, DirSend), ws) + Sum(HoldsCounted(c, DirRecv), ws) + Sum(HoldsCounted(c, DirOther), ws)
      == Sum(HoldsAnyCounted, ws)
  {
    if ws != [] {
      HeldHeadingsAddUp(c, ws[1..]);
    }
  }

  lemma {:induction false} HeldOutcomesAddUp(ws: seq<Phase>)
    ensures Sum(HoldsUncounted(Written), ws) + Sum(HoldsUncounted(MissingSet), ws)
      + Sum(HoldsUncounted(BadArgument), ws) == Sum(HoldsAnyUncounted, ws)
  {
    if ws != [] {
      HeldOutcomesAddUp(ws[1..]);
    }
  }

  /** Events of no counted direction, handled or in hand. */
  function Uncountable(c: Config, s: State): nat {
    CountHandled(WithHeading(c, DirOther), s.history.handled) + Sum(HoldsCounted(c, DirOther), s.workers)
  }

  /**
   * In every reachable state: events counted (with those of no counted direction)
   * are the duplicates, the parse errors, the events passed on and those between
   * these steps; writes attempted are the writes, the errors and those not yet counted.
   */
  lemma {:induction false} CountersAlwaysBalance(c: Config, s: State)
    requires Reachable(c, s)
    ensures var n, handled := s.counters, s.history.handled;
      && n.eventsSend + n.eventsRecv + Uncountable(c, s)
         == n.dedupHits + n.parseErrors
            + CountHandled(WithVerdict(NoRules), handled) + CountHandled(WithVerdict(Dispatched), handled)
            + Sum(HoldsAnyCounted, s.workers)
      && |s.history.adds| == n.writes + n.errorsMissing + n.errorsOther + Sum(HoldsAnyUncounted, s.workers)
  {
    CountersHold(c, s);
    VerdictsAddUp(s.history.handled);
    HeadingsAddUp(c, s.history.handled);
    OutcomesAddUp(s.history.adds);
    HeldHeadingsAddUp(c, s.workers);
    HeldOutcomesAddUp(s.workers);
  }

  /**
   * When Run returns nothing is in flight: events counted (and those of no counted
   * direction) are the duplicates, the parse errors and the events passed on, and
   * writes and errors add up to the writes attempted.
   */
  lemma {:induction false} CountersBalance(c: Config, s: State)
    requires Reachable(c, s) && s.main.Finished?
    ensures var n, handled := s.counters, s.history.handled;
      && n.eventsSend + n.eventsRecv + CountHandled(WithHeading(c, DirOther), handled)
         == n.dedupHits + n.parseErrors
            + CountHandled(WithVerdict(NoRules), handled) + CountHandled(WithVerdict(Dispatched), handled)
      && n.eventsSend == CountHandled(WithHeading(c, DirSend), handled)
      && n.eventsRecv == CountHandled(WithHeading(c, DirRecv), handled)
      && n.writes == CountAdds(Written, s.history.adds)
      && n.writes + n.errorsMissing + n.errorsOther == |s.history.adds|
      && |handled| == s.sent
  {
    CountersHold(c, s);
    ReturnMeansDrained(c, s);
    SumPositive(HoldsCounted(c, DirSend), s.workers);
    SumPositive(HoldsCounted(c, DirRecv), s.workers);
    SumPositive(HoldsUncounted(Written), s.workers);
    SumPositive(HoldsUncounted(MissingSet), s.workers);
    SumPositive(HoldsUncounted(BadArgument), s.workers);
    VerdictsAddUp(s.history.handled);
    HeadingsAddUp(c, s.history.handled);
    OutcomesAddUp(s.history.adds);
    SameMultisetSameLength(Ids(s.history.handled), Span(0, s.sent));
  }

  // ---------------------------------------------------------------- counters in terms of the input

  /** The events sent with this direction. */
  function SentWith(c: Config, n: nat, d: Direction): set<nat> {
    set i: nat | i < n && i < |c.events| && c.events[i].direction == d
  }

  function Picks(c: Config, d: Direction): nat -> seq<nat> {
    (i: nat) => if c.Heading(i) == d then [i] else []
  }

  lemma {:induction false} HandledPicks(c: Config, d: Direction, handled: seq<Handled>)
    ensures CountHandled(WithHeading(c, d), handled) == |FlatMap(Picks(c, d), Ids(handled))|
  {
    if handled != [] {
      var front, last := handled[..|handled| - 1], handled[|handled| - 1];
      HandledPicks(c, d, front);
      assert Ids(handled) == Ids(front) + [last.i];
      FlatMapSnoc(Picks(c, d), Ids(front), last.i);
    }
  }

  lemma {:induction false} SpanPicks(c: Config, d: Direction, n: nat)
    requires n <= |c.events|
    ensures |FlatMap(Picks(c, d), Span(0, n))| == |SentWith(c, n, d)|
  {
    if n == 0 {
      assert SentWith(c, 0, d) == {};
    } else {
      var last: nat := n - 1;
      SpanPicks(c, d, last);
      SpanNext(0, last);
      FlatMapSnoc(Picks(c, d), Span(0, last), last);
      SentWithNext(c, last, d);
    }
  }

  lemma {:induction false} SentWithNext(c: Config, n: nat, d: Direction)
    requires n < |c.events|
    ensures |SentWith(c, n + 1, d)| == |SentWith(c, n, d)| + if c.events[n].direction == d then 1 else 0
  {
    var more := if c.events[n].direction == d then {n} else {};
    assert SentWith(c, n + 1, d) == SentWith(c, n, d) + more;
    assert n !in SentWith(c, n, d);
  }

  lemma {:induction false} HeadingTotal(c: Config, s: State, d: Direction)
    requires Reachable(c, s) && s.main.Finished?
    ensures CountHandled(WithHeading(c, d), s.history.handled) == |SentWith(c, s.sent, d)|
  {
    NothingLost(c, s);
    ReturnMeansDrained(c, s);
    HandledPicks(c, d, s.history.handled);
    SpanPicks(c, d, s.sent);
    var f := Picks(c, d);
    FlatMapPermutation(f, f, Ids(s.history.handled), Span(0, s.sent));
    SameMultisetSameLength(FlatMap(f, Ids(s.history.handled)), FlatMap(f, Span(0, s.sent)));
  }

  /** When Run returns, each direction's counter is the number of events sent with that direction. */
  lemma {:induction false} DirectionsCounted(c: Config, s: State)
    requires Reachable(c, s) && s.main.Finished?
    ensures s.counters.eventsSend == |SentWith(c, s.sent, DirSend)|
    ensures s.counters.eventsRecv == |SentWith(c, s.sent, DirRecv)|
  {
    CountersBalance(c, s);
    HeadingTotal(c, s, DirSend);
    HeadingTotal(c, s, DirRecv);
  }

  /** The writes attempted into sets that the kernel has, or has not. */
  function Into(c: Config, adds: seq<AddRecord>, present: bool): set<nat> {
    set n: nat | n < |adds| && adds[n].call.ip != NilIP && (adds[n].call.name in c.kernel) == present
  }

  function WithOutcome(adds: seq<AddRecord>, o: Outcome): set<nat> {
    set n: nat | n < |adds| && adds[n].outcome == o
  }

  lemma {:induction false} OutcomeTotal(adds: seq<AddRecord>, o: Outcome)
    ensures CountAdds(o, adds) == |WithOutcome(adds, o)|
  {
    if adds == [] {
      assert WithOutcome(adds, o) == {};
    } else {
      OutcomeTotal(adds[..|adds| - 1], o);
      WithOutcomeNext(adds, o);
    }
  }

  lemma {:induction false} WithOutcomeNext(adds: seq<AddRecord>, o: Outcome)
    requires adds != []
    ensures var n, front := |adds| - 1, adds[..|adds| - 1];
      |WithOutcome(adds, o)| == |WithOutcome(front, o)| + if adds[n].outcome == o then 1 else 0
  {
    var n, front := |adds| - 1, adds[..|adds| - 1];
    var more := if adds[n].outcome == o then {n} else {};
    assert WithOutcome(adds, o) == WithOutcome(front, o) + more;
    assert n !in WithOutcome(front, o);
  }

  /** When Run returns, the missing-set counter counts the writes to absent sets, and the write counter the others. */
  lemma {:induction false} OutcomesCounted(c: Config, s: State)
    requires Reachable(c, s) && s.main.Finished?
    ensures s.counters.errorsMissing == |Into(c, s.history.adds, false)|
    ensures s.counters.writes == |Into(c, s.history.adds, true)|
  {
    var adds := s.history.adds;
    CountersHold(c, s);
    ReturnMeansDrained(c, s);
    SumPositive(HoldsUncounted(Written), s.workers);
    SumPositive(HoldsUncounted(MissingSet), s.workers);
    OutcomeTotal(adds, Written);
    OutcomeTotal(adds, MissingSet);
    forall n | 0 <= n < |adds| {
      WriteOutcome(c, s, n);
    }
    assert WithOutcome(adds, MissingSet) == Into(c, adds, false);
    assert WithOutcome(adds, Written) == Into(c, adds, true);
  }

  /** The lookups that found a rule with this domain. */
  function Found(lookups: seq<LookupRecord>, domain: string): set<nat> {
    set n: nat | n < |lookups| && lookups[n].found.Some? && lookups[n].found.value.domain == domain
  }

  lemma {:induction false} FoundTotal(lookups: seq<LookupRecord>, domain: string)
    ensures MatchedDomains(lookups)[domain] == |Found(lookups, domain)|
  {
    if lookups == [] {
      assert Found(lookups, domain) == {};
    } else {
      FoundTotal(lookups[..|lookups| - 1], domain);
      FoundNext(lookups, domain);
    }
  }

  lemma {:induction false} FoundNext(lookups: seq<LookupRecord>, domain: string)
    requires lookups != []
    ensures var n, front := |lookups| - 1, lookups[..|lookups| - 1];
      var hit := lookups[n].found.Some? && lookups[n].found.value.domain == domain;
      |Found(lookups, domain)| == |Found(front, domain)| + if hit then 1 else 0
  {
    var n, front := |lookups| - 1, lookups[..|lookups| - 1];
    var more := if lookups[n].found.Some? && lookups[n].found.value.domain == domain then {n} else {};
    assert Found(lookups, domain) == Found(front, domain) + more;
    assert n !in Found(front, domain);
  }

  /** In every reachable state, a domain's match counter is the number of lookups that found a rule with it. */
  lemma {:induction false} MatchesCounted(c: Config, s: State, domain: string)
    requires Reachable(c, s)
    ensures s.counters.matches[domain] == |Found(s.history.lookups, domain)|
  {
    CountersHold(c, s);
    FoundTotal(s.history.lookups, domain);
  }
}
