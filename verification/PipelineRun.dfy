/**
 * `Pipeline.Run` as an interleaved state machine: the fake source, the bounded
 * events channel, the worker pool, the two completion channels, cancellation,
 * and an environment that may replace the rules at any moment. One step is one
 * operation on shared state. An event is named by its position in the source list.
 */
module PipelineRun {
  import opened Prelude
  import opened Rules
  import opened DnsParse
  import opened IpsetClient
  import opened Dispatch
  import opened Dedup
  import opened Events

  const CAPACITY := 1024

  /** The hash and the wire decoder are whatever functions they are. */
  datatype Config = Config(
    events: seq<Event>,
    requestedWorkers: int,
    hash: Payload -> nat,
    decode: Payload -> Option<Message>,
    dedupSize: nat,
    dedupTtl: int,
    limits: Limits,
    rules: Option<seq<Rule>>,
    kernel: Kernel)
  {
    /** A non-positive worker count means one worker. */
    function Workers(): (n: nat)
      ensures n >= 1
      ensures requestedWorkers >= 1 ==> n == requestedWorkers
      ensures requestedWorkers < 1 ==> n == 1
    {
      if requestedWorkers <= 0 then 1 else requestedWorkers
    }

    function Key(i: nat): nat {
      if i < |events| then hash(events[i].payload) else 0
    }

    function Decoded(i: nat): Option<Message> {
      if i < |events| then decode(events[i].payload) else None
    }

    function Heading(i: nat): Direction {
      if i < |events| then events[i].direction else DirOther
    }
  }

  /** The rule list an event was dispatched under, and the alias order of its parse. */
  datatype Load = Load(rules: seq<Rule>, order: seq<string>)

  /**
   * Where a worker is; in all but the outer phases it has event `i` in hand. While
   * dispatching it holds on to the rules it loaded, and has the names still to be
   * looked up and the writes still to be made for the current one.
   */
  datatype Phase =
    | Waiting
    | Received(i: nat)
    | Counted(i: nat)
    | Timed(i: nat, now: int)
    | Looked(i: nat, now: int, hit: bool)
    | Suppressed(i: nat)
    | Fresh(i: nat)
    | Failed(i: nat)
    | Parsed(i: nat, order: seq<string>)
    | Dispatching(i: nat, load: Load, names: seq<string>, todo: seq<AddCall>)
    | Added(i: nat, load: Load, names: seq<string>, todo: seq<AddCall>, outcome: Outcome)
    | Leaving
    | Exited
  {
    predicate Busy() {
      !Waiting? && !Leaving? && !Exited?
    }
  }

  datatype SourcePhase = Running | Reporting | Done

  datatype MainPhase = AwaitSource | Closing | Joining(joined: nat) | Finished

  datatype Handled = Handled(i: nat, verdict: Verdict)

  /** One completed write into the dedup cache. */
  datatype Sighting = Sighting(i: nat, time: int, hit: bool)

  /** What event `i` found in the rules for a name. */
  datatype LookupRecord = LookupRecord(i: nat, name: string, found: Option<Rule>)

  datatype AddRecord = AddRecord(i: nat, call: AddCall, outcome: Outcome)

  datatype Counters = Counters(
    eventsSend: nat, eventsRecv: nat, dedupHits: nat, parseErrors: nat, matches: multiset<string>,
    writes: nat, errorsMissing: nat, errorsOther: nat)

  /** What has happened; the program does not keep it. */
  datatype History = History(
    handled: seq<Handled>,
    sightings: seq<Sighting>,
    loads: map<nat, Load>,
    lookups: seq<LookupRecord>,
    adds: seq<AddRecord>,
    published: seq<seq<Rule>>)

  datatype State = State(
    cancelled: bool,
    sent: nat,
    source: SourcePhase,
    srcDone: nat,
    queue: seq<nat>,
    closed: bool,
    panicked: bool,
    workers: seq<Phase>,
    workerDone: nat,
    main: MainPhase,
    cache: seq<Entry>,
    rules: Option<seq<Rule>>,
    kernel: Kernel,
    counters: Counters,
    history: History)

  function Init(c: Config): State {
    State(
      false, 0, Running, 0, [], false, false,
      seq(c.Workers(), _ => Waiting), 0, AwaitSource,
      [], c.rules, c.kernel, Counters(0, 0, 0, 0, multiset{}, 0, 0, 0),
      History([], [], map[], [], [], if c.rules.Some? then [c.rules.value] else []))
  }

  /** A step; a worker's step carries a clock reading and an alias order for those that use them. */
  datatype Action =
    | Cancel
    | Replace(rules: seq<Rule>)
    | SourceSend
    | SourceReturn
    | SourceReport
    | MainReceive
    | MainClose
    | MainJoin
    | MainReturn
    | Work(w: nat, clock: int, order: seq<string>)
  {
    /** Steps of the environment rather than of the pipeline. */
    predicate External() {
      Cancel? || Replace?
    }
  }

  ghost predicate Enabled(c: Config, s: State, a: Action) {
    match a
    case Cancel => !s.cancelled
    case Replace(_) => true
    // select between the cancelled context and a send that would not block; sending on a closed channel panics
    case SourceSend => s.source.Running? && s.sent < |c.events| && (s.closed || |s.queue| < CAPACITY)
    case SourceReturn => s.source.Running? && s.cancelled
    case SourceReport => s.source.Reporting? && s.srcDone < 1
    case MainReceive => s.main.AwaitSource? && s.srcDone > 0
    case MainClose => s.main.Closing?
    case MainJoin => s.main.Joining? && s.main.joined < c.Workers() && s.workerDone > 0
    case MainReturn => s.main.Joining? && s.main.joined >= c.Workers()
    case Work(w, _, order) =>
      && w < |s.workers|
      && match s.workers[w]
         case Waiting => s.queue != [] || s.closed
         case Fresh(i) => c.Decoded(i).Some? ==> IsOrder(order, c.Decoded(i).value.answers)
         case Leaving => s.workerDone < c.Workers()
         case Exited => false
         case _ => true
  }

  function Step(c: Config, s: State, a: Action): State {
    match a
    case Cancel => s.(cancelled := true)
    case Replace(rules) =>
      s.(rules := Some(rules), history := s.history.(published := s.history.published + [rules]))
    case SourceSend =>
      if s.closed then s.(panicked := true)
      else s.(queue := s.queue + [s.sent], sent := s.sent + 1)
    case SourceReturn => s.(source := Reporting)
    case SourceReport => s.(source := Done, srcDone := s.srcDone + 1)
    case MainReceive => if s.srcDone == 0 then s else s.(srcDone := s.srcDone - 1, main := Closing)
    case MainClose => s.(closed := true, main := Joining(0))
    case MainJoin =>
      if s.main.Joining? && s.workerDone > 0
      then s.(workerDone := s.workerDone - 1, main := Joining(s.main.joined + 1)) else s
    case MainReturn => s.(main := Finished)
    case Work(w, clock, order) => if w < |s.workers| then WorkStep(c, s, w, clock, order) else s
  }

  /** Worker `w` moves on to phase `p`. */
  function Move(s: State, w: nat, p: Phase): State
    requires w < |s.workers|
  {
    s.(workers := s.workers[w := p])
  }

  /** Worker `w` is done with event `i` and goes back to the channel. */
  function Finish(s: State, w: nat, i: nat, v: Verdict): State
    requires w < |s.workers|
  {
    Move(s, w, Waiting).(history := s.history.(handled := s.history.handled + [Handled(i, v)]))
  }

  function WorkStep(c: Config, s: State, w: nat, clock: int, order: seq<string>): State
    requires w < |s.workers|
  {
    var p := s.workers[w];
    match p
    case Waiting => Take(s, w)
    case Received(i) => CountArrival(c, s, w, i)
    case Counted(i) => Move(s, w, Timed(i, clock))
    case Timed(i, now) => ReadCache(c, s, w, i, now)
    case Looked(i, now, hit) => WriteCache(c, s, w, i, now, hit)
    case Suppressed(i) => Suppress(s, w, i)
    case Fresh(i) => ParsePayload(c, s, w, i, order)
    case Failed(i) => Reject(s, w, i)
    case Parsed(i, parsedOrder) => LoadSnapshot(c, s, w, i, parsedOrder)
    case Dispatching(i, load, names, todo) =>
      if todo != [] then WriteNext(s, w, p)
      else if names != [] then LookUpNext(c, s, w, p)
      else Finish(s, w, i, Dispatched)
    case Added(_, _, _, _, _) => CountWrite(s, w, p)
    case Leaving => Move(s, w, Exited).(workerDone := s.workerDone + 1)
    case Exited => s
  }

  /** Receives the oldest event, or leaves the loop once the channel is drained. */
  function Take(s: State, w: nat): State
    requires w < |s.workers|
  {
    if s.queue != [] then Move(s, w, Received(s.queue[0])).(queue := s.queue[1..]) else Move(s, w, Leaving)
  }

  function CountArrival(c: Config, s: State, w: nat, i: nat): State
    requires w < |s.workers|
  {
    Move(s, w, Counted(i)).(counters := CountEvent(s.counters, c.Heading(i)))
  }

  function ReadCache(c: Config, s: State, w: nat, i: nat, now: int): State
    requires w < |s.workers|
  {
    Move(s, w, Looked(i, now, Hit(TimeOf(s.cache, c.Key(i)), now, c.dedupTtl))).(cache := Touch(s.cache, c.Key(i)))
  }

  function WriteCache(c: Config, s: State, w: nat, i: nat, now: int, hit: bool): State
    requires w < |s.workers|
  {
    Move(s, w, if hit then Suppressed(i) else Fresh(i))
      .(cache := Put(s.cache, c.Key(i), now, c.dedupSize),
        history := s.history.(sightings := s.history.sightings + [Sighting(i, now, hit)]))
  }

  function Suppress(s: State, w: nat, i: nat): State
    requires w < |s.workers|
  {
    Finish(s, w, i, Duplicate).(counters := s.counters.(dedupHits := s.counters.dedupHits + 1))
  }

  function ParsePayload(c: Config, s: State, w: nat, i: nat, order: seq<string>): State
    requires w < |s.workers|
  {
    Move(s, w, if ParseResult(c.Decoded(i), order).Ok? then Parsed(i, order) else Failed(i))
  }

  function Reject(s: State, w: nat, i: nat): State
    requires w < |s.workers|
  {
    Finish(s, w, i, Unparsed).(counters := s.counters.(parseErrors := s.counters.parseErrors + 1))
  }

  /** Loads the rules in force, once for all the event's names. */
  function LoadSnapshot(c: Config, s: State, w: nat, i: nat, order: seq<string>): State
    requires w < |s.workers|
  {
    if s.rules.None? then Finish(s, w, i, NoRules)
    else
      var load := Load(s.rules.value, order);
      Move(s, w, Dispatching(i, load, NamesUnder(c, i, load), []))
        .(history := s.history.(loads := s.history.loads[i := load]))
  }

  function CountWrite(s: State, w: nat, p: Phase): State
    requires w < |s.workers| && p.Added?
  {
    Move(s, w, Dispatching(p.i, p.load, p.names, p.todo)).(counters := CountAdd(s.counters, p.outcome))
  }

  /** The call to the client for the next write. */
  function WriteNext(s: State, w: nat, p: Phase): State
    requires w < |s.workers| && p.Dispatching? && p.todo != []
  {
    var call := p.todo[0];
    var outcome := AddOutcome(s.kernel, call.name, call.ip);
    Move(s, w, Added(p.i, p.load, p.names, p.todo[1..], outcome))
      .(kernel := KernelAfter(s.kernel, call.name, call.ip, call.ttl),
        history := s.history.(adds := s.history.adds + [AddRecord(p.i, call, outcome)]))
  }

  /** The next name is looked up in the rules the worker holds, whatever has been published since. */
  function LookUpNext(c: Config, s: State, w: nat, p: Phase): State
    requires w < |s.workers| && p.Dispatching? && p.names != []
  {
    var found := Match(p.load.rules, p.names[0]);
    Move(s, w, Dispatching(p.i, p.load, p.names[1..], CallsOfMatch(c, p.i, p.load, found)))
      .(counters := CountMatch(s.counters, found),
        history := s.history.(lookups := s.history.lookups + [LookupRecord(p.i, p.names[0], found)]))
  }

  function CountEvent(n: Counters, d: Direction): Counters {
    match d
    case DirSend => n.(eventsSend := n.eventsSend + 1)
    case DirRecv => n.(eventsRecv := n.eventsRecv + 1)
    case DirOther => n
  }

  function CountAdd(n: Counters, o: Outcome): Counters {
    match o
    case Written => n.(writes := n.writes + 1)
    case MissingSet => n.(errorsMissing := n.errorsMissing + 1)
    case BadArgument => n.(errorsOther := n.errorsOther + 1)
  }

  function CountMatch(n: Counters, found: Option<Rule>): Counters {
    match found
    case None => n
    case Some(rule) => n.(matches := n.matches + multiset{rule.domain})
  }

  function RecordsUnder(c: Config, i: nat, load: Load): seq<Record> {
    match ParseResult(c.Decoded(i), load.order)
    case Ok(r) => r.records
    case Err(_) => []
  }

  /** The names event `i` looks up. */
  function NamesUnder(c: Config, i: nat, load: Load): seq<string> {
    match ParseResult(c.Decoded(i), load.order)
    case Ok(r) => LookedUp(r)
    case Err(_) => []
  }

  /** The writes for one name, once it has been looked up. */
  function CallsOfMatch(c: Config, i: nat, load: Load, found: Option<Rule>): seq<AddCall> {
    match found
    case None => []
    case Some(rule) => FlatMap(CallFor(rule, c.limits), RecordsUnder(c, i, load))
  }

  /** The writes that looking up `names` leads to. */
  function CallsFor(c: Config, i: nat, load: Load, names: seq<string>): seq<AddCall> {
    if names == [] then []
    else CallsOfMatch(c, i, load, Match(load.rules, names[0])) + CallsFor(c, i, load, names[1..])
  }

  /** The writes of event `i` when dispatched under `load`. */
  function CallsUnder(c: Config, i: nat, load: Load): seq<AddCall> {
    match ParseResult(c.Decoded(i), load.order)
    case Ok(r) => Calls(load.rules, r, c.limits)
    case Err(_) => []
  }

  lemma {:induction false} CallsForIsFlatMap(c: Config, i: nat, load: Load, names: seq<string>)
    ensures CallsFor(c, i, load, names) == FlatMap(CallsForName(load.rules, RecordsUnder(c, i, load), c.limits), names)
  {
    if names != [] {
      CallsForIsFlatMap(c, i, load, names[1..]);
    }
  }

  /** All the event's names together lead to all its calls. */
  lemma {:induction false} CallsForAll(c: Config, i: nat, load: Load)
    ensures CallsFor(c, i, load, NamesUnder(c, i, load)) == CallsUnder(c, i, load)
  {
    CallsForIsFlatMap(c, i, load, NamesUnder(c, i, load));
  }

  /** A run: states joined by enabled steps, from the initial state. */
  ghost predicate IsRun(c: Config, states: seq<State>, actions: seq<Action>) {
    && |states| == |actions| + 1
    && states[0] == Init(c)
    && forall n | 0 <= n < |actions| ::
         Enabled(c, states[n], actions[n]) && states[n + 1] == Step(c, states[n], actions[n])
  }

  ghost predicate Reachable(c: Config, s: State) {
    exists states, actions :: IsRun(c, states, actions) && states[|actions|] == s
  }

  // ---------------------------------------------------------------- sums over the worker pool

  function Sum(f: Phase -> nat, ws: seq<Phase>): nat {
    if ws == [] then 0 else f(ws[0]) + Sum(f, ws[1..])
  }

  lemma {:induction false} SumUpdate(f: Phase -> nat, ws: seq<Phase>, w: nat, p: Phase)
    requires w < |ws|
    ensures Sum(f, ws[w := p]) + f(ws[w]) == Sum(f, ws) + f(p)
  {
    if w == 0 {
      assert ws[0 := p][1..] == ws[1..];
    } else {
      assert ws[w := p][1..] == ws[1..][w - 1 := p];
      SumUpdate(f, ws[1..], w - 1, p);
    }
  }

  /** A positive sum has a positive term; a zero sum has none. */
  lemma {:induction false} SumPositive(f: Phase -> nat, ws: seq<Phase>)
    ensures Sum(f, ws) == 0 <==> forall w | 0 <= w < |ws| :: f(ws[w]) == 0
  {
    if ws != [] {
      SumPositive(f, ws[1..]);
      assert forall w | 0 <= w < |ws| - 1 :: ws[1..][w] == ws[w + 1];
      if Sum(f, ws) == 0 {
        forall w | 0 <= w < |ws| ensures f(ws[w]) == 0 {
          if w > 0 { assert ws[1..][w - 1] == ws[w]; }
        }
      }
    }
  }

  /** A 0/1 sum over the whole pool that reaches its size is 1 everywhere. */
  lemma {:induction false} SumFull(f: Phase -> nat, ws: seq<Phase>)
    requires forall p: Phase :: f(p) <= 1
    ensures Sum(f, ws) <= |ws|
    ensures Sum(f, ws) == |ws| ==> forall w | 0 <= w < |ws| :: f(ws[w]) == 1
  {
    if ws != [] {
      SumFull(f, ws[1..]);
      if Sum(f, ws) == |ws| {
        forall w | 0 <= w < |ws| ensures f(ws[w]) == 1 {
          if w > 0 { assert ws[1..][w - 1] == ws[w]; }
        }
      }
    }
  }

  lemma {:induction false} SumZeroInitially(f: Phase -> nat, ws: seq<Phase>)
    requires f(Waiting) == 0 && forall w | 0 <= w < |ws| :: ws[w] == Waiting
    ensures Sum(f, ws) == 0
  {
    SumPositive(f, ws);
  }

  /** The events in workers' hands. */
  function InHand(ws: seq<Phase>): multiset<nat> {
    if ws == [] then multiset{} else HeldBy(ws[0]) + InHand(ws[1..])
  }

  function HeldBy(p: Phase): multiset<nat> {
    if p.Busy() then multiset{p.i} else multiset{}
  }

  lemma {:induction false} InHandUpdate(ws: seq<Phase>, w: nat, p: Phase)
    requires w < |ws|
    ensures InHand(ws[w := p]) + HeldBy(ws[w]) == InHand(ws) + HeldBy(p)
  {
    if w == 0 {
      assert ws[0 := p][1..] == ws[1..];
    } else {
      var rest := ws[1..];
      InHandUpdate(rest, w - 1, p);
      assert ws[w := p][1..] == rest[w - 1 := p];
      assert InHand(ws[w := p]) == HeldBy(ws[0]) + InHand(rest[w - 1 := p]);
      BagAssociative(HeldBy(ws[0]), InHand(rest[w - 1 := p]), HeldBy(ws[w]));
      BagAssociative(HeldBy(ws[0]), InHand(rest), HeldBy(p));
    }
  }

  lemma {:induction false} HeldIsInHand(ws: seq<Phase>, w: nat)
    requires w < |ws| && ws[w].Busy()
    ensures ws[w].i in InHand(ws)
  {
    InHandUpdate(ws, w, Waiting);
    assert InHand(ws[w := Waiting]) + multiset{ws[w].i} == InHand(ws);
  }

  lemma {:induction false} TwoInHand(ws: seq<Phase>, w: nat, v: nat)
    requires w < |ws| && v < |ws| && w != v && ws[w].Busy() && ws[v].Busy() && ws[w].i == ws[v].i
    ensures InHand(ws)[ws[w].i] >= 2
  {
    InHandUpdate(ws, w, Waiting);
    var rest := ws[w := Waiting];
    assert rest[v] == ws[v];
    HeldIsInHand(rest, v);
    assert InHand(rest) + multiset{ws[w].i} == InHand(ws);
  }

  lemma {:induction false} NobodyBusy(ws: seq<Phase>)
    requires forall w | 0 <= w < |ws| :: !ws[w].Busy()
    ensures InHand(ws) == multiset{}
  {
    if ws != [] {
      assert forall w | 0 <= w < |ws| - 1 :: ws[1..][w] == ws[w + 1];
      NobodyBusy(ws[1..]);
    }
  }
}
