/**
 * The writes of a run: every write traces back to one event, one rule list and
 * one record; every dispatched event has exactly its writes performed, once and in
 * order; and what the sets contain when Run returns.
 */
module PipelineWrites {
  import opened Prelude
  import opened Rules
  import opened DnsParse
  import opened IpsetClient
  import opened Dispatch
  import opened Timeouts
  import opened Events
  import opened PipelineRun
  import opened PipelineSafety

  // ---------------------------------------------------------------- the log of one event

  /** What the history says about one event. */
  datatype EventLog = EventLog(load: Option<Load>, lookups: seq<LookupRecord>, writes: seq<AddCall>)

  function WritesOf(adds: seq<AddRecord>, i: nat): seq<AddCall> {
    if adds == [] then []
    else
      var last := adds[|adds| - 1];
      WritesOf(adds[..|adds| - 1], i) + if last.i == i then [last.call] else []
  }

  function LookupsOf(lookups: seq<LookupRecord>, i: nat): seq<LookupRecord> {
    if lookups == [] then []
    else
      var last := lookups[|lookups| - 1];
      LookupsOf(lookups[..|lookups| - 1], i) + if last.i == i then [last] else []
  }

  function LogOf(h: History, i: nat): EventLog {
    EventLog(if i in h.loads then Some(h.loads[i]) else None, LookupsOf(h.lookups, i), WritesOf(h.adds, i))
  }

  const BLANK := EventLog(None, [], [])

  // ---------------------------------------------------------------- what is to come

  /** The lookups of `names` in one rule list. */
  function LookupsFor(i: nat, load: Load, names: seq<string>): seq<LookupRecord> {
    if names == [] then []
    else [LookupRecord(i, names[0], Match(load.rules, names[0]))] + LookupsFor(i, load, names[1..])
  }

  /** The lookups and writes done and those to come make up the event's, all under the one load. */
  ghost predicate Underway(c: Config, log: EventLog, i: nat, load: Load, names: seq<string>, todo: seq<AddCall>) {
    && log.load == Some(load)
    && log.lookups + LookupsFor(i, load, names) == LookupsFor(i, load, NamesUnder(c, i, load))
    && log.writes + (todo + CallsFor(c, i, load, names)) == CallsUnder(c, i, load)
  }

  /** Every name was looked up and every write performed under the one load. */
  ghost predicate Completed(c: Config, log: EventLog, i: nat) {
    && log.load.Some?
    && log.lookups == LookupsFor(i, log.load.value, NamesUnder(c, i, log.load.value))
    && log.writes == CallsUnder(c, i, log.load.value)
  }

  // ---------------------------------------------------------------- the invariant

  ghost predicate ParsesUnder(c: Config, i: nat, order: seq<string>) {
    && c.Decoded(i).Some?
    && IsOrder(order, c.Decoded(i).value.answers)
    && ParseResult(c.Decoded(i), order).Ok?
  }

  /** The payload does not unpack to a usable response, whatever the alias order. */
  ghost predicate ParseFails(c: Config, i: nat) {
    c.Decoded(i).Some? ==>
      forall order | IsOrder(order, c.Decoded(i).value.answers) :: ParseResult(c.Decoded(i), order).Err?
  }

  /** Nothing of an event is loaded, looked up or written before it is dispatched. */
  ghost predicate PhaseTraced(c: Config, log: EventLog, p: Phase) {
    match p
    case Dispatching(i, load, names, todo) => Underway(c, log, i, load, names, todo)
    case Added(i, load, names, todo, _) => Underway(c, log, i, load, names, todo)
    case Parsed(i, order) => log == BLANK && ParsesUnder(c, i, order)
    case Failed(i) => log == BLANK && ParseFails(c, i)
    case _ => log == BLANK
  }

  ghost predicate VerdictTraced(c: Config, log: EventLog, x: Handled) {
    match x.verdict
    case Dispatched => Completed(c, log, x.i)
    case Unparsed => log == BLANK && ParseFails(c, x.i)
    case _ => log == BLANK
  }

  ghost predicate Traced(c: Config, s: State) {
    EventsTraced(c, s) && LoadsTraced(c, s.history)
  }

  ghost predicate EventsTraced(c: Config, s: State) {
    && (forall w | 0 <= w < |s.workers| && s.workers[w].Busy() ::
          PhaseTraced(c, LogOf(s.history, s.workers[w].i), s.workers[w]))
    && VerdictsTraced(c, s.history, s.history.handled)
    && BlankFrom(s.history, Taken(s))
  }

  ghost predicate VerdictsTraced(c: Config, h: History, handled: seq<Handled>) {
    forall n | 0 <= n < |handled| :: VerdictTraced(c, LogOf(h, handled[n].i), handled[n])
  }

  /** Nothing is loaded or written for an event that no worker has taken yet. */
  ghost predicate BlankFrom(h: History, taken: nat) {
    forall i: nat | i >= taken :: LogOf(h, i) == BLANK
  }

  ghost predicate LoadsTraced(c: Config, h: History) {
    forall i | i in h.loads :: ParsesUnder(c, i, h.loads[i].order) && h.loads[i].rules in h.published
  }

  /** The list published last. */
  function Newest(published: seq<seq<Rule>>): (r: Option<seq<Rule>>)
    ensures r.Some? ==> r.value in published
  {
    if published == [] then None else Some(published[|published| - 1])
  }

  /** The rules in force are those published last; the kernel is the initial one with all writes replayed. */
  ghost predicate Replayed(c: Config, s: State) {
    && s.rules == Newest(s.history.published)
    && s.kernel == Replay(c.kernel, CallsOf(s.history.adds))
    && s.kernel.Keys == c.kernel.Keys
    && (forall n | 0 <= n < |s.history.adds| :: var a := s.history.adds[n];
          a.outcome == AddOutcome(c.kernel, a.call.name, a.call.ip))
  }

  function CallsOf(adds: seq<AddRecord>): (calls: seq<AddCall>)
    ensures |calls| == |adds|
    ensures forall n | 0 <= n < |adds| :: calls[n] == adds[n].call
  {
    seq(|adds|, n requires 0 <= n < |adds| => adds[n].call)
  }

  // ---------------------------------------------------------------- what a worker's step does to the log

  /** Loads, lookups, writes and kernel stay as they are. */
  predicate SameWrites(s: State, s': State) {
    && s'.history.loads == s.history.loads && s'.history.lookups == s.history.lookups
    && s'.history.adds == s.history.adds && s'.kernel == s.kernel
  }

  predicate Verdicted(s: State, s': State, i: nat, v: Verdict) {
    && PutAway(s.history.handled, s'.history.handled, i)
    && s'.history.handled[|s.history.handled|].verdict == v
  }

  /** A phase in which nothing about the event has been decided. */
  predicate Undecided(p: Phase) {
    p.Received? || p.Counted? || p.Timed? || p.Looked? || p.Suppressed? || p.Fresh?
  }

  ghost predicate WriteEffect(c: Config, s: State, s': State, w: nat)
    requires w < |s.workers|
  {
    && |s'.workers| == |s.workers|
    && var p, p' := s.workers[w], s'.workers[w];
    match p
    case Suppressed(i) => SameWrites(s, s') && p'.Waiting? && Verdicted(s, s', i, Duplicate)
    case Fresh(i) =>
      && SameWrites(s, s')
      && ((p'.Parsed? && p'.i == i && ParsesUnder(c, i, p'.order)) || (p' == Failed(i) && ParseFails(c, i)))
    case Failed(i) => SameWrites(s, s') && p'.Waiting? && Verdicted(s, s', i, Unparsed)
    case Parsed(i, order) =>
      if s.rules.None? then SameWrites(s, s') && p'.Waiting? && Verdicted(s, s', i, NoRules)
      else
        var load := Load(s.rules.value, order);
        && s'.history.loads == s.history.loads[i := load] && s'.history.lookups == s.history.lookups
        && s'.history.adds == s.history.adds && s'.kernel == s.kernel
        && p' == Dispatching(i, load, NamesUnder(c, i, load), [])
    case Dispatching(i, load, names, todo) =>
      if todo != [] then
        var call := todo[0];
        var outcome := AddOutcome(s.kernel, call.name, call.ip);
        && s'.history.loads == s.history.loads && s'.history.lookups == s.history.lookups
        && s'.history.adds == s.history.adds + [AddRecord(i, call, outcome)]
        && s'.kernel == KernelAfter(s.kernel, call.name, call.ip, call.ttl)
        && p' == Added(i, load, names, todo[1..], outcome)
      else if names != [] then
        var found := Match(load.rules, names[0]);
        && s'.history.loads == s.history.loads && s'.history.adds == s.history.adds && s'.kernel == s.kernel
        && s'.history.lookups == s.history.lookups + [LookupRecord(i, names[0], found)]
        && p' == Dispatching(i, load, names[1..], CallsOfMatch(c, i, load, found))
      else SameWrites(s, s') && p'.Waiting? && Verdicted(s, s', i, Dispatched)
    case Added(i, load, names, todo, _) => SameWrites(s, s') && p' == Dispatching(i, load, names, todo)
    case Waiting => SameWrites(s, s') && (p'.Busy() ==> Undecided(p') && s.queue != [] && p'.i == s.queue[0])
    case Leaving => SameWrites(s, s') && !p'.Busy()
    case Exited => SameWrites(s, s') && !p'.Busy()
    case _ => SameWrites(s, s') && Undecided(p') && p'.i == p.i
  }

  lemma {:induction false} WorkWriteEffect(c: Config, s: State, w: nat, clock: int, order: seq<string>)
    requires Enabled(c, s, Work(w, clock, order))
    ensures WriteEffect(c, s, WorkStep(c, s, w, clock, order), w)
  {
    match s.workers[w]
    case Fresh(i) => FreshEffect(c, s, w, i, order);
    case Suppressed(i) => SuppressEffect(c, s, w, i);
    case Failed(i) => RejectEffect(c, s, w, i);
    case Parsed(i, parsedOrder) => LoadEffect(c, s, w, i, parsedOrder);
    case Dispatching(i, _, names, todo) =>
      if todo != [] {
        NextWriteEffect(c, s, w);
      } else if names != [] {
        NextLookupEffect(c, s, w);
      } else {
        LastEffect(c, s, w, i);
      }
    case Added(_, _, _, _, _) => CountWriteEffect(c, s, w);
    case _ => EarlyEffect(c, s, w, clock, order);
  }

  lemma {:induction false} FreshEffect(c: Config, s: State, w: nat, i: nat, order: seq<string>)
    requires w < |s.workers| && s.workers[w] == Fresh(i)
    requires c.Decoded(i).Some? ==> IsOrder(order, c.Decoded(i).value.answers)
    ensures WriteEffect(c, s, ParsePayload(c, s, w, i, order), w)
  {
    if c.Decoded(i).Some? && ParseResult(c.Decoded(i), order).Err? {
      var m := c.Decoded(i).value;
      forall other | IsOrder(other, m.answers) ensures ParseResult(c.Decoded(i), other).Err? {
        OutcomeWithoutOrder(m, order, other);
      }
    }
  }

  lemma {:induction false} SuppressEffect(c: Config, s: State, w: nat, i: nat)
    requires w < |s.workers| && s.workers[w] == Suppressed(i)
    ensures WriteEffect(c, s, Suppress(s, w, i), w)
  {
  }

  lemma {:induction false} RejectEffect(c: Config, s: State, w: nat, i: nat)
    requires w < |s.workers| && s.workers[w] == Failed(i)
    ensures WriteEffect(c, s, Reject(s, w, i), w)
  {
  }

  lemma {:induction false} LoadEffect(c: Config, s: State, w: nat, i: nat, order: seq<string>)
    requires w < |s.workers| && s.workers[w] == Parsed(i, order)
    ensures WriteEffect(c, s, LoadSnapshot(c, s, w, i, order), w)
  {
  }

  lemma {:induction false} NextWriteEffect(c: Config, s: State, w: nat)
    requires w < |s.workers| && s.workers[w].Dispatching? && s.workers[w].todo != []
    ensures WriteEffect(c, s, WriteNext(s, w, s.workers[w]), w)
  {
  }

  lemma {:induction false} NextLookupEffect(c: Config, s: State, w: nat)
    requires w < |s.workers| && s.workers[w].Dispatching? && s.workers[w].todo == [] && s.workers[w].names != []
    ensures WriteEffect(c, s, LookUpNext(c, s, w, s.workers[w]), w)
  {
  }

  lemma {:induction false} LastEffect(c: Config, s: State, w: nat, i: nat)
    requires w < |s.workers| && s.workers[w].Dispatching? && s.workers[w].i == i
    requires s.workers[w].todo == [] && s.workers[w].names == []
    ensures WriteEffect(c, s, Finish(s, w, i, Dispatched), w)
  {
  }

  lemma {:induction false} CountWriteEffect(c: Config, s: State, w: nat)
    requires w < |s.workers| && s.workers[w].Added?
    ensures WriteEffect(c, s, CountWrite(s, w, s.workers[w]), w)
  {
  }

  lemma {:induction false} EarlyEffect(c: Config, s: State, w: nat, clock: int, order: seq<string>)
    requires Enabled(c, s, Work(w, clock, order))
    requires Undecided(s.workers[w]) || !s.workers[w].Busy()
    requires !s.workers[w].Fresh? && !s.workers[w].Suppressed?
    ensures WriteEffect(c, s, WorkStep(c, s, w, clock, order), w)
  {
    match s.workers[w]
    case Waiting => TakeEffect(c, s, w);
    case Received(i) => ArrivalEffect(c, s, w, i);
    case Timed(i, now) => ReadEffect(c, s, w, i, now);
    case Looked(i, now, hit) => CacheEffect(c, s, w, i, now, hit);
    case _ =>
  }

  lemma {:induction false} TakeEffect(c: Config, s: State, w: nat)
    requires w < |s.workers| && s.workers[w].Waiting?
    ensures WriteEffect(c, s, Take(s, w), w)
  {
  }

  lemma {:induction false} ArrivalEffect(c: Config, s: State, w: nat, i: nat)
    requires w < |s.workers| && s.workers[w] == Received(i)
    ensures WriteEffect(c, s, CountArrival(c, s, w, i), w)
  {
  }

  lemma {:induction false} ReadEffect(c: Config, s: State, w: nat, i: nat, now: int)
    requires w < |s.workers| && s.workers[w] == Timed(i, now)
    ensures WriteEffect(c, s, ReadCache(c, s, w, i, now), w)
  {
  }

  lemma {:induction false} CacheEffect(c: Config, s: State, w: nat, i: nat, now: int, hit: bool)
    requires w < |s.workers| && s.workers[w] == Looked(i, now, hit)
    ensures WriteEffect(c, s, WriteCache(c, s, w, i, now, hit), w)
  {
  }

  // ---------------------------------------------------------------- the trace survives every step

  /** The step changes the log of no event but `i`. */
  ghost predicate OnlyAbout(h: History, h': History, i: nat) {
    forall j: nat | j != i :: LogOf(h', j) == LogOf(h, j)
  }

  lemma {:induction false} EffectIsLocal(c: Config, s: State, s': State, w: nat)
    requires w < |s.workers| && Shape(s, s', w) && WriteEffect(c, s, s', w)
    ensures if s.workers[w].Busy() then OnlyAbout(s.history, s'.history, s.workers[w].i) else SameWrites(s, s')
  {
    var p, h, h' := s.workers[w], s.history, s'.history;
    if p.Dispatching? && p.todo != [] {
      WriteIsLocal(h, h', p.i);
    } else if p.Dispatching? && p.names != [] {
      LookupIsLocal(h, h', p.i);
    }
  }

  lemma {:induction false} WriteIsLocal(h: History, h': History, i: nat)
    requires h'.loads == h.loads && h'.lookups == h.lookups
    requires |h'.adds| == |h.adds| + 1 && h'.adds == h.adds + [h'.adds[|h.adds|]] && h'.adds[|h.adds|].i == i
    ensures OnlyAbout(h, h', i)
  {
    assert h'.adds[..|h'.adds| - 1] == h.adds;
  }

  lemma {:induction false} LookupIsLocal(h: History, h': History, i: nat)
    requires h'.loads == h.loads && h'.adds == h.adds
    requires |h'.lookups| == |h.lookups| + 1 && h'.lookups == h.lookups + [h'.lookups[|h.lookups|]]
    requires h'.lookups[|h.lookups|].i == i
    ensures OnlyAbout(h, h', i)
  {
    assert h'.lookups[..|h'.lookups| - 1] == h.lookups;
  }

  /** Nothing is decided about the other events: their logs are as before. */
  ghost predicate OthersTraced(c: Config, s: State, s': State, w: nat)
    requires w < |s.workers| && |s'.workers| == |s.workers|
  {
    && OtherWorkersTraced(c, s'.history, s'.workers, w)
    && VerdictsTraced(c, s'.history, s.history.handled)
    && BlankFrom(s'.history, Taken(s'))
  }

  ghost predicate OtherWorkersTraced(c: Config, h: History, ws: seq<Phase>, w: nat) {
    forall v | 0 <= v < |ws| && v != w && ws[v].Busy() :: PhaseTraced(c, LogOf(h, ws[v].i), ws[v])
  }

  lemma {:induction false} OthersKept(c: Config, s: State, s': State, w: nat)
    requires Conserved(s) && Traced(c, s) && w < |s.workers| && Shape(s, s', w) && WriteEffect(c, s, s', w)
    ensures OthersTraced(c, s, s', w)
  {
    EffectIsLocal(c, s, s', w);
    if s.workers[w].Busy() {
      HeldOnce(s, w);
      var h, h', own := s.history, s'.history, s.workers[w].i;
      OtherWorkers(c, h, h', s.workers, s'.workers, w);
      OtherVerdicts(c, h, h', own);
      OtherBlank(h, h', own, Taken(s));
    } else {
      assert forall i: nat :: LogOf(s'.history, i) == LogOf(s.history, i);
    }
  }

  lemma {:induction false} OtherBlank(h: History, h': History, own: nat, taken: nat)
    requires OnlyAbout(h, h', own) && own < taken && BlankFrom(h, taken)
    ensures BlankFrom(h', taken)
  {
    forall i: nat | i >= taken ensures LogOf(h', i) == BLANK {
      OtherLog(h, h', own, i);
    }
  }

  lemma {:induction false} OtherWorkers(c: Config, h: History, h': History, ws: seq<Phase>, ws': seq<Phase>, w: nat)
    requires w < |ws| && ws[w].Busy() && |ws'| == |ws| && ws' == ws[w := ws'[w]] && OnlyAbout(h, h', ws[w].i)
    requires forall v | 0 <= v < |ws| && v != w && ws[v].Busy() :: ws[v].i != ws[w].i
    requires OtherWorkersTraced(c, h, ws, w)
    ensures OtherWorkersTraced(c, h', ws', w)
  {
    forall v | 0 <= v < |ws'| && v != w && ws'[v].Busy() ensures PhaseTraced(c, LogOf(h', ws'[v].i), ws'[v]) {
      OtherPhase(c, h, h', ws[w].i, ws[v]);
    }
  }

  lemma {:induction false} OtherVerdicts(c: Config, h: History, h': History, own: nat)
    requires OnlyAbout(h, h', own) && VerdictsTraced(c, h, h.handled) && own !in Ids(h.handled)
    ensures VerdictsTraced(c, h', h.handled)
  {
    forall n | 0 <= n < |h.handled| ensures VerdictTraced(c, LogOf(h', h.handled[n].i), h.handled[n]) {
      assert Ids(h.handled)[n] == h.handled[n].i;
      OtherVerdict(c, h, h', own, h.handled[n]);
    }
  }

  lemma {:induction false} OtherPhase(c: Config, h: History, h': History, own: nat, p: Phase)
    requires OnlyAbout(h, h', own) && p.Busy() && p.i != own && PhaseTraced(c, LogOf(h, p.i), p)
    ensures PhaseTraced(c, LogOf(h', p.i), p)
  {
    OtherLog(h, h', own, p.i);
  }

  lemma {:induction false} OtherVerdict(c: Config, h: History, h': History, own: nat, x: Handled)
    requires OnlyAbout(h, h', own) && x.i != own && VerdictTraced(c, LogOf(h, x.i), x)
    ensures VerdictTraced(c, LogOf(h', x.i), x)
  {
    OtherLog(h, h', own, x.i);
  }

  lemma {:induction false} OtherLog(h: History, h': History, own: nat, i: nat)
    requires OnlyAbout(h, h', own) && i != own
    ensures LogOf(h', i) == LogOf(h, i)
  {
  }

  /** The worker's own event. */
  lemma {:induction false} OwnTraced(c: Config, s: State, s': State, w: nat)
    requires Traced(c, s) && w < |s.workers| && Shape(s, s', w) && WriteEffect(c, s, s', w)
    requires s.workers[w].Busy()
    ensures var p, p', log' := s.workers[w], s'.workers[w], LogOf(s'.history, s.workers[w].i);
      if p'.Busy() then PhaseTraced(c, log', p')
      else VerdictTraced(c, log', s'.history.handled[|s.history.handled|])
  {
    var p, h, h' := s.workers[w], s.history, s'.history;
    assert PhaseTraced(c, LogOf(h, p.i), p);
    if p.Dispatching? {
      if p.todo != [] {
        OwnWrite(c, h, h', p, s.kernel);
      } else if p.names != [] {
        OwnLookup(c, h, h', p);
      } else {
        OwnDone(c, h, h', p);
      }
    } else if p.Parsed? && s.rules.Some? {
      OwnLoaded(c, h, h', p.i, Load(s.rules.value, p.order));
    } else {
      assert LogOf(h', p.i) == LogOf(h, p.i);
    }
  }

  /** The next write moves from what is to come to what is done. */
  lemma {:induction false} OwnWrite(c: Config, h: History, h': History, p: Phase, k: Kernel)
    requires p.Dispatching? && p.todo != [] && Underway(c, LogOf(h, p.i), p.i, p.load, p.names, p.todo)
    requires h'.loads == h.loads && h'.lookups == h.lookups
    requires h'.adds == h.adds + [AddRecord(p.i, p.todo[0], AddOutcome(k, p.todo[0].name, p.todo[0].ip))]
    ensures Underway(c, LogOf(h', p.i), p.i, p.load, p.names, p.todo[1..])
  {
    WritesNext(h.adds, h'.adds, p.i);
    MoveHead(WritesOf(h.adds, p.i), p.todo, CallsFor(c, p.i, p.load, p.names));
  }

  /** So does the next lookup, whose writes are then to come. */
  lemma {:induction false} OwnLookup(c: Config, h: History, h': History, p: Phase)
    requires p.Dispatching? && p.todo == [] && p.names != []
    requires Underway(c, LogOf(h, p.i), p.i, p.load, p.names, p.todo)
    requires h'.loads == h.loads && h'.adds == h.adds
    requires h'.lookups == h.lookups + [LookupRecord(p.i, p.names[0], Match(p.load.rules, p.names[0]))]
    ensures Underway(c, LogOf(h', p.i), p.i, p.load, p.names[1..],
      CallsOfMatch(c, p.i, p.load, Match(p.load.rules, p.names[0])))
  {
    var done, last, rest := LookupsOf(h.lookups, p.i), h'.lookups[|h.lookups|], LookupsFor(p.i, p.load, p.names[1..]);
    assert h'.lookups[..|h'.lookups| - 1] == h.lookups;
    assert LookupsOf(h'.lookups, p.i) == done + [last];
    AppendAssociative(done, [last], rest);
    NothingFirst(CallsFor(c, p.i, p.load, p.names));
  }

  lemma {:induction false} OwnDone(c: Config, h: History, h': History, p: Phase)
    requires p.Dispatching? && p.todo == [] && p.names == []
    requires Underway(c, LogOf(h, p.i), p.i, p.load, p.names, p.todo)
    requires LogOf(h', p.i) == LogOf(h, p.i)
    ensures Completed(c, LogOf(h', p.i), p.i)
  {
    NothingFirst(LogOf(h, p.i).lookups);
    NothingFirst(LogOf(h, p.i).writes);
  }

  lemma {:induction false} WritesNext(adds: seq<AddRecord>, adds': seq<AddRecord>, i: nat)
    requires |adds'| == |adds| + 1 && adds' == adds + [adds'[|adds|]] && adds'[|adds|].i == i
    ensures WritesOf(adds', i) == WritesOf(adds, i) + [adds'[|adds|].call]
  {
    assert adds'[..|adds'| - 1] == adds;
  }

  lemma {:induction false} MoveHead<T>(a: seq<T>, b: seq<T>, rest: seq<T>)
    requires b != []
    ensures (a + [b[0]]) + (b[1..] + rest) == a + (b + rest)
  {
  }

  lemma {:induction false} OwnLoaded(c: Config, h: History, h': History, i: nat, load: Load)
    requires LogOf(h, i) == BLANK && h'.loads == h.loads[i := load]
    requires h'.lookups == h.lookups && h'.adds == h.adds
    ensures Underway(c, LogOf(h', i), i, load, NamesUnder(c, i, load), [])
  {
    CallsForAll(c, i, load);
    NothingFirst(CallsUnder(c, i, load));
    NothingFirst(LookupsFor(i, load, NamesUnder(c, i, load)));
  }

  /** A worker takes an untouched event from the channel. */
  lemma {:induction false} TakenIsBlank(c: Config, s: State, s': State, w: nat)
    requires Conserved(s) && Traced(c, s) && w < |s.workers| && Shape(s, s', w) && WriteEffect(c, s, s', w)
    requires !s.workers[w].Busy() && s'.workers[w].Busy()
    ensures PhaseTraced(c, LogOf(s'.history, s'.workers[w].i), s'.workers[w])
  {
    assert s.workers[w].Waiting?;
    assert s'.workers[w].i == s.queue[0] == Taken(s);
    assert LogOf(s.history, Taken(s)) == BLANK;
  }

  lemma {:induction false} LoadsValid(c: Config, s: State, s': State, w: nat)
    requires Traced(c, s) && w < |s.workers| && Shape(s, s', w) && WriteEffect(c, s, s', w)
    requires s.rules.Some? ==> s.rules.value in s.history.published
    ensures LoadsTraced(c, s'.history)
  {
    var p := s.workers[w];
    if p.Parsed? {
      assert PhaseTraced(c, LogOf(s.history, p.i), p);
    }
  }

  lemma {:induction false} TracedWork(c: Config, s: State, s': State, w: nat)
    requires Conserved(s) && Traced(c, s) && Replayed(c, s)
    requires w < |s.workers| && Shape(s, s', w) && WriteEffect(c, s, s', w)
    ensures Traced(c, s')
  {
    OthersKept(c, s, s', w);
    LoadsValid(c, s, s', w);
    if s.workers[w].Busy() {
      OwnTraced(c, s, s', w);
    } else if s'.workers[w].Busy() {
      TakenIsBlank(c, s, s', w);
    }
    TracedAssemble(c, s, s', w);
  }

  lemma {:induction false} TracedAssemble(c: Config, s: State, s': State, w: nat)
    requires w < |s.workers| && Shape(s, s', w) && OthersTraced(c, s, s', w)
    requires s'.workers[w].Busy() ==> PhaseTraced(c, LogOf(s'.history, s'.workers[w].i), s'.workers[w])
    requires s.workers[w].Busy() && !s'.workers[w].Busy() ==>
      VerdictTraced(c, LogOf(s'.history, s.workers[w].i), s'.history.handled[|s.history.handled|])
    requires LoadsTraced(c, s'.history)
    ensures Traced(c, s')
  {
    var p := s.workers[w];
    VerdictsNext(c, s.history, s'.history, if p.Busy() then p.i else 0);
  }

  lemma {:induction false} VerdictsNext(c: Config, h: History, h': History, i: nat)
    requires VerdictsTraced(c, h', h.handled)
    requires h'.handled == h.handled
      || (PutAway(h.handled, h'.handled, i) && VerdictTraced(c, LogOf(h', i), h'.handled[|h.handled|]))
    ensures VerdictsTraced(c, h', h'.handled)
  {
    forall n | 0 <= n < |h'.handled| ensures VerdictTraced(c, LogOf(h', h'.handled[n].i), h'.handled[n]) {
      if n < |h.handled| { assert h'.handled[..|h.handled|][n] == h.handled[n]; }
    }
  }

  lemma {:induction false} KernelKeysKept(k: Kernel, name: string, ip: IP, d: int)
    ensures KernelAfter(k, name, ip, d).Keys == k.Keys
  {
  }

  lemma {:induction false} ReplayedWork(c: Config, s: State, s': State, w: nat)
    requires Replayed(c, s) && w < |s.workers| && Shape(s, s', w) && WriteEffect(c, s, s', w)
    ensures Replayed(c, s')
  {
    var p := s.workers[w];
    if p.Dispatching? && p.todo != [] {
      ReplayedWrite(c, s, s', AddRecord(p.i, p.todo[0], AddOutcome(s.kernel, p.todo[0].name, p.todo[0].ip)));
    } else {
      assert SameWrites(s, s') || (s'.history.adds == s.history.adds && s'.kernel == s.kernel);
    }
  }

  lemma {:induction false} ReplayedWrite(c: Config, s: State, s': State, a: AddRecord)
    requires Replayed(c, s) && a.outcome == AddOutcome(s.kernel, a.call.name, a.call.ip)
    requires s'.history.adds == s.history.adds + [a]
    requires s'.history.published == s.history.published && s'.rules == s.rules
    requires s'.kernel == KernelAfter(s.kernel, a.call.name, a.call.ip, a.call.ttl)
    ensures Replayed(c, s')
  {
    var adds, adds' := s.history.adds, s'.history.adds;
    KernelKeysKept(s.kernel, a.call.name, a.call.ip, a.call.ttl);
    assert CallsOf(adds') == CallsOf(adds) + [a.call];
    assert CallsOf(adds')[..|adds|] == CallsOf(adds);
  }

  ghost predicate Justified(c: Config, s: State) {
    Channels(c, s) && Conserved(s) && Traced(c, s) && Replayed(c, s)
  }

  lemma {:induction false} JustifiedStep(c: Config, s: State, a: Action)
    requires Justified(c, s) && Enabled(c, s, a)
    ensures Justified(c, Step(c, s, a))
  {
    ChannelsStep(c, s, a);
    ConservedStep(c, s, a);
    if a.Work? {
      var s' := WorkStep(c, s, a.w, a.clock, a.order);
      WorkShape(c, s, a.w, a.clock, a.order);
      WorkWriteEffect(c, s, a.w, a.clock, a.order);
      TracedWork(c, s, s', a.w);
      ReplayedWork(c, s, s', a.w);
    } else {
      OutsideKeepsTrace(c, s, a);
    }
  }

  lemma {:induction false} OutsideKeepsTrace(c: Config, s: State, a: Action)
    requires Conserved(s) && Traced(c, s) && Replayed(c, s) && Enabled(c, s, a) && !a.Work?
    ensures Traced(c, Step(c, s, a)) && Replayed(c, Step(c, s, a))
  {
    OutsideSteps(c, s, a);
    OutsideTraced(c, s, Step(c, s, a));
  }

  /** Nothing but the queue, the shutdown protocol and the published rules changes. */
  predicate OutsideEffect(s: State, s': State) {
    && SameWrites(s, s') && s'.workers == s.workers && s'.history.handled == s.history.handled
    && Taken(s') == Taken(s)
    && s.history.published <= s'.history.published
    && (s.rules == Newest(s.history.published) ==> s'.rules == Newest(s'.history.published))
  }

  lemma {:induction false} OutsideSteps(c: Config, s: State, a: Action)
    requires Conserved(s) && Enabled(c, s, a) && !a.Work?
    ensures OutsideEffect(s, Step(c, s, a))
  {
  }

  lemma {:induction false} OutsideTraced(c: Config, s: State, s': State)
    requires Traced(c, s) && Replayed(c, s) && OutsideEffect(s, s')
    ensures Traced(c, s') && Replayed(c, s')
  {
    assert forall i :: LogOf(s'.history, i) == LogOf(s.history, i);
  }

  lemma {:induction false} JustifiedInit(c: Config)
    ensures Justified(c, Init(c))
  {
    ChannelsInit(c);
    ConservedInit(c);
  }

  lemma {:induction false} JustifiedAlong(c: Config, states: seq<State>, actions: seq<Action>, n: nat)
    requires IsRun(c, states, actions) && n <= |actions|
    ensures Justified(c, states[n])
  {
    if n == 0 {
      JustifiedInit(c);
    } else {
      JustifiedAlong(c, states, actions, n - 1);
      JustifiedStep(c, states[n - 1], actions[n - 1]);
    }
  }

  lemma {:induction false} JustifiedHolds(c: Config, s: State)
    requires Reachable(c, s)
    ensures Justified(c, s)
  {
    var states, actions :| IsRun(c, states, actions) && states[|actions|] == s;
    JustifiedAlong(c, states, actions, |actions|);
  }
}
