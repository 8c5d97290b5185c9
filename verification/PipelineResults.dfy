/**
 * What a run of the pipeline amounts to: the fate of every event, the origin of
 * every write, and the contents of the sets when Run returns.
 */
module PipelineResults {
  import opened Prelude
  import opened Rules
  import opened DnsParse
  import opened IpsetClient
  import opened Dispatch
  import opened Timeouts
  import opened Events
  import opened PipelineRun
  import opened PipelineSafety
  import opened PipelineDedup
  import opened PipelineWrites

  // ---------------------------------------------------------------- where an event is

  lemma {:induction false} InHandWitness(ws: seq<Phase>, i: nat)
    requires i in InHand(ws)
    ensures exists w | 0 <= w < |ws| :: ws[w].Busy() && ws[w].i == i
  {
    if i in HeldBy(ws[0]) {
      assert ws[0].Busy() && ws[0].i == i;
    } else {
      InHandWitness(ws[1..], i);
      var w :| 0 <= w < |ws| - 1 && ws[1..][w].Busy() && ws[1..][w].i == i;
      assert ws[w + 1] == ws[1..][w];
    }
  }

  /** An event taken from the channel is in some worker's hands or handled. */
  lemma {:induction false} Located(s: State, i: nat)
    requires Conserved(s) && i < Taken(s)
    ensures i in Ids(s.history.handled) || exists w | 0 <= w < |s.workers| :: s.workers[w].Busy() && s.workers[w].i == i
  {
    SpanCount(Taken(s), i);
    assert i in multiset(Span(0, Taken(s)));
    if i !in Ids(s.history.handled) {
      assert i in InHand(s.workers);
      InHandWitness(s.workers, i);
    }
  }

  /** The lookups and writes logged are the first ones of those under the load; without a load there are none. */
  ghost predicate LogIsPrefix(c: Config, log: EventLog, i: nat) {
    match log.load
    case None => log.lookups == [] && log.writes == []
    case Some(load) =>
      log.lookups <= LookupsFor(i, load, NamesUnder(c, i, load)) && log.writes <= CallsUnder(c, i, load)
  }

  lemma {:induction false} PhasePrefix(c: Config, log: EventLog, p: Phase)
    requires p.Busy() && PhaseTraced(c, log, p)
    ensures LogIsPrefix(c, log, p.i)
  {
  }

  lemma {:induction false} VerdictPrefix(c: Config, log: EventLog, x: Handled)
    requires VerdictTraced(c, log, x)
    ensures LogIsPrefix(c, log, x.i)
  {
  }

  lemma {:induction false} LogsArePrefixes(c: Config, s: State, i: nat)
    requires Conserved(s) && EventsTraced(c, s)
    ensures LogIsPrefix(c, LogOf(s.history, i), i)
    ensures i >= Taken(s) ==> LogOf(s.history, i) == BLANK
  {
    var log, handled := LogOf(s.history, i), s.history.handled;
    if i >= Taken(s) {
      assert log == BLANK;
    } else {
      Located(s, i);
      if i in Ids(handled) {
        var n :| 0 <= n < |handled| && Ids(handled)[n] == i;
        VerdictPrefix(c, log, handled[n]);
      } else {
        var w :| 0 <= w < |s.workers| && s.workers[w].Busy() && s.workers[w].i == i;
        PhasePrefix(c, log, s.workers[w]);
      }
    }
  }

  /** The lookups and writes of an event done so far are the first ones of the event's lookups and calls. */
  lemma {:induction false} WritesArePrefix(c: Config, s: State, i: nat)
    requires Justified(c, s)
    ensures i in s.history.loads ==>
      && i < Taken(s)
      && WritesOf(s.history.adds, i) <= CallsUnder(c, i, s.history.loads[i])
      && LookupsOf(s.history.lookups, i) <= LookupsFor(i, s.history.loads[i], NamesUnder(c, i, s.history.loads[i]))
    ensures i !in s.history.loads ==> WritesOf(s.history.adds, i) == [] && LookupsOf(s.history.lookups, i) == []
  {
    LogsArePrefixes(c, s, i);
  }

  lemma {:induction false} WriteIsListed(adds: seq<AddRecord>, n: nat)
    requires n < |adds|
    ensures adds[n].call in WritesOf(adds, adds[n].i)
  {
    if n < |adds| - 1 {
      WriteIsListed(adds[..|adds| - 1], n);
    }
  }

  lemma {:induction false} ListedIsWrite(adds: seq<AddRecord>, i: nat, call: AddCall)
    requires call in WritesOf(adds, i)
    ensures exists n | 0 <= n < |adds| :: adds[n].i == i && adds[n].call == call
  {
    var front, last := adds[..|adds| - 1], adds[|adds| - 1];
    if last.i == i && last.call == call {
      assert adds[|adds| - 1].i == i;
    } else {
      ListedIsWrite(front, i, call);
      var n :| 0 <= n < |front| && front[n].i == i && front[n].call == call;
      assert adds[n] == front[n];
    }
  }

  lemma {:induction false} LookupIsListed(lookups: seq<LookupRecord>, n: nat)
    requires n < |lookups|
    ensures lookups[n] in LookupsOf(lookups, lookups[n].i)
  {
    if n < |lookups| - 1 {
      LookupIsListed(lookups[..|lookups| - 1], n);
    }
  }

  lemma {:induction false} LookupsForMember(i: nat, load: Load, names: seq<string>, x: LookupRecord)
    requires x in LookupsFor(i, load, names)
    ensures x.i == i && x.name in names && x.found == Match(load.rules, x.name)
  {
    if x != LookupRecord(i, names[0], Match(load.rules, names[0])) {
      LookupsForMember(i, load, names[1..], x);
    }
  }

  /**
   * In every reachable state, every lookup of an event was answered by the one rule
   * list the event loaded, whatever was published between its lookups.
   */
  lemma {:induction false} LookupsShareOneList(c: Config, s: State, n: nat)
    requires Reachable(c, s) && n < |s.history.lookups|
    ensures var x := s.history.lookups[n];
      && x.i in s.history.loads && x.i < s.sent
      && x.name in NamesUnder(c, x.i, s.history.loads[x.i])
      && x.found == Match(s.history.loads[x.i].rules, x.name)
  {
    JustifiedHolds(c, s);
    var x := s.history.lookups[n];
    LookupIsListed(s.history.lookups, n);
    WritesArePrefix(c, s, x.i);
    var load := s.history.loads[x.i];
    LookupsForMember(x.i, load, NamesUnder(c, x.i, load), x);
  }

  /** The response an event was parsed to, when it was dispatched. */
  function ResponseOf(c: Config, i: nat, load: Load): Option<Response> {
    match ParseResult(c.Decoded(i), load.order)
    case Ok(r) => Some(r)
    case Err(_) => None
  }

  /** The write sends the record `rec` of the response under the rule found for `looked`, its TTL clamped. */
  ghost predicate Origin(c: Config, a: AddRecord, load: Load, looked: string, rec: Record) {
    && ResponseOf(c, a.i, load).Some?
    && looked in LookedUp(ResponseOf(c, a.i, load).value)
    && rec in ResponseOf(c, a.i, load).value.records
    && Match(load.rules, looked).Some?
    && a.call.name == SetFor(Match(load.rules, looked).value, rec.family) != ""
    && a.call.ip == rec.ip
    && a.call.ttl == ClampTTL(rec.ttl * SECOND, c.limits.min, c.limits.max)
  }

  lemma {:induction false} CallHasOrigin(c: Config, a: AddRecord, load: Load) returns (looked: string, rec: Record)
    requires a.call in CallsUnder(c, a.i, load)
    ensures Origin(c, a, load, looked, rec)
  {
    var r := ResponseOf(c, a.i, load).value;
    CallMembership(load.rules, r, c.limits, a.call);
    looked, rec :| looked in LookedUp(r) && rec in r.records && Sends(load.rules, c.limits, looked, rec, a.call);
    TtlDurationIsExact(rec.ttl);
  }

  /**
   * In every reachable state, every write comes from a delivered event, a rule
   * list that was published, a name looked up in its response, the rule that list
   * returns for the name, and a record of the family of the set.
   */
  lemma {:induction false} WriteIsJustified(c: Config, s: State, n: nat)
    returns (load: Load, looked: string, rec: Record)
    requires Reachable(c, s) && n < |s.history.adds|
    ensures var a := s.history.adds[n];
      && a.i < s.sent && a.i in s.history.loads && load == s.history.loads[a.i]
      && load.rules in s.history.published && ParsesUnder(c, a.i, load.order)
      && Origin(c, a, load, looked, rec)
      && a.outcome == AddOutcome(c.kernel, a.call.name, a.call.ip)
  {
    JustifiedHolds(c, s);
    var a := s.history.adds[n];
    WriteIsListed(s.history.adds, n);
    WritesArePrefix(c, s, a.i);
    load := s.history.loads[a.i];
    looked, rec := CallHasOrigin(c, a, load);
  }

  /**
   * An event's rule list is the one published last when it is loaded, and never
   * changes afterwards; an event is handled without rules only while none are published.
   */
  lemma {:induction false} LoadIsFinal(c: Config, s: State, a: Action, i: nat)
    requires Reachable(c, s) && Enabled(c, s, a)
    ensures var h, h' := s.history, Step(c, s, a).history;
      && (i in h.loads ==> i in h'.loads && h'.loads[i] == h.loads[i])
      && (i !in h.loads && i in h'.loads ==>
            h.published != [] && h'.loads[i].rules == h.published[|h.published| - 1])
      && (|h'.handled| > |h.handled| && h'.handled[|h.handled|].verdict == NoRules ==> h.published == [])
  {
    JustifiedHolds(c, s);
    if a.Work? {
      WorkShape(c, s, a.w, a.clock, a.order);
      WorkWriteEffect(c, s, a.w, a.clock, a.order);
      LoadIsFinalWork(c, s, WorkStep(c, s, a.w, a.clock, a.order), a.w, i);
    }
  }

  lemma {:induction false} LoadIsFinalWork(c: Config, s: State, s': State, w: nat, i: nat)
    requires Traced(c, s) && w < |s.workers| && Shape(s, s', w) && WriteEffect(c, s, s', w)
    ensures i in s.history.loads ==> i in s'.history.loads && s'.history.loads[i] == s.history.loads[i]
    ensures i !in s.history.loads && i in s'.history.loads ==> s.rules == Some(s'.history.loads[i].rules)
    ensures |s'.history.handled| > |s.history.handled| && s'.history.handled[|s.history.handled|].verdict == NoRules ==>
      s.rules.None?
  {
    var p := s.workers[w];
    if p.Parsed? {
      assert PhaseTraced(c, LogOf(s.history, p.i), p);
    }
  }

  /** What each write met: the set was missing exactly when the kernel has no set of that name. */
  lemma {:induction false} WriteOutcome(c: Config, s: State, n: nat)
    requires Reachable(c, s) && n < |s.history.adds|
    ensures var a := s.history.adds[n];
      && a.call.name != ""
      && (a.outcome == MissingSet <==> a.call.name !in c.kernel && a.call.ip != NilIP)
      && (a.outcome == Written <==> a.call.name in c.kernel && a.call.ip != NilIP)
      && (a.outcome == BadArgument <==> a.call.ip == NilIP)
  {
    var a := s.history.adds[n];
    var load, looked, rec := WriteIsJustified(c, s, n);
    OutcomeMeaning(c.kernel, a.call.name, a.call.ip);
  }

  /** The fate of an event is settled by its payload and by whether its hash was recent. */
  ghost predicate Settled(c: Config, s: State, x: Handled) {
    match x.verdict
    case Duplicate => SightedAs(s.history.sightings, x.i, true)
    case Unparsed => ParseFails(c, x.i)
    case NoRules => c.rules.None? && x.i !in s.history.loads
    case Dispatched =>
      && x.i in s.history.loads
      && s.history.loads[x.i].rules in s.history.published && ParsesUnder(c, x.i, s.history.loads[x.i].order)
      && var load := s.history.loads[x.i];
      && LookupsOf(s.history.lookups, x.i) == LookupsFor(x.i, load, NamesUnder(c, x.i, load))
      && WritesOf(s.history.adds, x.i) == CallsUnder(c, x.i, load)
  }

  /**
   * When Run returns, every delivered event has one settled fate, and a dispatched
   * one has had all its names looked up and all its writes performed under one
   * published rule list, once each, in order; no other event has written anything.
   */
  lemma {:induction false} EveryEventSettled(c: Config, s: State, i: nat) returns (n: nat)
    requires Reachable(c, s) && s.main.Finished? && i < s.sent
    ensures n < |s.history.handled| && s.history.handled[n].i == i && Settled(c, s, s.history.handled[n])
    ensures s.history.handled[n].verdict != Dispatched ==>
      LookupsOf(s.history.lookups, i) == [] && WritesOf(s.history.adds, i) == []
    ensures forall m | 0 <= m < |s.history.handled| && m != n :: s.history.handled[m].i != i
  {
    n := HandledAt(c, s, i);
    VerdictIsSettled(c, s, n);
    forall m | 0 <= m < |s.history.handled| && m != n ensures s.history.handled[m].i != i {
      HandledApart(c, s, n, m);
    }
  }

  /** Where a delivered event was put away. */
  lemma {:induction false} HandledAt(c: Config, s: State, i: nat) returns (n: nat)
    requires Reachable(c, s) && s.main.Finished? && i < s.sent
    ensures n < |s.history.handled| && s.history.handled[n].i == i
  {
    ReturnMeansDrained(c, s);
    SpanCount(s.sent, i);
    assert i in multiset(Ids(s.history.handled));
    n :| 0 <= n < |s.history.handled| && Ids(s.history.handled)[n] == i;
  }

  lemma {:induction false} HandledApart(c: Config, s: State, n: nat, m: nat)
    requires Reachable(c, s) && s.main.Finished? && n < |s.history.handled| && m < |s.history.handled| && n != m
    ensures s.history.handled[n].i != s.history.handled[m].i
  {
    ReturnMeansDrained(c, s);
    SpanCount(s.sent, s.history.handled[n].i);
    if s.history.handled[n].i == s.history.handled[m].i {
      OccursTwice(Ids(s.history.handled), n, m);
    }
  }

  lemma {:induction false} VerdictIsSettled(c: Config, s: State, n: nat)
    requires Reachable(c, s) && n < |s.history.handled|
    ensures var x := s.history.handled[n];
      && Settled(c, s, x)
      && (x.verdict != Dispatched ==> LookupsOf(s.history.lookups, x.i) == [] && WritesOf(s.history.adds, x.i) == [])
  {
    var x := s.history.handled[n];
    JustifiedHolds(c, s);
    DedupHolds(c, s);
    RulesStayPresent(c, s);
    assert VerdictTraced(c, LogOf(s.history, x.i), x);
    assert SightedAs(s.history.sightings, x.i, x.verdict == Duplicate);
  }

  lemma {:induction false} OccursTwice(xs: seq<nat>, n: nat, m: nat)
    requires n < |xs| && m < |xs| && n != m && xs[n] == xs[m]
    ensures multiset(xs)[xs[n]] >= 2
  {
    var lo, hi := if n < m then n else m, if n < m then m else n;
    assert xs == xs[..hi] + xs[hi..];
    assert xs[..hi][lo] == xs[n] && xs[hi..][0] == xs[n];
    assert xs[n] in multiset(xs[..hi]) && xs[n] in multiset(xs[hi..]);
  }

  // ---------------------------------------------------------------- the sets at the end

  /** Event `i` was dispatched under rules that send `ip` into the set `name`. */
  ghost predicate WantsEntry(c: Config, s: State, i: nat, name: string, ip: IP) {
    && i in s.history.loads && c.Decoded(i).Some?
    && CalledFor(s.history.loads[i].rules, c.Decoded(i).value, name, ip)
  }

  /** When Run returns, a set holds what it held before and what the dispatched events call for, and nothing else. */
  lemma {:induction false} FinalMembership(c: Config, s: State, name: string, ip: IP)
    requires Reachable(c, s) && s.main.Finished? && name in c.kernel
    ensures s.kernel.Keys == c.kernel.Keys
    ensures ip in s.kernel[name] <==>
      ip in c.kernel[name] || (ip != NilIP && exists i: nat :: WantsEntry(c, s, i, name, ip))
  {
    JustifiedHolds(c, s);
    var adds := s.history.adds;
    ReplayEntry(c.kernel, CallsOf(adds), name, ip);
    LastForPresence(CallsOf(adds), name, ip);
    if call :| call in CallsOf(adds) && call.name == name && call.ip == ip {
      var n :| 0 <= n < |adds| && CallsOf(adds)[n] == call;
      WriteWantsEntry(c, s, n);
    }
    if i: nat :| WantsEntry(c, s, i, name, ip) {
      WantedEntryWritten(c, s, i, name, ip);
    }
  }

  lemma {:induction false} WriteWantsEntry(c: Config, s: State, n: nat)
    requires Justified(c, s) && n < |s.history.adds|
    ensures WantsEntry(c, s, s.history.adds[n].i, s.history.adds[n].call.name, s.history.adds[n].call.ip)
    ensures s.history.adds[n].call.name != ""
  {
    var a := s.history.adds[n];
    WriteIsListed(s.history.adds, n);
    WritesArePrefix(c, s, a.i);
    var load, m := s.history.loads[a.i], c.Decoded(a.i).value;
    WriteIsCalledFor(load.rules, m, load.order, c.limits, a.call);
  }

  lemma {:induction false} WantedEntryWritten(c: Config, s: State, i: nat, name: string, ip: IP)
    requires Reachable(c, s) && s.main.Finished? && WantsEntry(c, s, i, name, ip)
    ensures name != "" && exists call :: call in CallsOf(s.history.adds) && call.name == name && call.ip == ip
  {
    JustifiedHolds(c, s);
    WritesArePrefix(c, s, i);
    ReturnMeansDrained(c, s);
    var n := EveryEventSettled(c, s, i);
    assert VerdictTraced(c, LogOf(s.history, i), s.history.handled[n]);
    var load, m, adds := s.history.loads[i], c.Decoded(i).value, s.history.adds;
    WritesAreCalledFor(load.rules, m, load.order, c.limits, name, ip);
    var call :| call in CallsUnder(c, i, load) && call.name == name && call.ip == ip;
    ListedIsWrite(adds, i, call);
    var k :| 0 <= k < |adds| && adds[k].i == i && adds[k].call == call;
    assert CallsOf(adds)[k] == call;
  }

  // ---------------------------------------------------------------- without reloads and collisions

  /** Payloads with equal hashes are equal, among the first `sent`. */
  ghost predicate NoCollisions(c: Config, sent: nat) {
    forall i, j | 0 <= i < |c.events| && 0 <= j < |c.events| && i < sent && j < sent 
      && c.hash(c.events[i].payload) == c.hash(c.events[j].payload) ::
      c.events[i].payload == c.events[j].payload
  }

  /** The rules never changed. */
  ghost predicate NoReloads(c: Config, s: State) {
    c.rules.Some? && forall rules | rules in s.history.published :: rules == c.rules.value
  }

  /** Once there are rules there are always rules. */
  ghost predicate RulesPresent(c: Config, s: State) {
    c.rules.Some? ==>
      s.rules.Some? && forall n | 0 <= n < |s.history.handled| :: s.history.handled[n].verdict != NoRules
  }

  lemma {:induction false} RulesPresentStep(c: Config, s: State, a: Action)
    requires RulesPresent(c, s) && Enabled(c, s, a)
    ensures RulesPresent(c, Step(c, s, a))
  {
    if a.Work? && c.rules.Some? {
      var s', w := WorkStep(c, s, a.w, a.clock, a.order), a.w;
      WorkShape(c, s, w, a.clock, a.order);
      WorkWriteEffect(c, s, w, a.clock, a.order);
      RulesPresentWork(c, s, s', w);
    }
  }

  lemma {:induction false} RulesPresentWork(c: Config, s: State, s': State, w: nat)
    requires RulesPresent(c, s) && c.rules.Some? && w < |s.workers| && Shape(s, s', w) && WriteEffect(c, s, s', w)
    ensures RulesPresent(c, s')
  {
    var handled, handled' := s.history.handled, s'.history.handled;
    forall n | 0 <= n < |handled'| ensures handled'[n].verdict != NoRules {
      if n < |handled| { assert handled'[..|handled|][n] == handled[n] || handled' == handled; }
    }
  }

  lemma {:induction false} RulesPresentAlong(c: Config, states: seq<State>, actions: seq<Action>, n: nat)
    requires IsRun(c, states, actions) && n <= |actions|
    ensures RulesPresent(c, states[n])
  {
    if n > 0 {
      RulesPresentAlong(c, states, actions, n - 1);
      RulesPresentStep(c, states[n - 1], actions[n - 1]);
    }
  }

  lemma {:induction false} RulesStayPresent(c: Config, s: State)
    requires Reachable(c, s)
    ensures RulesPresent(c, s)
  {
    var states, actions :| IsRun(c, states, actions) && states[|actions|] == s;
    RulesPresentAlong(c, states, actions, |actions|);
  }

  /** The delivered event `i` asks for `ip` in the set `name` under the one rule list. */
  ghost predicate Asks(c: Config, i: nat, name: string, ip: IP) {
    && c.rules.Some? && i < |c.events| && c.decode(c.events[i].payload).Some?
    && var m := c.decode(c.events[i].payload).value;
    m.response && m.rcode == 0 && CalledFor(c.rules.value, m, name, ip)
  }

  /**
   * Deduplication, concurrency and map order are invisible in the sets: without
   * reloads and hash collisions, every interleaving leaves exactly the initial
   * entries and those some delivered event asks for.
   */
  lemma {:induction false} RunMeansUnion(c: Config, s: State, name: string, ip: IP)
    requires Reachable(c, s) && s.main.Finished? && name in c.kernel
    requires NoReloads(c, s) && NoCollisions(c, s.sent)
    ensures s.kernel.Keys == c.kernel.Keys
    ensures ip in s.kernel[name] <==>
      ip in c.kernel[name] || (ip != NilIP && exists i: nat :: i < s.sent && Asks(c, i, name, ip))
  {
    FinalMembership(c, s, name, ip);
    JustifiedHolds(c, s);
    if i: nat :| WantsEntry(c, s, i, name, ip) {
      WritesArePrefix(c, s, i);
      assert ParsesUnder(c, i, s.history.loads[i].order);
      assert i < s.sent && Asks(c, i, name, ip);
    }
    if i: nat :| i < s.sent && Asks(c, i, name, ip) {
      var j := AskedIsDispatched(c, s, i, name, ip);
    }
  }

  /** Some event with the same payload was let through, parsed and dispatched. */
  lemma {:induction false} AskedIsDispatched(c: Config, s: State, i: nat, name: string, ip: IP) returns (j: nat)
    requires Reachable(c, s) && s.main.Finished? && i < s.sent && Asks(c, i, name, ip)
    requires NoReloads(c, s) && NoCollisions(c, s.sent)
    ensures WantsEntry(c, s, j, name, ip)
  {
    j := EveryHashParsed(c, s, i);
    NothingLost(c, s);
    assert c.Decoded(j) == c.Decoded(i);
    var n := EveryEventSettled(c, s, j);
    var h :| 0 <= h < |s.history.handled| && s.history.handled[h].i == j && s.history.handled[h].verdict != Duplicate;
    assert h == n;
    UsableParses(c, j, name, ip);
    JustifiedHolds(c, s);
  }

  lemma {:induction false} UsableParses(c: Config, i: nat, name: string, ip: IP)
    requires Asks(c, i, name, ip)
    ensures !ParseFails(c, i)
  {
    var m := c.Decoded(i).value;
    var order := SomeOrder(m.answers);
    var looked, addr :| WantedBy(c.rules.value, m, looked, addr, name) && addr.ip == ip;
    assert addr in RecordsIn(m.answers, order);
    assert ParseResult(Some(m), order).Ok?;
  }

  // ---------------------------------------------------------------- timeouts

  /** Write `n` is the last one of `ip` into the set `name`. */
  predicate IsLastWrite(adds: seq<AddRecord>, n: nat, name: string, ip: IP) {
    && n < |adds| && adds[n].call.name == name && adds[n].call.ip == ip
    && forall m | n < m < |adds| :: !(adds[m].call.name == name && adds[m].call.ip == ip)
  }

  /** The entry holds the clamped TTL of the record `rec` that the last write of the entry, number `n`, sent. */
  ghost predicate EntryFrom(c: Config, s: State, name: string, ip: IP, n: nat, looked: string, rec: Record, lo: int,
                            hi: int)
    requires name in s.kernel && ip in s.kernel[name]
  {
    && IsLastWrite(s.history.adds, n, name, ip)
    && var a := s.history.adds[n];
    && a.i in s.history.loads && Origin(c, a, s.history.loads[a.i], looked, rec)
    && s.kernel[name][ip] == Some(ClampSeconds(rec.ttl, lo, hi))
  }

  /**
   * In every reachable state: an entry never written is as it was, and one that was
   * written holds the TTL of the record its last write sent, clamped to the bounds,
   * in whole seconds.
   */
  lemma {:induction false} TimeoutsAreClampedTtls(c: Config, s: State, name: string, ip: IP, lo: int, hi: int)
    requires Reachable(c, s) && name in c.kernel
    requires c.limits == Limits(lo * 1_000_000_000, hi * 1_000_000_000) && 0 < lo <= hi && lo <= 0xFFFF_FFFF
    ensures var written := ip != NilIP && exists n :: IsLastWrite(s.history.adds, n, name, ip);
      && s.kernel.Keys == c.kernel.Keys
      && (ip in s.kernel[name] <==> written || ip in c.kernel[name])
      && (ip in s.kernel[name] && !written ==> s.kernel[name][ip] == c.kernel[name][ip])
      && (written ==> exists n, looked, rec :: EntryFrom(c, s, name, ip, n, looked, rec, lo, hi))
  {
    JustifiedHolds(c, s);
    var adds := s.history.adds;
    ReplayEntry(c.kernel, CallsOf(adds), name, ip);
    LastForIsLastWrite(adds, name, ip);
    if n :| IsLastWrite(adds, n, name, ip) {
      WriteWantsEntry(c, s, n);
      var load, looked, rec := WriteIsJustified(c, s, n);
      if ip != NilIP {
        ClampedSeconds(rec.ttl, lo, hi);
        assert EntryFrom(c, s, name, ip, n, looked, rec, lo, hi);
      }
    }
  }

  lemma {:induction false} ClampedSeconds(ttl: uint32, lo: int, hi: int)
    requires 0 < lo <= hi && lo <= 0xFFFF_FFFF
    ensures TimeoutOf(ClampTTL(ttl * SECOND, lo * SECOND, hi * SECOND)) == Some(ClampSeconds(ttl, lo, hi))
  {
    TtlDurationIsExact(ttl);
    TimeoutIsClampedTtl(lo, hi);
    assert EntryTimeout(ttl, lo * SECOND, hi * SECOND) == Some(ClampSeconds(ttl, lo, hi));
  }

  lemma {:induction false} LastForIsLastWrite(adds: seq<AddRecord>, name: string, ip: IP)
    ensures LastFor(CallsOf(adds), name, ip).Some? <==> exists n :: IsLastWrite(adds, n, name, ip)
    ensures forall n: nat | IsLastWrite(adds, n, name, ip) :: LastFor(CallsOf(adds), name, ip) == Some(adds[n].call.ttl)
  {
    if adds != [] {
      var last, front := |adds| - 1, adds[..|adds| - 1];
      assert CallsOf(adds)[..last] == CallsOf(front);
      if adds[last].call.name == name && adds[last].call.ip == ip {
        assert IsLastWrite(adds, last, name, ip);
      } else {
        LastForIsLastWrite(front, name, ip);
        forall n: nat ensures IsLastWrite(adds, n, name, ip) <==> IsLastWrite(front, n, name, ip) {
          assert n < last ==> front[n] == adds[n];
        }
      }
    }
  }
}
