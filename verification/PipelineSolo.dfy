/**
 * The link between the state machine and the sequential handler: a worker whose
 * steps are not interrupted does to the shared state what one call of `Handle` does.
 */
module PipelineSolo {
  import opened Prelude
  import opened Rules
  import opened DnsParse
  import opened IpsetClient
  import opened Dispatch
  import opened Timeouts
  import opened Dedup
  import opened Events
  import opened PipelineRun
  import opened Pipeline

  // ---------------------------------------------------------------- paths

  ghost predicate LinkedAt<S(!new)>(r: (S, S) -> bool, path: seq<S>, k: nat)
    requires 0 < k < |path|
  {
    r(path[k - 1], path[k])
  }

  /** Each element of the path is related to the one before. */
  ghost predicate Linked<S(!new)>(r: (S, S) -> bool, path: seq<S>) {
    |path| > 0 && forall k | 0 < k < |path| :: LinkedAt(r, path, k)
  }

  function Last<S>(path: seq<S>): S
    requires |path| > 0
  {
    path[|path| - 1]
  }

  lemma {:induction false} LinkedJoin<S(!new)>(r: (S, S) -> bool, p: seq<S>, q: seq<S>) returns (path: seq<S>)
    requires Linked(r, p) && Linked(r, q) && Last(p) == q[0]
    ensures Linked(r, path) && path[0] == p[0] && Last(path) == Last(q)
  {
    path := p + q[1..];
    forall k | 0 < k < |path| ensures LinkedAt(r, path, k) {
      if k < |p| {
        assert LinkedAt(r, p, k);
      } else {
        assert LinkedAt(r, q, k - |p| + 1);
      }
    }
  }

  lemma {:induction false} LinkedPair<S(!new)>(r: (S, S) -> bool, s: S, t: S)
    requires r(s, t)
    ensures Linked(r, [s, t])
  {
  }

  /** A possible step of worker `w`. */
  ghost function StepOf(c: Config, w: nat, now: int, order: seq<string>): (State, State) -> bool {
    (s: State, t: State) => Enabled(c, s, Work(w, now, order)) && t == Step(c, s, Work(w, now, order))
  }

  /** Possible steps of worker `w`, and of nobody else, from `s` to `t`. */
  ghost predicate Solo(c: Config, w: nat, now: int, order: seq<string>, s: State, path: seq<State>, t: State) {
    Linked(StepOf(c, w, now, order), path) && path[0] == s && Last(path) == t
  }

  lemma {:induction false} SoloOnce(c: Config, w: nat, now: int, order: seq<string>, s: State)
    returns (path: seq<State>)
    requires Enabled(c, s, Work(w, now, order))
    ensures Solo(c, w, now, order, s, path, Step(c, s, Work(w, now, order)))
  {
    path := [s, Step(c, s, Work(w, now, order))];
    LinkedPair(StepOf(c, w, now, order), path[0], path[1]);
  }

  lemma {:induction false} SoloTwice(c: Config, w: nat, now: int, order: seq<string>,
                                     s: State, p: seq<State>, mid: State, q: seq<State>, t: State)
    returns (path: seq<State>)
    requires Solo(c, w, now, order, s, p, mid) && Solo(c, w, now, order, mid, q, t)
    ensures Solo(c, w, now, order, s, path, t)
  {
    path := LinkedJoin(StepOf(c, w, now, order), p, q);
  }

  // ---------------------------------------------------------------- what a stretch of steps does

  /**
   * The kernel and the counters after the lookups that matched the domains `matched`
   * and the writes `calls`; the cache, the rules, the event and the duplicate
   * counters are as before.
   */
  predicate Performed(s: State, t: State, matched: seq<string>, calls: seq<AddCall>) {
    && t.kernel == Replay(s.kernel, calls)
    && t.counters.matches == s.counters.matches + multiset(matched)
    && t.counters.writes == s.counters.writes + OutcomeCount(s.kernel, calls, Written)
    && t.counters.errorsMissing == s.counters.errorsMissing + OutcomeCount(s.kernel, calls, MissingSet)
    && t.counters.errorsOther == s.counters.errorsOther + OutcomeCount(s.kernel, calls, BadArgument)
    && t.cache == s.cache && t.rules == s.rules
    && t.counters.eventsSend == s.counters.eventsSend && t.counters.eventsRecv == s.counters.eventsRecv
    && t.counters.dedupHits == s.counters.dedupHits
  }

  /** Worker `w` is in phase `p`, no event has been put away. */
  predicate Moved(s: State, t: State, w: nat, p: Phase)
    requires w < |s.workers|
  {
    t.workers == s.workers[w := p] && t.history.handled == s.history.handled
  }

  /** Worker `w` has put event `i` away. */
  predicate AtRest(s: State, t: State, w: nat, i: nat, v: Verdict)
    requires w < |s.workers|
  {
    t.workers == s.workers[w := Waiting] && t.history.handled == s.history.handled + [Handled(i, v)]
  }

  lemma {:induction false} RestAfterMove(s: State, mid: State, t: State, w: nat, p: Phase, i: nat, v: Verdict)
    requires w < |s.workers| && Moved(s, mid, w, p) && |mid.workers| == |s.workers| && AtRest(mid, t, w, i, v)
    ensures AtRest(s, t, w, i, v)
  {
  }

  /** Two stretches one after the other. */
  lemma {:induction false} PerformedBoth(s: State, mid: State, t: State,
                                         f: seq<string>, g: seq<string>, a: seq<AddCall>, b: seq<AddCall>)
    requires Performed(s, mid, f, a) && Performed(mid, t, g, b)
    ensures Performed(s, t, f + g, a + b)
  {
    ReplayAppend(s.kernel, a, b);
    OutcomeCountAppend(s.kernel, a, b, Written);
    OutcomeCountAppend(s.kernel, a, b, MissingSet);
    OutcomeCountAppend(s.kernel, a, b, BadArgument);
  }

  // ---------------------------------------------------------------- lookups and writes

  /** One write: the call to the client, then its counter. */
  lemma {:induction false} OneWrite(c: Config, w: nat, now: int, order: seq<string>, s: State, mid: State, t: State)
    requires w < |s.workers| && s.workers[w].Dispatching? && s.workers[w].todo != []
    requires mid == WorkStep(c, s, w, now, order) && |mid.workers| == |s.workers|
    requires t == WorkStep(c, mid, w, now, order)
    ensures var p := s.workers[w];
      Moved(s, t, w, Dispatching(p.i, p.load, p.names, p.todo[1..])) && Performed(s, t, [], [p.todo[0]])
      && t.counters.parseErrors == s.counters.parseErrors
  {
    var call := s.workers[w].todo[0];
    assert mid.workers[w].Added?;
    assert [call][..0] == [];
    assert Replay(s.kernel, []) == s.kernel;
  }

  lemma {:induction false} WriteAlone(c: Config, w: nat, now: int, order: seq<string>, s: State)
    returns (path: seq<State>, t: State)
    requires w < |s.workers| && s.workers[w].Dispatching? && s.workers[w].todo != []
    ensures Solo(c, w, now, order, s, path, t)
    ensures var p := s.workers[w];
      Moved(s, t, w, Dispatching(p.i, p.load, p.names, p.todo[1..])) && Performed(s, t, [], [p.todo[0]])
      && t.counters.parseErrors == s.counters.parseErrors
  {
    var mid := Step(c, s, Work(w, now, order));
    t := Step(c, mid, Work(w, now, order));
    var p := SoloOnce(c, w, now, order, s);
    var q := SoloOnce(c, w, now, order, mid);
    path := SoloTwice(c, w, now, order, s, p, mid, q, t);
    OneWrite(c, w, now, order, s, mid, t);
  }

  /** One lookup, and its counter. */
  lemma {:induction false} OneLookup(c: Config, w: nat, now: int, order: seq<string>, s: State)
    requires w < |s.workers| && s.workers[w].Dispatching? && s.workers[w].todo == [] && s.workers[w].names != []
    ensures var p, t := s.workers[w], WorkStep(c, s, w, now, order);
      var found := Match(p.load.rules, p.names[0]);
      && Moved(s, t, w, Dispatching(p.i, p.load, p.names[1..], CallsOfMatch(c, p.i, p.load, found)))
      && t.counters == CountMatch(s.counters, found)
      && t.kernel == s.kernel && t.cache == s.cache && t.rules == s.rules
  {
  }

  lemma {:induction false} MatchPerformed(s: State, t: State, rules: seq<Rule>, name: string)
    requires t.counters == CountMatch(s.counters, Match(rules, name))
    requires t.kernel == s.kernel && t.cache == s.cache && t.rules == s.rules
    ensures Performed(s, t, DomainFound(rules)(name), []) && t.counters.parseErrors == s.counters.parseErrors
  {
    var found, domains := Match(rules, name), DomainFound(rules)(name);
    assert domains == if found.Some? then [found.value.domain] else [];
    FoundPerformed(s, t, found, domains);
  }

  lemma {:induction false} FoundPerformed(s: State, t: State, found: Option<Rule>, domains: seq<string>)
    requires t.counters == CountMatch(s.counters, found)
    requires domains == if found.Some? then [found.value.domain] else []
    requires t.kernel == s.kernel && t.cache == s.cache && t.rules == s.rules
    ensures Performed(s, t, domains, []) && t.counters.parseErrors == s.counters.parseErrors
  {
  }

  lemma {:induction false} LookupAlone(c: Config, w: nat, now: int, order: seq<string>, s: State,
                                       i: nat, load: Load, names: seq<string>)
    returns (path: seq<State>, t: State)
    requires w < |s.workers| && s.workers[w] == Dispatching(i, load, names, []) && names != []
    ensures Solo(c, w, now, order, s, path, t)
    ensures Moved(s, t, w, Dispatching(i, load, names[1..], CallsOfMatch(c, i, load, Match(load.rules, names[0]))))
    ensures Performed(s, t, DomainFound(load.rules)(names[0]), [])
    ensures t.counters.parseErrors == s.counters.parseErrors
  {
    t := WorkStep(c, s, w, now, order);
    path := SoloOnce(c, w, now, order, s);
    OneLookup(c, w, now, order, s);
    MatchPerformed(s, t, load.rules, names[0]);
  }

  lemma {:induction false} FinishAlone(c: Config, w: nat, now: int, order: seq<string>, s: State, i: nat, load: Load)
    returns (path: seq<State>, t: State)
    requires w < |s.workers| && s.workers[w] == Dispatching(i, load, [], [])
    ensures Solo(c, w, now, order, s, path, t)
    ensures AtRest(s, t, w, i, Dispatched) && Performed(s, t, [], [])
    ensures t.counters.parseErrors == s.counters.parseErrors
  {
    t := Finish(s, w, i, Dispatched);
    path := SoloOnce(c, w, now, order, s);
    FinishEffect(s, w, i, Dispatched);
  }

  lemma {:induction false} FinishEffect(s: State, w: nat, i: nat, v: Verdict)
    requires w < |s.workers|
    ensures var t := Finish(s, w, i, v); AtRest(s, t, w, i, v) && Performed(s, t, [], []) && t.counters == s.counters
  {
  }

  /** All that remains of a dispatched event. */
  lemma {:induction false} WritesAlone(c: Config, w: nat, now: int, order: seq<string>, s: State,
                                       i: nat, load: Load, names: seq<string>, todo: seq<AddCall>)
    returns (path: seq<State>, t: State)
    requires w < |s.workers| && s.workers[w] == Dispatching(i, load, names, todo)
    ensures Solo(c, w, now, order, s, path, t)
    ensures AtRest(s, t, w, i, Dispatched)
    ensures Performed(s, t, FlatMap(DomainFound(load.rules), names), todo + CallsFor(c, i, load, names))
    ensures t.counters.parseErrors == s.counters.parseErrors
    decreases |names|, |todo|
  {
    var mid;
    var p, q := [], [];
    if todo != [] {
      p, mid := WriteAlone(c, w, now, order, s);
      q, t := WritesAlone(c, w, now, order, mid, i, load, names, todo[1..]);
      path := SoloTwice(c, w, now, order, s, p, mid, q, t);
      RestAfterMove(s, mid, t, w, mid.workers[w], i, Dispatched);
      WriteFirst(s, mid, t, FlatMap(DomainFound(load.rules), names), todo, CallsFor(c, i, load, names));
    } else if names != [] {
      p, mid := LookupAlone(c, w, now, order, s, i, load, names);
      var calls := CallsOfMatch(c, i, load, Match(load.rules, names[0]));
      q, t := WritesAlone(c, w, now, order, mid, i, load, names[1..], calls);
      path := SoloTwice(c, w, now, order, s, p, mid, q, t);
      RestAfterMove(s, mid, t, w, mid.workers[w], i, Dispatched);
      LookupFirst(c, s, mid, t, i, load, names);
    } else {
      path, t := FinishAlone(c, w, now, order, s, i, load);
    }
  }

  lemma {:induction false} WriteFirst(s: State, mid: State, t: State,
                                      matched: seq<string>, todo: seq<AddCall>, rest: seq<AddCall>)
    requires todo != [] && Performed(s, mid, [], [todo[0]]) && Performed(mid, t, matched, todo[1..] + rest)
    ensures Performed(s, t, matched, todo + rest)
  {
    PerformedBoth(s, mid, t, [], matched, [todo[0]], todo[1..] + rest);
    assert [] + matched == matched;
    assert [todo[0]] + (todo[1..] + rest) == todo + rest;
  }

  lemma {:induction false} LookupFirst(c: Config, s: State, mid: State, t: State, i: nat, load: Load,
                                       names: seq<string>)
    requires names != [] && Performed(s, mid, DomainFound(load.rules)(names[0]), [])
    requires Performed(mid, t, FlatMap(DomainFound(load.rules), names[1..]),
      CallsOfMatch(c, i, load, Match(load.rules, names[0])) + CallsFor(c, i, load, names[1..]))
    ensures Performed(s, t, FlatMap(DomainFound(load.rules), names), [] + CallsFor(c, i, load, names))
  {
    PerformedBoth(s, mid, t, DomainFound(load.rules)(names[0]), FlatMap(DomainFound(load.rules), names[1..]),
      [], CallsFor(c, i, load, names));
  }

  // ---------------------------------------------------------------- the duplicate test

  /** The worker has counted the event, and `Seen` has answered and left its mark. */
  predicate Screened(c: Config, s: State, t: State, w: nat, i: nat, now: int)
    requires w < |s.workers|
  {
    && Moved(s, t, w, if Hit(TimeOf(s.cache, c.Key(i)), now, c.dedupTtl) then Suppressed(i) else Fresh(i))
    && t.cache == Put(s.cache, c.Key(i), now, c.dedupSize)
    && t.counters == CountEvent(s.counters, c.Heading(i))
    && t.rules == s.rules && t.kernel == s.kernel
  }

  /** Reading and then writing the cache is one `Seen`. */
  lemma {:induction false} SeenEffect(c: Config, w: nat, now: int, order: seq<string>, s: State, mid: State, t: State)
    requires w < |s.workers| && s.workers[w].Timed?
    requires mid == WorkStep(c, s, w, now, order) && |mid.workers| == |s.workers|
    requires t == WorkStep(c, mid, w, now, order)
    ensures var p := s.workers[w];
      && Moved(s, t, w, if Hit(TimeOf(s.cache, c.Key(p.i)), p.now, c.dedupTtl) then Suppressed(p.i) else Fresh(p.i))
      && t.cache == Put(s.cache, c.Key(p.i), p.now, c.dedupSize)
      && t.counters == s.counters && t.rules == s.rules && t.kernel == s.kernel
  {
    var p := s.workers[w];
    assert mid.workers[w].Looked?;
    PutAfterTouch(s.cache, c.Key(p.i), p.now, c.dedupSize);
  }

  lemma {:induction false} SeenAlone(c: Config, w: nat, now: int, order: seq<string>, s: State)
    returns (path: seq<State>, t: State)
    requires w < |s.workers| && s.workers[w].Timed?
    ensures Solo(c, w, now, order, s, path, t)
    ensures var p := s.workers[w];
      && Moved(s, t, w, if Hit(TimeOf(s.cache, c.Key(p.i)), p.now, c.dedupTtl) then Suppressed(p.i) else Fresh(p.i))
      && t.cache == Put(s.cache, c.Key(p.i), p.now, c.dedupSize)
      && t.counters == s.counters && t.rules == s.rules && t.kernel == s.kernel
  {
    var mid := Step(c, s, Work(w, now, order));
    t := Step(c, mid, Work(w, now, order));
    var p := SoloOnce(c, w, now, order, s);
    var q := SoloOnce(c, w, now, order, mid);
    path := SoloTwice(c, w, now, order, s, p, mid, q, t);
    SeenEffect(c, w, now, order, s, mid, t);
  }

  lemma {:induction false} ScreenAlone(c: Config, w: nat, now: int, order: seq<string>, s: State, i: nat)
    returns (path: seq<State>, t: State)
    requires w < |s.workers| && s.workers[w] == Received(i)
    ensures Solo(c, w, now, order, s, path, t)
    ensures Screened(c, s, t, w, i, now)
  {
    var s1 := Step(c, s, Work(w, now, order));
    var s2 := Step(c, s1, Work(w, now, order));
    assert s2.workers == s.workers[w := Timed(i, now)];
    var p := SoloOnce(c, w, now, order, s);
    var q := SoloOnce(c, w, now, order, s1);
    p := SoloTwice(c, w, now, order, s, p, s1, q, s2);
    q, t := SeenAlone(c, w, now, order, s2);
    path := SoloTwice(c, w, now, order, s, p, s2, q, t);
  }

  // ---------------------------------------------------------------- one event

  /** Loading the rules: without any the event is put away, otherwise its names are to be looked up. */
  lemma {:induction false} LoadEffect(c: Config, w: nat, order: seq<string>, s: State, i: nat)
    requires w < |s.workers| && s.workers[w] == Parsed(i, order)
    ensures var t := LoadSnapshot(c, s, w, i, order);
      && Performed(s, t, [], []) && t.counters.parseErrors == s.counters.parseErrors
      && if s.rules.None? then AtRest(s, t, w, i, NoRules)
         else var load := Load(s.rules.value, order);
           Moved(s, t, w, Dispatching(i, load, NamesUnder(c, i, load), []))
  {
  }

  /** The fate of a parsed event. */
  lemma {:induction false} ParsedFate(c: Config, i: nat, order: seq<string>, rules: Option<seq<Rule>>)
    requires ParseResult(c.Decoded(i), order).Ok?
    ensures FateOf(rules, c.Decoded(i), order, c.limits) ==
      if rules.None? then Fate(NoRules, [], [])
      else
        var load := Load(rules.value, order);
        var names := NamesUnder(c, i, load);
        Fate(Dispatched, FlatMap(DomainFound(rules.value), names), [] + CallsFor(c, i, load, names))
  {
    if rules.Some? {
      var load := Load(rules.value, order);
      CallsForAll(c, i, load);
      NothingFirst(CallsFor(c, i, load, NamesUnder(c, i, load)));
    }
  }

  lemma {:induction false} PerformedAfterNothing(s: State, mid: State, t: State, matched: seq<string>,
                                                 calls: seq<AddCall>)
    requires Performed(s, mid, [], []) && Performed(mid, t, matched, calls)
    ensures Performed(s, t, matched, calls)
  {
  }

  /** The parsed event meets its fate under the rules in force. */
  lemma {:induction false} LoadAlone(c: Config, w: nat, now: int, order: seq<string>, s: State, i: nat)
    returns (path: seq<State>, t: State)
    requires w < |s.workers| && s.workers[w] == Parsed(i, order) && ParseResult(c.Decoded(i), order).Ok?
    ensures Solo(c, w, now, order, s, path, t)
    ensures var fate := FateOf(s.rules, c.Decoded(i), order, c.limits);
      && AtRest(s, t, w, i, fate.verdict) && Performed(s, t, fate.matched, fate.calls)
      && fate.verdict != Unparsed && fate.verdict != Duplicate
    ensures t.counters.parseErrors == s.counters.parseErrors
  {
    var mid := LoadSnapshot(c, s, w, i, order);
    LoadEffect(c, w, order, s, i);
    ParsedFate(c, i, order, s.rules);
    var p := SoloOnce(c, w, now, order, s);
    if s.rules.None? {
      path, t := p, mid;
    } else {
      var load := Load(s.rules.value, order);
      var names := NamesUnder(c, i, load);
      path, t := WritesAfter(c, w, now, order, s, p, mid, i, load, names);
    }
  }

  /** Continues after the rules have been loaded. */
  lemma {:induction false} WritesAfter(c: Config, w: nat, now: int, order: seq<string>, s: State, p: seq<State>,
                                       mid: State, i: nat, load: Load, names: seq<string>)
    returns (path: seq<State>, t: State)
    requires w < |s.workers| && Moved(s, mid, w, Dispatching(i, load, names, []))
    requires Solo(c, w, now, order, s, p, mid) && Performed(s, mid, [], [])
    ensures Solo(c, w, now, order, s, path, t) && AtRest(s, t, w, i, Dispatched)
    ensures Performed(s, t, FlatMap(DomainFound(load.rules), names), [] + CallsFor(c, i, load, names))
    ensures t.counters.parseErrors == mid.counters.parseErrors
  {
    var q;
    q, t := WritesAlone(c, w, now, order, mid, i, load, names, []);
    PerformedAfterNothing(s, mid, t, FlatMap(DomainFound(load.rules), names), [] + CallsFor(c, i, load, names));
    path := SoloTwice(c, w, now, order, s, p, mid, q, t);
  }

  /** From parsing on. */
  lemma {:induction false} FreshAlone(c: Config, w: nat, now: int, order: seq<string>, s: State, i: nat)
    returns (path: seq<State>, t: State)
    requires w < |s.workers| && s.workers[w] == Fresh(i)
    requires c.Decoded(i).Some? ==> IsOrder(order, c.Decoded(i).value.answers)
    ensures Solo(c, w, now, order, s, path, t)
    ensures var fate := FateOf(s.rules, c.Decoded(i), order, c.limits);
      && AtRest(s, t, w, i, fate.verdict) && Performed(s, t, fate.matched, fate.calls) && fate.verdict != Duplicate
      && t.counters.parseErrors == s.counters.parseErrors + (if fate.verdict == Unparsed then 1 else 0)
  {
    var mid := ParsePayload(c, s, w, i, order);
    var p := SoloOnce(c, w, now, order, s);
    ParseEffect(c, w, order, s, i);
    var q;
    if ParseResult(c.Decoded(i), order).Ok? {
      q, t := LoadAlone(c, w, now, order, mid, i);
    } else {
      q, t := FailAlone(c, w, now, order, mid, i);
    }
    var fate := FateOf(s.rules, c.Decoded(i), order, c.limits);
    path := SoloTwice(c, w, now, order, s, p, mid, q, t);
    RestAfterMove(s, mid, t, w, mid.workers[w], i, fate.verdict);
    PerformedAfterNothing(s, mid, t, fate.matched, fate.calls);
  }

  lemma {:induction false} ParseEffect(c: Config, w: nat, order: seq<string>, s: State, i: nat)
    requires w < |s.workers| && s.workers[w] == Fresh(i)
    ensures var t := ParsePayload(c, s, w, i, order);
      && Moved(s, t, w, if ParseResult(c.Decoded(i), order).Ok? then Parsed(i, order) else Failed(i))
      && Performed(s, t, [], []) && t.counters == s.counters
  {
  }

  lemma {:induction false} FailAlone(c: Config, w: nat, now: int, order: seq<string>, s: State, i: nat)
    returns (path: seq<State>, t: State)
    requires w < |s.workers| && s.workers[w] == Failed(i)
    ensures Solo(c, w, now, order, s, path, t)
    ensures AtRest(s, t, w, i, Unparsed) && Performed(s, t, [], [])
    ensures t.counters.parseErrors == s.counters.parseErrors + 1
  {
    t := Reject(s, w, i);
    path := SoloOnce(c, w, now, order, s);
    RejectAlone(s, w, i);
  }

  lemma {:induction false} RejectAlone(s: State, w: nat, i: nat)
    requires w < |s.workers|
    ensures var t := Reject(s, w, i);
      AtRest(s, t, w, i, Unparsed) && Performed(s, t, [], []) && t.counters.parseErrors == s.counters.parseErrors + 1
  {
  }

  lemma {:induction false} SuppressAlone(c: Config, w: nat, now: int, order: seq<string>, s: State, i: nat)
    returns (path: seq<State>, t: State)
    requires w < |s.workers| && s.workers[w] == Suppressed(i)
    ensures Solo(c, w, now, order, s, path, t)
    ensures AtRest(s, t, w, i, Duplicate)
    ensures t.cache == s.cache && t.kernel == s.kernel && t.rules == s.rules
    ensures t.counters == s.counters.(dedupHits := s.counters.dedupHits + 1)
  {
    t := Suppress(s, w, i);
    path := SoloOnce(c, w, now, order, s);
  }

  /** What `Handler.Handle` is proved to do, on the state of the machine. */
  predicate HandledAlone(c: Config, s: State, t: State, w: nat, i: nat, now: int, order: seq<string>)
    requires w < |s.workers|
  {
    var seen := Hit(TimeOf(s.cache, c.Key(i)), now, c.dedupTtl);
    var fate := if seen then Fate(Duplicate, [], []) else FateOf(s.rules, c.Decoded(i), order, c.limits);
    var n, m := s.counters, t.counters;
    && AtRest(s, t, w, i, fate.verdict)
    && t.cache == Put(s.cache, c.Key(i), now, c.dedupSize) && t.rules == s.rules
    && t.kernel == Replay(s.kernel, fate.calls)
    && m.matches == n.matches + multiset(fate.matched)
    && m.writes == n.writes + OutcomeCount(s.kernel, fate.calls, Written)
    && m.errorsMissing == n.errorsMissing + OutcomeCount(s.kernel, fate.calls, MissingSet)
    && m.errorsOther == n.errorsOther + OutcomeCount(s.kernel, fate.calls, BadArgument)
    && m.eventsSend == n.eventsSend + (if c.Heading(i) == DirSend then 1 else 0)
    && m.eventsRecv == n.eventsRecv + (if c.Heading(i) == DirRecv then 1 else 0)
    && m.dedupHits == n.dedupHits + (if fate.verdict == Duplicate then 1 else 0)
    && m.parseErrors == n.parseErrors + (if fate.verdict == Unparsed then 1 else 0)
  }

  /** Undisturbed, a worker that has received an event leaves exactly what one call of `Handle` leaves. */
  lemma {:induction false} UndisturbedIsHandle(c: Config, w: nat, now: int, order: seq<string>, s: State, i: nat)
    returns (path: seq<State>, t: State)
    requires w < |s.workers| && s.workers[w] == Received(i)
    requires c.Decoded(i).Some? ==> IsOrder(order, c.Decoded(i).value.answers)
    ensures Solo(c, w, now, order, s, path, t)
    ensures HandledAlone(c, s, t, w, i, now, order)
  {
    var p, q, mid;
    p, mid := ScreenAlone(c, w, now, order, s, i);
    if mid.workers[w] == Suppressed(i) {
      q, t := SuppressAlone(c, w, now, order, mid, i);
    } else {
      q, t := FreshAlone(c, w, now, order, mid, i);
    }
    path := SoloTwice(c, w, now, order, s, p, mid, q, t);
  }
}
