/**
 * One worker handling one event without interference: the imperative body of the
 * pipeline, against the effect it has on the kernel's sets.
 */
module Pipeline {
  import opened Prelude
  import opened SuffixTrie
  import opened Rules
  import opened RuleStore
  import opened Dedup
  import opened DnsParse
  import opened IpsetClient
  import opened Dispatch
  import opened Timeouts
  import opened Events

  /** How many of the writes end with the outcome `o`. */
  function OutcomeCount(k: Kernel, calls: seq<AddCall>, o: Outcome): nat {
    if calls == [] then 0
    else
      var last := calls[|calls| - 1];
      OutcomeCount(k, calls[..|calls| - 1], o) + if AddOutcome(k, last.name, last.ip) == o then 1 else 0
  }

  /** Every write has one of the three outcomes. */
  lemma {:induction false} OutcomesAddUp(k: Kernel, calls: seq<AddCall>)
    ensures OutcomeCount(k, calls, Written) + OutcomeCount(k, calls, MissingSet) + OutcomeCount(k, calls, BadArgument)
      == |calls|
  {
    if calls != [] {
      OutcomesAddUp(k, calls[..|calls| - 1]);
    }
  }

  lemma {:induction false} ReplayAppend(k: Kernel, a: seq<AddCall>, b: seq<AddCall>)
    ensures Replay(k, a + b) == Replay(Replay(k, a), b)
  {
    if b == [] {
      assert a + b == a;
    } else {
      assert (a + b)[..|a + b| - 1] == a + b[..|b| - 1];
      ReplayAppend(k, a, b[..|b| - 1]);
    }
  }

  lemma {:induction false} OutcomeCountAppend(k: Kernel, a: seq<AddCall>, b: seq<AddCall>, o: Outcome)
    ensures OutcomeCount(k, a + b, o) == OutcomeCount(k, a, o) + OutcomeCount(Replay(k, a), b, o)
  {
    ReplayEntry(k, a, "", NilIP);
    if b == [] {
      assert a + b == a;
    } else {
      assert (a + b)[..|a + b| - 1] == a + b[..|b| - 1];
      OutcomeCountAppend(k, a, b[..|b| - 1], o);
    }
  }

  /** The domain of the rule found for a name, if any. */
  function DomainFound(rules: seq<Rule>): string -> seq<string> {
    (name: string) =>
      match Match(rules, name)
      case None => []
      case Some(rule) => [rule.domain]
  }

  /** What becomes of an event: its verdict, the domains it matches and the writes it leads to. */
  datatype Fate = Fate(verdict: Verdict, matched: seq<string>, calls: seq<AddCall>)

  /** The fate of a parsed response. */
  function FateOfResponse(rules: Option<seq<Rule>>, r: Response, limits: Limits): Fate {
    match rules
    case None => Fate(NoRules, [], [])
    case Some(list) => Fate(Dispatched, FlatMap(DomainFound(list), LookedUp(r)), Calls(list, r, limits))
  }

  /** The fate of a payload that is not a duplicate. */
  function FateOf(rules: Option<seq<Rule>>, unpacked: Option<Message>, order: seq<string>, limits: Limits): Fate {
    match ParseResult(unpacked, order)
    case Err(_) => Fate(Unparsed, [], [])
    case Ok(r) => FateOfResponse(rules, r, limits)
  }

  class Handler {
    const dedup: Dedup
    const store: Store
    const ipset: Netlink
    const decode: Payload -> Option<Message>
    const limits: Limits
    var eventsSend: nat
    var eventsRecv: nat
    var dedupHits: nat
    var parseErrors: nat
    var writes: nat
    var errorsMissing: nat
    var errorsOther: nat
    /** How often each rule's domain has matched. */
    var matches: multiset<string>
    /** Every write attempted so far. */
    ghost var attempts: seq<AddCall>

    constructor (dedup: Dedup, store: Store, ipset: Netlink, decode: Payload -> Option<Message>, limits: Limits)
      ensures this.dedup == dedup && this.store == store && this.ipset == ipset
      ensures this.decode == decode && this.limits == limits && attempts == []
    {
      this.dedup, this.store, this.ipset, this.decode, this.limits := dedup, store, ipset, decode, limits;
      eventsSend, eventsRecv, dedupHits, parseErrors, writes, errorsMissing, errorsOther := 0, 0, 0, 0, 0, 0, 0;
      matches := multiset{};
      attempts := [];
    }

    /** Writing a list of calls extends the attempts, replays them on the kernel and counts each once. */
    twostate predicate Wrote(new calls: seq<AddCall>)
      reads this, ipset
    {
      && attempts == old(attempts) + calls
      && ipset.kernel == Replay(old(ipset.kernel), calls)
      && writes == old(writes) + OutcomeCount(old(ipset.kernel), calls, Written)
      && errorsMissing == old(errorsMissing) + OutcomeCount(old(ipset.kernel), calls, MissingSet)
      && errorsOther == old(errorsOther) + OutcomeCount(old(ipset.kernel), calls, BadArgument)
    }

    /** The inner loop: every record whose family has a set under `rule`. */
    method WriteRecords(rule: Rule, records: seq<Record>)
      requires ipset.Valid()
      modifies this`writes, this`errorsMissing, this`errorsOther, this`attempts, ipset
      ensures ipset.Valid()
      ensures Wrote(FlatMap(CallFor(rule, limits), records))
    {
      ghost var f := CallFor(rule, limits);
      for i := 0 to |records|
        invariant ipset.Valid()
        invariant Wrote(FlatMap(f, records[..i]))
      {
        ghost var done := FlatMap(f, records[..i]);
        FlatMapNext(f, records, i);
        WroteMore(old(ipset.kernel), old(attempts), done, f(records[i]));
        var name := SetFor(rule, records[i].family);
        if name == "" {
          assert done + f(records[i]) == done;
          continue;
        }
        var ttl := ClampTTL(TtlDuration(records[i].ttl), limits.min, limits.max);
        assert f(records[i]) == [AddCall(name, records[i].ip, ttl)];
        WriteOne(name, records[i].ip, ttl);
      }
      assert records[..|records|] == records;
    }

    lemma {:induction false} WroteMore(k: Kernel, before: seq<AddCall>, done: seq<AddCall>, more: seq<AddCall>)
      ensures Replay(k, done + more) == Replay(Replay(k, done), more)
      ensures forall o ::
        OutcomeCount(k, done + more, o) == OutcomeCount(k, done, o) + OutcomeCount(Replay(k, done), more, o)
      ensures (before + done) + more == before + (done + more)
    {
      ReplayAppend(k, done, more);
      forall o {
        OutcomeCountAppend(k, done, more, o);
      }
    }

    method WriteOne(name: string, ip: IP, ttl: int)
      requires ipset.Valid()
      modifies this`writes, this`errorsMissing, this`errorsOther, this`attempts, ipset
      ensures ipset.Valid()
      ensures Wrote([AddCall(name, ip, ttl)])
    {
      ghost var call := AddCall(name, ip, ttl);
      assert [call][..0] == [];
      var clock: int := *;
      var outcome := ipset.Add(name, ip, ttl, clock);
      attempts := attempts + [call];
      match outcome {
        case Written => writes := writes + 1;
        case MissingSet => errorsMissing := errorsMissing + 1;
        case BadArgument => errorsOther := errorsOther + 1;
      }
    }

    /** The outer loop: every looked-up name that has a rule. */
    method WriteNames(tr: Trie<Rule>, ghost rules: seq<Rule>, names: seq<string>, records: seq<Record>)
      requires ipset.Valid() && Frozen(tr, rules)
      modifies this`matches, this`writes, this`errorsMissing, this`errorsOther, this`attempts, ipset
      ensures ipset.Valid()
      ensures Wrote(FlatMap(CallsForName(rules, records, limits), names))
      ensures matches == old(matches) + multiset(FlatMap(DomainFound(rules), names))
    {
      ghost var f, g := CallsForName(rules, records, limits), DomainFound(rules);
      for i := 0 to |names|
        invariant ipset.Valid()
        invariant Wrote(FlatMap(f, names[..i]))
        invariant matches == old(matches) + multiset(FlatMap(g, names[..i]))
      {
        ghost var done := FlatMap(f, names[..i]);
        FlatMapNext(f, names, i);
        FlatMapNext(g, names, i);
        WroteMore(old(ipset.kernel), old(attempts), done, f(names[i]));
        BagAssociative(old(matches), multiset(FlatMap(g, names[..i])), multiset(g(names[i])));
        WriteName(tr, rules, names[i], records);
      }
      assert names[..|names|] == names;
    }

    /** One name: without a rule nothing happens; otherwise the match is counted and the records are written. */
    method WriteName(tr: Trie<Rule>, ghost rules: seq<Rule>, name: string, records: seq<Record>)
      requires ipset.Valid() && Frozen(tr, rules)
      modifies this`matches, this`writes, this`errorsMissing, this`errorsOther, this`attempts, ipset
      ensures ipset.Valid()
      ensures Wrote(CallsForName(rules, records, limits)(name))
      ensures matches == old(matches) + multiset(DomainFound(rules)(name))
    {
      var found := tr.Lookup(name);
      assert found == Match(rules, name);
      if found.Some? {
        matches := matches + multiset{found.value.domain};
        WriteRecords(found.value, records);
      }
    }

    ghost function CurrentRules(): Option<seq<Rule>>
      reads store
    {
      if store.v.Some? then Some(store.v.value.rs.rules) else None
    }

    /** Handles an event whose payload has not been seen: parse, load the trie once, write. */
    method Dispatch(payload: Payload) returns (verdict: Verdict, ghost order: seq<string>)
      requires ipset.Valid() && store.Valid()
      modifies this`parseErrors, this`matches, this`writes, this`errorsMissing, this`errorsOther, this`attempts, ipset
      ensures ipset.Valid()
      ensures decode(payload).Some? ==> IsOrder(order, decode(payload).value.answers)
      ensures verdict == FateOf(CurrentRules(), decode(payload), order, limits).verdict
      ensures Wrote(FateOf(CurrentRules(), decode(payload), order, limits).calls)
      ensures matches == old(matches) + multiset(FateOf(CurrentRules(), decode(payload), order, limits).matched)
      ensures parseErrors == old(parseErrors) + (if verdict == Unparsed then 1 else 0)
    {
      var parsed := Parse(decode(payload));
      order := OrderTaken(decode(payload), parsed);
      if parsed.Err? {
        parseErrors := parseErrors + 1;
        return Unparsed, order;
      }
      verdict := DispatchResponse(parsed.value);
    }

    /** Loads the rules once and writes what they ask for; without rules nothing happens. */
    method DispatchResponse(r: Response) returns (verdict: Verdict)
      requires ipset.Valid() && store.Valid()
      modifies this`matches, this`writes, this`errorsMissing, this`errorsOther, this`attempts, ipset
      ensures ipset.Valid()
      ensures var fate := FateOfResponse(CurrentRules(), r, limits);
        && verdict == fate.verdict
        && Wrote(fate.calls)
        && matches == old(matches) + multiset(fate.matched)
    {
      var tr := store.Trie();
      if tr.None? {
        return NoRules;
      }
      var names := UniqueNames(r);
      WriteNames(tr.value, store.v.value.rs.rules, names, r.records);
      return Dispatched;
    }

    method CountDirection(d: Direction)
      modifies this`eventsSend, this`eventsRecv
      ensures eventsSend == old(eventsSend) + (if d == DirSend then 1 else 0)
      ensures eventsRecv == old(eventsRecv) + (if d == DirRecv then 1 else 0)
    {
      match d {
        case DirSend => eventsSend := eventsSend + 1;
        case DirRecv => eventsRecv := eventsRecv + 1;
        case DirOther =>
      }
    }

    /** Counts the event and asks whether its hash is recent; a duplicate is counted and goes no further. */
    method Screen(ev: Event, now: int) returns (seen: bool)
      requires dedup.Valid()
      modifies this`eventsSend, this`eventsRecv, this`dedupHits, dedup`history, dedup.c
      ensures dedup.Valid()
      ensures dedup.history == old(dedup.history) + [Entry(dedup.hash(ev.payload), now)]
      ensures seen <==> SeenBefore(dedup.history, |old(dedup.history)|, dedup.c.size, dedup.ttl)
      ensures eventsSend == old(eventsSend) + (if ev.direction == DirSend then 1 else 0)
      ensures eventsRecv == old(eventsRecv) + (if ev.direction == DirRecv then 1 else 0)
      ensures dedupHits == old(dedupHits) + (if seen then 1 else 0)
    {
      CountDirection(ev.direction);
      seen := dedup.Seen(ev.payload, now);
      if seen {
        dedupHits := dedupHits + 1;
      }
    }

    /**
     * Handles one event: a recent hash is only counted, an unusable payload is only
     * counted, and otherwise the message's writes are performed under the rules in force.
     */
    method Handle(ev: Event, now: int) returns (verdict: Verdict, ghost order: seq<string>)
      requires dedup.Valid() && ipset.Valid() && store.Valid()
      modifies this, dedup`history, dedup.c, ipset
      ensures dedup.Valid() && ipset.Valid()
      ensures dedup.history == old(dedup.history) + [Entry(dedup.hash(ev.payload), now)]
      ensures verdict == Duplicate <==> SeenBefore(dedup.history, |old(dedup.history)|, dedup.c.size, dedup.ttl)
      ensures verdict != Duplicate && decode(ev.payload).Some? ==> IsOrder(order, decode(ev.payload).value.answers)
      ensures var fate := if verdict == Duplicate then Fate(Duplicate, [], [])
          else FateOf(CurrentRules(), decode(ev.payload), order, limits);
        && verdict == fate.verdict
        && Wrote(fate.calls)
        && matches == old(matches) + multiset(fate.matched)
      ensures eventsSend == old(eventsSend) + (if ev.direction == DirSend then 1 else 0)
      ensures eventsRecv == old(eventsRecv) + (if ev.direction == DirRecv then 1 else 0)
      ensures dedupHits == old(dedupHits) + (if verdict == Duplicate then 1 else 0)
      ensures parseErrors == old(parseErrors) + (if verdict == Unparsed then 1 else 0)
    {
      var seen := Screen(ev, now);
      verdict, order := Proceed(ev.payload, seen);
    }

    /** After the duplicate test. */
    method Proceed(payload: Payload, seen: bool) returns (verdict: Verdict, ghost order: seq<string>)
      requires ipset.Valid() && store.Valid()
      modifies this`parseErrors, this`matches, this`writes, this`errorsMissing, this`errorsOther, this`attempts, ipset
      ensures ipset.Valid()
      ensures verdict == Duplicate <==> seen
      ensures !seen && decode(payload).Some? ==> IsOrder(order, decode(payload).value.answers)
      ensures var fate := if seen then Fate(Duplicate, [], [])
          else FateOf(CurrentRules(), decode(payload), order, limits);
        && verdict == fate.verdict
        && Wrote(fate.calls)
        && matches == old(matches) + multiset(fate.matched)
      ensures parseErrors == old(parseErrors) + (if verdict == Unparsed then 1 else 0)
    {
      if seen {
        return Duplicate, [];
      }
      verdict, order := Dispatch(payload);
    }
  }
}
