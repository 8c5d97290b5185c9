/**
 * From a parsed response to ipset writes: which names are looked up, which
 * writes are attempted, and what they mean in terms of the DNS message alone.
 */
module Dispatch {
  import opened Prelude
  import opened DomainNames
  import opened Rules
  import opened DnsParse
  import opened IpsetClient

  datatype Limits = Limits(min: int, max: int)

  /** One attempted write: set name, address, clamped TTL. */
  datatype AddCall = AddCall(name: string, ip: IP, ttl: int)

  function SetFor(rule: Rule, family: int): string {
    if family == 4 then rule.ipsetV4 else if family == 6 then rule.ipsetV6 else ""
  }

  function CallFor(rule: Rule, limits: Limits): Record -> seq<AddCall> {
    (rec: Record) =>
      if SetFor(rule, rec.family) == "" then []
      else [AddCall(SetFor(rule, rec.family), rec.ip, ClampTTL(TtlDuration(rec.ttl), limits.min, limits.max))]
  }

  /** The writes for one name: none without a match, else one per record whose family has a set. */
  function CallsForName(rules: seq<Rule>, records: seq<Record>, limits: Limits): string -> seq<AddCall> {
    (name: string) =>
      match Match(rules, name)
      case None => []
      case Some(rule) => FlatMap(CallFor(rule, limits), records)
  }

  function Owners(records: seq<Record>): (names: seq<string>)
    ensures |names| == |records|
  {
    seq(|records|, i requires 0 <= i < |records| => records[i].name)
  }

  /** The query name, then the record owners, each once. */
  function LookedUp(r: Response): seq<string> {
    FirstAppearances([r.qname] + Owners(r.records))
  }

  /** Every write attempted for a response under one rule list, in order. */
  function Calls(rules: seq<Rule>, r: Response, limits: Limits): seq<AddCall> {
    FlatMap(CallsForName(rules, r.records, limits), LookedUp(r))
  }

  method UniqueNames(r: Response) returns (names: seq<string>)
    ensures names == LookedUp(r)
  {
    var seen := {r.qname};
    names := [r.qname];
    ghost var all := [r.qname] + Owners(r.records);
    assert all[..1] == [r.qname];
    assert FirstAppearances([r.qname]) == FirstAppearances([]) + [r.qname];
    for i := 0 to |r.records|
      invariant names == FirstAppearances(all[..i + 1])
      invariant seen == set n | n in names
    {
      var owner := r.records[i].name;
      FirstAppearancesNext(all, i + 1);
      assert owner == all[i + 1] && (owner in seen <==> owner in FirstAppearances(all[..i + 1]));
      if owner !in seen {
        seen := seen + {owner};
        names := names + [owner];
      }
    }
    assert all[..|r.records| + 1] == all;
  }

  // ---------------------------------------------------------------- names

  /** A name is looked up exactly when it is the query name, owns an address, or is an alias of an owner. */
  lemma {:induction false} LookedUpNames(m: Message, order: seq<string>, name: string)
    requires IsOrder(order, m.answers) && ParseResult(Some(m), order).Ok?
    ensures name in LookedUp(ParseResult(Some(m), order).value) <==>
      name == QName(m) || exists addr :: ShowsUnder(m.answers, addr, name)
  {
    var r := ParseResult(Some(m), order).value;
    var all := [r.qname] + Owners(r.records);
    assert name in all <==> name == r.qname || name in Owners(r.records);
    if name in Owners(r.records) {
      var i :| 0 <= i < |r.records| && Owners(r.records)[i] == name;
      RecordPresence(m.answers, order, r.records[i]);
    }
    if addr :| ShowsUnder(m.answers, addr, name) {
      RecordPresence(m.answers, order, addr.(name := name));
      var i :| 0 <= i < |r.records| && r.records[i] == addr.(name := name);
      assert Owners(r.records)[i] == name;
    }
  }

  /** A chain of aliases from `chain[0]` to the only one of its names that owns addresses, the last. */
  ghost predicate AliasChain(answers: seq<RR>, chain: seq<string>) {
    && |chain| >= 1
    && (forall i | 0 <= i < |chain| - 1 :: chain[i] in Aliases(answers) && Aliases(answers)[chain[i]] == chain[i + 1])
    && (forall i | 0 <= i < |chain| :: OwnsAddress(answers, chain[i]) <==> i == |chain| - 1)
  }

  ghost predicate OwnsAddress(answers: seq<RR>, name: string) {
    exists addr :: addr in Addresses(answers) && addr.name == name
  }

  /**
   * Every name of an alias chain starting at the query name is looked up if and
   * only if the chain has at most two hops: mirroring goes one alias deep.
   */
  lemma {:induction false} ChainLookedUpIff(m: Message, order: seq<string>, chain: seq<string>)
    requires IsOrder(order, m.answers) && ParseResult(Some(m), order).Ok?
    requires AliasChain(m.answers, chain) && chain[0] == QName(m)
    ensures (forall i | 0 <= i < |chain| :: chain[i] in LookedUp(ParseResult(Some(m), order).value)) <==> |chain| <= 3
  {
    var r, n := ParseResult(Some(m), order).value, |chain|;
    forall i | 0 <= i < n ensures chain[i] in LookedUp(r) <==> chain[i] == QName(m) || i >= n - 2 {
      ShownInChain(m.answers, chain, i);
      LookedUpNames(m, order, chain[i]);
    }
    if n > 3 {
      ChainHasNoRepeat(m.answers, chain, 0, 1);
    }
  }

  /** On a chain, addresses show up under the last two names only. */
  lemma {:induction false} ShownInChain(answers: seq<RR>, chain: seq<string>, i: nat)
    requires AliasChain(answers, chain) && i < |chain|
    ensures (exists addr :: ShowsUnder(answers, addr, chain[i])) <==> i >= |chain| - 2
  {
    var n := |chain|;
    if i >= n - 2 {
      assert OwnsAddress(answers, chain[n - 1]);
      var addr :| addr in Addresses(answers) && addr.name == chain[n - 1];
      assert ShowsUnder(answers, addr, chain[i]);
    } else {
      assert !OwnsAddress(answers, chain[i]) && !OwnsAddress(answers, chain[i + 1]);
    }
  }

  /** Following aliases never returns to an earlier name of the chain. */
  lemma {:induction false} ChainHasNoRepeat(answers: seq<RR>, chain: seq<string>, i: nat, j: nat)
    requires AliasChain(answers, chain) && i < j < |chain|
    ensures chain[i] != chain[j]
    decreases |chain| - j
  {
    if j < |chain| - 1 {
      ChainHasNoRepeat(answers, chain, i + 1, j + 1);
    } else {
      assert !OwnsAddress(answers, chain[i]);
    }
  }

  /** A chain of three hops from the query name to its address. */
  const THREE_HOPS := Message(0, true, RCODE_SUCCESS, [Question("q", 1)],
    [CNAME("q", 60, "r"), CNAME("r", 60, "s"), CNAME("s", 60, "t"), A("t", 60, Some(1))])

  /** One of its names is never looked up, whatever the order. */
  lemma {:induction false} ThreeHopsSkipAName(order: seq<string>)
    requires IsOrder(order, THREE_HOPS.answers)
    ensures ParseResult(Some(THREE_HOPS), order).Ok?
    ensures AliasChain(THREE_HOPS.answers, ["q", "r", "s", "t"]) && QName(THREE_HOPS) == "q"
    ensures "r" !in LookedUp(ParseResult(Some(THREE_HOPS), order).value)
  {
    ThreeHopsContents();
    ThreeHopsChain();
    NoUsableIffNoAddress(THREE_HOPS, order);
    assert A("t", 60, Some(1)) in THREE_HOPS.answers;
    LookedUpNames(THREE_HOPS, order, "r");
    if addr :| ShowsUnder(THREE_HOPS.answers, addr, "r") {
      assert false;
    }
  }

  lemma {:induction false} ThreeHopsChain()
    ensures AliasChain(THREE_HOPS.answers, ["q", "r", "s", "t"])
  {
    ThreeHopsContents();
    assert Record("t", 4, V4(1), 60) in Addresses(THREE_HOPS.answers);
  }

  lemma {:induction false} ThreeHopsContents()
    ensures Addresses(THREE_HOPS.answers) == [Record("t", 4, V4(1), 60)]
    ensures Aliases(THREE_HOPS.answers) == map["q" := "r", "r" := "s", "s" := "t"]
    ensures QName(THREE_HOPS) == "q"
  {
    var a, b, d, t := CNAME("q", 60, "r"), CNAME("r", 60, "s"), CNAME("s", 60, "t"), A("t", 60, Some(1));
    assert ToLower("q") == "q" && ToLower("r") == "r" && ToLower("s") == "s" && ToLower("t") == "t";
    assert [] + [a] == [a] && [a] + [b] == [a, b] && [a, b] + [d] == [a, b, d];
    assert [a, b, d] + [t] == THREE_HOPS.answers;
    ThreeHopsAliases(a, b, d, t);
    ThreeHopsAddresses(a, b, d, t);
  }

  lemma {:induction false} ThreeHopsAliases(a: RR, b: RR, d: RR, t: RR)
    requires a.CNAME? && b.CNAME? && d.CNAME? && t.A?
    ensures Aliases([] + [a] + [b] + [d] + [t]) ==
      map[Normalize(a.owner) := Normalize(a.target)][Normalize(b.owner) := Normalize(b.target)]
         [Normalize(d.owner) := Normalize(d.target)]
  {
    AliasesNext([], a);
    AliasesNext([] + [a], b);
    AliasesNext([] + [a] + [b], d);
    AliasesNext([] + [a] + [b] + [d], t);
  }

  lemma {:induction false} ThreeHopsAddresses(a: RR, b: RR, d: RR, t: RR)
    requires a.CNAME? && b.CNAME? && d.CNAME? && t.A?
    ensures Addresses([] + [a] + [b] + [d] + [t]) == AddressOf(t)
  {
    FlatMapSnoc(AddressOf, [], a);
    FlatMapSnoc(AddressOf, [] + [a], b);
    FlatMapSnoc(AddressOf, [] + [a] + [b], d);
    FlatMapSnoc(AddressOf, [] + [a] + [b] + [d], t);
  }

  lemma {:induction false} AliasesNext(answers: seq<RR>, rr: RR)
    ensures Aliases(answers + [rr]) ==
      if rr.CNAME? then Aliases(answers)[Normalize(rr.owner) := Normalize(rr.target)] else Aliases(answers)
  {
    assert (answers + [rr])[..|answers|] == answers;
  }

  // ---------------------------------------------------------------- writes

  /** The writes a message calls for: for each matched rule, A addresses into its v4 set and AAAA into its v6 set. */
  ghost predicate CalledFor(rules: seq<Rule>, m: Message, name: string, ip: IP) {
    exists looked, addr :: WantedBy(rules, m, looked, addr, name) && addr.ip == ip
  }

  /** `looked` is a looked-up name of `m` whose rule sends the address record `addr` into the set `name`. */
  ghost predicate WantedBy(rules: seq<Rule>, m: Message, looked: string, addr: Record, name: string) {
    && (looked == QName(m) || exists a :: ShowsUnder(m.answers, a, looked))
    && addr in Addresses(m.answers)
    && Match(rules, looked).Some?
    && name != "" && SetFor(Match(rules, looked).value, addr.family) == name
  }

  /** Looking up `looked` sends the record `rec` as the write `c`. */
  predicate Sends(rules: seq<Rule>, limits: Limits, looked: string, rec: Record, c: AddCall) {
    Match(rules, looked).Some? && c in CallFor(Match(rules, looked).value, limits)(rec)
  }

  lemma {:induction false} CallMembership(rules: seq<Rule>, r: Response, limits: Limits, c: AddCall)
    ensures c in Calls(rules, r, limits) <==>
      exists looked, rec :: looked in LookedUp(r) && rec in r.records && Sends(rules, limits, looked, rec, c)
  {
    FlatMapMembership(CallsForName(rules, r.records, limits), LookedUp(r), c);
    forall looked ensures c in CallsForName(rules, r.records, limits)(looked) <==>
      exists rec :: rec in r.records && Sends(rules, limits, looked, rec, c)
    {
      if Match(rules, looked).Some? {
        FlatMapMembership(CallFor(Match(rules, looked).value, limits), r.records, c);
      }
    }
  }

  /** What is written depends on the message alone and is exactly what the rules ask for. */
  lemma {:induction false} WritesAreCalledFor(rules: seq<Rule>, m: Message, order: seq<string>, limits: Limits,
                                              name: string, ip: IP)
    requires IsOrder(order, m.answers) && ParseResult(Some(m), order).Ok?
    ensures (exists c :: c in Calls(rules, ParseResult(Some(m), order).value, limits) && c.name == name && c.ip == ip)
      <==> CalledFor(rules, m, name, ip)
  {
    var r := ParseResult(Some(m), order).value;
    if c :| c in Calls(rules, r, limits) && c.name == name && c.ip == ip {
      WriteIsCalledFor(rules, m, order, limits, c);
    }
    if looked, addr :| WantedBy(rules, m, looked, addr, name) && addr.ip == ip {
      WantedIsWritten(rules, m, order, limits, looked, addr, name);
    }
  }

  lemma {:induction false} WriteIsCalledFor(rules: seq<Rule>, m: Message, order: seq<string>, limits: Limits,
                                            c: AddCall)
    requires IsOrder(order, m.answers) && ParseResult(Some(m), order).Ok?
    requires c in Calls(rules, ParseResult(Some(m), order).value, limits)
    ensures CalledFor(rules, m, c.name, c.ip)
  {
    var r := ParseResult(Some(m), order).value;
    CallMembership(rules, r, limits, c);
    var looked, rec :| looked in LookedUp(r) && rec in r.records && Sends(rules, limits, looked, rec, c);
    LookedUpNames(m, order, looked);
    var addr := SourceOf(m.answers, order, rec);
    SentIsWanted(rules, m, limits, looked, addr, rec, c);
  }

  lemma {:induction false} SentIsWanted(rules: seq<Rule>, m: Message, limits: Limits,
                                        looked: string, addr: Record, rec: Record, c: AddCall)
    requires looked == QName(m) || exists a :: ShowsUnder(m.answers, a, looked)
    requires addr in Addresses(m.answers) && rec == addr.(name := rec.name)
    requires Sends(rules, limits, looked, rec, c)
    ensures WantedBy(rules, m, looked, addr, c.name) && addr.ip == c.ip
  {
  }

  lemma {:induction false} WantedIsWritten(rules: seq<Rule>, m: Message, order: seq<string>, limits: Limits,
                                           looked: string, addr: Record, name: string)
    requires IsOrder(order, m.answers) && ParseResult(Some(m), order).Ok?
    requires WantedBy(rules, m, looked, addr, name)
    ensures AddCall(name, addr.ip, ClampTTL(TtlDuration(addr.ttl), limits.min, limits.max))
      in Calls(rules, ParseResult(Some(m), order).value, limits)
  {
    var r := ParseResult(Some(m), order).value;
    LookedUpNames(m, order, looked);
    assert ShowsUnder(m.answers, addr, addr.name) && addr == addr.(name := addr.name);
    RecordPresence(m.answers, order, addr);
    var c := CallFor(Match(rules, looked).value, limits)(addr)[0];
    assert Sends(rules, limits, looked, addr, c);
    CallMembership(rules, r, limits, c);
  }

  /** The order in which aliases are visited permutes the attempted writes and does nothing else. */
  lemma {:induction false} CallsUpToOrder(rules: seq<Rule>, m: Message, o1: seq<string>, o2: seq<string>,
                                          limits: Limits)
    requires IsOrder(o1, m.answers) && ParseResult(Some(m), o1).Ok?
    requires IsOrder(o2, m.answers) && ParseResult(Some(m), o2).Ok?
    ensures multiset(Calls(rules, ParseResult(Some(m), o1).value, limits))
         == multiset(Calls(rules, ParseResult(Some(m), o2).value, limits))
  {
    var r1, r2 := ParseResult(Some(m), o1).value, ParseResult(Some(m), o2).value;
    RecordsUpToOrder(m.answers, o1, o2);
    forall name ensures name in LookedUp(r1) <==> name in LookedUp(r2) {
      LookedUpNames(m, o1, name);
      LookedUpNames(m, o2, name);
    }
    SameSetSameMultiset(LookedUp(r1), LookedUp(r2));
    var f, g := CallsForName(rules, r1.records, limits), CallsForName(rules, r2.records, limits);
    forall name ensures multiset(f(name)) == multiset(g(name)) {
      if Match(rules, name).Some? {
        var h := CallFor(Match(rules, name).value, limits);
        FlatMapPermutation(h, h, r1.records, r2.records);
      }
    }
    FlatMapPermutation(f, g, LookedUp(r1), LookedUp(r2));
  }

  lemma {:induction false} EmptyInAnyOrder(answers: seq<RR>, o1: seq<string>, o2: seq<string>)
    requires IsOrder(o1, answers) && IsOrder(o2, answers)
    ensures RecordsIn(answers, o1) == [] <==> RecordsIn(answers, o2) == []
  {
    RecordsUpToOrder(answers, o1, o2);
    SameMultisetSameLength(RecordsIn(answers, o1), RecordsIn(answers, o2));
  }

  /** Whether a message is usable does not depend on the order. */
  lemma {:induction false} OutcomeWithoutOrder(m: Message, o1: seq<string>, o2: seq<string>)
    requires IsOrder(o1, m.answers) && IsOrder(o2, m.answers)
    ensures ParseResult(Some(m), o1).Ok? <==> ParseResult(Some(m), o2).Ok?
    ensures ParseResult(Some(m), o1).Err? ==> ParseResult(Some(m), o1) == ParseResult(Some(m), o2)
  {
    EmptyInAnyOrder(m.answers, o1, o2);
  }
}
