/**
 * The writes of a response spelled out on names, rules, records and answers: which
 * ones there are, how many, in which order, into which sets, and with which TTL.
 */
module DispatchProperties {
  import opened Prelude
  import opened DomainNames
  import opened Rules
  import opened DnsParse
  import opened IpsetClient
  import opened Dispatch
  import opened ParseProperties

  // ---------------------------------------------------------------- one write per pair

  /** The rule has a set for the record's family. */
  predicate HasSet(rule: Rule, rec: Record) {
    (rec.family == 4 && rule.ipsetV4 != "") || (rec.family == 6 && rule.ipsetV6 != "")
  }

  /** The write of `rec` under `rule`: the family's set, the address, and the TTL in nanoseconds, clamped. */
  predicate CallIs(rule: Rule, limits: Limits, rec: Record, c: AddCall) {
    && (rec.family == 4 ==> c.name == rule.ipsetV4)
    && (rec.family == 6 ==> c.name == rule.ipsetV6)
    && c.ip == rec.ip
    && c.ttl == ClampTTL(rec.ttl * 1_000_000_000, limits.min, limits.max)
  }

  /** `ks` lists, in order, the first `m` records the rule has a set for, and `calls` are their writes. */
  ghost predicate RecordWrites(rule: Rule, limits: Limits, records: seq<Record>, m: nat,
                               calls: seq<AddCall>, ks: seq<nat>)
    requires m <= |records|
  {
    && |ks| == |calls|
    && (forall i | 0 <= i < |ks| :: ks[i] < m && CallIs(rule, limits, records[ks[i]], calls[i]))
    && (forall i, j | 0 <= i < j < |ks| :: ks[i] < ks[j])
    && (forall k: nat :: k in ks <==> k < m && HasSet(rule, records[k]))
  }

  lemma {:induction false} RecordWritesOf(rule: Rule, limits: Limits, records: seq<Record>, m: nat)
    returns (ks: seq<nat>)
    requires m <= |records|
    ensures RecordWrites(rule, limits, records, m, FlatMap(CallFor(rule, limits), records[..m]), ks)
  {
    if m == 0 {
      ks := [];
    } else {
      var before := RecordWritesOf(rule, limits, records, m - 1);
      ks := RecordWritesStep(rule, limits, records, m, before);
    }
  }

  lemma {:induction false} RecordWritesStep(rule: Rule, limits: Limits, records: seq<Record>, m: nat, before: seq<nat>)
    returns (ks: seq<nat>)
    requires 0 < m <= |records|
    requires RecordWrites(rule, limits, records, m - 1, FlatMap(CallFor(rule, limits), records[..m - 1]), before)
    ensures RecordWrites(rule, limits, records, m, FlatMap(CallFor(rule, limits), records[..m]), ks)
  {
    var n := m - 1;
    FlatMapNext(CallFor(rule, limits), records, n);
    ks := RecordWritesNext(rule, limits, records, n, FlatMap(CallFor(rule, limits), records[..n]), before);
  }

  lemma {:induction false} RecordWritesNext(rule: Rule, limits: Limits, records: seq<Record>, m: nat,
                                            calls: seq<AddCall>, ks: seq<nat>) returns (all: seq<nat>)
    requires m < |records| && RecordWrites(rule, limits, records, m, calls, ks)
    ensures RecordWrites(rule, limits, records, m + 1, calls + CallFor(rule, limits)(records[m]), all)
  {
    OneRecord(rule, limits, records[m]);
    all := if HasSet(rule, records[m]) then ks + [m] else ks;
  }

  /** A record has one write, or none. */
  lemma {:induction false} OneRecord(rule: Rule, limits: Limits, rec: Record)
    ensures var calls := CallFor(rule, limits)(rec);
      && |calls| == (if HasSet(rule, rec) then 1 else 0)
      && (HasSet(rule, rec) ==> CallIs(rule, limits, rec, calls[0]))
  {
    TtlDurationIsExact(rec.ttl);
  }

  /** A name, and a record that is written for it, by position. */
  datatype Pair = Pair(n: nat, k: nat)

  predicate Before(a: Pair, b: Pair) {
    a.n < b.n || (a.n == b.n && a.k < b.k)
  }

  /** Looking up the name at `p.n` finds a rule with a set for the record at `p.k`. */
  predicate Written(rules: seq<Rule>, names: seq<string>, records: seq<Record>, p: Pair) {
    && p.n < |names| && p.k < |records|
    && Match(rules, names[p.n]).Some? && HasSet(Match(rules, names[p.n]).value, records[p.k])
  }

  /** The pair is written, as this call. */
  function Sending(rules: seq<Rule>, limits: Limits, names: seq<string>, records: seq<Record>)
    : (Pair, AddCall) -> bool
  {
    (p: Pair, c: AddCall) =>
      && Written(rules, names, records, p)
      && CallIs(Match(rules, names[p.n]).value, limits, records[p.k], c)
  }

  predicate Pointwise<A, B>(q: (A, B) -> bool, xs: seq<A>, ys: seq<B>) {
    |xs| == |ys| && forall i | 0 <= i < |xs| :: q(xs[i], ys[i])
  }

  lemma {:induction false} PointwiseJoined<A, B>(q: (A, B) -> bool, a: seq<A>, b: seq<B>, c: seq<A>, d: seq<B>)
    requires Pointwise(q, a, b) && Pointwise(q, c, d)
    ensures Pointwise(q, a + c, b + d)
  {
  }

  predicate InSequence(pairs: seq<Pair>) {
    forall i, j | 0 <= i < j < |pairs| :: Before(pairs[i], pairs[j])
  }

  /** `pairs` lists in order the pairs that are written, and `calls` are their writes, one each. */
  ghost predicate NameWrites(rules: seq<Rule>, limits: Limits, names: seq<string>, records: seq<Record>, m: nat,
                             calls: seq<AddCall>, pairs: seq<Pair>) {
    && Pointwise(Sending(rules, limits, names, records), pairs, calls)
    && InSequence(pairs)
    && (forall p :: p in pairs <==> p.n < m && Written(rules, names, records, p))
  }

  function PairUp(n: nat, ks: seq<nat>): (pairs: seq<Pair>)
    ensures |pairs| == |ks|
    ensures forall i | 0 <= i < |ks| :: pairs[i] == Pair(n, ks[i])
  {
    seq(|ks|, i requires 0 <= i < |ks| => Pair(n, ks[i]))
  }

  lemma {:induction false} NameWritesNext(rules: seq<Rule>, limits: Limits, names: seq<string>, records: seq<Record>,
                                          m: nat, calls: seq<AddCall>, pairs: seq<Pair>, more: seq<AddCall>,
                                          ks: seq<nat>)
    requires m < |names| && NameWrites(rules, limits, names, records, m, calls, pairs)
    requires match Match(rules, names[m])
      case None => more == [] && ks == []
      case Some(rule) => RecordWrites(rule, limits, records, |records|, more, ks)
    ensures NameWrites(rules, limits, names, records, m + 1, calls + more, pairs + PairUp(m, ks))
  {
    var ps := PairUp(m, ks);
    forall p: Pair ensures p in ps <==> p.n == m && Written(rules, names, records, p) {
      PairedUp(m, ks, p);
    }
    forall i | 0 <= i < |ps| ensures Sending(rules, limits, names, records)(ps[i], more[i]) {
      assert ps[i] in ps;
    }
    WritesJoined(rules, limits, names, records, m, calls, pairs, more, ps);
  }

  lemma {:induction false} WritesJoined(rules: seq<Rule>, limits: Limits, names: seq<string>, records: seq<Record>,
                                        m: nat, calls: seq<AddCall>, pairs: seq<Pair>, more: seq<AddCall>,
                                        ps: seq<Pair>)
    requires m < |names| && NameWrites(rules, limits, names, records, m, calls, pairs)
    requires Pointwise(Sending(rules, limits, names, records), ps, more)
    requires InSequence(ps)
    requires forall p: Pair :: p in ps <==> p.n == m && Written(rules, names, records, p)
    ensures NameWrites(rules, limits, names, records, m + 1, calls + more, pairs + ps)
  {
    assert forall i | 0 <= i < |pairs| :: pairs[i] in pairs;
    assert forall i | 0 <= i < |ps| :: ps[i] in ps;
    SequenceJoined(pairs, ps, m);
    PointwiseJoined(Sending(rules, limits, names, records), pairs, calls, ps, more);
    forall p: Pair ensures p in pairs + ps <==> p.n < m + 1 && Written(rules, names, records, p) {
      InJoin(pairs, ps, p);
    }
  }

  lemma {:induction false} InJoin(pairs: seq<Pair>, ps: seq<Pair>, p: Pair)
    ensures p in pairs + ps <==> p in pairs || p in ps
  {
  }

  lemma {:induction false} SequenceJoined(pairs: seq<Pair>, ps: seq<Pair>, m: nat)
    requires InSequence(pairs) && InSequence(ps)
    requires (forall i | 0 <= i < |pairs| :: pairs[i].n < m) && (forall i | 0 <= i < |ps| :: ps[i].n == m)
    ensures InSequence(pairs + ps)
  {
  }

  lemma {:induction false} PairedUp(n: nat, ks: seq<nat>, p: Pair)
    ensures p in PairUp(n, ks) <==> p.n == n && p.k in ks
  {
    if p.n == n && p.k in ks {
      var i :| 0 <= i < |ks| && ks[i] == p.k;
      assert PairUp(n, ks)[i] == p;
    }
  }

  lemma {:induction false} NameWritesOf(rules: seq<Rule>, limits: Limits, names: seq<string>, records: seq<Record>,
                                        m: nat)
    returns (pairs: seq<Pair>)
    requires m <= |names|
    ensures NameWrites(rules, limits, names, records, m,
      FlatMap(CallsForName(rules, records, limits), names[..m]), pairs)
  {
    if m == 0 {
      pairs := [];
      NoNameWrites(rules, limits, names, records);
    } else {
      var before := NameWritesOf(rules, limits, names, records, m - 1);
      pairs := NameWritesStep(rules, limits, names, records, m, before);
    }
  }

  lemma {:induction false} NoNameWrites(rules: seq<Rule>, limits: Limits, names: seq<string>, records: seq<Record>)
    ensures NameWrites(rules, limits, names, records, 0, FlatMap(CallsForName(rules, records, limits), names[..0]), [])
  {
  }

  lemma {:induction false} NameWritesStep(rules: seq<Rule>, limits: Limits, names: seq<string>, records: seq<Record>,
                                          m: nat, before: seq<Pair>)
    returns (pairs: seq<Pair>)
    requires 0 < m <= |names|
    requires NameWrites(rules, limits, names, records, m - 1,
      FlatMap(CallsForName(rules, records, limits), names[..m - 1]), before)
    ensures NameWrites(rules, limits, names, records, m,
      FlatMap(CallsForName(rules, records, limits), names[..m]), pairs)
  {
    var f, n := CallsForName(rules, records, limits), m - 1;
    var ks := NameRecords(rules, limits, names[n], records);
    FlatMapNext(f, names, n);
    NameWritesNext(rules, limits, names, records, n, FlatMap(f, names[..n]), before, f(names[n]), ks);
    pairs := before + PairUp(n, ks);
  }

  /** The records written for one name. */
  lemma {:induction false} NameRecords(rules: seq<Rule>, limits: Limits, name: string, records: seq<Record>)
    returns (ks: seq<nat>)
    ensures var calls := CallsForName(rules, records, limits)(name);
      match Match(rules, name)
      case None => calls == [] && ks == []
      case Some(rule) => RecordWrites(rule, limits, records, |records|, calls, ks)
  {
    ks := [];
    if Match(rules, name).Some? {
      ks := RecordWritesOf(Match(rules, name).value, limits, records, |records|);
      assert records[..|records|] == records;
    }
  }

  /**
   * The writes of a response are exactly one for each pair of a looked-up name with a
   * rule and a record whose family the rule has a set for, names outermost, in order.
   */
  lemma {:induction false} OneWritePerPair(rules: seq<Rule>, r: Response, limits: Limits) returns (pairs: seq<Pair>)
    ensures NameWrites(rules, limits, LookedUp(r), r.records, |LookedUp(r)|, Calls(rules, r, limits), pairs)
  {
    pairs := NameWritesOf(rules, limits, LookedUp(r), r.records, |LookedUp(r)|);
    assert LookedUp(r)[..|LookedUp(r)|] == LookedUp(r);
  }

  // ---------------------------------------------------------------- the order of the names

  /** In `xs`, some occurrence of `a` comes before every occurrence of `b`. */
  ghost predicate Precedes<T(!new)>(xs: seq<T>, a: T, b: T) {
    exists i | 0 <= i < |xs| :: xs[i] == a && b !in xs[..i + 1]
  }

  lemma {:induction false} AppearanceOrder<T(!new)>(xs: seq<T>, i: nat, j: nat)
    requires i < j < |FirstAppearances(xs)|
    ensures Precedes(xs, FirstAppearances(xs)[i], FirstAppearances(xs)[j])
  {
    var front, last := xs[..|xs| - 1], xs[|xs| - 1];
    var r, a, b := FirstAppearances(front), FirstAppearances(xs)[i], FirstAppearances(xs)[j];
    assert xs == front + [last];
    if j < |r| {
      AppearanceOrder(front, i, j);
      var k :| 0 <= k < |front| && front[k] == a && b !in front[..k + 1];
      assert xs[..k + 1] == front[..k + 1];
    } else {
      assert b == last && b !in front && a in front;
      var k :| 0 <= k < |front| && front[k] == a;
      assert xs[..k + 1] == front[..k + 1];
      assert b !in front[..k + 1];
    }
  }

  /** The query name is looked up first, the owners in the order in which the records mention them. */
  lemma {:induction false} LookupOrder(r: Response, i: nat, j: nat)
    requires i < j < |LookedUp(r)|
    ensures LookedUp(r)[0] == r.qname && Precedes([r.qname] + Owners(r.records), LookedUp(r)[i], LookedUp(r)[j])
  {
    var all := [r.qname] + Owners(r.records);
    AppearanceOrder(all, i, j);
    FirstStaysFirst(all);
  }

  lemma {:induction false} FirstStaysFirst<T(!new)>(xs: seq<T>)
    requires xs != []
    ensures FirstAppearances(xs) != [] && FirstAppearances(xs)[0] == xs[0]
  {
    if |xs| > 1 {
      FirstStaysFirst(xs[..|xs| - 1]);
    }
  }

  // ---------------------------------------------------------------- in terms of the message

  /** The name is the question's, owns an address answer, or is an alias of an owner. */
  ghost predicate LooksUp(m: Message, name: string) {
    || (m.questions == [] && name == "")
    || (m.questions != [] && name == Normalize(m.questions[0].name))
    || exists i :: Offers(m.answers, i, name)
  }

  ghost predicate Offers(answers: seq<RR>, i: nat, name: string) {
    && i < |answers| && IsAddress(answers[i])
    && (name == Normalize(answers[i].owner) || AliasOf(answers, name, Normalize(answers[i].owner)))
  }

  lemma {:induction false} LookedUpMeans(m: Message, order: seq<string>, name: string)
    requires IsOrder(order, m.answers) && ParseResult(Some(m), order).Ok?
    ensures name in LookedUp(ParseResult(Some(m), order).value) <==> LooksUp(m, name)
  {
    LookedUpNames(m, order, name);
    ShownMeans(m.answers, name);
  }

  lemma {:induction false} ShownMeans(answers: seq<RR>, name: string)
    ensures (exists addr :: ShowsUnder(answers, addr, name)) <==> exists i :: Offers(answers, i, name)
  {
    if addr :| ShowsUnder(answers, addr, name) {
      var i := AnswerOf(answers, addr);
      AliasIsLast(answers, name, addr.name);
      assert Offers(answers, i, name);
    }
    if i: nat :| Offers(answers, i, name) {
      AddressAt(answers, i);
      var addr := Addresses(answers)[AddressCount(answers[..i])];
      AliasIsLast(answers, name, addr.name);
      assert ShowsUnder(answers, addr, name);
    }
  }

  /** The answer an address record stands for. */
  lemma {:induction false} AnswerOf(answers: seq<RR>, addr: Record) returns (i: nat)
    requires addr in Addresses(answers)
    ensures i < |answers| && Carries(addr, answers[i]) && addr.name == Normalize(answers[i].owner)
  {
    AddressMultiplicity(answers, addr);
    assert multiset(Addresses(answers))[addr] > 0;
    assert Carriers(answers, addr, addr.name) != {};
    i :| i in Carriers(answers, addr, addr.name);
  }

  /** Answer `i` has the address `ip`: V4 or nil for an A answer, V6 or nil for an AAAA answer. */
  predicate HasIP(rr: RR, ip: IP) {
    match rr
    case A(_, _, a) => if a.Some? then ip == V4(a.value) else ip == NilIP
    case AAAA(_, _, aaaa) => if aaaa.Some? then ip == V6(aaaa.value) else ip == NilIP
    case _ => false
  }

  /** Looking up `looked` sends answer `i`, whose address is `ip`, into the set `name`. */
  ghost predicate AsksFor(rules: seq<Rule>, m: Message, looked: string, i: nat, name: string, ip: IP) {
    && LooksUp(m, looked) && Match(rules, looked).Some?
    && i < |m.answers| && HasIP(m.answers[i], ip)
    && name != ""
    && (m.answers[i].A? ==> name == Match(rules, looked).value.ipsetV4)
    && (m.answers[i].AAAA? ==> name == Match(rules, looked).value.ipsetV6)
  }

  /** What a message calls for, spelled out: A addresses into v4 sets, AAAA addresses into v6 sets, of matched rules. */
  lemma {:induction false} CalledForMeans(rules: seq<Rule>, m: Message, name: string, ip: IP)
    ensures CalledFor(rules, m, name, ip) <==> exists looked, i :: AsksFor(rules, m, looked, i, name, ip)
  {
    if looked, addr :| WantedBy(rules, m, looked, addr, name) && addr.ip == ip {
      var i := WantedAsks(rules, m, looked, addr, name);
      assert AsksFor(rules, m, looked, i, name, ip);
    }
    if looked, i: nat :| AsksFor(rules, m, looked, i, name, ip) {
      var addr := AskedWants(rules, m, looked, i, name, ip);
      assert WantedBy(rules, m, looked, addr, name) && addr.ip == ip;
    }
  }

  lemma {:induction false} WantedAsks(rules: seq<Rule>, m: Message, looked: string, addr: Record, name: string)
    returns (i: nat)
    requires WantedBy(rules, m, looked, addr, name)
    ensures AsksFor(rules, m, looked, i, name, addr.ip)
  {
    ShownMeans(m.answers, looked);
    i := AnswerOf(m.answers, addr);
  }

  lemma {:induction false} AskedWants(rules: seq<Rule>, m: Message, looked: string, i: nat, name: string, ip: IP)
    returns (addr: Record)
    requires AsksFor(rules, m, looked, i, name, ip)
    ensures WantedBy(rules, m, looked, addr, name) && addr.ip == ip
  {
    ShownMeans(m.answers, looked);
    AddressAt(m.answers, i);
    addr := Addresses(m.answers)[AddressCount(m.answers[..i])];
  }

  /** The writes of a message by family, whatever the order in which its aliases are visited. */
  lemma {:induction false} WritesByFamily(rules: seq<Rule>, m: Message, order: seq<string>, limits: Limits,
                                          name: string, ip: IP)
    requires IsOrder(order, m.answers) && ParseResult(Some(m), order).Ok?
    ensures (exists c :: c in Calls(rules, ParseResult(Some(m), order).value, limits) && c.name == name && c.ip == ip)
      <==> exists looked, i :: AsksFor(rules, m, looked, i, name, ip)
  {
    WritesAreCalledFor(rules, m, order, limits, name, ip);
    CalledForMeans(rules, m, name, ip);
  }
}
