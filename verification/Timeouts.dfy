/**
 * The effect of a response on the kernel's sets, and exactly when the final
 * timeouts do not depend on the order in which the aliases were visited.
 */
module Timeouts {
  import opened Prelude
  import opened DomainNames
  import opened Rules
  import opened DnsParse
  import opened IpsetClient
  import opened Dispatch

  /** The kernel after a series of writes. */
  function Replay(k: Kernel, calls: seq<AddCall>): Kernel {
    if calls == [] then k
    else
      var c := calls[|calls| - 1];
      KernelAfter(Replay(k, calls[..|calls| - 1]), c.name, c.ip, c.ttl)
  }

  /** The TTL of the last write of `ip` into `name`. */
  function LastFor(calls: seq<AddCall>, name: string, ip: IP): Option<int> {
    if calls == [] then None
    else
      var c := calls[|calls| - 1];
      if c.name == name && c.ip == ip then Some(c.ttl) else LastFor(calls[..|calls| - 1], name, ip)
  }

  lemma {:induction false} LastForAppend(a: seq<AddCall>, b: seq<AddCall>, name: string, ip: IP)
    ensures LastFor(a + b, name, ip) ==
      if LastFor(b, name, ip).Some? then LastFor(b, name, ip) else LastFor(a, name, ip)
  {
    if b == [] {
      assert a + b == a;
    } else {
      assert (a + b)[..|a + b| - 1] == a + b[..|b| - 1];
      LastForAppend(a, b[..|b| - 1], name, ip);
    }
  }

  lemma {:induction false} LastForPresence(calls: seq<AddCall>, name: string, ip: IP)
    ensures LastFor(calls, name, ip).Some? <==> exists c :: c in calls && c.name == name && c.ip == ip
  {
    if calls != [] {
      LastForPresence(calls[..|calls| - 1], name, ip);
      assert calls == calls[..|calls| - 1] + [calls[|calls| - 1]];
    }
  }

  /** What a series of writes leaves in one entry: the last write decides, the sets stay the same ones. */
  lemma {:induction false} ReplayEntry(k: Kernel, calls: seq<AddCall>, name: string, ip: IP)
    ensures Replay(k, calls).Keys == k.Keys
    ensures name in k ==>
      var written := name != "" && ip != NilIP && LastFor(calls, name, ip).Some?;
      && (ip in Replay(k, calls)[name] <==> written || ip in k[name])
      && (ip in Replay(k, calls)[name] ==>
            Replay(k, calls)[name][ip] == if written then TimeoutOf(LastFor(calls, name, ip).value) else k[name][ip])
  {
    if calls != [] {
      ReplayEntry(k, calls[..|calls| - 1], name, ip);
    }
  }

  // ---------------------------------------------------------------- the last record of an address

  function FamilyOf(ip: IP): int {
    if ip.V6? then 6 else 4
  }

  /** Addresses come with their own family. */
  predicate WellFormed(records: seq<Record>) {
    forall i | 0 <= i < |records| :: records[i].ip == NilIP || records[i].family == FamilyOf(records[i].ip)
  }

  lemma {:induction false} RecordsAreWellFormed(answers: seq<RR>, order: seq<string>)
    requires IsOrder(order, answers)
    ensures WellFormed(RecordsIn(answers, order))
  {
    var records := RecordsIn(answers, order);
    forall i | 0 <= i < |records| ensures records[i].ip == NilIP || records[i].family == FamilyOf(records[i].ip) {
      var addr := SourceOf(answers, order, records[i]);
      FlatMapMembership(AddressOf, answers, addr);
    }
  }

  /** TTL of the last record carrying `ip`. */
  function LastTtl(records: seq<Record>, ip: IP): Option<uint32> {
    if records == [] then None
    else
      var rec := records[|records| - 1];
      if rec.ip == ip then Some(rec.ttl) else LastTtl(records[..|records| - 1], ip)
  }

  function Clamped(ttl: Option<uint32>, limits: Limits): Option<int> {
    if ttl.None? then None else Some(ClampTTL(TtlDuration(ttl.value), limits.min, limits.max))
  }

  lemma {:induction false} LastInBlock(rule: Rule, limits: Limits, records: seq<Record>, name: string, ip: IP)
    requires WellFormed(records) && ip != NilIP && name != ""
    ensures LastFor(FlatMap(CallFor(rule, limits), records), name, ip) ==
      if SetFor(rule, FamilyOf(ip)) == name then Clamped(LastTtl(records, ip), limits) else None
  {
    if records != [] {
      var n, f := |records| - 1, CallFor(rule, limits);
      LastInBlock(rule, limits, records[..n], name, ip);
      FlatMapNext(f, records, n);
      assert records[..n + 1] == records;
      LastForAppend(FlatMap(f, records[..n]), f(records[n]), name, ip);
      LastForOne(rule, limits, records[n], name, ip);
    }
  }

  lemma {:induction false} LastForOne(rule: Rule, limits: Limits, rec: Record, name: string, ip: IP)
    requires name != ""
    ensures LastFor(CallFor(rule, limits)(rec), name, ip) ==
      if rec.ip == ip && SetFor(rule, rec.family) == name then Clamped(Some(rec.ttl), limits) else None
  {
  }

  /** Some looked-up name has a rule that sends addresses like `ip` into `name`. */
  predicate Directed(rules: seq<Rule>, names: seq<string>, name: string, ip: IP) {
    exists looked | looked in names :: Directs(rules, looked, name, ip)
  }

  predicate Directs(rules: seq<Rule>, looked: string, name: string, ip: IP) {
    Match(rules, looked).Some? && SetFor(Match(rules, looked).value, FamilyOf(ip)) == name
  }

  lemma {:induction false} LastInCalls(rules: seq<Rule>, records: seq<Record>, limits: Limits,
                                       names: seq<string>, name: string, ip: IP)
    requires WellFormed(records) && ip != NilIP && name != ""
    ensures LastFor(FlatMap(CallsForName(rules, records, limits), names), name, ip) ==
      if Directed(rules, names, name, ip) then Clamped(LastTtl(records, ip), limits) else None
  {
    if names != [] {
      var n, f := |names| - 1, CallsForName(rules, records, limits);
      LastInCalls(rules, records, limits, names[..n], name, ip);
      FlatMapNext(f, names, n);
      assert names[..n + 1] == names;
      LastForAppend(FlatMap(f, names[..n]), f(names[n]), name, ip);
      DirectedNext(rules, names, name, ip);
      LastForName(rules, records, limits, names[n], name, ip);
    }
  }

  lemma {:induction false} DirectedNext(rules: seq<Rule>, names: seq<string>, name: string, ip: IP)
    requires names != []
    ensures Directed(rules, names, name, ip) <==>
      Directed(rules, names[..|names| - 1], name, ip) || Directs(rules, names[|names| - 1], name, ip)
  {
    assert names == names[..|names| - 1] + [names[|names| - 1]];
  }

  lemma {:induction false} LastForName(rules: seq<Rule>, records: seq<Record>, limits: Limits,
                                       looked: string, name: string, ip: IP)
    requires WellFormed(records) && ip != NilIP && name != ""
    ensures LastFor(CallsForName(rules, records, limits)(looked), name, ip) ==
      if Directs(rules, looked, name, ip) then Clamped(LastTtl(records, ip), limits) else None
  {
    if Match(rules, looked).Some? {
      LastInBlock(Match(rules, looked).value, limits, records, name, ip);
    }
  }

  /** The last write of an entry carries the TTL of the last record of that address. */
  lemma {:induction false} LastWrite(rules: seq<Rule>, m: Message, order: seq<string>, limits: Limits, name: string,
                                     ip: IP)
    requires IsOrder(order, m.answers) && ParseResult(Some(m), order).Ok? && ip != NilIP
    ensures LastFor(Calls(rules, ParseResult(Some(m), order).value, limits), name, ip) ==
      if CalledFor(rules, m, name, ip) then Clamped(LastTtl(RecordsIn(m.answers, order), ip), limits) else None
  {
    var r := ParseResult(Some(m), order).value;
    WritesAreCalledFor(rules, m, order, limits, name, ip);
    LastForPresence(Calls(rules, r, limits), name, ip);
    if name != "" {
      RecordsAreWellFormed(m.answers, order);
      LastInCalls(rules, r.records, limits, LookedUp(r), name, ip);
    }
  }

  // ---------------------------------------------------------------- dependence on the order

  /** TTL of the last address record of `target` carrying `ip`. */
  function LastUnder(addrs: seq<Record>, target: string, ip: IP): Option<uint32> {
    if addrs == [] then None
    else
      var rec := addrs[|addrs| - 1];
      if rec.ip == ip && rec.name == target then Some(rec.ttl) else LastUnder(addrs[..|addrs| - 1], target, ip)
  }

  /** TTL of the last mirrored record carrying `ip`. */
  function LastMirrored(aliases: map<string, string>, addrs: seq<Record>, order: seq<string>, ip: IP): Option<uint32>
    requires forall x | x in order :: x in aliases
  {
    if order == [] then None
    else
      var t := LastUnder(addrs, aliases[order[|order| - 1]], ip);
      if t.Some? then t else LastMirrored(aliases, addrs, order[..|order| - 1], ip)
  }

  lemma {:induction false} LastTtlAppend(a: seq<Record>, b: seq<Record>, ip: IP)
    ensures LastTtl(a + b, ip) == if LastTtl(b, ip).Some? then LastTtl(b, ip) else LastTtl(a, ip)
  {
    if b == [] {
      assert a + b == a;
    } else {
      assert (a + b)[..|a + b| - 1] == a + b[..|b| - 1];
      LastTtlAppend(a, b[..|b| - 1], ip);
    }
  }

  lemma {:induction false} LastCopied(owner: string, target: string, addrs: seq<Record>, ip: IP)
    ensures LastTtl(FlatMap(CopyTo(owner, target), addrs), ip) == LastUnder(addrs, target, ip)
  {
    if addrs != [] {
      var n, f := |addrs| - 1, CopyTo(owner, target);
      LastCopied(owner, target, addrs[..n], ip);
      FlatMapNext(f, addrs, n);
      assert addrs[..n + 1] == addrs;
      LastTtlAppend(FlatMap(f, addrs[..n]), f(addrs[n]), ip);
      if addrs[n].name == target {
        assert f(addrs[n])[..0] == [];
      }
    }
  }

  lemma {:induction false} LastOfMirror(aliases: map<string, string>, addrs: seq<Record>, order: seq<string>, ip: IP)
    requires forall x | x in order :: x in aliases
    ensures LastTtl(FlatMap(MirrorOf(aliases, addrs), order), ip) == LastMirrored(aliases, addrs, order, ip)
  {
    if order != [] {
      var n, f := |order| - 1, MirrorOf(aliases, addrs);
      LastOfMirror(aliases, addrs, order[..n], ip);
      FlatMapNext(f, order, n);
      assert order[..n + 1] == order;
      LastTtlAppend(FlatMap(f, order[..n]), f(order[n]), ip);
      LastCopied(order[n], aliases[order[n]], addrs, ip);
    }
  }

  /** The timeout the last record of `ip` leads to. */
  function FinalTimeout(answers: seq<RR>, order: seq<string>, limits: Limits, ip: IP): Option<Option<nat>> {
    TimeoutFor(LastTtl(RecordsIn(answers, order), ip), limits)
  }

  function TimeoutFor(ttl: Option<uint32>, limits: Limits): Option<Option<nat>> {
    if ttl.None? then None else Some(EntryTimeout(ttl.value, limits.min, limits.max))
  }

  /** All aliases whose target has the address `ip` lead to the same timeout for it. */
  predicate Agreement(answers: seq<RR>, limits: Limits, ip: IP) {
    var aliases, addrs := Aliases(answers), Addresses(answers);
    forall a, b | a in aliases && b in aliases
        && LastUnder(addrs, aliases[a], ip).Some? && LastUnder(addrs, aliases[b], ip).Some? ::
      TimeoutFor(LastUnder(addrs, aliases[a], ip), limits) == TimeoutFor(LastUnder(addrs, aliases[b], ip), limits)
  }

  /** The mirrored records end with those of some alias that has the address, if there is one. */
  lemma {:induction false} LastMirroredOwner(aliases: map<string, string>, addrs: seq<Record>, order: seq<string>,
                                             ip: IP)
    requires forall x | x in order :: x in aliases
    ensures LastMirrored(aliases, addrs, order, ip).None? <==>
      forall x | x in order :: LastUnder(addrs, aliases[x], ip).None?
    ensures LastMirrored(aliases, addrs, order, ip).Some? ==>
      exists x | x in order :: LastUnder(addrs, aliases[x], ip) == LastMirrored(aliases, addrs, order, ip)
  {
    if order != [] {
      var n := |order| - 1;
      LastMirroredOwner(aliases, addrs, order[..n], ip);
      assert order == order[..n] + [order[n]];
      if LastUnder(addrs, aliases[order[n]], ip).None? && LastMirrored(aliases, addrs, order, ip).Some? {
        var x :| x in order[..n] && LastUnder(addrs, aliases[x], ip) == LastMirrored(aliases, addrs, order[..n], ip);
        assert x in order;
      }
    }
  }

  lemma {:induction false} LastTtlOfRecords(answers: seq<RR>, order: seq<string>, ip: IP)
    requires IsOrder(order, answers)
    ensures var mirrored := LastMirrored(Aliases(answers), Addresses(answers), order, ip);
      LastTtl(RecordsIn(answers, order), ip) == if mirrored.Some? then mirrored else LastTtl(Addresses(answers), ip)
  {
    var aliases, addrs := Aliases(answers), Addresses(answers);
    LastTtlAppend(addrs, FlatMap(MirrorOf(aliases, addrs), order), ip);
    LastOfMirror(aliases, addrs, order, ip);
  }

  /** An order that visits `a` last. */
  lemma {:induction false} OrderEndingWith(answers: seq<RR>, a: string) returns (order: seq<string>)
    requires a in Aliases(answers)
    ensures IsOrder(order, answers) && order != [] && order[|order| - 1] == a
  {
    var others := Listing(Aliases(answers).Keys - {a});
    order := others + [a];
  }

  /** The alias visited last decides, if its target has the address. */
  lemma {:induction false} LastVisitedDecides(answers: seq<RR>, order: seq<string>, limits: Limits, ip: IP)
    requires IsOrder(order, answers) && order != []
    requires LastUnder(Addresses(answers), Aliases(answers)[order[|order| - 1]], ip).Some?
    ensures FinalTimeout(answers, order, limits, ip)
         == TimeoutFor(LastUnder(Addresses(answers), Aliases(answers)[order[|order| - 1]], ip), limits)
  {
    LastTtlOfRecords(answers, order, ip);
  }

  /** With agreement, every order ends on the same timeout. */
  lemma {:induction false} AgreementSuffices(answers: seq<RR>, limits: Limits, ip: IP, o1: seq<string>, o2: seq<string>)
    requires Agreement(answers, limits, ip) && IsOrder(o1, answers) && IsOrder(o2, answers)
    ensures FinalTimeout(answers, o1, limits, ip) == FinalTimeout(answers, o2, limits, ip)
  {
    var aliases, addrs := Aliases(answers), Addresses(answers);
    LastTtlOfRecords(answers, o1, ip);
    LastTtlOfRecords(answers, o2, ip);
    LastMirroredOwner(aliases, addrs, o1, ip);
    LastMirroredOwner(aliases, addrs, o2, ip);
  }

  /** Without it, two orders end on different ones. */
  lemma {:induction false} AgreementIsNeeded(answers: seq<RR>, limits: Limits, ip: IP)
    returns (o1: seq<string>, o2: seq<string>)
    requires !Agreement(answers, limits, ip)
    ensures IsOrder(o1, answers) && IsOrder(o2, answers)
    ensures FinalTimeout(answers, o1, limits, ip) != FinalTimeout(answers, o2, limits, ip)
  {
    var aliases, addrs := Aliases(answers), Addresses(answers);
    var a, b :| a in aliases && b in aliases
      && LastUnder(addrs, aliases[a], ip).Some? && LastUnder(addrs, aliases[b], ip).Some?
      && TimeoutFor(LastUnder(addrs, aliases[a], ip), limits) != TimeoutFor(LastUnder(addrs, aliases[b], ip), limits);
    o1 := OrderEndingWith(answers, a);
    o2 := OrderEndingWith(answers, b);
    LastVisitedDecides(answers, o1, limits, ip);
    LastVisitedDecides(answers, o2, limits, ip);
  }

  /** The kernel after a message has been dispatched. */
  function Effect(rules: seq<Rule>, m: Message, order: seq<string>, limits: Limits, k: Kernel): Kernel {
    match ParseResult(Some(m), order)
    case Err(_) => k
    case Ok(r) => Replay(k, Calls(rules, r, limits))
  }

  /** Every entry of the kernel after a message, in terms of the message. */
  lemma {:induction false} EffectEntry(rules: seq<Rule>, m: Message, order: seq<string>, limits: Limits, k: Kernel,
                                       name: string, ip: IP)
    requires IsOrder(order, m.answers) && m.response && m.rcode == RCODE_SUCCESS && name in k
    ensures var k', written := Effect(rules, m, order, limits, k), ip != NilIP && CalledFor(rules, m, name, ip);
      && k'.Keys == k.Keys
      && (ip in k'[name] <==> written || ip in k[name])
      && (ip in k'[name] && !written ==> k'[name][ip] == k[name][ip])
      && (written ==> Some(k'[name][ip]) == FinalTimeout(m.answers, order, limits, ip))
  {
    var result := ParseResult(Some(m), order);
    if result.Ok? {
      ReplayEntry(k, Calls(rules, result.value, limits), name, ip);
      if ip != NilIP {
        LastWrite(rules, m, order, limits, name, ip);
        WritesAreCalledFor(rules, m, order, limits, name, ip);
        LastForPresence(Calls(rules, result.value, limits), name, ip);
      }
    } else {
      assert |Addresses(m.answers)| <= |RecordsIn(m.answers, order)| == 0;
    }
  }

  /** Set membership never depends on the order. */
  lemma {:induction false} MembershipWithoutOrder(rules: seq<Rule>, m: Message, o1: seq<string>, o2: seq<string>,
                                                  limits: Limits, k: Kernel, name: string, ip: IP)
    requires IsOrder(o1, m.answers) && IsOrder(o2, m.answers)
    requires m.response && m.rcode == RCODE_SUCCESS && name in k
    ensures Effect(rules, m, o1, limits, k).Keys == Effect(rules, m, o2, limits, k).Keys == k.Keys
    ensures ip in Effect(rules, m, o1, limits, k)[name] <==> ip in Effect(rules, m, o2, limits, k)[name]
  {
    EffectEntry(rules, m, o1, limits, k, name, ip);
    EffectEntry(rules, m, o2, limits, k, name, ip);
  }

  /** The message writes `ip` into some set that exists. */
  ghost predicate Reaches(rules: seq<Rule>, m: Message, k: Kernel, ip: IP) {
    ip != NilIP && exists name :: name in k && CalledFor(rules, m, name, ip)
  }

  /** The final kernel is the same for every order if and only if aliases agree on every address that is written. */
  lemma {:induction false} KernelWithoutOrderIff(rules: seq<Rule>, m: Message, limits: Limits, k: Kernel)
    requires m.response && m.rcode == RCODE_SUCCESS
    ensures (forall o1, o2 | IsOrder(o1, m.answers) && IsOrder(o2, m.answers) ::
              Effect(rules, m, o1, limits, k) == Effect(rules, m, o2, limits, k))
      <==> forall ip | Reaches(rules, m, k, ip) :: Agreement(m.answers, limits, ip)
  {
    if forall ip | Reaches(rules, m, k, ip) :: Agreement(m.answers, limits, ip) {
      forall o1, o2 | IsOrder(o1, m.answers) && IsOrder(o2, m.answers)
        ensures Effect(rules, m, o1, limits, k) == Effect(rules, m, o2, limits, k)
      {
        SameEffect(rules, m, o1, o2, limits, k);
      }
    } else {
      var ip :| Reaches(rules, m, k, ip) && !Agreement(m.answers, limits, ip);
      var name :| name in k && CalledFor(rules, m, name, ip);
      var o1, o2 := AgreementIsNeeded(m.answers, limits, ip);
      EffectEntry(rules, m, o1, limits, k, name, ip);
      EffectEntry(rules, m, o2, limits, k, name, ip);
      assert Effect(rules, m, o1, limits, k)[name][ip] != Effect(rules, m, o2, limits, k)[name][ip];
    }
  }

  lemma {:induction false} SameEffect(rules: seq<Rule>, m: Message, o1: seq<string>, o2: seq<string>, limits: Limits,
                                      k: Kernel)
    requires m.response && m.rcode == RCODE_SUCCESS && IsOrder(o1, m.answers) && IsOrder(o2, m.answers)
    requires forall ip | Reaches(rules, m, k, ip) :: Agreement(m.answers, limits, ip)
    ensures Effect(rules, m, o1, limits, k) == Effect(rules, m, o2, limits, k)
  {
    var e1, e2 := Effect(rules, m, o1, limits, k), Effect(rules, m, o2, limits, k);
    EffectKeys(rules, m, o1, limits, k);
    EffectKeys(rules, m, o2, limits, k);
    forall name | name in k ensures e1[name] == e2[name] {
      forall ip ensures ip in e1[name] <==> ip in e2[name]
        ensures ip in e1[name] ==> e1[name][ip] == e2[name][ip]
      {
        EffectEntry(rules, m, o1, limits, k, name, ip);
        EffectEntry(rules, m, o2, limits, k, name, ip);
        if Reaches(rules, m, k, ip) {
          AgreementSuffices(m.answers, limits, ip, o1, o2);
        }
      }
    }
  }

  lemma {:induction false} EffectKeys(rules: seq<Rule>, m: Message, order: seq<string>, limits: Limits, k: Kernel)
    ensures Effect(rules, m, order, limits, k).Keys == k.Keys
  {
    var result := ParseResult(Some(m), order);
    if result.Ok? {
      ReplayEntry(k, Calls(rules, result.value, limits), "", NilIP);
    }
  }

  /** Two aliases of targets that share an address under different TTLs. */
  function SharedAddress(): seq<RR> {
    [CNAME("x", 60, "s"), CNAME("y", 60, "t"), A("s", 100, Some(1)), A("t", 200, Some(1))]
  }

  /** The message, for a rule that sends the name `x` into one set, under the default bounds. */
  const SHARED := Message(0, true, RCODE_SUCCESS, [Question("x", 1)], SharedAddress())
  const SHARED_RULES := [Rule("x", "set", "")]
  const SHARED_LIMITS := Limits(60 * SECOND, 604_800 * SECOND)

  /** The order decides the timeout with which the shared address ends up in the set. */
  lemma {:induction false} OrderCanMatter()
    ensures IsOrder(["x", "y"], SHARED.answers) && IsOrder(["y", "x"], SHARED.answers)
    ensures var k: Kernel := map["set" := map[]];
      && Effect(SHARED_RULES, SHARED, ["x", "y"], SHARED_LIMITS, k) == map["set" := map[V4(1) := Some(200)]]
      && Effect(SHARED_RULES, SHARED, ["y", "x"], SHARED_LIMITS, k) == map["set" := map[V4(1) := Some(100)]]
  {
    SharedOrders();
    SharedWanted();
    SharedFinal();
    var k: Kernel := map["set" := map[]];
    SharedEffect(["x", "y"], 200, Effect(SHARED_RULES, SHARED, ["x", "y"], SHARED_LIMITS, k));
    SharedEffect(["y", "x"], 100, Effect(SHARED_RULES, SHARED, ["y", "x"], SHARED_LIMITS, k));
  }

  lemma {:induction false} SharedEffect(order: seq<string>, timeout: nat, e: Kernel)
    requires IsOrder(order, SHARED.answers) && CalledFor(SHARED_RULES, SHARED, "set", V4(1))
    requires FinalTimeout(SHARED.answers, order, SHARED_LIMITS, V4(1)) == Some(Some(timeout))
    requires e == Effect(SHARED_RULES, SHARED, order, SHARED_LIMITS, map["set" := map[]])
    ensures e == map["set" := map[V4(1) := Some(timeout)]]
  {
    SharedSets(order, e);
    SharedEntries(order, e);
    SingleEntry(e, "set", V4(1), Some(timeout));
  }

  lemma {:induction false} SharedSets(order: seq<string>, e: Kernel)
    requires e == Effect(SHARED_RULES, SHARED, order, SHARED_LIMITS, map["set" := map[]])
    ensures e.Keys == {"set"}
  {
    EffectKeys(SHARED_RULES, SHARED, order, SHARED_LIMITS, map["set" := map[]]);
  }

  lemma {:induction false} SharedEntries(order: seq<string>, e: Kernel)
    requires IsOrder(order, SHARED.answers) && CalledFor(SHARED_RULES, SHARED, "set", V4(1))
    requires e == Effect(SHARED_RULES, SHARED, order, SHARED_LIMITS, map["set" := map[]])
    ensures "set" in e && forall ip :: ip in e["set"] <==> ip == V4(1)
    ensures Some(e["set"][V4(1)]) == FinalTimeout(SHARED.answers, order, SHARED_LIMITS, V4(1))
  {
    forall ip ensures "set" in e && (ip in e["set"] <==> ip == V4(1)) {
      SharedEntry(order, ip, e);
    }
    SharedEntry(order, V4(1), e);
  }

  lemma {:induction false} SharedEntry(order: seq<string>, ip: IP, e: Kernel)
    requires IsOrder(order, SHARED.answers) && CalledFor(SHARED_RULES, SHARED, "set", V4(1))
    requires e == Effect(SHARED_RULES, SHARED, order, SHARED_LIMITS, map["set" := map[]])
    ensures "set" in e && (ip in e["set"] <==> ip == V4(1))
    ensures ip == V4(1) ==> Some(e["set"][ip]) == FinalTimeout(SHARED.answers, order, SHARED_LIMITS, ip)
  {
    EffectEntry(SHARED_RULES, SHARED, order, SHARED_LIMITS, map["set" := map[]], "set", ip);
    if CalledFor(SHARED_RULES, SHARED, "set", ip) {
      SharedOnly("set", ip);
    }
  }

  lemma {:induction false} SingleEntry(k: Kernel, name: string, ip: IP, timeout: Option<nat>)
    requires k.Keys == {name} && (forall x :: x in k[name] <==> x == ip) && k[name][ip] == timeout
    ensures k == map[name := map[ip := timeout]]
  {
    assert k[name] == map[ip := timeout];
  }

  lemma {:induction false} SharedOnly(name: string, ip: IP)
    requires CalledFor(SHARED_RULES, SHARED, name, ip)
    ensures ip == V4(1)
  {
    SharedRecords();
  }

  lemma {:induction false} SharedWanted()
    ensures CalledFor(SHARED_RULES, SHARED, "set", V4(1))
  {
    var addr := Record("s", 4, V4(1), 100);
    SharedRecords();
    NormalizedLetters();
    assert Covers("x", "x");
    WinnerIsBest(SHARED_RULES, "x", 0);
    MatchIsWinner(SHARED_RULES, "x");
    assert WantedBy(SHARED_RULES, SHARED, "x", addr, "set");
  }

  lemma {:induction false} SharedFinal()
    ensures FinalTimeout(SHARED.answers, ["x", "y"], SHARED_LIMITS, V4(1)) == Some(Some(200))
    ensures FinalTimeout(SHARED.answers, ["y", "x"], SHARED_LIMITS, V4(1)) == Some(Some(100))
  {
    SharedAliases();
    SharedLast();
    SharedOrders();
    LastVisitedDecides(SHARED.answers, ["x", "y"], SHARED_LIMITS, V4(1));
    LastVisitedDecides(SHARED.answers, ["y", "x"], SHARED_LIMITS, V4(1));
    SharedTimeouts(SHARED_LIMITS);
  }

  lemma {:induction false} SharedOrders()
    ensures IsOrder(["x", "y"], SharedAddress()) && IsOrder(["y", "x"], SharedAddress())
  {
    SharedAliases();
    assert "x"[0] != "y"[0];
  }

  lemma {:induction false} SharedTimeouts(limits: Limits)
    requires limits == Limits(60 * SECOND, 604_800 * SECOND)
    ensures TimeoutFor(Some(100), limits) == Some(Some(100)) && TimeoutFor(Some(200), limits) == Some(Some(200))
  {
    TimeoutIsClampedTtl(60, 604_800);
  }

  lemma {:induction false} SharedLast()
    ensures LastUnder(Addresses(SharedAddress()), "s", V4(1)) == Some(100)
    ensures LastUnder(Addresses(SharedAddress()), "t", V4(1)) == Some(200)
  {
    var addrs := Addresses(SharedAddress());
    SharedRecords();
    assert addrs[..1] == [Record("s", 4, V4(1), 100)];
    assert LastUnder(addrs[..1], "s", V4(1)) == Some(100);
  }

  lemma {:induction false} SharedAliases()
    ensures Aliases(SharedAddress()) == map["x" := "s", "y" := "t"]
  {
    var answers := SharedAddress();
    NormalizedLetters();
    assert answers[..3] == [CNAME("x", 60, "s"), CNAME("y", 60, "t"), A("s", 100, Some(1))];
    assert answers[..3][..2] == [CNAME("x", 60, "s"), CNAME("y", 60, "t")];
    assert answers[..3][..2][..1] == [CNAME("x", 60, "s")];
    assert Aliases([CNAME("x", 60, "s")]) == map["x" := "s"];
    assert Aliases([CNAME("x", 60, "s"), CNAME("y", 60, "t")]) == map["x" := "s", "y" := "t"];
  }

  lemma {:induction false} SharedRecords()
    ensures Addresses(SharedAddress()) == [Record("s", 4, V4(1), 100), Record("t", 4, V4(1), 200)]
  {
    var answers := SharedAddress();
    var last := [A("t", 200, Some(1))];
    NormalizedLetters();
    assert answers[1..] == [CNAME("y", 60, "t"), A("s", 100, Some(1))] + last;
    assert answers[1..][1..] == [A("s", 100, Some(1))] + last;
    assert answers[1..][1..][1..] == last && last[1..] == [];
    assert FlatMap(AddressOf, last) == [Record("t", 4, V4(1), 200)];
  }

  lemma {:induction false} NormalizedLetters()
    ensures Normalize("x") == "x" && Normalize("y") == "y" && Normalize("s") == "s" && Normalize("t") == "t"
  {
    assert ToLower("x") == "x" && ToLower("y") == "y" && ToLower("s") == "s" && ToLower("t") == "t";
  }
}
