/**
 * DNS response parsing, after the wire format has been unpacked: collecting the
 * address records and mirroring them under the CNAME owners that point at them.
 * The aliases live in a map whose iteration order is arbitrary; an `order` stands
 * for the one an execution happens to take.
 */
module DnsParse {
  import opened Prelude
  import opened DomainNames

  type uint32 = x: nat | x < 0x1_0000_0000

  /** An address, or nil: a record without data unpacks to a nil address. */
  datatype IP = NilIP | V4(v4: nat) | V6(v6: nat)

  datatype RR =
    | A(owner: string, ttl: uint32, a: Option<nat>)
    | AAAA(owner: string, ttl: uint32, aaaa: Option<nat>)
    | CNAME(owner: string, ttl: uint32, target: string)
    | OtherRR(owner: string, ttl: uint32)

  datatype Question = Question(name: string, qtype: nat)

  datatype Message = Message(id: nat, response: bool, rcode: nat, questions: seq<Question>, answers: seq<RR>)

  const RCODE_SUCCESS := 0

  datatype Record = Record(name: string, family: int, ip: IP, ttl: uint32)

  datatype Response = Response(txid: nat, qname: string, qtype: nat, records: seq<Record>)

  datatype ParseError = Malformed | NotResponse | BadRcode | NoUsable

  // ---------------------------------------------------------------- what is computed

  function AddressOf(rr: RR): seq<Record> {
    match rr
    case A(owner, ttl, a) => [Record(Normalize(owner), 4, if a.Some? then V4(a.value) else NilIP, ttl)]
    case AAAA(owner, ttl, aaaa) => [Record(Normalize(owner), 6, if aaaa.Some? then V6(aaaa.value) else NilIP, ttl)]
    case _ => []
  }

  /** The address records, in answer order. */
  function Addresses(answers: seq<RR>): seq<Record> {
    FlatMap(AddressOf, answers)
  }

  /** CNAME owners and their targets; the last record of an owner wins. */
  function Aliases(answers: seq<RR>): map<string, string> {
    if answers == [] then map[]
    else
      var m, last := Aliases(answers[..|answers| - 1]), answers[|answers| - 1];
      if last.CNAME? then m[Normalize(last.owner) := Normalize(last.target)] else m
  }

  function CopyTo(owner: string, target: string): Record -> seq<Record> {
    (rec: Record) => if rec.name == target then [rec.(name := owner)] else []
  }

  /** The address records mirrored under one alias. */
  function MirrorOf(aliases: map<string, string>, addrs: seq<Record>): string -> seq<Record> {
    (owner: string) => if owner in aliases then FlatMap(CopyTo(owner, aliases[owner]), addrs) else []
  }

  function RecordsIn(answers: seq<RR>, order: seq<string>): seq<Record> {
    Addresses(answers) + FlatMap(MirrorOf(Aliases(answers), Addresses(answers)), order)
  }

  /** `order` lists every alias once. */
  ghost predicate IsOrder(order: seq<string>, answers: seq<RR>) {
    Lists(order, Aliases(answers).Keys)
  }

  /** `order` lists every name once. */
  ghost predicate Lists(order: seq<string>, names: set<string>) {
    NoDuplicates(order) && forall x :: x in order <==> x in names
  }

  function QName(m: Message): string {
    if m.questions == [] then "" else Normalize(m.questions[0].name)
  }

  function QType(m: Message): nat {
    if m.questions == [] then 0 else m.questions[0].qtype
  }

  /** The result of parsing when the aliases are visited in `order`; `None` is a payload that does not unpack. */
  function ParseResult(unpacked: Option<Message>, order: seq<string>): Result<Response, ParseError> {
    if unpacked.None? then Err(Malformed)
    else
      var m := unpacked.value;
      if !m.response then Err(NotResponse)
      else if m.rcode != RCODE_SUCCESS then Err(BadRcode)
      else
        var records := RecordsIn(m.answers, order);
        if records == [] then Err(NoUsable) else Ok(Response(m.id, QName(m), QType(m), records))
  }

  /** `r` is the result of parsing for some order in which the aliases may be visited. */
  ghost predicate ParsesTo(unpacked: Option<Message>, r: Result<Response, ParseError>) {
    match unpacked
    case None => r == Err(Malformed)
    case Some(m) => exists order :: IsOrder(order, m.answers) && r == ParseResult(unpacked, order)
  }

  method Parse(unpacked: Option<Message>) returns (r: Result<Response, ParseError>)
    ensures ParsesTo(unpacked, r)
  {
    if unpacked.None? {
      return Err(Malformed);
    }
    var m := unpacked.value;
    ghost var order := SomeOrder(m.answers);
    if !m.response {
      assert ParseResult(unpacked, order) == Err(NotResponse);
      return Err(NotResponse);
    }
    if m.rcode != RCODE_SUCCESS {
      assert ParseResult(unpacked, order) == Err(BadRcode);
      return Err(BadRcode);
    }
    if |m.answers| == 0 {
      assert IsOrder([], m.answers) && ParseResult(unpacked, []) == Err(NoUsable);
      return Err(NoUsable);
    }
    var qname, qtype := "", 0;
    if |m.questions| > 0 {
      qname := Normalize(m.questions[0].name);
      qtype := m.questions[0].qtype;
    }
    var cnames, addrs := Collect(m.answers);
    var records := Mirror(cnames, addrs);
    order :| MirroredIn(cnames, addrs, cnames.Keys, order, records);
    assert IsOrder(order, m.answers);
    if |records| == 0 {
      return Err(NoUsable);
    }
    return Ok(Response(m.id, qname, qtype, records));
  }

  /** The order in which a parse visited the aliases. */
  lemma {:induction false} OrderTaken(unpacked: Option<Message>, r: Result<Response, ParseError>)
    returns (order: seq<string>)
    requires ParsesTo(unpacked, r)
    ensures unpacked.Some? ==> IsOrder(order, unpacked.value.answers)
    ensures r == ParseResult(unpacked, order)
  {
    order := [];
    if unpacked.Some? {
      order :| IsOrder(order, unpacked.value.answers) && r == ParseResult(unpacked, order);
    }
  }

  /** First pass: the aliases and the address records. */
  method Collect(answers: seq<RR>) returns (cnames: map<string, string>, addrs: seq<Record>)
    ensures cnames == Aliases(answers) && addrs == Addresses(answers)
  {
    cnames, addrs := map[], [];
    for i := 0 to |answers|
      invariant cnames == Aliases(answers[..i])
      invariant addrs == Addresses(answers[..i])
    {
      assert answers[..i + 1][..i] == answers[..i];
      FlatMapNext(AddressOf, answers, i);
      var owner := Normalize(answers[i].owner);
      match answers[i] {
        case A(_, ttl, a) =>
          addrs := addrs + [Record(owner, 4, if a.Some? then V4(a.value) else NilIP, ttl)];
        case AAAA(_, ttl, aaaa) =>
          addrs := addrs + [Record(owner, 6, if aaaa.Some? then V6(aaaa.value) else NilIP, ttl)];
        case CNAME(_, _, target) =>
          cnames := cnames[owner := Normalize(target)];
        case OtherRR(_, _) =>
      }
    }
    assert answers[..|answers|] == answers;
  }

  /** Second pass: every address of a target again under each of its aliases, in some order. */
  method Mirror(cnames: map<string, string>, addrs: seq<Record>)
    returns (records: seq<Record>)
    ensures exists order :: MirroredIn(cnames, addrs, cnames.Keys, order, records)
  {
    records := addrs;
    ghost var order := [];
    var rest := cnames.Keys;
    assert MirroredIn(cnames, addrs, cnames.Keys - rest, order, records);
    while rest != {}
      invariant rest <= cnames.Keys
      invariant MirroredIn(cnames, addrs, cnames.Keys - rest, order, records)
      decreases |rest|
    {
      var owner :| owner in rest;
      var copies := Copies(owner, cnames, addrs);
      MirrorNext(cnames, addrs, cnames.Keys - rest, order, records, owner);
      records := records + copies;
      order := order + [owner];
      assert cnames.Keys - (rest - {owner}) == cnames.Keys - rest + {owner};
      rest := rest - {owner};
    }
    assert cnames.Keys - rest == cnames.Keys;
  }

  /** The records after mirroring under the aliases `done`, visited in `order`. */
  ghost predicate MirroredIn(cnames: map<string, string>, addrs: seq<Record>, done: set<string>,
                             order: seq<string>, records: seq<Record>) {
    Lists(order, done) && records == addrs + FlatMap(MirrorOf(cnames, addrs), order)
  }

  lemma {:induction false} MirrorNext(cnames: map<string, string>, addrs: seq<Record>, done: set<string>,
                                      order: seq<string>, records: seq<Record>, owner: string)
    requires MirroredIn(cnames, addrs, done, order, records) && owner in cnames && owner !in done
    ensures MirroredIn(cnames, addrs, done + {owner}, order + [owner], records + MirrorOf(cnames, addrs)(owner))
  {
    var mirror := MirrorOf(cnames, addrs);
    ListNext(order, done, owner);
    FlatMapSnoc(mirror, order, owner);
    AppendAssociative(addrs, FlatMap(mirror, order), mirror(owner));
  }

  lemma {:induction false} ListNext(order: seq<string>, names: set<string>, next: string)
    requires Lists(order, names) && next !in names
    ensures Lists(order + [next], names + {next})
  {
  }

  method Copies(owner: string, cnames: map<string, string>, addrs: seq<Record>) returns (copies: seq<Record>)
    requires owner in cnames
    ensures copies == MirrorOf(cnames, addrs)(owner)
  {
    copies := [];
    ghost var copy := CopyTo(owner, cnames[owner]);
    for i := 0 to |addrs|
      invariant copies == FlatMap(copy, addrs[..i])
    {
      FlatMapNext(copy, addrs, i);
      if addrs[i].name == cnames[owner] {
        copies := copies + [addrs[i].(name := owner)];
      }
    }
    assert addrs[..|addrs|] == addrs;
  }

  lemma {:induction false} SomeOrder(answers: seq<RR>) returns (order: seq<string>)
    ensures IsOrder(order, answers)
  {
    order := Listing(Aliases(answers).Keys);
  }

  // ---------------------------------------------------------------- what the records are

  /** `addr` is an address record that shows up under `name`: its own, or that of `name`'s alias target. */
  predicate ShowsUnder(answers: seq<RR>, addr: Record, name: string) {
    && addr in Addresses(answers)
    && (addr.name == name || (name in Aliases(answers) && Aliases(answers)[name] == addr.name))
  }

  /** A record is present exactly when some address record shows up under its name: nothing invented, nothing lost. */
  lemma {:induction false} RecordPresence(answers: seq<RR>, order: seq<string>, rec: Record)
    requires IsOrder(order, answers)
    ensures rec in RecordsIn(answers, order) <==>
      exists addr :: ShowsUnder(answers, addr, rec.name) && rec == addr.(name := rec.name)
  {
    if rec in RecordsIn(answers, order) {
      var addr := SourceOf(answers, order, rec);
    }
    if addr :| ShowsUnder(answers, addr, rec.name) && rec == addr.(name := rec.name) {
      ShownIsPresent(answers, order, addr, rec.name);
    }
  }

  /** The address record that a record repeats. */
  lemma {:induction false} SourceOf(answers: seq<RR>, order: seq<string>, rec: Record) returns (addr: Record)
    requires IsOrder(order, answers) && rec in RecordsIn(answers, order)
    ensures ShowsUnder(answers, addr, rec.name) && rec == addr.(name := rec.name)
  {
    var addrs, aliases := Addresses(answers), Aliases(answers);
    if rec in addrs {
      addr := rec;
    } else {
      FlatMapMembership(MirrorOf(aliases, addrs), order, rec);
      var owner :| owner in order && rec in MirrorOf(aliases, addrs)(owner);
      FlatMapMembership(CopyTo(owner, aliases[owner]), addrs, rec);
      addr :| addr in addrs && rec in CopyTo(owner, aliases[owner])(addr);
    }
  }

  lemma {:induction false} ShownIsPresent(answers: seq<RR>, order: seq<string>, addr: Record, name: string)
    requires IsOrder(order, answers) && ShowsUnder(answers, addr, name)
    ensures addr.(name := name) in RecordsIn(answers, order)
  {
    var addrs, aliases := Addresses(answers), Aliases(answers);
    if addr.name == name {
      assert addr.(name := name) == addr;
    } else {
      FlatMapMembership(CopyTo(name, aliases[name]), addrs, addr.(name := name));
      FlatMapMembership(MirrorOf(aliases, addrs), order, addr.(name := name));
    }
  }

  /** A successful NOERROR response is unusable exactly when it has no address record. */
  lemma {:induction false} NoUsableIffNoAddress(m: Message, order: seq<string>)
    requires IsOrder(order, m.answers)
    requires m.response && m.rcode == RCODE_SUCCESS
    ensures ParseResult(Some(m), order) == Err(NoUsable) <==>
      forall rr | rr in m.answers :: !rr.A? && !rr.AAAA?
  {
    var records := RecordsIn(m.answers, order);
    if rr :| rr in m.answers && (rr.A? || rr.AAAA?) {
      FlatMapMembership(AddressOf, m.answers, AddressOf(rr)[0]);
      assert AddressOf(rr)[0] in Addresses(m.answers);
      assert records != [];
    }
    if records != [] {
      RecordPresence(m.answers, order, records[0]);
      var addr :| ShowsUnder(m.answers, addr, records[0].name);
      FlatMapMembership(AddressOf, m.answers, addr);
    }
  }

  /** The order in which the aliases are visited permutes the records and does nothing else. */
  lemma {:induction false} RecordsUpToOrder(answers: seq<RR>, o1: seq<string>, o2: seq<string>)
    requires IsOrder(o1, answers) && IsOrder(o2, answers)
    ensures multiset(RecordsIn(answers, o1)) == multiset(RecordsIn(answers, o2))
  {
    var mirror := MirrorOf(Aliases(answers), Addresses(answers));
    SameSetSameMultiset(o1, o2);
    FlatMapPermutation(mirror, mirror, o1, o2);
  }

  /** How often a record occurs, without mention of an order. */
  lemma {:induction false} RecordCount(answers: seq<RR>, order: seq<string>, rec: Record)
    requires IsOrder(order, answers)
    ensures multiset(RecordsIn(answers, order))[rec] ==
      multiset(Addresses(answers))[rec]
      + if rec.name in Aliases(answers)
        then multiset(Addresses(answers))[rec.(name := Aliases(answers)[rec.name])] else 0
  {
    MirrorCount(Aliases(answers), Addresses(answers), order, rec);
  }

  lemma {:induction false} MirrorCount(aliases: map<string, string>, addrs: seq<Record>, order: seq<string>,
                                       rec: Record)
    requires NoDuplicates(order) && forall x | x in order :: x in aliases
    ensures multiset(FlatMap(MirrorOf(aliases, addrs), order))[rec] ==
      if rec.name in order then multiset(addrs)[rec.(name := aliases[rec.name])] else 0
  {
    if order != [] {
      var owner := order[0];
      assert order == [owner] + order[1..];
      MirrorCount(aliases, addrs, order[1..], rec);
      CopyCount(owner, aliases[owner], addrs, rec);
      assert MirrorOf(aliases, addrs)(owner) == FlatMap(CopyTo(owner, aliases[owner]), addrs);
    }
  }

  lemma {:induction false} CopyCount(owner: string, target: string, addrs: seq<Record>, rec: Record)
    ensures multiset(FlatMap(CopyTo(owner, target), addrs))[rec] ==
      if rec.name == owner then multiset(addrs)[rec.(name := target)] else 0
  {
    if addrs != [] {
      CopyCount(owner, target, addrs[1..], rec);
      assert addrs == [addrs[0]] + addrs[1..];
    }
  }
}
