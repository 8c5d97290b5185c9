/**
 * What a parsed response contains, in terms of the fields of the message: which
 * answers its records come from, how often and in which order, and which messages
 * are refused.
 */
module ParseProperties {
  import opened Prelude
  import opened DomainNames
  import opened DnsParse

  /** The record has the answer's family, address and TTL; its address is nil only if the answer has no data. */
  predicate Carries(rec: Record, rr: RR) {
    match rr
    case A(_, ttl, a) => rec.family == 4 && rec.ttl == ttl && rec.ip == (if a.Some? then V4(a.value) else NilIP)
    case AAAA(_, ttl, aaaa) =>
      rec.family == 6 && rec.ttl == ttl && rec.ip == (if aaaa.Some? then V6(aaaa.value) else NilIP)
    case _ => false
  }

  predicate IsAddress(rr: RR) {
    rr.A? || rr.AAAA?
  }

  /** Answer `k` is the last one that makes `owner` an alias, and it points to `target`. */
  predicate LastAlias(answers: seq<RR>, k: nat, owner: string, target: string) {
    && k < |answers| && answers[k].CNAME?
    && Normalize(answers[k].owner) == owner && Normalize(answers[k].target) == target
    && forall j | k < j < |answers| :: answers[j].CNAME? ==> Normalize(answers[j].owner) != owner
  }

  ghost predicate AliasOf(answers: seq<RR>, owner: string, target: string) {
    exists k :: LastAlias(answers, k, owner, target)
  }

  /** The alias table holds, for each owner, the target of its last CNAME. */
  lemma {:induction false} AliasIsLast(answers: seq<RR>, owner: string, target: string)
    ensures (owner in Aliases(answers) && Aliases(answers)[owner] == target) <==> AliasOf(answers, owner, target)
  {
    if answers != [] {
      var n, front := |answers| - 1, answers[..|answers| - 1];
      AliasIsLast(front, owner, target);
      if answers[n].CNAME? && Normalize(answers[n].owner) == owner {
        if Normalize(answers[n].target) == target {
          assert LastAlias(answers, n, owner, target);
        }
      } else {
        forall k: nat ensures LastAlias(answers, k, owner, target) <==> LastAlias(front, k, owner, target) {
          LastAliasOfFront(answers, k, owner, target);
        }
      }
    }
  }

  lemma {:induction false} LastAliasOfFront(answers: seq<RR>, k: nat, owner: string, target: string)
    requires answers != []
    requires var last := answers[|answers| - 1]; !(last.CNAME? && Normalize(last.owner) == owner)
    ensures LastAlias(answers, k, owner, target) <==> LastAlias(answers[..|answers| - 1], k, owner, target)
  {
    var front := answers[..|answers| - 1];
    assert forall j | 0 <= j < |front| :: front[j] == answers[j];
  }

  // ---------------------------------------------------------------- the address records

  /** How many of the answers are addresses. */
  function AddressCount(answers: seq<RR>): nat {
    if answers == [] then 0
    else AddressCount(answers[..|answers| - 1]) + if IsAddress(answers[|answers| - 1]) then 1 else 0
  }

  lemma {:induction false} AddressesNext(answers: seq<RR>)
    requires answers != []
    ensures var front, last := answers[..|answers| - 1], answers[|answers| - 1];
      && Addresses(answers) == Addresses(front) + AddressOf(last)
      && |AddressOf(last)| == (if IsAddress(last) then 1 else 0)
      && (IsAddress(last) ==> Carries(AddressOf(last)[0], last) && AddressOf(last)[0].name == Normalize(last.owner))
  {
    FlatMapNext(AddressOf, answers, |answers| - 1);
    assert answers[..|answers| - 1 + 1] == answers;
  }

  /** The address records are those of the address answers, one each, in answer order. */
  lemma {:induction false} AddressAt(answers: seq<RR>, i: nat)
    requires i < |answers| && IsAddress(answers[i])
    ensures |Addresses(answers)| == AddressCount(answers)
    ensures var n := AddressCount(answers[..i]);
      && n < |Addresses(answers)|
      && Carries(Addresses(answers)[n], answers[i]) && Addresses(answers)[n].name == Normalize(answers[i].owner)
  {
    var last := |answers| - 1;
    AddressesNext(answers);
    AddressTotal(answers[..last]);
    if i < last {
      AddressAt(answers[..last], i);
      assert answers[..last][..i] == answers[..i];
    }
  }

  lemma {:induction false} AddressTotal(answers: seq<RR>)
    ensures |Addresses(answers)| == AddressCount(answers)
  {
    if answers != [] {
      AddressesNext(answers);
      AddressTotal(answers[..|answers| - 1]);
    }
  }

  /** The answers that carry what `rec` says, owned by `owner`. */
  function Carriers(answers: seq<RR>, rec: Record, owner: string): set<nat> {
    set i: nat | i < |answers| && Carries(rec, answers[i]) && Normalize(answers[i].owner) == owner
  }

  lemma {:induction false} AddressMultiplicity(answers: seq<RR>, rec: Record)
    ensures multiset(Addresses(answers))[rec] == |Carriers(answers, rec, rec.name)|
  {
    if answers != [] {
      var n, front := |answers| - 1, answers[..|answers| - 1];
      AddressMultiplicity(front, rec);
      AddressesNext(answers);
      CarriersNext(answers, rec, rec.name);
      LastMultiplicity(answers[n], rec);
    } else {
      assert Carriers(answers, rec, rec.name) == {};
    }
  }

  lemma {:induction false} LastMultiplicity(rr: RR, rec: Record)
    ensures multiset(AddressOf(rr))[rec] == if Carries(rec, rr) && Normalize(rr.owner) == rec.name then 1 else 0
  {
  }

  lemma {:induction false} CarriersNext(answers: seq<RR>, rec: Record, owner: string)
    requires answers != []
    ensures var n, front := |answers| - 1, answers[..|answers| - 1];
      |Carriers(answers, rec, owner)| == |Carriers(front, rec, owner)|
        + if Carries(rec, answers[n]) && Normalize(answers[n].owner) == owner then 1 else 0
  {
    var n, front := |answers| - 1, answers[..|answers| - 1];
    var more := if Carries(rec, answers[n]) && Normalize(answers[n].owner) == owner then {n} else {};
    assert forall i | 0 <= i < n :: front[i] == answers[i];
    assert Carriers(answers, rec, owner) == Carriers(front, rec, owner) + more;
    assert n !in Carriers(front, rec, owner);
  }

  // ---------------------------------------------------------------- all records

  /** The answers that carry what `rec` says, owned by the target of the alias `owner`. */
  ghost function AliasCarriers(answers: seq<RR>, rec: Record, owner: string): set<nat> {
    set i: nat | i < |answers| && Carries(rec, answers[i]) && AliasOf(answers, owner, Normalize(answers[i].owner))
  }

  lemma {:induction false} AliasCarriersOf(answers: seq<RR>, rec: Record, owner: string)
    ensures AliasCarriers(answers, rec, owner) ==
      if owner in Aliases(answers) then Carriers(answers, rec, Aliases(answers)[owner]) else {}
  {
    forall i: nat | i < |answers| {
      AliasIsLast(answers, owner, Normalize(answers[i].owner));
    }
  }

  /**
   * How often a record occurs: once for each answer that carries it under its own
   * owner, and once for each that carries it under the target of the record's name.
   */
  lemma {:induction false} RecordMultiplicity(answers: seq<RR>, order: seq<string>, rec: Record)
    requires IsOrder(order, answers)
    ensures multiset(RecordsIn(answers, order))[rec] ==
      |Carriers(answers, rec, rec.name)| + |AliasCarriers(answers, rec, rec.name)|
  {
    RecordCount(answers, order, rec);
    AddressMultiplicity(answers, rec);
    AliasMultiplicity(answers, rec);
  }

  lemma {:induction false} AliasMultiplicity(answers: seq<RR>, rec: Record)
    ensures |AliasCarriers(answers, rec, rec.name)| ==
      if rec.name in Aliases(answers)
      then multiset(Addresses(answers))[rec.(name := Aliases(answers)[rec.name])] else 0
  {
    AliasCarriersOf(answers, rec, rec.name);
    if rec.name in Aliases(answers) {
      var target := Aliases(answers)[rec.name];
      AddressMultiplicity(answers, rec.(name := target));
      assert Carriers(answers, rec.(name := target), target) == Carriers(answers, rec, target);
    }
  }

  /** The record repeats answer `i`, under its owner or under an alias of its owner. */
  ghost predicate Repeats(answers: seq<RR>, rec: Record, i: nat) {
    && i < |answers| && Carries(rec, answers[i])
    && (rec.name == Normalize(answers[i].owner) || AliasOf(answers, rec.name, Normalize(answers[i].owner)))
  }

  /** Nothing is invented and nothing lost: a record is present exactly when it repeats an answer. */
  lemma {:induction false} RecordRepeatsAnswer(answers: seq<RR>, order: seq<string>, rec: Record)
    requires IsOrder(order, answers)
    ensures rec in RecordsIn(answers, order) <==> exists i :: Repeats(answers, rec, i)
  {
    RecordMultiplicity(answers, order, rec);
    var own, mirrored := Carriers(answers, rec, rec.name), AliasCarriers(answers, rec, rec.name);
    if rec in RecordsIn(answers, order) {
      assert multiset(RecordsIn(answers, order))[rec] > 0;
      var i :| i in own + mirrored;
      assert Repeats(answers, rec, i);
    }
    if i :| Repeats(answers, rec, i) {
      assert i in own + mirrored;
      assert own != {} || mirrored != {};
    }
  }

  /** The records start with the address records, in answer order. */
  lemma {:induction false} AddressesFirst(answers: seq<RR>, order: seq<string>, i: nat)
    requires IsOrder(order, answers) && i < |answers| && IsAddress(answers[i])
    ensures var records, n := RecordsIn(answers, order), AddressCount(answers[..i]);
      && n < |records|
      && Carries(records[n], answers[i]) && records[n].name == Normalize(answers[i].owner)
  {
    AddressAt(answers, i);
  }

  // ---------------------------------------------------------------- the outcome

  /** Which messages are refused, and why; and the header of an accepted one. */
  lemma {:induction false} ParseOutcome(m: Message, order: seq<string>)
    requires IsOrder(order, m.answers)
    ensures var r := ParseResult(Some(m), order);
      && (r == Err(NotResponse) <==> !m.response)
      && (r == Err(BadRcode) <==> m.response && m.rcode != 0)
      && (r == Err(NoUsable) <==> m.response && m.rcode == 0 && forall rr | rr in m.answers :: !IsAddress(rr))
      && (r.Ok? <==> m.response && m.rcode == 0 && exists rr :: rr in m.answers && IsAddress(rr))
      && (r.Ok? ==>
            && r.value.txid == m.id && r.value.records == RecordsIn(m.answers, order)
            && (m.questions == [] ==> r.value.qname == "" && r.value.qtype == 0)
            && (m.questions != [] ==>
                  && r.value.qname == Normalize(m.questions[0].name)
                  && r.value.qtype == m.questions[0].qtype))
  {
    if m.response && m.rcode == RCODE_SUCCESS {
      NoUsableIffNoAddress(m, order);
    }
  }
}
