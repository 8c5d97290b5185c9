/**
 * Writing ipset entries: TTL arithmetic from the record to the kernel timeout,
 * the kernel's sets, and the rate-limited log of missing sets. Durations and
 * times are nanoseconds, as int64 in the program.
 */
module IpsetClient {
  import opened Prelude
  import opened DnsParse

  const SECOND := 1_000_000_000
  const MINUTE := 60 * SECOND
  const TWO_TO_THE_32 := 0x1_0000_0000
  const TWO_TO_THE_63 := 0x8000_0000_0000_0000
  const TWO_TO_THE_64 := 0x1_0000_0000_0000_0000

  // ---------------------------------------------------------------- TTL arithmetic

  /** Two's complement wrap-around of 64-bit multiplication. */
  function WrapInt64(x: int): int {
    (x + TWO_TO_THE_63) % TWO_TO_THE_64 - TWO_TO_THE_63
  }

  /** A record's TTL as a duration. */
  function TtlDuration(ttl: uint32): int {
    WrapInt64(ttl * SECOND)
  }

  function ClampTTL(ttl: int, min: int, max: int): int {
    if ttl <= 0 then min
    else if ttl < min then min
    else if ttl > max then max
    else ttl
  }

  /** The whole seconds of a duration as a uint32; nothing where the conversion is implementation-dependent. */
  function TimeoutOf(d: int): Option<nat> {
    var secs := if d >= 0 then d / SECOND else -(-d / SECOND);
    if 0 <= secs < TWO_TO_THE_32 then Some(secs) else None
  }

  /** The timeout written for a record TTL. */
  function EntryTimeout(ttl: uint32, min: int, max: int): Option<nat> {
    TimeoutOf(ClampTTL(TtlDuration(ttl), min, max))
  }

  lemma {:induction false} TtlDurationIsExact(ttl: uint32)
    ensures TtlDuration(ttl) == ttl * SECOND == ttl * 1_000_000_000 < 0x8000_0000_0000_0000
  {
    assert 0 <= ttl * SECOND < TWO_TO_THE_63;
  }

  /** The clamp keeps every duration inside the bounds exactly when the bounds are in order. */
  lemma {:induction false} ClampStaysInside(min: int, max: int)
    ensures (forall ttl :: min <= ClampTTL(ttl, min, max) <= max) <==> min <= max
  {
    assert ClampTTL(0, min, max) == min;
  }

  /** The clamp is the point of the bounds closest to the duration; a non-positive one becomes the minimum. */
  lemma {:induction false} ClampIsNearest(ttl: int, min: int, max: int)
    ensures ttl <= 0 ==> ClampTTL(ttl, min, max) == min
    ensures ttl > 0 && min <= max ==>
      && min <= ClampTTL(ttl, min, max) <= max
      && forall x | min <= x <= max :: Distance(ttl, ClampTTL(ttl, min, max)) <= Distance(ttl, x)
  {
  }

  function Distance(x: int, y: int): nat {
    if x <= y then y - x else x - y
  }

  /** A duration is written as its whole seconds, if they fit 32 bits. */
  lemma {:induction false} WholeSeconds(d: int, secs: nat)
    requires d >= 0
    ensures TimeoutOf(d) == Some(secs) <==>
      secs * 1_000_000_000 <= d < (secs + 1) * 1_000_000_000 && secs <= 0xFFFF_FFFF
  {
  }

  function ClampSeconds(ttl: int, lo: int, hi: int): int {
    if ttl < lo then lo else if ttl > hi then hi else ttl
  }

  /**
   * With whole-second bounds in order, every record's timeout is its TTL clamped
   * to the bounds in seconds if and only if the lower bound fits 32 bits.
   */
  lemma {:induction false} TimeoutIsClampedTtl(lo: int, hi: int)
    requires 0 < lo <= hi
    ensures (forall ttl: uint32 ::
        EntryTimeout(ttl, lo * SECOND, hi * SECOND) == Some(ClampSeconds(ttl, lo, hi)))
      <==> lo <= 0xFFFF_FFFF
  {
    if lo < TWO_TO_THE_32 {
      forall ttl: uint32 ensures EntryTimeout(ttl, lo * SECOND, hi * SECOND) == Some(ClampSeconds(ttl, lo, hi)) {
        TtlDurationIsExact(ttl);
        assert ClampTTL(ttl * SECOND, lo * SECOND, hi * SECOND) == ClampSeconds(ttl, lo, hi) * SECOND;
      }
    } else {
      TtlDurationIsExact(0);
      assert EntryTimeout(0, lo * SECOND, hi * SECOND) == None;
    }
  }

  // ---------------------------------------------------------------- the kernel's sets

  /** Set name to (address to timeout). */
  type Kernel = map<string, map<IP, Option<nat>>>

  datatype Outcome = Written | MissingSet | BadArgument

  function AddOutcome(k: Kernel, name: string, ip: IP): Outcome {
    if name == "" || ip == NilIP then BadArgument
    else if name !in k then MissingSet
    else Written
  }

  /** Bad arguments are refused first; then a set that does not exist is missing; anything else is written. */
  lemma {:induction false} OutcomeMeaning(k: Kernel, name: string, ip: IP)
    ensures AddOutcome(k, name, ip) == BadArgument <==> name == "" || ip == NilIP
    ensures AddOutcome(k, name, ip) == MissingSet <==> name != "" && ip != NilIP && name !in k
    ensures AddOutcome(k, name, ip) == Written <==> name != "" && ip != NilIP && name in k
  {
  }

  /** An add replaces the timeout of an address already present. */
  function KernelAfter(k: Kernel, name: string, ip: IP, d: int): Kernel {
    if AddOutcome(k, name, ip) == Written then k[name := k[name][ip := TimeoutOf(d)]] else k
  }

  // ---------------------------------------------------------------- the miss log

  datatype Miss = Miss(name: string, time: int, logged: bool)

  /** The last logged miss of each set. */
  function LastLogged(misses: seq<Miss>): map<string, int> {
    if misses == [] then map[]
    else
      var m, last := LastLogged(misses[..|misses| - 1]), misses[|misses| - 1];
      if last.logged then m[last.name := last.time] else m
  }

  predicate Quiet(table: map<string, int>, name: string, now: int) {
    name in table && now - table[name] < MINUTE
  }

  /** Every miss of the history was logged unless its set had been logged within the minute. */
  ghost predicate RateLimited(misses: seq<Miss>) {
    forall i | 0 <= i < |misses| ::
      misses[i].logged <==> !Quiet(LastLogged(misses[..i]), misses[i].name, misses[i].time)
  }

  class Netlink {
    const logs: bool
    var missLog: map<string, int>
    var kernel: Kernel
    /** The misses so far, in the order in which the lock was taken. */
    ghost var misses: seq<Miss>

    ghost predicate Valid() reads this {
      logs ==> missLog == LastLogged(misses) && RateLimited(misses)
    }

    constructor (logs: bool, kernel: Kernel)
      ensures Valid() && misses == [] && this.kernel == kernel && this.logs == logs
    {
      this.logs, this.kernel, missLog, misses := logs, kernel, map[], [];
    }

    method Add(name: string, ip: IP, ttl: int, now: int) returns (outcome: Outcome)
      requires Valid()
      modifies this
      ensures Valid()
      ensures outcome == AddOutcome(old(kernel), name, ip)
      ensures outcome == BadArgument <==> name == "" || ip == NilIP
      ensures outcome == MissingSet <==> name != "" && ip != NilIP && name !in old(kernel)
      ensures outcome == Written <==> name != "" && ip != NilIP && name in old(kernel)
      ensures |misses| > |old(misses)| <==> logs && name != "" && ip != NilIP && name !in old(kernel)
      ensures kernel == KernelAfter(old(kernel), name, ip, ttl)
      ensures misses == if logs && outcome == MissingSet
        then old(misses) + [Miss(name, now, !Quiet(old(missLog), name, now))] else old(misses)
    {
      if name == "" || ip == NilIP {
        return BadArgument;
      }
      if name !in kernel {
        var _ := RateLimitedMissLog(name, now);
        return MissingSet;
      }
      kernel := kernel[name := kernel[name][ip := TimeoutOf(ttl)]];
      return Written;
    }

    method RateLimitedMissLog(name: string, now: int) returns (logged: bool)
      requires Valid()
      modifies this`missLog, this`misses
      ensures Valid()
      ensures misses == if logs then old(misses) + [Miss(name, now, logged)] else old(misses)
      ensures logged <==> logs && !Quiet(old(missLog), name, now)
    {
      if !logs {
        return false;
      }
      logged := !(name in missLog && now - missLog[name] < MINUTE);
      ghost var before := misses;
      misses := misses + [Miss(name, now, logged)];
      forall i | 0 <= i < |misses|
        ensures misses[i].logged <==> !Quiet(LastLogged(misses[..i]), misses[i].name, misses[i].time)
      {
        assert misses[..i] == before[..i];
        assert before[..|before|] == before;
      }
      assert misses[..|misses| - 1] == before;
      if logged {
        missLog := missLog[name := now];
      }
    }
  }

  predicate ClockNeverGoesBack(misses: seq<Miss>) {
    forall i, j | 0 <= i <= j < |misses| :: misses[i].time <= misses[j].time
  }

  /** The table holds, for each set, the time of its last logged miss. */
  lemma {:induction false} LastLoggedEntry(misses: seq<Miss>, name: string)
    ensures name in LastLogged(misses) <==> exists i | 0 <= i < |misses| :: misses[i].logged && misses[i].name == name
    ensures name in LastLogged(misses) ==> exists i | 0 <= i < |misses| ::
      && misses[i].logged && misses[i].name == name && misses[i].time == LastLogged(misses)[name]
      && forall j | i < j < |misses| :: !(misses[j].logged && misses[j].name == name)
  {
    if misses != [] {
      var n := |misses| - 1;
      var front := misses[..n];
      LastLoggedEntry(front, name);
      assert forall i | 0 <= i < n :: front[i] == misses[i];
      if misses[n].logged && misses[n].name == name {
        assert LastLogged(misses)[name] == misses[n].time;
      } else if name in LastLogged(misses) {
        var i :| 0 <= i < n && front[i].logged && front[i].name == name && front[i].time == LastLogged(front)[name]
          && forall j | i < j < n :: !(front[j].logged && front[j].name == name);
        assert misses[i].logged && misses[i].name == name && misses[i].time == LastLogged(misses)[name];
        assert forall j | i < j < |misses| :: !(misses[j].logged && misses[j].name == name);
      }
    }
  }

  /** Two logs for one set are at least a minute apart. */
  lemma {:induction false} LogsAreSpaced(misses: seq<Miss>, i: nat, j: nat)
    requires RateLimited(misses) && ClockNeverGoesBack(misses)
    requires i < j < |misses| && misses[i].logged && misses[j].logged && misses[i].name == misses[j].name
    ensures misses[j].time - misses[i].time >= 60_000_000_000
  {
    var past, name := misses[..j], misses[i].name;
    LastLoggedEntry(past, name);
    assert past[i] == misses[i];
    var k :| 0 <= k < j && past[k].logged && past[k].name == name && past[k].time == LastLogged(past)[name]
      && forall m | k < m < j :: !(past[m].logged && past[m].name == name);
    assert i <= k && past[k] == misses[k];
  }

  /** Every unlogged miss falls less than a minute after a logged one of its set. */
  lemma {:induction false} SilenceIsJustified(misses: seq<Miss>, i: nat)
    requires RateLimited(misses) && i < |misses| && !misses[i].logged
    ensures exists j | 0 <= j < i ::
      && misses[j].logged && misses[j].name == misses[i].name
      && misses[i].time - misses[j].time < 60_000_000_000
  {
    var past, name := misses[..i], misses[i].name;
    LastLoggedEntry(past, name);
    var k :| 0 <= k < i && past[k].logged && past[k].name == name && past[k].time == LastLogged(past)[name];
    assert misses[k] == past[k];
  }

  /** How many misses of a set were logged at times in `[from, to]`. */
  function LogsIn(misses: seq<Miss>, name: string, from: int, to: int): nat {
    if misses == [] then 0
    else
      var last := misses[|misses| - 1];
      LogsIn(misses[..|misses| - 1], name, from, to)
        + if last.logged && last.name == name && from <= last.time <= to then 1 else 0
  }

  /** A closed window of length T holds at most T / 1min + 1 logs of a set. */
  lemma {:induction false} LogsPerWindow(misses: seq<Miss>, name: string, from: int, to: int)
    requires RateLimited(misses) && ClockNeverGoesBack(misses) && from <= to
    ensures LogsIn(misses, name, from, to) <= (to - from) / 60_000_000_000 + 1
  {
    LogsUpToLast(misses, name, from, to);
    if LogsIn(misses, name, from, to) > 0 {
      DivisionMonotone(LastUpTo(misses, name, to) - from, to - from);
    }
  }

  lemma {:induction false} DivisionMonotone(x: int, y: int)
    requires x <= y
    ensures x / MINUTE <= y / MINUTE
  {
  }

  /** The last logged time of a set, cut off at `to`. */
  function LastUpTo(misses: seq<Miss>, name: string, to: int): int
    requires name in LastLogged(misses)
  {
    if LastLogged(misses)[name] < to then LastLogged(misses)[name] else to
  }

  /** The logs of a set up to its last one fit the window. */
  ghost predicate Fits(misses: seq<Miss>, name: string, from: int, to: int) {
    LogsIn(misses, name, from, to) > 0 ==>
      name in LastLogged(misses) && LogsIn(misses, name, from, to) <= (LastUpTo(misses, name, to) - from) / MINUTE + 1
  }

  lemma {:induction false} LogsUpToLast(misses: seq<Miss>, name: string, from: int, to: int)
    requires RateLimited(misses) && ClockNeverGoesBack(misses) && from <= to
    ensures Fits(misses, name, from, to)
  {
    if misses != [] {
      var n := |misses| - 1;
      FrontIsRateLimited(misses);
      LogsUpToLast(misses[..n], name, from, to);
      FitsNext(misses, name, from, to);
    }
  }

  lemma {:induction false} FitsNext(misses: seq<Miss>, name: string, from: int, to: int)
    requires misses != [] && from <= to
    requires var front, last := misses[..|misses| - 1], misses[|misses| - 1];
      Fits(front, name, from, to) && (last.logged ==> !Quiet(LastLogged(front), last.name, last.time))
    ensures Fits(misses, name, from, to)
  {
    var front, last := misses[..|misses| - 1], misses[|misses| - 1];
    var count := LogsIn(front, name, from, to);
    if last.logged && last.name == name && count > 0 {
      LogStep(LastLogged(front)[name], last.time, from, to, count);
    }
  }

  lemma {:induction false} FrontIsRateLimited(misses: seq<Miss>)
    requires misses != [] && RateLimited(misses) && ClockNeverGoesBack(misses)
    ensures RateLimited(misses[..|misses| - 1]) && ClockNeverGoesBack(misses[..|misses| - 1])
  {
    var front := misses[..|misses| - 1];
    assert forall i | 0 <= i < |front| :: front[i] == misses[i] && front[..i] == misses[..i];
  }

  /** The bound survives one more log a minute or more after the last. */
  lemma {:induction false} LogStep(before: int, now: int, from: int, to: int, count: nat)
    requires before + MINUTE <= now && from <= to && count > 0
    requires count <= ((if before < to then before else to) - from) / MINUTE + 1
    ensures count + (if from <= now <= to then 1 else 0) <= ((if now < to then now else to) - from) / MINUTE + 1
  {
    if now <= to {
      assert (before + MINUTE - from) / MINUTE == (before - from) / MINUTE + 1;
      DivisionMonotone(before + MINUTE - from, now - from);
    } else {
      DivisionMonotone((if before < to then before else to) - from, to - from);
    }
  }
}
