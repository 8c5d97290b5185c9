/**
 * Payload deduplication: a bounded least-recently-used cache from payload hash
 * to the time of the last sighting, with a sliding time-to-live. The cache is a
 * list, most recently used first. Times are nanoseconds.
 */
module Dedup {
  import opened Prelude

  datatype Entry = Entry(key: nat, time: int)

  /** One sighting: the payload's hash and the clock reading. */
  type Call = Entry

  function TimeOf(c: seq<Entry>, k: nat): Option<int> {
    if c == [] then None
    else if c[0].key == k then Some(c[0].time)
    else TimeOf(c[1..], k)
  }

  function Without(c: seq<Entry>, k: nat): (r: seq<Entry>)
    ensures |r| <= |c|
  {
    if c == [] then []
    else if c[0].key == k then Without(c[1..], k)
    else [c[0]] + Without(c[1..], k)
  }

  function Limit(c: seq<Entry>, size: nat): (r: seq<Entry>)
    ensures |r| <= size
  {
    if |c| > size then c[..size] else c
  }

  /** The effect of a cache read: the entry, if present, becomes the most recent. */
  function Touch(c: seq<Entry>, k: nat): seq<Entry> {
    match TimeOf(c, k)
    case None => c
    case Some(t) => [Entry(k, t)] + Without(c, k)
  }

  /** The effect of a cache write: the entry becomes the most recent, the oldest may go. */
  function Put(c: seq<Entry>, k: nat, t: int, size: nat): seq<Entry> {
    Limit([Entry(k, t)] + Without(c, k), size)
  }

  predicate Hit(found: Option<int>, now: int, ttl: int) {
    found.Some? && now - found.value < ttl
  }

  class Lru {
    const size: nat
    var entries: seq<Entry>

    ghost predicate Valid() reads this {
      0 < size && |entries| <= size && DistinctKeys(entries)
    }

    constructor (size: nat)
      requires size > 0
      ensures Valid() && entries == [] && this.size == size
    {
      this.size := size;
      entries := [];
    }

    method Get(k: nat) returns (found: Option<int>)
      requires Valid()
      modifies this
      ensures Valid()
      ensures found == TimeOf(old(entries), k)
      ensures entries == Touch(old(entries), k)
    {
      found := TimeOf(entries, k);
      if found.Some? {
        WithoutKeepsDistinct(entries, k);
        WithoutShrinks(entries, k);
        entries := [Entry(k, found.value)] + Without(entries, k);
      }
    }

    method Add(k: nat, t: int)
      requires Valid()
      modifies this
      ensures Valid()
      ensures entries == Put(old(entries), k, t, size)
    {
      WithoutKeepsDistinct(entries, k);
      entries := [Entry(k, t)] + Without(entries, k);
      if |entries| > size {
        entries := entries[..size];
      }
    }
  }

  class Dedup {
    const c: Lru
    const ttl: int
    const hash: seq<bv8> -> nat
    /** Every sighting so far. */
    ghost var history: seq<Call>

    ghost predicate Valid() reads this, c {
      c.Valid() && c.entries == Cache(history, c.size)
    }

    /** A new filter; the size must be positive. */
    static method New(size: int, ttl: int, hash: seq<bv8> -> nat) returns (d: Option<Dedup>)
      ensures d.Some? <==> size > 0
      ensures d.Some? ==> fresh(d.value) && d.value.Valid() && fresh(d.value.c)
      ensures d.Some? ==> d.value.history == [] && d.value.c.size == size
      ensures d.Some? ==> d.value.ttl == ttl && d.value.hash == hash
    {
      if size <= 0 {
        return None;
      }
      var lru := new Lru(size);
      var filter := new Dedup(lru, ttl, hash);
      return Some(filter);
    }

    constructor (c: Lru, ttl: int, hash: seq<bv8> -> nat)
      requires c.Valid() && c.entries == []
      ensures Valid() && this.c == c && this.ttl == ttl && this.hash == hash && history == []
    {
      this.c, this.ttl, this.hash, this.history := c, ttl, hash, [];
    }

    /**
     * Answers true exactly when the payload's hash was last sighted less than the
     * time-to-live ago with fewer than `size` distinct other hashes in between.
     * Either way the sighting is recorded.
     */
    method Seen(payload: seq<bv8>, now: int) returns (seen: bool)
      requires Valid()
      modifies this`history, c
      ensures Valid()
      ensures history == old(history) + [Entry(hash(payload), now)]
      ensures seen <==> SeenBefore(history, |old(history)|, c.size, ttl)
      ensures seen == Hit(TimeOf(old(c.entries), hash(payload)), now, ttl)
      ensures c.entries == Put(old(c.entries), hash(payload), now, c.size)
    {
      var k := hash(payload);
      ghost var before := c.entries;
      var t := c.Get(k);
      PutAfterTouch(before, k, now, c.size);
      ghost var calls := history;
      history := history + [Entry(k, now)];
      assert history[..|calls|] == calls;
      AnswerIsHistory(history, |calls|, c.size, ttl);
      if t.Some? && now - t.value < ttl {
        c.Add(k, now);
        return true;
      }
      c.Add(k, now);
      return false;
    }
  }

  // ---------------------------------------------------------------- the cache as a list

  predicate DistinctKeys(c: seq<Entry>) {
    forall i, j | 0 <= i < j < |c| :: c[i].key != c[j].key
  }

  lemma {:induction false} WithoutMembers(c: seq<Entry>, k: nat, e: Entry)
    ensures e in Without(c, k) <==> e in c && e.key != k
  {
    if c != [] {
      WithoutMembers(c[1..], k, e);
      assert c == [c[0]] + c[1..];
    }
  }

  lemma {:induction false} WithoutKeepsDistinct(c: seq<Entry>, k: nat)
    requires DistinctKeys(c)
    ensures DistinctKeys([Entry(k, 0)] + Without(c, k))
    ensures forall t :: DistinctKeys([Entry(k, t)] + Without(c, k))
  {
    if c != [] {
      WithoutKeepsDistinct(c[1..], k);
      var r := Without(c[1..], k);
      var whole := [Entry(k, 0)] + r;
      forall i | 0 <= i < |r| ensures r[i].key != k && r[i].key != c[0].key {
        WithoutMembers(c[1..], k, r[i]);
        assert whole[i + 1] == r[i];
      }
      forall i, j | 0 <= i < j < |r| ensures r[i].key != r[j].key {
        assert whole[i + 1] == r[i] && whole[j + 1] == r[j];
      }
    }
  }

  lemma {:induction false} WithoutShrinks(c: seq<Entry>, k: nat)
    requires TimeOf(c, k).Some?
    ensures |Without(c, k)| < |c|
  {
    if c[0].key != k {
      WithoutShrinks(c[1..], k);
    }
  }

  lemma {:induction false} WithoutTwice(c: seq<Entry>, k: nat)
    ensures Without(Without(c, k), k) == Without(c, k)
  {
    if c != [] {
      WithoutTwice(c[1..], k);
    }
  }

  /** A read followed by a write leaves what the write alone would leave. */
  lemma {:induction false} PutAfterTouch(c: seq<Entry>, k: nat, t: int, size: nat)
    ensures Put(Touch(c, k), k, t, size) == Put(c, k, t, size)
  {
    if TimeOf(c, k).Some? {
      WithoutTwice(c, k);
      assert Touch(c, k)[1..] == Without(c, k);
    }
  }

  lemma {:induction false} WithoutAt(c: seq<Entry>, j: nat)
    requires DistinctKeys(c) && j < |c|
    ensures TimeOf(c, c[j].key) == Some(c[j].time) && Without(c, c[j].key) == c[..j] + c[j + 1..]
  {
    if j == 0 {
      Absent(c[1..], c[0].key);
    } else {
      WithoutAt(c[1..], j - 1);
      assert c[1..][j - 1] == c[j];
      assert c[..j] + c[j + 1..] == [c[0]] + (c[1..][..j - 1] + c[1..][j..]);
    }
  }

  /** A hit moves its entry to the front, time unchanged; a write moves it there with the new time; no other moves. */
  lemma {:induction false} MovesToFront(c: seq<Entry>, j: nat, t: int, size: nat)
    requires DistinctKeys(c) && j < |c| <= size
    ensures Touch(c, c[j].key) == [c[j]] + c[..j] + c[j + 1..]
    ensures Put(c, c[j].key, t, size) == [Entry(c[j].key, t)] + c[..j] + c[j + 1..]
  {
    WithoutAt(c, j);
    AppendAssociative([c[j]], c[..j], c[j + 1..]);
    AppendAssociative([Entry(c[j].key, t)], c[..j], c[j + 1..]);
  }

  /** A miss moves nothing; a write of a new key goes to the front, and the last entry goes when the cache was full. */
  lemma {:induction false} JoinsAtFront(c: seq<Entry>, k: nat, t: int, size: nat)
    requires |c| <= size && size > 0 && forall i | 0 <= i < |c| :: c[i].key != k
    ensures TimeOf(c, k) == None && Touch(c, k) == c
    ensures Put(c, k, t, size) == [Entry(k, t)] + if |c| == size then c[..size - 1] else c
  {
    Absent(c, k);
  }

  // ---------------------------------------------------------------- histories

  /** The cache after a history of sightings, starting empty. */
  function Cache(calls: seq<Call>, size: nat): seq<Entry> {
    if calls == [] then []
    else
      var last := calls[|calls| - 1];
      Put(Cache(calls[..|calls| - 1], size), last.key, last.time, size)
  }

  /** What the sighting at `i` answers. */
  function Answer(calls: seq<Call>, i: nat, size: nat, ttl: int): bool
    requires i < |calls|
  {
    Hit(TimeOf(Cache(calls[..i], size), calls[i].key), calls[i].time, ttl)
  }

  /** What a map that never evicts would answer: the last earlier sighting of the hash is recent. */
  function UnboundedAnswer(calls: seq<Call>, i: nat, ttl: int): bool
    requires i < |calls|
  {
    var j := LastSighting(calls, i, calls[i].key);
    j.Some? && calls[i].time - calls[j.value].time < ttl
  }

  /** Index of the last sighting of `k` before `n`. */
  function LastSighting(calls: seq<Call>, n: nat, k: nat): (r: Option<nat>)
    requires n <= |calls|
    ensures r.Some? ==> r.value < n && calls[r.value].key == k
    ensures forall j | 0 <= j < n && (r.None? || r.value < j) :: calls[j].key != k
  {
    if n == 0 then None
    else if calls[n - 1].key == k then Some(n - 1)
    else LastSighting(calls, n - 1, k)
  }

  /** The distinct hashes seen in `calls[from..to]`. */
  function KeysBetween(calls: seq<Call>, from: nat, to: nat): set<nat>
    requires from <= to <= |calls|
  {
    set j | from <= j < to :: calls[j].key
  }

  /** Every hash ever seen with its last time, most recent first: the cache without a bound. */
  function Recency(calls: seq<Call>): seq<Entry> {
    if calls == [] then []
    else
      var last := calls[|calls| - 1];
      [last] + Without(Recency(calls[..|calls| - 1]), last.key)
  }

  lemma {:induction false} RecencyDistinct(calls: seq<Call>)
    ensures DistinctKeys(Recency(calls))
  {
    if calls != [] {
      var last := calls[|calls| - 1];
      RecencyDistinct(calls[..|calls| - 1]);
      WithoutKeepsDistinct(Recency(calls[..|calls| - 1]), last.key);
      assert last == Entry(last.key, last.time);
    }
  }

  /** Removing a key from a prefix leaves a prefix of the rest. */
  lemma {:induction false} WithoutPrefix(c: seq<Entry>, k: nat, n: nat)
    requires n <= |c|
    ensures Without(c[..n], k) <= Without(c, k)
  {
    if n > 0 {
      assert c[..n][1..] == c[1..][..n - 1];
      WithoutPrefix(c[1..], k, n - 1);
    }
  }

  lemma {:induction false} WithoutDropsOne(c: seq<Entry>, k: nat)
    requires DistinctKeys(c)
    ensures |Without(c, k)| >= |c| - 1
    ensures TimeOf(c, k) == None ==> Without(c, k) == c
  {
    if c != [] {
      WithoutDropsOne(c[1..], k);
      if c[0].key == k {
        Absent(c[1..], k);
      }
    }
  }

  lemma {:induction false} Absent(c: seq<Entry>, k: nat)
    requires forall i | 0 <= i < |c| :: c[i].key != k
    ensures TimeOf(c, k) == None && Without(c, k) == c
  {
    if c != [] {
      Absent(c[1..], k);
    }
  }

  /** Moving a key to the front of the bounded list or of the whole list agrees within the bound. */
  lemma {:induction false} PutOfLimit(c: seq<Entry>, k: nat, t: int, size: nat)
    requires size > 0 && DistinctKeys(c)
    ensures Put(Limit(c, size), k, t, size) == Limit([Entry(k, t)] + Without(c, k), size)
  {
    if |c| > size {
      var a, b := Without(c[..size], k), Without(c, k);
      WithoutPrefix(c, k, size);
      WithoutDropsOne(c[..size], k);
      WithoutDropsOne(c, k);
      assert b[..|a|] == a;
    }
  }

  /** The bounded cache is the front of the unbounded recency list. */
  lemma {:induction false} CacheIsRecent(calls: seq<Call>, size: nat)
    requires size > 0
    ensures Cache(calls, size) == Limit(Recency(calls), size)
  {
    if calls != [] {
      var front, last := calls[..|calls| - 1], calls[|calls| - 1];
      CacheIsRecent(front, size);
      RecencyDistinct(front);
      PutOfLimit(Recency(front), last.key, last.time, size);
    }
  }

  /** The entries in front of the first one for `k`; all of them if there is none. */
  function Before(c: seq<Entry>, k: nat): (r: seq<Entry>)
    ensures r <= c
  {
    if c == [] || c[0].key == k then [] else [c[0]] + Before(c[1..], k)
  }

  function Keys(c: seq<Entry>): set<nat> {
    set e | e in c :: e.key
  }

  lemma {:induction false} TimeOfLimit(c: seq<Entry>, k: nat, size: nat)
    ensures TimeOf(Limit(c, size), k) == if |Before(c, k)| < size then TimeOf(c, k) else None
  {
    if size > 0 && c != [] && c[0].key != k {
      TimeOfLimit(c[1..], k, size - 1);
      if |c| > size {
        assert c[..size][1..] == c[1..][..size - 1];
      }
    } else if c == [] {
    } else if size == 0 {
      assert Limit(c, size) == [];
    }
  }

  lemma {:induction false} WithoutOther(c: seq<Entry>, x: nat, k: nat)
    requires x != k
    ensures TimeOf(Without(c, x), k) == TimeOf(c, k)
    ensures Before(Without(c, x), k) == Without(Before(c, k), x)
  {
    if c != [] {
      WithoutOther(c[1..], x, k);
      if c[0].key != x && c[0].key != k {
        assert Before(c, k)[1..] == Before(c[1..], k);
      }
    }
  }

  lemma {:induction false} KeysWithout(c: seq<Entry>, x: nat)
    ensures Keys(Without(c, x)) == Keys(c) - {x}
  {
    forall k ensures k in Keys(Without(c, x)) <==> k in Keys(c) - {x} {
      if k in Keys(Without(c, x)) {
        var e :| e in Without(c, x) && e.key == k;
        WithoutMembers(c, x, e);
      }
      if k in Keys(c) - {x} {
        var e :| e in c && e.key == k;
        WithoutMembers(c, x, e);
      }
    }
  }

  lemma {:induction false} DistinctCount(c: seq<Entry>)
    requires DistinctKeys(c)
    ensures |Keys(c)| == |c|
  {
    if c != [] {
      DistinctCount(c[1..]);
      assert c == [c[0]] + c[1..];
      assert Keys(c) == Keys(c[1..]) + {c[0].key};
      assert c[0].key !in Keys(c[1..]);
    }
  }

  lemma {:induction false} KeysBetweenPrefix(calls: seq<Call>, from: nat, to: nat, m: nat)
    requires from <= to <= m <= |calls|
    ensures KeysBetween(calls[..m], from, to) == KeysBetween(calls, from, to)
  {
    assert forall i | from <= i < to :: calls[..m][i] == calls[i];
  }

  lemma {:induction false} KeysBetweenSnoc(calls: seq<Call>, from: nat, n: nat)
    requires from <= n < |calls|
    ensures KeysBetween(calls, from, n + 1) == KeysBetween(calls, from, n) + {calls[n].key}
  {
  }

  /** One more sighting of another hash joins those in front of `k`. */
  lemma {:induction false} BeforeStep(older: seq<Entry>, last: Entry, k: nat)
    requires last.key != k
    ensures var newer := [last] + Without(older, last.key);
      && TimeOf(newer, k) == TimeOf(older, k)
      && Keys(Before(newer, k)) == Keys(Before(older, k)) + {last.key}
  {
    var rest := Without(older, last.key);
    WithoutOther(older, last.key, k);
    KeysWithout(Before(older, k), last.key);
    assert ([last] + rest)[1..] == rest;
    assert Keys([last] + Before(rest, k)) == {last.key} + Keys(Before(rest, k));
  }

  /** `k` stands in the recency list behind exactly the hashes sighted since its own last sighting. */
  predicate Positioned(calls: seq<Call>, k: nat) {
    match LastSighting(calls, |calls|, k)
    case None => TimeOf(Recency(calls), k) == None
    case Some(j) =>
      && TimeOf(Recency(calls), k) == Some(calls[j].time)
      && Keys(Before(Recency(calls), k)) == KeysBetween(calls, j + 1, |calls|)
  }

  lemma {:induction false} RecencyPosition(calls: seq<Call>, k: nat)
    ensures Positioned(calls, k)
  {
    if calls != [] {
      var n := |calls| - 1;
      RecencyPosition(calls[..n], k);
      if calls[n].key == k {
        assert KeysBetween(calls, n + 1, |calls|) == {};
      } else {
        PositionedNext(calls, k);
      }
    }
  }

  lemma {:induction false} PositionedNext(calls: seq<Call>, k: nat)
    requires calls != [] && calls[|calls| - 1].key != k && Positioned(calls[..|calls| - 1], k)
    ensures Positioned(calls, k)
  {
    var n := |calls| - 1;
    LastSightingOfPrefix(calls, n, n, k);
    BeforeStep(Recency(calls[..n]), calls[n], k);
    var j := LastSighting(calls, n, k);
    if j.Some? {
      KeysBetweenPrefix(calls, j.value + 1, n, n);
      KeysBetweenSnoc(calls, j.value + 1, n);
    }
  }

  lemma {:induction false} LastSightingOfPrefix(calls: seq<Call>, m: nat, n: nat, k: nat)
    requires n <= m <= |calls|
    ensures LastSighting(calls[..m], n, k) == LastSighting(calls, n, k)
  {
    if n > 0 {
      LastSightingOfPrefix(calls, m, n - 1, k);
    }
  }

  /** The statement about the whole history that a sighting decides. */
  predicate SeenBefore(calls: seq<Call>, i: nat, size: nat, ttl: int)
    requires i < |calls|
  {
    var j := LastSighting(calls, i, calls[i].key);
    && j.Some?
    && calls[i].time - calls[j.value].time < ttl
    && |KeysBetween(calls, j.value + 1, i)| < size
  }

  /** The bounded cache answers exactly the statement about the history. */
  lemma {:induction false} AnswerIsHistory(calls: seq<Call>, i: nat, size: nat, ttl: int)
    requires i < |calls| && size > 0
    ensures Answer(calls, i, size, ttl) <==> SeenBefore(calls, i, size, ttl)
  {
    var past, k := calls[..i], calls[i].key;
    CacheLookup(past, k, size);
    LastSightingOfPrefix(calls, i, i, k);
    var j := LastSighting(calls, i, k);
    if j.Some? {
      KeysBetweenPrefix(calls, j.value + 1, i, i);
      assert past[j.value] == calls[j.value];
    }
  }

  /** What the cache holds for `k`: its last time, unless `size` other hashes have pushed it out. */
  lemma {:induction false} CacheLookup(past: seq<Call>, k: nat, size: nat)
    requires size > 0
    ensures TimeOf(Cache(past, size), k) ==
      match LastSighting(past, |past|, k)
      case None => None
      case Some(j) => if |KeysBetween(past, j + 1, |past|)| < size then Some(past[j].time) else None
  {
    CacheIsRecent(past, size);
    TimeOfLimit(Recency(past), k, size);
    RecencyPosition(past, k);
    BeforeCount(past, k);
  }

  lemma {:induction false} BeforeCount(past: seq<Call>, k: nat)
    ensures |Keys(Before(Recency(past), k))| == |Before(Recency(past), k)|
  {
    RecencyDistinct(past);
    DistinctCount(Before(Recency(past), k));
  }

  // ---------------------------------------------------------------- against the unbounded map

  predicate ClockNeverGoesBack(calls: seq<Call>) {
    forall i, j | 0 <= i <= j < |calls| :: calls[i].time <= calls[j].time
  }

  /** The distinct hashes sighted in the last `ttl` up to sighting `i`. */
  function Window(calls: seq<Call>, i: nat, ttl: int): set<nat>
    requires i < |calls|
  {
    set j | 0 <= j <= i && calls[i].time - calls[j].time < ttl :: calls[j].key
  }

  /** A bounded cache never claims a sighting the unbounded map does not know. */
  lemma {:induction false} NeverFalselySeen(calls: seq<Call>, i: nat, size: nat, ttl: int)
    requires i < |calls| && size > 0
    ensures Answer(calls, i, size, ttl) ==> UnboundedAnswer(calls, i, ttl)
  {
    AnswerIsHistory(calls, i, size, ttl);
  }

  /** If every window holds at most `size` hashes, the bound makes no difference. */
  lemma {:induction false} BoundedAgreesWithUnbounded(calls: seq<Call>, i: nat, size: nat, ttl: int)
    requires i < |calls| && size > 0
    requires ClockNeverGoesBack(calls)
    requires |Window(calls, i, ttl)| <= size
    ensures Answer(calls, i, size, ttl) == UnboundedAnswer(calls, i, ttl)
  {
    AnswerIsHistory(calls, i, size, ttl);
    var k := calls[i].key;
    var j := LastSighting(calls, i, k);
    if UnboundedAnswer(calls, i, ttl) {
      var others := KeysBetween(calls, j.value + 1, i);
      assert others + {k} <= Window(calls, i, ttl);
      assert k !in others;
      SubsetSmaller(others + {k}, Window(calls, i, ttl));
    }
  }

  lemma {:induction false} SubsetSmaller<T>(a: set<T>, b: set<T>)
    requires a <= b
    ensures |a| <= |b|
  {
    assert b == a + (b - a);
  }
}
