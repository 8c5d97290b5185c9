/**
 * Deduplication under interleaving. A worker reads the clock, reads the cache and
 * writes the cache in three separate steps, so two workers may both miss. What
 * remains true: a suppressed event always leads back to one that was let through.
 */
module PipelineDedup {
  import opened Dedup
  import opened Events
  import opened PipelineRun
  import opened PipelineSafety

  /** The event has passed the duplicate test: it has been or will be given to the parser. */
  predicate LetThrough(p: Phase) {
    p.Fresh? || p.Failed? || p.Parsed? || p.Dispatching? || p.Added?
  }

  /** Some completed sighting has this hash and this time. */
  ghost predicate Sighted(c: Config, sg: seq<Sighting>, k: nat, t: int) {
    exists n | 0 <= n < |sg| :: c.Key(sg[n].i) == k && sg[n].time == t
  }

  /** Among the first `n` sightings one has this hash and is less than the time-to-live before `now`. */
  ghost predicate Recent(c: Config, sg: seq<Sighting>, n: nat, k: nat, now: int) {
    n <= |sg| && exists m | 0 <= m < n :: c.Key(sg[m].i) == k && now - sg[m].time < c.dedupTtl
  }

  ghost predicate SightedAs(sg: seq<Sighting>, i: nat, hit: bool) {
    exists n | 0 <= n < |sg| :: sg[n].i == i && sg[n].hit == hit
  }

  ghost predicate HandledAs(handled: seq<Handled>, i: nat, duplicate: bool) {
    exists h | 0 <= h < |handled| :: handled[h].i == i && (handled[h].verdict == Duplicate) == duplicate
  }

  ghost predicate InStage(ws: seq<Phase>, i: nat) {
    exists w | 0 <= w < |ws| :: LetThrough(ws[w]) && ws[w].i == i
  }

  /** Cache entries, pending answers and recorded hits all rest on completed sightings. */
  ghost predicate Grounded(c: Config, s: State) {
    var sg := s.history.sightings;
    && (forall e | e in s.cache :: Sighted(c, sg, e.key, e.time))
    && (forall w | 0 <= w < |s.workers| && s.workers[w].Looked? && s.workers[w].hit ::
          Recent(c, sg, |sg|, c.Key(s.workers[w].i), s.workers[w].now))
    && (forall n | 0 <= n < |sg| && sg[n].hit :: Recent(c, sg, n, c.Key(sg[n].i), sg[n].time))
  }

  /** Sightings and verdicts correspond. */
  ghost predicate Accounted(s: State) {
    var sg, handled := s.history.sightings, s.history.handled;
    && (forall h | 0 <= h < |handled| :: SightedAs(sg, handled[h].i, handled[h].verdict == Duplicate))
    && (forall w | 0 <= w < |s.workers| && s.workers[w].Suppressed? :: SightedAs(sg, s.workers[w].i, true))
    && (forall w | 0 <= w < |s.workers| && LetThrough(s.workers[w]) :: SightedAs(sg, s.workers[w].i, false))
    && (forall n | 0 <= n < |sg| && !sg[n].hit ::
          HandledAs(handled, sg[n].i, false) || InStage(s.workers, sg[n].i))
  }

  /** What a worker's step does to the cache, the sightings and its stage. */
  predicate DedupShape(c: Config, s: State, s': State, w: nat)
    requires w < |s.workers|
  {
    && |s'.workers| == |s.workers| && s'.workers == s.workers[w := s'.workers[w]]
    && var p, p' := s.workers[w], s'.workers[w];
    var sg, handled, handled' := s.history.sightings, s.history.handled, s'.history.handled;
    && (p.Timed? ==>
          && p' == Looked(p.i, p.now, Hit(TimeOf(s.cache, c.Key(p.i)), p.now, c.dedupTtl))
          && s'.cache == Touch(s.cache, c.Key(p.i)))
    && (p.Looked? ==>
          && p' == (if p.hit then Suppressed(p.i) else Fresh(p.i))
          && s'.cache == Put(s.cache, c.Key(p.i), p.now, c.dedupSize)
          && s'.history.sightings == sg + [Sighting(p.i, p.now, p.hit)])
    && (!p.Looked? ==> s'.history.sightings == sg)
    && (!p.Timed? && !p.Looked? ==> s'.cache == s.cache && !p'.Looked? && !p'.Suppressed?)
    && (p.Suppressed? ==> p'.Waiting? && PutAway(handled, handled', p.i) && handled'[|handled|].verdict == Duplicate)
    && (LetThrough(p) ==>
          || (LetThrough(p') && p'.i == p.i && handled' == handled)
          || (p'.Waiting? && PutAway(handled, handled', p.i) && handled'[|handled|].verdict != Duplicate))
    && (!LetThrough(p) && !p.Looked? ==> !LetThrough(p'))
    && (!LetThrough(p) && !p.Suppressed? ==> handled' == handled)
  }

  lemma {:induction false} WorkDedupShape(c: Config, s: State, w: nat, clock: int, order: seq<string>)
    requires Enabled(c, s, Work(w, clock, order))
    ensures DedupShape(c, s, WorkStep(c, s, w, clock, order), w)
  {
    var p := s.workers[w];
    if p.Timed? {
      TimedDedupShape(c, s, w, clock, order);
    } else if p.Looked? {
      LookedDedupShape(c, s, w, clock, order);
    } else if p.Suppressed? {
      SuppressedDedupShape(c, s, w, clock, order);
    } else if LetThrough(p) {
      ThroughDedupShape(c, s, w, clock, order);
    } else {
      OtherDedupShape(c, s, w, clock, order);
    }
  }

  lemma {:induction false} TimedDedupShape(c: Config, s: State, w: nat, clock: int, order: seq<string>)
    requires w < |s.workers| && s.workers[w].Timed?
    ensures DedupShape(c, s, WorkStep(c, s, w, clock, order), w)
  {
  }

  lemma {:induction false} LookedDedupShape(c: Config, s: State, w: nat, clock: int, order: seq<string>)
    requires w < |s.workers| && s.workers[w].Looked?
    ensures DedupShape(c, s, WorkStep(c, s, w, clock, order), w)
  {
  }

  lemma {:induction false} ThroughDedupShape(c: Config, s: State, w: nat, clock: int, order: seq<string>)
    requires w < |s.workers| && LetThrough(s.workers[w])
    ensures DedupShape(c, s, WorkStep(c, s, w, clock, order), w)
  {
    var p := s.workers[w];
    if p.Fresh? {
    } else if p.Failed? {
    } else if p.Parsed? {
    } else if p.Dispatching? {
      DispatchingDedupShape(c, s, w, clock, order);
    } else {
    }
  }

  lemma {:induction false} DispatchingDedupShape(c: Config, s: State, w: nat, clock: int, order: seq<string>)
    requires w < |s.workers| && s.workers[w].Dispatching?
    ensures DedupShape(c, s, WorkStep(c, s, w, clock, order), w)
  {
    var p := s.workers[w];
    if p.todo != [] {
    } else if p.names != [] {
    } else {
    }
  }

  lemma {:induction false} OtherDedupShape(c: Config, s: State, w: nat, clock: int, order: seq<string>)
    requires w < |s.workers| && !LetThrough(s.workers[w]) && !s.workers[w].Timed? && !s.workers[w].Looked?
    requires !s.workers[w].Suppressed? && !s.workers[w].Exited?
    ensures DedupShape(c, s, WorkStep(c, s, w, clock, order), w)
  {
    var p := s.workers[w];
    if p.Waiting? {
    } else if p.Received? {
    } else if p.Counted? {
    } else {
    }
  }

  lemma {:induction false} SuppressedDedupShape(c: Config, s: State, w: nat, clock: int, order: seq<string>)
    requires w < |s.workers| && s.workers[w].Suppressed?
    ensures DedupShape(c, s, WorkStep(c, s, w, clock, order), w)
  {
  }

  // ---------------------------------------------------------------- the cache only holds what was sighted

  lemma {:induction false} TimeOfIsEntry(c: seq<Entry>, k: nat)
    requires TimeOf(c, k).Some?
    ensures Entry(k, TimeOf(c, k).value) in c
  {
    if c[0].key != k {
      TimeOfIsEntry(c[1..], k);
    } else {
      assert c[0] == Entry(k, TimeOf(c, k).value);
    }
  }

  lemma {:induction false} TouchMembers(c: seq<Entry>, k: nat, e: Entry)
    requires e in Touch(c, k)
    ensures e in c
  {
    if TimeOf(c, k).Some? {
      TimeOfIsEntry(c, k);
      WithoutMembers(c, k, e);
    }
  }

  lemma {:induction false} PutMembers(c: seq<Entry>, k: nat, t: int, size: nat, e: Entry)
    requires e in Put(c, k, t, size)
    ensures e in c || e == Entry(k, t)
  {
    WithoutMembers(c, k, e);
  }

  lemma {:induction false} RecentGrows(c: Config, sg: seq<Sighting>, x: Sighting, n: nat, k: nat, now: int)
    requires Recent(c, sg, n, k, now)
    ensures Recent(c, sg + [x], n, k, now)
  {
    var m :| 0 <= m < n && c.Key(sg[m].i) == k && now - sg[m].time < c.dedupTtl;
    assert (sg + [x])[m] == sg[m];
  }

  lemma {:induction false} RecentWidens(c: Config, sg: seq<Sighting>, x: Sighting, k: nat, now: int)
    requires Recent(c, sg, |sg|, k, now)
    ensures Recent(c, sg + [x], |sg + [x]|, k, now)
  {
    var m :| 0 <= m < |sg| && c.Key(sg[m].i) == k && now - sg[m].time < c.dedupTtl;
    assert (sg + [x])[m] == sg[m];
  }

  lemma {:induction false} SightedGrows(c: Config, sg: seq<Sighting>, x: Sighting, k: nat, t: int)
    requires Sighted(c, sg, k, t) || (c.Key(x.i) == k && x.time == t)
    ensures Sighted(c, sg + [x], k, t)
  {
    if Sighted(c, sg, k, t) {
      var n :| 0 <= n < |sg| && c.Key(sg[n].i) == k && sg[n].time == t;
      assert (sg + [x])[n] == sg[n];
    } else {
      assert (sg + [x])[|sg|] == x;
    }
  }

  /** Reading the cache: the answer rests on a completed sighting. */
  lemma {:induction false} GroundedGet(c: Config, s: State, s': State, w: nat)
    requires Grounded(c, s) && w < |s.workers| && s.workers[w].Timed? && DedupShape(c, s, s', w)
    ensures Grounded(c, s')
  {
    var p, sg := s.workers[w], s.history.sightings;
    var k := c.Key(p.i);
    forall e | e in s'.cache ensures Sighted(c, sg, e.key, e.time) {
      TouchMembers(s.cache, k, e);
    }
    if s'.workers[w].hit {
      TimeOfIsEntry(s.cache, k);
      var t := TimeOf(s.cache, k).value;
      assert Sighted(c, sg, k, t);
      var n :| 0 <= n < |sg| && c.Key(sg[n].i) == k && sg[n].time == t;
      assert Recent(c, sg, |sg|, k, p.now);
    }
  }

  /** Writing the cache: the sighting is recorded. */
  lemma {:induction false} GroundedPut(c: Config, s: State, s': State, w: nat)
    requires Grounded(c, s) && w < |s.workers| && s.workers[w].Looked? && DedupShape(c, s, s', w)
    ensures Grounded(c, s')
  {
    var p, sg, sg' := s.workers[w], s.history.sightings, s'.history.sightings;
    var x := Sighting(p.i, p.now, p.hit);
    forall e | e in s'.cache ensures Sighted(c, sg', e.key, e.time) {
      PutMembers(s.cache, c.Key(p.i), p.now, c.dedupSize, e);
      SightedGrows(c, sg, x, e.key, e.time);
    }
    forall v | 0 <= v < |s'.workers| && s'.workers[v].Looked? && s'.workers[v].hit
      ensures Recent(c, sg', |sg'|, c.Key(s'.workers[v].i), s'.workers[v].now)
    {
      assert v != w && s'.workers[v] == s.workers[v];
      RecentWidens(c, sg, x, c.Key(s.workers[v].i), s.workers[v].now);
    }
    forall n | 0 <= n < |sg'| && sg'[n].hit ensures Recent(c, sg', n, c.Key(sg'[n].i), sg'[n].time) {
      RecentGrows(c, sg, x, n, c.Key(sg'[n].i), sg'[n].time);
    }
  }

  lemma {:induction false} GroundedStep(c: Config, s: State, a: Action)
    requires Grounded(c, s) && Enabled(c, s, a)
    ensures Grounded(c, Step(c, s, a))
  {
    if a.Work? {
      var s' := WorkStep(c, s, a.w, a.clock, a.order);
      WorkDedupShape(c, s, a.w, a.clock, a.order);
      GroundedWork(c, s, s', a.w);
    }
  }

  lemma {:induction false} GroundedWork(c: Config, s: State, s': State, w: nat)
    requires Grounded(c, s) && w < |s.workers| && DedupShape(c, s, s', w)
    ensures Grounded(c, s')
  {
    if s.workers[w].Timed? {
      GroundedGet(c, s, s', w);
    } else if s.workers[w].Looked? {
      GroundedPut(c, s, s', w);
    }
  }

  // ---------------------------------------------------------------- sightings and verdicts

  lemma {:induction false} SightedAsGrows(sg: seq<Sighting>, x: Sighting, i: nat, hit: bool)
    requires SightedAs(sg, i, hit) || (x.i == i && x.hit == hit)
    ensures SightedAs(sg + [x], i, hit)
  {
    if SightedAs(sg, i, hit) {
      var n :| 0 <= n < |sg| && sg[n].i == i && sg[n].hit == hit;
      assert (sg + [x])[n] == sg[n];
    } else {
      assert (sg + [x])[|sg|] == x;
    }
  }

  /** Putting an event away keeps the correspondence. */
  lemma {:induction false} HandledAsGrows(handled: seq<Handled>, handled': seq<Handled>, i: nat, j: nat,
                                          duplicate: bool)
    requires PutAway(handled, handled', j)
    requires HandledAs(handled, i, duplicate) || (i == j && (handled'[|handled|].verdict == Duplicate) == duplicate)
    ensures HandledAs(handled', i, duplicate)
  {
    if HandledAs(handled, i, duplicate) {
      var h :| 0 <= h < |handled| && handled[h].i == i && (handled[h].verdict == Duplicate) == duplicate;
      assert handled'[h] == handled'[..|handled|][h] == handled[h];
    }
  }

  lemma {:induction false} StageKept(ws: seq<Phase>, ws': seq<Phase>, w: nat, i: nat)
    requires w < |ws| && |ws'| == |ws| && ws' == ws[w := ws'[w]] && InStage(ws, i)
    requires LetThrough(ws[w]) && ws[w].i == i ==> LetThrough(ws'[w]) && ws'[w].i == i
    ensures InStage(ws', i)
  {
    var v :| 0 <= v < |ws| && LetThrough(ws[v]) && ws[v].i == i;
    assert v != w ==> ws'[v] == ws[v];
  }

  lemma {:induction false} AccountedPut(c: Config, s: State, s': State, w: nat)
    requires Accounted(s) && w < |s.workers| && s.workers[w].Looked? && DedupShape(c, s, s', w)
    ensures Accounted(s')
  {
    var p, sg, sg', handled := s.workers[w], s.history.sightings, s'.history.sightings, s.history.handled;
    var x := Sighting(p.i, p.now, p.hit);
    forall h | 0 <= h < |handled| ensures SightedAs(sg', handled[h].i, handled[h].verdict == Duplicate) {
      SightedAsGrows(sg, x, handled[h].i, handled[h].verdict == Duplicate);
    }
    forall v | 0 <= v < |s'.workers| && s'.workers[v].Suppressed? ensures SightedAs(sg', s'.workers[v].i, true) {
      SightedAsGrows(sg, x, s'.workers[v].i, true);
    }
    forall v | 0 <= v < |s'.workers| && LetThrough(s'.workers[v]) ensures SightedAs(sg', s'.workers[v].i, false) {
      SightedAsGrows(sg, x, s'.workers[v].i, false);
    }
    forall n | 0 <= n < |sg'| && !sg'[n].hit
      ensures HandledAs(handled, sg'[n].i, false) || InStage(s'.workers, sg'[n].i)
    {
      if n < |sg| && InStage(s.workers, sg[n].i) {
        StageKept(s.workers, s'.workers, w, sg[n].i);
      }
    }
  }

  lemma {:induction false} AccountedAway(c: Config, s: State, s': State, w: nat)
    requires Accounted(s) && w < |s.workers| && DedupShape(c, s, s', w)
    requires (s.workers[w].Suppressed? || LetThrough(s.workers[w])) && s'.workers[w].Waiting?
    ensures Accounted(s')
  {
    var i, sg, handled, handled' := s.workers[w].i, s.history.sightings, s.history.handled, s'.history.handled;
    forall h | 0 <= h < |handled'| ensures SightedAs(sg, handled'[h].i, handled'[h].verdict == Duplicate) {
      if h < |handled| { assert handled'[h] == handled'[..|handled|][h] == handled[h]; }
    }
    forall n | 0 <= n < |sg| && !sg[n].hit
      ensures HandledAs(handled', sg[n].i, false) || InStage(s'.workers, sg[n].i)
    {
      if HandledAs(handled, sg[n].i, false) || (LetThrough(s.workers[w]) && sg[n].i == i) {
        HandledAsGrows(handled, handled', sg[n].i, i, false);
      } else {
        StageKept(s.workers, s'.workers, w, sg[n].i);
      }
    }
  }

  lemma {:induction false} AccountedWork(c: Config, s: State, s': State, w: nat)
    requires Accounted(s) && w < |s.workers| && DedupShape(c, s, s', w)
    ensures Accounted(s')
  {
    var p, p' := s.workers[w], s'.workers[w];
    if p.Looked? {
      AccountedPut(c, s, s', w);
    } else if (p.Suppressed? || LetThrough(p)) && p'.Waiting? {
      AccountedAway(c, s, s', w);
    } else {
      var sg := s.history.sightings;
      forall n | 0 <= n < |sg| && !sg[n].hit
        ensures HandledAs(s.history.handled, sg[n].i, false) || InStage(s'.workers, sg[n].i)
      {
        if InStage(s.workers, sg[n].i) {
          StageKept(s.workers, s'.workers, w, sg[n].i);
        }
      }
    }
  }

  lemma {:induction false} AccountedStep(c: Config, s: State, a: Action)
    requires Accounted(s) && Enabled(c, s, a)
    ensures Accounted(Step(c, s, a))
  {
    if a.Work? {
      WorkDedupShape(c, s, a.w, a.clock, a.order);
      AccountedWork(c, s, WorkStep(c, s, a.w, a.clock, a.order), a.w);
    }
  }

  lemma {:induction false} DedupAlong(c: Config, states: seq<State>, actions: seq<Action>, n: nat)
    requires IsRun(c, states, actions) && n <= |actions|
    ensures Grounded(c, states[n]) && Accounted(states[n])
  {
    if n > 0 {
      DedupAlong(c, states, actions, n - 1);
      GroundedStep(c, states[n - 1], actions[n - 1]);
      AccountedStep(c, states[n - 1], actions[n - 1]);
    }
  }

  lemma {:induction false} DedupHolds(c: Config, s: State)
    requires Reachable(c, s)
    ensures Grounded(c, s) && Accounted(s)
  {
    var states, actions :| IsRun(c, states, actions) && states[|actions|] == s;
    DedupAlong(c, states, actions, |actions|);
  }

  // ---------------------------------------------------------------- suppression is justified

  /**
   * A chain of sightings of one hash going back in the order of the cache writes,
   * each suppressed less than the time-to-live after the next, the last one not suppressed.
   */
  ghost predicate Chain(c: Config, sg: seq<Sighting>, path: seq<nat>) {
    && path != []
    && (forall j | 0 <= j < |path| :: path[j] < |sg|)
    && (forall j | 0 <= j < |path| :: c.Key(sg[path[j]].i) == c.Key(sg[path[0]].i))
    && (forall j | 0 <= j < |path| - 1 ::
          path[j + 1] < path[j] && sg[path[j]].hit && sg[path[j]].time - sg[path[j + 1]].time < c.dedupTtl)
    && !sg[path[|path| - 1]].hit
  }

  lemma {:induction false} ChainFrom(c: Config, s: State, n: nat) returns (path: seq<nat>)
    requires Grounded(c, s) && n < |s.history.sightings|
    ensures Chain(c, s.history.sightings, path) && path[0] == n
  {
    var sg := s.history.sightings;
    if sg[n].hit {
      assert Recent(c, sg, n, c.Key(sg[n].i), sg[n].time);
      var m :| 0 <= m < n && c.Key(sg[m].i) == c.Key(sg[n].i) && sg[n].time - sg[m].time < c.dedupTtl;
      var rest := ChainFrom(c, s, m);
      path := [n] + rest;
    } else {
      path := [n];
    }
  }

  /** In every reachable state, every suppressed event leads back to one of the same hash that was let through. */
  lemma {:induction false} SuppressionIsJustified(c: Config, s: State, h: nat)
    returns (path: seq<nat>)
    requires Reachable(c, s) && h < |s.history.handled| && s.history.handled[h].verdict == Duplicate
    ensures Chain(c, s.history.sightings, path) && |path| >= 2
    ensures s.history.sightings[path[0]].i == s.history.handled[h].i
  {
    DedupHolds(c, s);
    var sg := s.history.sightings;
    assert SightedAs(sg, s.history.handled[h].i, true);
    var n :| 0 <= n < |sg| && sg[n].i == s.history.handled[h].i && sg[n].hit;
    path := ChainFrom(c, s, n);
  }

  /** When Run returns, every hash delivered has been given to the parser at least once. */
  lemma {:induction false} EveryHashParsed(c: Config, s: State, i: nat) returns (j: nat)
    requires Reachable(c, s) && s.main.Finished? && i < s.sent
    ensures j < s.sent && s.sent <= |c.events| && HandledAs(s.history.handled, j, false)
    ensures c.hash(c.events[j].payload) == c.hash(c.events[i].payload)
  {
    DedupHolds(c, s);
    var n := SightingOf(c, s, i);
    var path := ChainFrom(c, s, n);
    j := s.history.sightings[path[|path| - 1]].i;
    LetThroughHandled(c, s, path[|path| - 1]);
    SameHash(c, i, j);
  }

  lemma {:induction false} SameHash(c: Config, i: nat, j: nat)
    requires c.Key(i) == c.Key(j) && i < |c.events| && j < |c.events|
    ensures c.hash(c.events[j].payload) == c.hash(c.events[i].payload)
  {
  }

  /** When Run returns, every event delivered has a sighting. */
  lemma {:induction false} SightingOf(c: Config, s: State, i: nat) returns (n: nat)
    requires Reachable(c, s) && s.main.Finished? && i < s.sent
    ensures n < |s.history.sightings| && s.history.sightings[n].i == i && s.sent <= |c.events|
  {
    DedupHolds(c, s);
    NothingLost(c, s);
    ReturnMeansDrained(c, s);
    var handled := s.history.handled;
    SpanCount(s.sent, i);
    assert i in multiset(Ids(handled));
    var h :| 0 <= h < |handled| && Ids(handled)[h] == i;
    assert SightedAs(s.history.sightings, i, handled[h].verdict == Duplicate);
    n :| 0 <= n < |s.history.sightings| && s.history.sightings[n].i == i;
  }

  /** When Run returns, an event that was let through has been handled, not as a duplicate. */
  lemma {:induction false} LetThroughHandled(c: Config, s: State, n: nat)
    requires Reachable(c, s) && s.main.Finished? && n < |s.history.sightings| && !s.history.sightings[n].hit
    ensures HandledAs(s.history.handled, s.history.sightings[n].i, false)
    ensures s.history.sightings[n].i < s.sent <= |c.events|
  {
    DedupHolds(c, s);
    NothingLost(c, s);
    ReturnMeansDrained(c, s);
    var j, handled := s.history.sightings[n].i, s.history.handled;
    assert !InStage(s.workers, j);
    var g :| 0 <= g < |handled| && handled[g].i == j && handled[g].verdict != Duplicate;
    assert Ids(handled)[g] == j;
    SpanCount(s.sent, j);
    assert j in multiset(Ids(handled));
  }
}
