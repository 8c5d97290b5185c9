/**
 * What deduplication answers in a run: every event is sighted exactly once, and with
 * a single worker the answers are those of the history of sightings.
 */
module PipelineHistory {
  import opened Prelude
  import opened Dedup
  import opened Events
  import opened PipelineRun
  import opened PipelineSafety
  import opened PipelineDedup

  // ---------------------------------------------------------------- each event is sighted once

  function SightedIds(sg: seq<Sighting>): (ids: seq<nat>)
    ensures |ids| == |sg|
    ensures forall n | 0 <= n < |sg| :: ids[n] == sg[n].i
  {
    seq(|sg|, n requires 0 <= n < |sg| => sg[n].i)
  }

  /** The worker has an event in hand whose sighting is recorded. */
  predicate HasSighted(p: Phase) {
    p.Suppressed? || LetThrough(p)
  }

  function Recorded(ws: seq<Phase>): multiset<nat> {
    if ws == [] then multiset{} else RecordedBy(ws[0]) + Recorded(ws[1..])
  }

  function RecordedBy(p: Phase): multiset<nat> {
    if HasSighted(p) then multiset{p.i} else multiset{}
  }

  lemma {:induction false} RecordedUpdate(ws: seq<Phase>, w: nat, p: Phase)
    requires w < |ws|
    ensures Recorded(ws[w := p]) + RecordedBy(ws[w]) == Recorded(ws) + RecordedBy(p)
  {
    if w == 0 {
      assert ws[0 := p][1..] == ws[1..];
    } else {
      var rest := ws[1..];
      RecordedUpdate(rest, w - 1, p);
      assert ws[w := p][1..] == rest[w - 1 := p];
      assert Recorded(ws[w := p]) == RecordedBy(ws[0]) + Recorded(rest[w - 1 := p]);
      BagAssociative(RecordedBy(ws[0]), Recorded(rest[w - 1 := p]), RecordedBy(ws[w]));
      BagAssociative(RecordedBy(ws[0]), Recorded(rest), RecordedBy(p));
    }
  }

  lemma {:induction false} NobodyRecorded(ws: seq<Phase>)
    requires forall w | 0 <= w < |ws| :: !HasSighted(ws[w])
    ensures Recorded(ws) == multiset{}
  {
    if ws != [] {
      assert forall w | 0 <= w < |ws| - 1 :: ws[1..][w] == ws[w + 1];
      NobodyRecorded(ws[1..]);
    }
  }

  /** The events sighted are those handled and those in hand past the duplicate test. */
  ghost predicate SightedOnce(s: State) {
    multiset(SightedIds(s.history.sightings)) == multiset(Ids(s.history.handled)) + Recorded(s.workers)
  }

  lemma {:induction false} SightedOnceWork(c: Config, s: State, s': State, w: nat)
    requires SightedOnce(s) && w < |s.workers| && DedupShape(c, s, s', w)
    ensures SightedOnce(s')
  {
    var p := s.workers[w];
    if p.Looked? {
      LookedOnce(c, s, s', w);
    } else if HasSighted(p) && s'.workers[w].Waiting? {
      AwayOnce(c, s, s', w);
    } else {
      RecordedSame(c, s, s', w);
      RecordedUpdate(s.workers, w, s'.workers[w]);
      OnceSame(s, s', RecordedBy(p));
    }
  }

  lemma {:induction false} LookedOnce(c: Config, s: State, s': State, w: nat)
    requires SightedOnce(s) && w < |s.workers| && DedupShape(c, s, s', w) && s.workers[w].Looked?
    ensures SightedOnce(s')
  {
    var p := s.workers[w];
    RecordedUpdate(s.workers, w, s'.workers[w]);
    NewlySighted(s.history.sightings, Sighting(p.i, p.now, p.hit));
    OnceSighted(s, s', p.i);
  }

  lemma {:induction false} AwayOnce(c: Config, s: State, s': State, w: nat)
    requires SightedOnce(s) && w < |s.workers| && DedupShape(c, s, s', w)
    requires HasSighted(s.workers[w]) && s'.workers[w].Waiting?
    ensures SightedOnce(s')
  {
    RecordedUpdate(s.workers, w, s'.workers[w]);
    OncePutAway(s, s', s.workers[w].i);
  }

  lemma {:induction false} NewlySighted(sg: seq<Sighting>, x: Sighting)
    ensures SightedIds(sg + [x]) == SightedIds(sg) + [x.i]
  {
  }

  lemma {:induction false} RecordedSame(c: Config, s: State, s': State, w: nat)
    requires w < |s.workers| && DedupShape(c, s, s', w)
    requires var p := s.workers[w]; !p.Looked? && !(HasSighted(p) && s'.workers[w].Waiting?)
    ensures RecordedBy(s'.workers[w]) == RecordedBy(s.workers[w])
    ensures s'.history.sightings == s.history.sightings && s'.history.handled == s.history.handled
  {
  }

  lemma {:induction false} OnceSame(s: State, s': State, held: multiset<nat>)
    requires SightedOnce(s) && Recorded(s'.workers) + held == Recorded(s.workers) + held
    requires s'.history.sightings == s.history.sightings && s'.history.handled == s.history.handled
    ensures SightedOnce(s')
  {
    BagCancel(Recorded(s'.workers), Recorded(s.workers), held);
  }

  lemma {:induction false} OnceSighted(s: State, s': State, i: nat)
    requires SightedOnce(s) && s'.history.handled == s.history.handled
    requires SightedIds(s'.history.sightings) == SightedIds(s.history.sightings) + [i]
    requires Recorded(s'.workers) == Recorded(s.workers) + multiset{i}
    ensures SightedOnce(s')
  {
    BagAssociative(multiset(Ids(s.history.handled)), Recorded(s.workers), multiset{i});
  }

  lemma {:induction false} OncePutAway(s: State, s': State, i: nat)
    requires SightedOnce(s) && s'.history.sightings == s.history.sightings
    requires PutAway(s.history.handled, s'.history.handled, i)
    requires Recorded(s'.workers) + multiset{i} == Recorded(s.workers)
    ensures SightedOnce(s')
  {
    IdsPutAway(s.history.handled, s'.history.handled, i);
    AwayBag(multiset(Ids(s.history.handled)), Recorded(s.workers), Recorded(s'.workers), multiset{i});
  }

  lemma {:induction false} IdsPutAway(handled: seq<Handled>, handled': seq<Handled>, i: nat)
    requires PutAway(handled, handled', i)
    ensures multiset(Ids(handled')) == multiset(Ids(handled)) + multiset{i}
  {
    assert Ids(handled') == Ids(handled) + [i];
  }

  lemma {:induction false} AwayBag(handled: multiset<nat>, held: multiset<nat>, held': multiset<nat>, x: multiset<nat>)
    requires held' + x == held
    ensures (handled + x) + held' == handled + held
  {
  }

  // ---------------------------------------------------------------- one worker

  /** The history of cache writes that the sightings stand for. */
  function CallsOf(c: Config, sg: seq<Sighting>): (calls: seq<Call>)
    ensures |calls| == |sg|
    ensures forall n | 0 <= n < |sg| :: calls[n] == Entry(c.Key(sg[n].i), sg[n].time)
  {
    seq(|sg|, n requires 0 <= n < |sg| => Entry(c.Key(sg[n].i), sg[n].time))
  }

  /** Every recorded answer is the one the history before it calls for, and sightings follow the source order. */
  ghost predicate AnswersRight(c: Config, sg: seq<Sighting>) {
    forall n | 0 <= n < |sg| :: sg[n].i == n && sg[n].hit == Answer(CallsOf(c, sg), n, c.dedupSize, c.dedupTtl)
  }

  /** The cache is that of the history, or has just been read. */
  ghost predicate CacheRight(c: Config, cache: seq<Entry>, sg: seq<Sighting>, p: Phase) {
    var known := Cache(CallsOf(c, sg), c.dedupSize);
    if p.Looked? then
      && p.hit == Hit(TimeOf(known, c.Key(p.i)), p.now, c.dedupTtl)
      && cache == Touch(known, c.Key(p.i))
    else cache == known
  }

  /** The single worker is the only one to touch the cache. */
  ghost predicate Sequential(c: Config, s: State) {
    |s.workers| == 1 ==>
      && AnswersRight(c, s.history.sightings)
      && CacheRight(c, s.cache, s.history.sightings, s.workers[0])
      && |s.history.sightings| == |s.history.handled| + if HasSighted(s.workers[0]) then 1 else 0
  }

  lemma {:induction false} AnswersNext(c: Config, sg: seq<Sighting>, x: Sighting, cache: seq<Entry>)
    requires AnswersRight(c, sg) && CacheRight(c, cache, sg, Looked(x.i, x.time, x.hit)) && x.i == |sg|
    ensures AnswersRight(c, sg + [x])
    ensures Put(cache, c.Key(x.i), x.time, c.dedupSize) == Cache(CallsOf(c, sg + [x]), c.dedupSize)
  {
    var calls, calls' := CallsOf(c, sg), CallsOf(c, sg + [x]);
    assert calls' == calls + [Entry(c.Key(x.i), x.time)];
    assert calls'[..|sg|] == calls;
    PutAfterTouch(Cache(calls, c.dedupSize), c.Key(x.i), x.time, c.dedupSize);
    forall n | 0 <= n < |sg|
      ensures Answer(calls', n, c.dedupSize, c.dedupTtl) == Answer(calls, n, c.dedupSize, c.dedupTtl)
    {
      assert calls'[..n] == calls[..n];
    }
  }

  lemma {:induction false} SequentialWork(c: Config, s: State, s': State)
    requires Sequential(c, s) && InOrder(s) && |s.workers| == 1 && DedupShape(c, s, s', 0)
    ensures Sequential(c, s')
  {
    var p, sg := s.workers[0], s.history.sightings;
    if p.Looked? {
      HeldIsNext(s);
      AnswersNext(c, sg, Sighting(p.i, p.now, p.hit), s.cache);
    }
  }

  /** With one worker, the event in hand follows those handled. */
  lemma {:induction false} HeldIsNext(s: State)
    requires InOrder(s) && |s.workers| == 1 && s.workers[0].Busy()
    ensures s.workers[0].i == |s.history.handled|
  {
    var n := |s.history.handled|;
    assert (Ids(s.history.handled) + Held(s.workers[0]))[n] == s.workers[0].i;
    assert Span(0, Taken(s))[n] == n;
  }

  // ---------------------------------------------------------------- all reachable states

  lemma {:induction false} HistoryStep(c: Config, s: State, a: Action)
    requires SightedOnce(s) && Sequential(c, s) && Protocol(c, s) && Enabled(c, s, a)
    ensures SightedOnce(Step(c, s, a)) && Sequential(c, Step(c, s, a))
  {
    if a.Work? {
      var s' := WorkStep(c, s, a.w, a.clock, a.order);
      WorkDedupShape(c, s, a.w, a.clock, a.order);
      SightedOnceWork(c, s, s', a.w);
      if |s.workers| == 1 {
        SequentialWork(c, s, s');
      }
    }
  }

  lemma {:induction false} HistoryAlong(c: Config, states: seq<State>, actions: seq<Action>, n: nat)
    requires IsRun(c, states, actions) && n <= |actions|
    ensures SightedOnce(states[n]) && Sequential(c, states[n])
  {
    if n == 0 {
      NobodyRecorded(Init(c).workers);
    } else {
      HistoryAlong(c, states, actions, n - 1);
      ProtocolAlong(c, states, actions, n - 1);
      HistoryStep(c, states[n - 1], actions[n - 1]);
    }
  }

  lemma {:induction false} HistoryHolds(c: Config, s: State)
    requires Reachable(c, s)
    ensures SightedOnce(s) && Sequential(c, s)
  {
    var states, actions :| IsRun(c, states, actions) && states[|actions|] == s;
    HistoryAlong(c, states, actions, |actions|);
  }

  /** When Run returns, every event delivered has been sighted exactly once. */
  lemma {:induction false} EachEventSightedOnce(c: Config, s: State)
    requires Reachable(c, s) && s.main.Finished?
    ensures multiset(SightedIds(s.history.sightings)) == multiset(Span(0, s.sent))
  {
    HistoryHolds(c, s);
    ReturnMeansDrained(c, s);
    NobodyRecorded(s.workers);
  }

  /** With one worker the run answers, in source order, exactly the statement about the history. */
  lemma {:induction false} OneWorkerAnswersHistory(c: Config, s: State, n: nat)
    requires Reachable(c, s) && c.Workers() == 1 && c.dedupSize > 0 && n < |s.history.sightings|
    ensures var x := s.history.sightings[n];
      x.i == n && (x.hit <==> SeenBefore(CallsOf(c, s.history.sightings), n, c.dedupSize, c.dedupTtl))
  {
    HistoryHolds(c, s);
    ProtocolHolds(c, s);
    AnswerIsHistory(CallsOf(c, s.history.sightings), n, c.dedupSize, c.dedupTtl);
  }

  /** With one worker an event is a duplicate exactly when its hash was seen before in that sense. */
  lemma {:induction false} OneWorkerVerdicts(c: Config, s: State, h: nat)
    requires Reachable(c, s) && c.Workers() == 1 && c.dedupSize > 0 && h < |s.history.handled|
    ensures var x, calls := s.history.handled[h], CallsOf(c, s.history.sightings);
      && x.i == h && h < |calls|
      && (x.verdict == Duplicate <==> SeenBefore(calls, h, c.dedupSize, c.dedupTtl))
  {
    HistoryHolds(c, s);
    ProtocolHolds(c, s);
    DedupHolds(c, s);
    var x, sg := s.history.handled[h], s.history.sightings;
    HandledInOrder(s, h);
    assert SightedAs(sg, x.i, x.verdict == Duplicate);
    var n :| 0 <= n < |sg| && sg[n].i == x.i && sg[n].hit == (x.verdict == Duplicate);
    OneWorkerAnswersHistory(c, s, n);
  }

  lemma {:induction false} HandledInOrder(s: State, h: nat)
    requires InOrder(s) && |s.workers| == 1 && h < |s.history.handled|
    ensures s.history.handled[h].i == h
  {
    assert (Ids(s.history.handled) + Held(s.workers[0]))[h] == s.history.handled[h].i;
    assert Span(0, Taken(s))[h] == h;
  }
}
