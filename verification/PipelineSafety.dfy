/**
 * What every interleaving of the pipeline keeps: the channel protocol, exactly-once
 * handling, and the drain before return.
 */
module PipelineSafety {
  import opened Prelude
  import opened PipelineRun

  // ---------------------------------------------------------------- the channel protocol

  function HasExited(p: Phase): nat {
    if p.Exited? then 1 else 0
  }

  function Joined(c: Config, m: MainPhase): nat {
    match m
    case Joining(n) => n
    case Finished => c.Workers()
    case _ => 0
  }

  ghost predicate Channels(c: Config, s: State) {
    && |s.workers| == c.Workers()
    && s.sent <= |c.events| && |s.queue| <= CAPACITY && !s.panicked
    && (s.closed <==> s.main.Joining? || s.main.Finished?)
    && (s.source.Running? || s.cancelled)
    && s.srcDone == (if s.source.Done? && s.main.AwaitSource? then 1 else 0)
    && (!s.main.AwaitSource? ==> s.source.Done?)
    && (forall w | 0 <= w < |s.workers| && (s.workers[w].Leaving? || s.workers[w].Exited?) :: s.closed && s.queue == [])
    && s.workerDone + Joined(c, s.main) == Sum(HasExited, s.workers)
    && Joined(c, s.main) <= c.Workers()
  }

  lemma {:induction false} ChannelsInit(c: Config)
    ensures Channels(c, Init(c))
  {
    SumZeroInitially(HasExited, Init(c).workers);
  }

  /** The fields that belong to the source, the main goroutine and the environment. */
  predicate SameOutside(s: State, s': State) {
    && s'.cancelled == s.cancelled && s'.sent == s.sent && s'.source == s.source && s'.srcDone == s.srcDone
    && s'.closed == s.closed && s'.panicked == s.panicked && s'.main == s.main
    && s'.rules == s.rules && s'.history.published == s.history.published
  }

  /** How a worker's step moves events: take one, keep it, put it away, leave, or report. */
  predicate Shape(s: State, s': State, w: nat)
    requires w < |s.workers|
  {
    && SameOutside(s, s')
    && |s'.workers| == |s.workers| && s'.workers == s.workers[w := s'.workers[w]]
    && var p, p' := s.workers[w], s'.workers[w];
    var handled, handled' := s.history.handled, s'.history.handled;
    && s'.workerDone == s.workerDone + HasExited(p')
    && (if p.Waiting? && s.queue != [] then p' == Received(s.queue[0]) && s'.queue == s.queue[1..]
        else s'.queue == s.queue)
    && (p.Waiting? && s.queue == [] ==> p'.Leaving?)
    && (p.Leaving? ==> p'.Exited?)
    && !p.Exited?
    && (p.Busy() && p'.Busy() ==> p'.i == p.i)
    && (p.Busy() && !p'.Busy() ==> p'.Waiting? && PutAway(handled, handled', p.i))
    && (!p.Busy() || p'.Busy() ==> handled' == handled)
  }

  predicate PutAway(handled: seq<Handled>, handled': seq<Handled>, i: nat) {
    |handled'| == |handled| + 1 && handled'[..|handled|] == handled && handled'[|handled|].i == i
  }

  lemma {:induction false} WorkShape(c: Config, s: State, w: nat, clock: int, order: seq<string>)
    requires Enabled(c, s, Work(w, clock, order))
    ensures Shape(s, WorkStep(c, s, w, clock, order), w)
  {
    var p := s.workers[w];
    if p.Waiting? || p.Leaving? {
      IdleShape(c, s, w, clock, order);
    } else if p.Received? || p.Counted? || p.Timed? || p.Looked? || p.Fresh? {
      EarlyShape(c, s, w, clock, order);
    } else if p.Suppressed? || p.Failed? {
      RejectShape(c, s, w, clock, order);
    } else if p.Parsed? {
      LoadShape(c, s, w, clock, order);
    } else {
      DispatchShape(c, s, w, clock, order);
    }
  }

  lemma {:induction false} LoadShape(c: Config, s: State, w: nat, clock: int, order: seq<string>)
    requires w < |s.workers| && s.workers[w].Parsed?
    ensures Shape(s, WorkStep(c, s, w, clock, order), w)
  {
  }

  lemma {:induction false} IdleShape(c: Config, s: State, w: nat, clock: int, order: seq<string>)
    requires w < |s.workers| && (s.workers[w].Waiting? || s.workers[w].Leaving?)
    ensures Shape(s, WorkStep(c, s, w, clock, order), w)
  {
  }

  lemma {:induction false} EarlyShape(c: Config, s: State, w: nat, clock: int, order: seq<string>)
    requires w < |s.workers|
    requires var p := s.workers[w]; p.Received? || p.Counted? || p.Timed? || p.Looked? || p.Fresh?
    ensures Shape(s, WorkStep(c, s, w, clock, order), w)
  {
  }

  lemma {:induction false} RejectShape(c: Config, s: State, w: nat, clock: int, order: seq<string>)
    requires w < |s.workers| && (s.workers[w].Suppressed? || s.workers[w].Failed?)
    ensures Shape(s, WorkStep(c, s, w, clock, order), w)
  {
  }

  lemma {:induction false} DispatchShape(c: Config, s: State, w: nat, clock: int, order: seq<string>)
    requires w < |s.workers| && (s.workers[w].Dispatching? || s.workers[w].Added?)
    ensures Shape(s, WorkStep(c, s, w, clock, order), w)
  {
    var p := s.workers[w];
    if p.Dispatching? && p.todo != [] {
      WriteShape(c, s, w, clock, order);
    } else if p.Dispatching? && p.names != [] {
      LookupShape(c, s, w, clock, order);
    }
  }

  lemma {:induction false} WriteShape(c: Config, s: State, w: nat, clock: int, order: seq<string>)
    requires w < |s.workers| && s.workers[w].Dispatching? && s.workers[w].todo != []
    ensures Shape(s, WorkStep(c, s, w, clock, order), w)
  {
  }

  lemma {:induction false} LookupShape(c: Config, s: State, w: nat, clock: int, order: seq<string>)
    requires w < |s.workers| && s.workers[w].Dispatching? && s.workers[w].todo == [] && s.workers[w].names != []
    ensures Shape(s, WorkStep(c, s, w, clock, order), w)
  {
  }

  lemma {:induction false} ChannelsWork(c: Config, s: State, s': State, w: nat)
    requires Channels(c, s) && w < |s.workers| && Shape(s, s', w)
    requires s.workers[w].Waiting? ==> s.queue != [] || s.closed
    ensures Channels(c, s')
  {
    SumUpdate(HasExited, s.workers, w, s'.workers[w]);
  }

  lemma {:induction false} ChannelsStep(c: Config, s: State, a: Action)
    requires Channels(c, s) && Enabled(c, s, a)
    ensures Channels(c, Step(c, s, a))
  {
    if a.Work? {
      WorkShape(c, s, a.w, a.clock, a.order);
      ChannelsWork(c, s, Step(c, s, a), a.w);
    }
  }

  // ---------------------------------------------------------------- conservation of events

  function Span(from: nat, to: nat): (r: seq<nat>)
    ensures |r| == if from <= to then to - from else 0
    ensures forall k | 0 <= k < |r| :: r[k] == from + k
  {
    if from <= to then seq(to - from, k => from + k) else []
  }

  function Ids(handled: seq<Handled>): (r: seq<nat>)
    ensures |r| == |handled|
    ensures forall k | 0 <= k < |r| :: r[k] == handled[k].i
  {
    seq(|handled|, k requires 0 <= k < |handled| => handled[k].i)
  }

  /** How many events have left the channel. */
  function Taken(s: State): nat {
    if |s.queue| <= s.sent then s.sent - |s.queue| else 0
  }

  ghost predicate Conserved(s: State) {
    && |s.queue| <= s.sent
    && s.queue == Span(Taken(s), s.sent)
    && multiset(Ids(s.history.handled)) + InHand(s.workers) == multiset(Span(0, Taken(s)))
  }

  lemma {:induction false} SpanCount(n: nat, x: nat)
    ensures multiset(Span(0, n))[x] == if x < n then 1 else 0
  {
    CountOnce(Span(0, n), x);
    if x < n {
      assert Span(0, n)[x] == x;
    }
  }

  lemma {:induction false} SpanNext(from: nat, n: nat)
    requires from <= n
    ensures Span(from, n + 1) == Span(from, n) + [n]
  {
  }

  lemma {:induction false} ConservedInit(c: Config)
    ensures Conserved(Init(c))
  {
    NobodyBusy(Init(c).workers);
  }

  lemma {:induction false} ConservedWork(s: State, s': State, w: nat)
    requires Conserved(s) && w < |s.workers| && Shape(s, s', w)
    ensures Conserved(s')
  {
    var p, p' := s.workers[w], s'.workers[w];
    if p.Waiting? && s.queue != [] {
      ConservedReceive(s, s', w);
    } else if p.Busy() && !p'.Busy() {
      ConservedFinish(s, s', w);
    } else {
      InHandUpdate(s.workers, w, p');
      BagCancel(InHand(s'.workers), InHand(s.workers), HeldBy(p));
    }
  }

  /** A worker takes the oldest event out of the channel. */
  lemma {:induction false} ConservedReceive(s: State, s': State, w: nat)
    requires Conserved(s) && w < |s.workers| && s.workers[w].Waiting? && s.queue != []
    requires s'.workers == s.workers[w := Received(s.queue[0])] && s'.queue == s.queue[1..] && s'.sent == s.sent
    requires s'.history.handled == s.history.handled
    ensures Conserved(s')
  {
    var q, n := s.queue[0], Taken(s);
    InHandUpdate(s.workers, w, Received(q));
    SpanNext(0, n);
    SpanHead(n, s.sent);
    TakenBag(multiset(Ids(s.history.handled)), InHand(s.workers), InHand(s'.workers), q, Span(0, n));
  }

  lemma {:induction false} SpanHead(from: nat, to: nat)
    requires from < to
    ensures Span(from, to)[0] == from && Span(from, to)[1..] == Span(from + 1, to)
  {
  }

  lemma {:induction false} TakenBag(handled: multiset<nat>, hand: multiset<nat>, hand': multiset<nat>,
                                    q: nat, span: seq<nat>)
    requires handled + hand == multiset(span) && hand' == hand + multiset{q}
    ensures handled + hand' == multiset(span + [q])
  {
    BagAssociative(handled, hand, multiset{q});
  }

  /** A worker puts its event away. */
  lemma {:induction false} ConservedFinish(s: State, s': State, w: nat)
    requires Conserved(s) && w < |s.workers| && s.workers[w].Busy()
    requires s'.workers == s.workers[w := Waiting] && s'.queue == s.queue && s'.sent == s.sent
    requires PutAway(s.history.handled, s'.history.handled, s.workers[w].i)
    ensures Conserved(s')
  {
    var i, before := s.workers[w].i, multiset(Ids(s.history.handled));
    InHandUpdate(s.workers, w, Waiting);
    assert Ids(s'.history.handled) == Ids(s.history.handled) + [i];
    assert multiset(Ids(s'.history.handled)) == before + multiset{i};
    assert InHand(s'.workers) + multiset{i} == InHand(s.workers);
    BagAssociative(before, multiset{i}, InHand(s'.workers));
    BagAssociative(before, InHand(s'.workers), multiset{i});
  }

  lemma {:induction false} ConservedStep(c: Config, s: State, a: Action)
    requires Channels(c, s) && Conserved(s) && Enabled(c, s, a)
    ensures Conserved(Step(c, s, a))
  {
    if a.Work? {
      WorkShape(c, s, a.w, a.clock, a.order);
      ConservedWork(s, Step(c, s, a), a.w);
    } else {
      ConservedOutside(c, s, a);
    }
  }

  lemma {:induction false} ConservedOutside(c: Config, s: State, a: Action)
    requires Channels(c, s) && Conserved(s) && Enabled(c, s, a) && !a.Work?
    ensures Conserved(Step(c, s, a))
  {
    OutsideKeepsTaken(c, s, a);
    if a.SourceSend? {
      SpanNext(Taken(s), s.sent);
    } else {
      OutsideKeepsQueue(c, s, a);
    }
  }

  lemma {:induction false} OutsideKeepsQueue(c: Config, s: State, a: Action)
    requires Enabled(c, s, a) && !a.Work? && !a.SourceSend?
    ensures Step(c, s, a).queue == s.queue && Step(c, s, a).sent == s.sent
  {
  }

  /** A held event was taken from the channel, is not handled yet, and is in no other worker's hands. */
  lemma {:induction false} HeldOnce(s: State, w: nat)
    requires Conserved(s) && w < |s.workers| && s.workers[w].Busy()
    ensures s.workers[w].i < Taken(s) && s.workers[w].i !in Ids(s.history.handled)
    ensures forall v | 0 <= v < |s.workers| && v != w && s.workers[v].Busy() :: s.workers[v].i != s.workers[w].i
  {
    var i := s.workers[w].i;
    SpanCount(Taken(s), i);
    HeldIsInHand(s.workers, w);
    forall v | 0 <= v < |s.workers| && v != w && s.workers[v].Busy() ensures s.workers[v].i != i {
      if s.workers[v].i == i { TwoInHand(s.workers, w, v); }
    }
  }

  /** A handled event was taken from the channel and is in nobody's hands. */
  lemma {:induction false} HandledOnce(s: State, i: nat)
    requires Conserved(s) && i in Ids(s.history.handled)
    ensures i < Taken(s)
    ensures forall w | 0 <= w < |s.workers| && s.workers[w].Busy() :: s.workers[w].i != i
  {
    SpanCount(Taken(s), i);
    forall w | 0 <= w < |s.workers| && s.workers[w].Busy() ensures s.workers[w].i != i {
      HeldOnce(s, w);
    }
  }

  // ---------------------------------------------------------------- order with one worker

  function Held(p: Phase): seq<nat> {
    if p.Busy() then [p.i] else []
  }

  /** With a single worker, events are handled in the order of the source list. */
  ghost predicate InOrder(s: State) {
    |s.workers| == 1 ==> Ids(s.history.handled) + Held(s.workers[0]) == Span(0, Taken(s))
  }

  lemma {:induction false} InOrderWork(s: State, s': State)
    requires Conserved(s) && InOrder(s) && |s.workers| == 1 && Shape(s, s', 0)
    ensures InOrder(s')
  {
    var p, p' := s.workers[0], s'.workers[0];
    if p.Waiting? && s.queue != [] {
      SpanNext(0, Taken(s));
      assert s.queue[0] == Taken(s);
    } else if p.Busy() && !p'.Busy() {
      assert Ids(s'.history.handled) == Ids(s.history.handled) + [p.i];
    }
  }

  lemma {:induction false} InOrderStep(c: Config, s: State, a: Action)
    requires Channels(c, s) && Conserved(s) && InOrder(s) && Enabled(c, s, a)
    ensures InOrder(Step(c, s, a))
  {
    if a.Work? {
      WorkShape(c, s, a.w, a.clock, a.order);
      if |s.workers| == 1 {
        InOrderWork(s, Step(c, s, a));
      }
    } else {
      OutsideKeepsTaken(c, s, a);
    }
  }

  lemma {:induction false} OutsideKeepsTaken(c: Config, s: State, a: Action)
    requires Conserved(s) && Enabled(c, s, a) && !a.Work?
    ensures var s' := Step(c, s, a);
      Taken(s') == Taken(s) && s'.workers == s.workers && s'.history.handled == s.history.handled
  {
  }

  // ---------------------------------------------------------------- all reachable states

  ghost predicate Protocol(c: Config, s: State) {
    Channels(c, s) && Conserved(s) && InOrder(s)
  }

  lemma {:induction false} ProtocolStep(c: Config, s: State, a: Action)
    requires Protocol(c, s) && Enabled(c, s, a)
    ensures Protocol(c, Step(c, s, a))
  {
    ChannelsStep(c, s, a);
    ConservedStep(c, s, a);
    InOrderStep(c, s, a);
  }

  lemma {:induction false} ProtocolInit(c: Config)
    ensures Protocol(c, Init(c))
  {
    ChannelsInit(c);
    ConservedInit(c);
  }

  lemma {:induction false} ProtocolAlong(c: Config, states: seq<State>, actions: seq<Action>, n: nat)
    requires IsRun(c, states, actions) && n <= |actions|
    ensures Protocol(c, states[n])
  {
    if n == 0 {
      ProtocolInit(c);
    } else {
      ProtocolAlong(c, states, actions, n - 1);
      ProtocolStep(c, states[n - 1], actions[n - 1]);
    }
  }

  lemma {:induction false} ProtocolHolds(c: Config, s: State)
    requires Reachable(c, s)
    ensures Protocol(c, s)
  {
    var states, actions :| IsRun(c, states, actions) && states[|actions|] == s;
    ProtocolAlong(c, states, actions, |actions|);
  }

  /** In every reachable state each event sent is in exactly one place; nothing is sent on the closed channel. */
  lemma {:induction false} NothingLost(c: Config, s: State)
    requires Reachable(c, s)
    ensures multiset(Ids(s.history.handled)) + InHand(s.workers) + multiset(s.queue) == multiset(Span(0, s.sent))
    ensures s.sent <= |c.events| && |s.queue| <= 1024 && !s.panicked
    ensures s.closed ==> !s.source.Running?
  {
    ProtocolHolds(c, s);
    assert Span(0, s.sent) == Span(0, Taken(s)) + s.queue;
  }

  /** A running source can send exactly while fewer than 1024 events are queued. */
  lemma {:induction false} SendBlocksWhenFull(c: Config, s: State)
    requires Reachable(c, s) && s.source.Running? && s.sent < |c.events|
    ensures Enabled(c, s, SourceSend) <==> |s.queue| < 1024
  {
    ProtocolHolds(c, s);
  }

  /** When Run returns, the channel is empty, every worker has exited, and what was sent was handled exactly once. */
  lemma {:induction false} ReturnMeansDrained(c: Config, s: State)
    requires Reachable(c, s) && s.main.Finished?
    ensures s.queue == [] && (forall w | 0 <= w < |s.workers| :: s.workers[w].Exited?)
    ensures multiset(Ids(s.history.handled)) == multiset(Span(0, s.sent))
    ensures c.Workers() == 1 ==> Ids(s.history.handled) == Span(0, s.sent)
  {
    ProtocolHolds(c, s);
    SumFull(HasExited, s.workers);
    forall w | 0 <= w < |s.workers| ensures s.workers[w].Exited? {
      assert HasExited(s.workers[w]) == 1;
    }
    assert s.workers[0].Exited?;
    NobodyBusy(s.workers);
    assert Held(s.workers[0]) == [];
  }

  /** A worker that has left its loop can always report: its channel has room. */
  lemma {:induction false} ReportNeverBlocks(c: Config, s: State, w: nat)
    requires Reachable(c, s) && w < |s.workers| && s.workers[w].Leaving?
    ensures s.workerDone < c.Workers()
  {
    ProtocolHolds(c, s);
    SumFull(HasExited, s.workers);
    assert HasExited(s.workers[w]) == 0;
  }
}
