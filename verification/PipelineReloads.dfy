/**
 * Reloads in a run: which rules are in force at each moment, and under which rules
 * each event is dispatched, in terms of the run's own replacements.
 */
module PipelineReloads {
  import opened Prelude
  import opened Rules
  import opened Events
  import opened PipelineRun
  import opened PipelineSafety
  import opened PipelineWrites
  import opened PipelineResults

  /** The rule lists that the actions publish, in order. */
  function Reloads(actions: seq<Action>): seq<seq<Rule>> {
    if actions == [] then []
    else
      var last := actions[|actions| - 1];
      Reloads(actions[..|actions| - 1]) + if last.Replace? then [last.rules] else []
  }

  /** The rules after the actions: those of the last replacement, or the initial ones. */
  function Latest(c: Config, actions: seq<Action>): Option<seq<Rule>> {
    if actions == [] then c.rules
    else
      var last := actions[|actions| - 1];
      if last.Replace? then Some(last.rules) else Latest(c, actions[..|actions| - 1])
  }

  lemma {:induction false} RunOfFront(c: Config, states: seq<State>, actions: seq<Action>, n: nat)
    requires IsRun(c, states, actions) && n <= |actions|
    ensures IsRun(c, states[..n + 1], actions[..n])
  {
  }

  lemma {:induction false} StepRules(c: Config, s: State, a: Action)
    requires Enabled(c, s, a)
    ensures var s' := Step(c, s, a);
      if a.Replace? then s'.rules == Some(a.rules) && s'.history.published == s.history.published + [a.rules]
      else s'.rules == s.rules && s'.history.published == s.history.published
  {
    if a.Work? {
      WorkShape(c, s, a.w, a.clock, a.order);
    }
  }

  /** In every run the rules in force are the latest; the published lists are the initial one and the reloads. */
  lemma {:induction false} RulesInForce(c: Config, states: seq<State>, actions: seq<Action>, n: nat)
    requires IsRun(c, states, actions) && n <= |actions|
    ensures states[n].rules == Latest(c, actions[..n])
    ensures states[n].history.published == (if c.rules.Some? then [c.rules.value] else []) + Reloads(actions[..n])
  {
    if n > 0 {
      RulesInForce(c, states, actions, n - 1);
      assert actions[..n][..n - 1] == actions[..n - 1];
      StepRules(c, states[n - 1], actions[n - 1]);
    }
  }

  /** An event that loads its rules at step `n` of a run loads the latest ones; without any it is put away. */
  lemma {:induction false} EventMeetsLatest(c: Config, states: seq<State>, actions: seq<Action>, n: nat, i: nat)
    requires IsRun(c, states, actions) && n < |actions|
    ensures var h, h' := states[n].history, states[n + 1].history;
      && (i !in h.loads && i in h'.loads ==> Latest(c, actions[..n]) == Some(h'.loads[i].rules))
      && (|h'.handled| > |h.handled| && h'.handled[|h.handled|].verdict == NoRules ==> Latest(c, actions[..n]) == None)
  {
    RunOfFront(c, states, actions, n);
    assert states[..n + 1][|actions[..n]|] == states[n];
    assert Reachable(c, states[n]);
    JustifiedHolds(c, states[n]);
    RulesInForce(c, states, actions, n);
    LoadIsFinal(c, states[n], actions[n], i);
  }

  /** A replacement and a cancellation are possible at any moment, and do nothing else. */
  lemma {:induction false} EnvironmentIsFree(c: Config, s: State, rules: seq<Rule>)
    ensures Enabled(c, s, Replace(rules))
    ensures Step(c, s, Replace(rules)) ==
      s.(rules := Some(rules), history := s.history.(published := s.history.published + [rules]))
    ensures !s.cancelled ==> Enabled(c, s, Cancel)
    ensures Step(c, s, Cancel) == s.(cancelled := true)
  {
  }

  /** The clock may read anything, and the aliases may be visited in any order. */
  lemma {:induction false} ClockAndOrderAreFree(c: Config, s: State, w: nat, clock: int, order: seq<string>)
    requires w < |s.workers| && s.workers[w].Busy()
    ensures Enabled(c, s, Work(w, clock, order)) <==>
      (s.workers[w].Fresh? && c.Decoded(s.workers[w].i).Some? ==>
         DnsParse.IsOrder(order, c.Decoded(s.workers[w].i).value.answers))
    ensures s.workers[w].Counted? ==> WorkStep(c, s, w, clock, order).workers[w] == Timed(s.workers[w].i, clock)
  {
  }

  /** What the machine knows of an event is its own payload and direction. */
  lemma {:induction false} EventData(c: Config, i: nat)
    requires i < |c.events|
    ensures c.Key(i) == c.hash(c.events[i].payload)
    ensures c.Decoded(i) == c.decode(c.events[i].payload)
    ensures c.Heading(i) == c.events[i].direction
  {
  }
}
