/**
 * Rule files: validation, the trie built from a rule set, and the string-level
 * reference it is proved against (shortest covering domain wins, last rule wins ties).
 */
module Rules {
  import opened Prelude
  import opened DomainNames
  import opened SuffixTrie

  datatype Rule = Rule(domain: string, ipsetV4: string, ipsetV6: string)

  /** What the YAML decoder hands over; a list entry may be nil. */
  datatype RuleFile = RuleFile(version: int, rules: seq<Option<Rule>>)

  /** "domain at rules[at] overrides rules[overridden]". */
  datatype Warning = Warning(domain: string, at: nat, overridden: nat)

  datatype RuleSet = RuleSet(version: int, rules: seq<Rule>, warnings: seq<Warning>)

  datatype LoadError =
    | UnsupportedVersion(version: int)
    | NilRule
    | DomainRequired(at: nat)
    | IPSetRequired(at: nat, domain: string)

  // ---------------------------------------------------------------- validation

  function CleanDomain(raw: string): string {
    TrimDot(ToLower(TrimSpace(raw)))
  }

  function CleanRule(r: Rule): Rule {
    r.(domain := CleanDomain(r.domain))
  }

  /** What is wrong with the entry at `i`, if anything. */
  function EntryError(entries: seq<Option<Rule>>, i: nat): Option<LoadError>
    requires i < |entries|
  {
    if entries[i].None? then Some(NilRule) else RuleError(CleanRule(entries[i].value), i)
  }

  function RuleError(r: Rule, i: nat): Option<LoadError> {
    if r.domain == "" then Some(DomainRequired(i))
    else if r.ipsetV4 == "" && r.ipsetV6 == "" then Some(IPSetRequired(i, r.domain))
    else None
  }

  /** Index of the last rule before `n` whose domain string is `d`. */
  function LastBefore(rules: seq<Rule>, n: nat, d: string): (r: Option<nat>)
    requires n <= |rules|
    ensures r.Some? ==> r.value < n
  {
    if n == 0 then None
    else if rules[n - 1].domain == d then Some(n - 1)
    else LastBefore(rules, n - 1, d)
  }

  /** It is an occurrence, and there is none after it. */
  lemma {:induction false} LastBeforeIsLast(rules: seq<Rule>, n: nat, d: string)
    requires n <= |rules|
    ensures var r := LastBefore(rules, n, d);
      && (r.Some? ==> rules[r.value].domain == d)
      && forall j | 0 <= j < n && (r.None? || r.value < j) :: rules[j].domain != d
  {
    if n > 0 {
      LastBeforeIsLast(rules, n - 1, d);
    }
  }

  /** One warning per rule that repeats an earlier domain string, naming the latest such rule. */
  function ExpectedWarnings(rules: seq<Rule>, n: nat): seq<Warning>
    requires n <= |rules|
  {
    if n == 0 then []
    else
      var d := rules[n - 1].domain;
      match LastBefore(rules, n - 1, d)
      case None => ExpectedWarnings(rules, n - 1)
      case Some(prev) => ExpectedWarnings(rules, n - 1) + [Warning(d, n - 1, prev)]
  }

  /** Which entries are faulty, and which error names each. */
  lemma {:induction false} EntryErrors(entries: seq<Option<Rule>>, i: nat)
    requires i < |entries|
    ensures EntryError(entries, i) == Some(NilRule) <==> entries[i].None?
    ensures entries[i].Some? ==>
      var e, raw := EntryError(entries, i), entries[i].value;
      var d := CleanDomain(raw.domain);
      && (e == Some(DomainRequired(i)) <==> d == "")
      && (e == Some(IPSetRequired(i, d)) <==> d != "" && raw.ipsetV4 == "" && raw.ipsetV6 == "")
      && (e == None <==> d != "" && (raw.ipsetV4 != "" || raw.ipsetV6 != ""))
  {
  }

  /**
   * Cleaning keeps the sets, and takes from the domain the white space around it,
   * then one trailing dot, and the case of its letters, but nothing else.
   */
  lemma {:induction false} CleanedRule(r: Rule) returns (front: string, core: string, back: string)
    ensures CleanRule(r).ipsetV4 == r.ipsetV4 && CleanRule(r).ipsetV6 == r.ipsetV6
    ensures r.domain == front + core + back && Blank(front) && Blank(back)
    ensures core != "" ==> !Blank([core[0]]) && !Blank([core[|core| - 1]])
    ensures var d := CleanRule(r).domain;
      && !HasUpper(d)
      && (if core != "" && core[|core| - 1] == '.' then SameButCase(core[..|core| - 1], d) else SameButCase(core, d))
  {
    core := TrimSpace(r.domain);
    front, back := Trimmed(r.domain);
    Normalized(core);
  }

  /** Every warning names a rule, its domain, and the latest earlier rule with that domain; in rule order. */
  lemma {:induction false} WarningContents(rules: seq<Rule>, n: nat, k: nat)
    requires n <= |rules| && k < |ExpectedWarnings(rules, n)|
    ensures var w := ExpectedWarnings(rules, n)[k];
      && w.overridden < w.at < n
      && rules[w.overridden].domain == w.domain == rules[w.at].domain
      && forall j | w.overridden < j < w.at :: rules[j].domain != w.domain
    ensures forall l | 0 <= l < k :: ExpectedWarnings(rules, n)[l].at < ExpectedWarnings(rules, n)[k].at
  {
    var d := rules[n - 1].domain;
    LastBeforeIsLast(rules, n - 1, d);
    var before := ExpectedWarnings(rules, n - 1);
    forall l | 0 <= l < |before| ensures before[l].at < n - 1 {
      WarningContents(rules, n - 1, l);
    }
    if k < |before| {
      WarningContents(rules, n - 1, k);
    }
  }

  /** Cleans one entry and validates it. */
  method CheckEntry(entries: seq<Option<Rule>>, i: nat) returns (r: Result<Rule, LoadError>)
    requires i < |entries|
    ensures r.Ok? ==> entries[i].Some? && r.value == CleanRule(entries[i].value) && RuleError(r.value, i) == None
    ensures r.Err? ==> EntryError(entries, i) == Some(r.error)
  {
    if entries[i].None? {
      return Err(NilRule);
    }
    var rule := CleanRule(entries[i].value);
    if rule.domain == "" {
      return Err(DomainRequired(i));
    }
    if rule.ipsetV4 == "" && rule.ipsetV6 == "" {
      return Err(IPSetRequired(i, rule.domain));
    }
    return Ok(rule);
  }

  /** No entry before `n` is faulty. */
  ghost predicate Sound(entries: seq<Option<Rule>>, n: nat)
    requires n <= |entries|
  {
    forall i | 0 <= i < n :: EntryError(entries, i) == None
  }

  /** `rules` are the first entries, cleaned. */
  ghost predicate Cleaned(entries: seq<Option<Rule>>, rules: seq<Rule>) {
    && |rules| <= |entries|
    && forall i | 0 <= i < |rules| :: entries[i].Some? && rules[i] == CleanRule(entries[i].value)
  }

  /** `e` is the error of the first faulty entry. */
  ghost predicate FirstError(entries: seq<Option<Rule>>, e: LoadError) {
    exists i | 0 <= i < |entries| :: EntryError(entries, i) == Some(e) && Sound(entries, i)
  }

  /** `seen` maps each domain string to the index of its last occurrence. */
  ghost predicate Tracks(seen: map<string, nat>, rules: seq<Rule>) {
    forall d :: LastBefore(rules, |rules|, d) == if d in seen then Some(seen[d]) else None
  }

  /** Rules appended later change neither the last occurrence nor the warnings of a prefix. */
  lemma {:induction false} PrefixUnchanged(before: seq<Rule>, after: seq<Rule>, n: nat)
    requires before <= after && n <= |before|
    ensures forall d :: LastBefore(after, n, d) == LastBefore(before, n, d)
    ensures ExpectedWarnings(after, n) == ExpectedWarnings(before, n)
  {
    if n > 0 {
      PrefixUnchanged(before, after, n - 1);
    }
  }

  lemma {:induction false} AcceptedNext(entries: seq<Option<Rule>>, rules: seq<Rule>, rule: Rule)
    requires |rules| < |entries| && Sound(entries, |rules|) && Cleaned(entries, rules)
    requires entries[|rules|].Some? && rule == CleanRule(entries[|rules|].value) && RuleError(rule, |rules|) == None
    ensures Sound(entries, |rules| + 1) && Cleaned(entries, rules + [rule])
  {
    assert EntryError(entries, |rules|) == None;
  }

  lemma {:induction false} TracksStep(seen: map<string, nat>, rules: seq<Rule>, rule: Rule)
    requires Tracks(seen, rules)
    ensures Tracks(seen[rule.domain := |rules|], rules + [rule])
    ensures ExpectedWarnings(rules + [rule], |rules| + 1) == ExpectedWarnings(rules, |rules|) +
      if rule.domain in seen then [Warning(rule.domain, |rules|, seen[rule.domain])] else []
  {
    PrefixUnchanged(rules, rules + [rule], |rules|);
  }

  /**
   * Loading succeeds exactly when the version is 1 and no entry is faulty; an
   * error is the one of the first faulty entry.
   */
  method LoadRules(file: RuleFile) returns (r: Result<RuleSet, LoadError>)
    ensures r.Ok? <==> file.version == 1 && Sound(file.rules, |file.rules|)
    ensures r.Ok? ==>
      && r.value.version == 1
      && |r.value.rules| == |file.rules|
      && Cleaned(file.rules, r.value.rules)
      && r.value.warnings == ExpectedWarnings(r.value.rules, |r.value.rules|)
    ensures r.Err? && file.version != 1 ==> r.error == UnsupportedVersion(file.version)
    ensures r.Err? && file.version == 1 ==> FirstError(file.rules, r.error)
  {
    if file.version != 1 {
      return Err(UnsupportedVersion(file.version));
    }
    var rules: seq<Rule> := [];
    var warnings: seq<Warning> := [];
    var seen: map<string, nat> := map[];
    for i := 0 to |file.rules|
      invariant |rules| == i
      invariant LoadedSoFar(file.rules, rules, warnings, seen)
    {
      var checked := CheckEntry(file.rules, i);
      if checked.Err? {
        StopsAt(file.rules, i, checked.error);
        return Err(checked.error);
      }
      var rule := checked.value;
      LoadNext(file.rules, rules, warnings, seen, rule);
      if rule.domain in seen {
        warnings := warnings + [Warning(rule.domain, i, seen[rule.domain])];
      }
      seen := seen[rule.domain := i];
      rules := rules + [rule];
    }
    return Ok(RuleSet(file.version, rules, warnings));
  }

  /** The state of the validation loop after the entries that `rules` were made of. */
  ghost predicate LoadedSoFar(entries: seq<Option<Rule>>, rules: seq<Rule>,
                              warnings: seq<Warning>, seen: map<string, nat>) {
    && |rules| <= |entries| && Sound(entries, |rules|) && Cleaned(entries, rules)
    && Tracks(seen, rules) && warnings == ExpectedWarnings(rules, |rules|)
  }

  lemma {:induction false} LoadNext(entries: seq<Option<Rule>>, rules: seq<Rule>, warnings: seq<Warning>,
                                    seen: map<string, nat>, rule: Rule)
    requires LoadedSoFar(entries, rules, warnings, seen) && |rules| < |entries|
    requires entries[|rules|].Some? && rule == CleanRule(entries[|rules|].value) && RuleError(rule, |rules|) == None
    ensures var more := if rule.domain in seen then [Warning(rule.domain, |rules|, seen[rule.domain])] else [];
      LoadedSoFar(entries, rules + [rule], warnings + more, seen[rule.domain := |rules|])
  {
    AcceptedNext(entries, rules, rule);
    TracksStep(seen, rules, rule);
  }

  lemma {:induction false} StopsAt(entries: seq<Option<Rule>>, i: nat, e: LoadError)
    requires i < |entries| && Sound(entries, i) && EntryError(entries, i) == Some(e)
    ensures FirstError(entries, e) && !Sound(entries, |entries|)
  {
  }

  // ---------------------------------------------------------------- the trie's abstract value

  /** The path table a rule list produces: inserted in order, later ones overwriting. */
  function Table(rules: seq<Rule>): map<Path, Rule> {
    if rules == [] then map[]
    else
      var front, last := rules[..|rules| - 1], rules[|rules| - 1];
      if PathOf(last.domain) == [] then Table(front)
      else Table(front)[PathOf(last.domain) := last]
  }

  /** The rule the trie built from `rules` returns for `name`. */
  function Match(rules: seq<Rule>, name: string): Option<Rule> {
    ShortestMatch(Table(rules), PathOf(name))
  }

  method BuildTrie(rules: seq<Rule>) returns (t: Trie<Rule>)
    ensures fresh(t) && t.Valid() && fresh(t.nodes.Values)
    ensures t.Contents == Table(rules)
  {
    t := new Trie<Rule>();
    for i := 0 to |rules|
      invariant t.Valid() && fresh(t.nodes.Values)
      invariant t.Contents == Table(rules[..i])
    {
      assert rules[..i + 1][..i] == rules[..i];
      t.Insert(rules[i].domain, rules[i]);
    }
    assert rules[..|rules|] == rules;
  }

  // ---------------------------------------------------------------- the reference

  /**
   * The reference, on strings only: of the rules whose domain covers the name,
   * the one with the shortest domain, the later one on ties.
   */
  function Winner(rules: seq<Rule>, name: string): (w: Option<nat>)
    ensures w.Some? ==> w.value < |rules| && Covers(rules[w.value].domain, name)
  {
    if rules == [] then None
    else
      var front, last := rules[..|rules| - 1], rules[|rules| - 1];
      var w := Winner(front, name);
      if Covers(last.domain, name)
         && (w.None? || |Normalize(last.domain)| <= |Normalize(rules[w.value].domain)|)
      then Some(|rules| - 1)
      else w
  }

  /** Rule `i` beats rule `j`: a shorter domain, or the same length and not earlier. */
  predicate Beats(rules: seq<Rule>, i: nat, j: nat)
    requires i < |rules| && j < |rules|
  {
    var best, size := |Normalize(rules[i].domain)|, |Normalize(rules[j].domain)|;
    best < size || (best == size && j <= i)
  }

  /** The scan finds the rule that covers the name and beats every other one that does. */
  lemma {:induction false} WinnerIsBest(rules: seq<Rule>, name: string, i: nat)
    requires i < |rules|
    ensures Winner(rules, name) == Some(i) <==>
      && Covers(rules[i].domain, name)
      && forall j | 0 <= j < |rules| && Covers(rules[j].domain, name) :: Beats(rules, i, j)
  {
    var w := Winner(rules, name);
    WinnerBeatsAll(rules, name);
    if w.Some? && Covers(rules[i].domain, name)
       && forall j | 0 <= j < |rules| && Covers(rules[j].domain, name) :: Beats(rules, i, j) {
      assert Beats(rules, i, w.value) && Beats(rules, w.value, i);
    }
  }

  lemma {:induction false} WinnerBeatsAll(rules: seq<Rule>, name: string)
    ensures var w := Winner(rules, name);
      forall j | 0 <= j < |rules| && Covers(rules[j].domain, name) :: w.Some? && Beats(rules, w.value, j)
  {
    if rules != [] {
      var front, n := rules[..|rules| - 1], |rules| - 1;
      WinnerBeatsAll(front, name);
      var v, w := Winner(front, name), Winner(rules, name);
      forall j | 0 <= j < |rules| && Covers(rules[j].domain, name)
        ensures w.Some? && Beats(rules, w.value, j)
      {
        if j < n {
          assert front[j] == rules[j] && Beats(front, v.value, j);
        }
      }
    }
  }

  /** The trie returns exactly the winner of the string-level contest. */
  lemma {:induction false} MatchIsWinner(rules: seq<Rule>, name: string)
    ensures Match(rules, name) ==
      (match Winner(rules, name) case None => None case Some(i) => Some(rules[i]))
  {
    WinnerPath(rules, name);
  }

  /** Names that differ in case alone get the same rule. */
  lemma {:induction false} NameCaseIgnored(rules: seq<Rule>, name: string, other: string)
    requires SameButCase(name, other)
    ensures Match(rules, name) == Match(rules, other)
  {
    CaseIsIgnored(name, other);
  }

  /** Rules whose domains differ in case alone win for the same names. */
  lemma {:induction false} DomainCaseIgnored(rules: seq<Rule>, others: seq<Rule>, name: string)
    requires |rules| == |others| && forall i | 0 <= i < |rules| :: SameButCase(rules[i].domain, others[i].domain)
    ensures Winner(rules, name) == Winner(others, name)
  {
    forall i | 0 <= i < |rules| ensures Normalize(rules[i].domain) == Normalize(others[i].domain) {
      CaseIsIgnored(rules[i].domain, others[i].domain);
    }
    if rules != [] {
      DomainCaseIgnored(rules[..|rules| - 1], others[..|others| - 1], name);
    }
  }

  /** The shortest match of `name` in `table` sits at the path of rule `w`. */
  ghost predicate FoundAt(table: map<Path, Rule>, key: Path, rules: seq<Rule>, w: Option<nat>)
    requires w.Some? ==> w.value < |rules|
  {
    var n := ShortestLen(table, key);
    if w.None? then n == 0
    else n > 0 && key[..n] == PathOf(rules[w.value].domain) && table[key[..n]] == rules[w.value]
  }

  lemma {:induction false} WinnerPath(rules: seq<Rule>, name: string)
    ensures FoundAt(Table(rules), PathOf(name), rules, Winner(rules, name))
  {
    if rules != [] {
      var front, last := rules[..|rules| - 1], rules[|rules| - 1];
      assert rules == front + [last];
      WinnerPath(front, name);
      WinnerStep(front, last, name);
    }
  }

  lemma {:induction false} WinnerStep(front: seq<Rule>, last: Rule, name: string)
    requires FoundAt(Table(front), PathOf(name), front, Winner(front, name))
    ensures FoundAt(Table(front + [last]), PathOf(name), front + [last], Winner(front + [last], name))
  {
    var rules, m, key, d, w := front + [last], Table(front), PathOf(name), PathOf(last.domain), Winner(front, name);
    assert rules[..|rules| - 1] == front;
    CoversIsPathPrefix(last.domain, name);
    if d != [] {
      InsertShortest(m, d, last, key);
      if Covers(last.domain, name) && w.Some? {
        FewerLabelsIsShorter(last.domain, front[w.value].domain, name);
        CoversIsPathPrefix(front[w.value].domain, name);
      }
    }
  }

  /** How one insertion moves the shortest match. */
  lemma {:induction false} InsertShortest<V>(m: map<Path, V>, d: Path, v: V, key: Path)
    requires d != []
    ensures var n := ShortestLen(m, key);
      ShortestLen(m[d := v], key) == if d <= key && (n == 0 || |d| < n) then |d| else n
  {
    var n, n' := ShortestLen(m, key), ShortestLen(m[d := v], key);
    if d <= key {
      assert key[..|d|] == d;
    }
    if n' > 0 && key[..n'] == d {
      assert |d| == n';
    }
  }
}
