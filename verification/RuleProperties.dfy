/**
 * Facts about whole rule lists: which overrides the loader reports, which
 * accepted rules are dead, and which rules can be removed without any effect.
 */
module RuleProperties {
  import opened Prelude
  import opened DomainNames
  import opened SuffixTrie
  import opened Rules

  // ---------------------------------------------------------------- overrides and their warnings

  /** Rule `j` takes the trie node of the earlier rule `i`. */
  predicate Overrides(rules: seq<Rule>, j: nat, i: nat)
    requires i < |rules| && j < |rules|
  {
    i < j && PathOf(rules[i].domain) == PathOf(rules[j].domain) != []
  }

  ghost predicate Reported(rules: seq<Rule>, j: nat) {
    exists w :: w in ExpectedWarnings(rules, |rules|) && w.at == j
  }

  /** There is a warning about rule `j` exactly when an earlier rule has the very same domain string. */
  lemma {:induction false} ReportedIffRepeated(rules: seq<Rule>, n: nat, j: nat)
    requires j < |rules| && n <= |rules|
    ensures (exists w :: w in ExpectedWarnings(rules, n) && w.at == j)
      <==> j < n && exists i | 0 <= i < j :: rules[i].domain == rules[j].domain
  {
    if n > 0 {
      ReportedIffRepeated(rules, n - 1, j);
      var prev := LastBefore(rules, n - 1, rules[n - 1].domain);
      LastBeforeIsLast(rules, n - 1, rules[n - 1].domain);
      if prev.Some? {
        var w := Warning(rules[n - 1].domain, n - 1, prev.value);
        assert ExpectedWarnings(rules, n) == ExpectedWarnings(rules, n - 1) + [w];
        assert w in ExpectedWarnings(rules, n);
      }
    }
  }

  /** The rules a successful load yields: domains are lower-case. */
  predicate LowerCase(rules: seq<Rule>) {
    forall i | 0 <= i < |rules| :: ToLower(rules[i].domain) == rules[i].domain
  }

  lemma {:induction false} CleanedIsLowerCase(entries: seq<Option<Rule>>, rules: seq<Rule>)
    requires Cleaned(entries, rules)
    ensures LowerCase(rules)
  {
    forall i | 0 <= i < |rules| ensures ToLower(rules[i].domain) == rules[i].domain {
      ToLowerIdempotent(TrimSpace(entries[i].value.domain));
    }
  }

  /** No two domains differ by one trailing dot only. */
  predicate NoDottedTwins(rules: seq<Rule>) {
    forall i, j | 0 <= i < j < |rules| && TrimDot(rules[i].domain) == TrimDot(rules[j].domain) != "" ::
      rules[i].domain == rules[j].domain
  }

  /**
   * For the rules of any file that loads: every override is reported if and only
   * if no two domains are dotted twins. Duplicates are detected on strings,
   * overriding happens on trie paths.
   */
  lemma {:induction false} OverridesReportedIff(file: RuleFile, rules: seq<Rule>)
    requires Cleaned(file.rules, rules)
    ensures (forall i, j | 0 <= i < |rules| && 0 <= j < |rules| && Overrides(rules, j, i) :: Reported(rules, j))
      <==> NoDottedTwins(rules)
  {
    CleanedIsLowerCase(file.rules, rules);
    if NoDottedTwins(rules) {
      forall i, j | 0 <= i < |rules| && 0 <= j < |rules| && Overrides(rules, j, i) ensures Reported(rules, j) {
        RepeatIsReported(rules, i, j);
      }
    } else {
      var i, j := FirstTwin(rules, |rules|);
      TwinIsUnreported(rules, i, j);
    }
  }

  lemma {:induction false} RepeatIsReported(rules: seq<Rule>, i: nat, j: nat)
    requires LowerCase(rules) && NoDottedTwins(rules) && i < |rules| && j < |rules| && Overrides(rules, j, i)
    ensures Reported(rules, j)
  {
    OverridesAreTwins(rules, i, j);
    ReportedIffRepeated(rules, |rules|, j);
  }

  lemma {:induction false} TwinIsUnreported(rules: seq<Rule>, i: nat, j: nat)
    requires LowerCase(rules) && i < j < |rules|
    requires TrimDot(rules[i].domain) == TrimDot(rules[j].domain) != ""
    requires forall k | 0 <= k < j :: rules[k].domain != rules[j].domain
    ensures Overrides(rules, j, i) && !Reported(rules, j)
  {
    OverridesAreTwins(rules, i, j);
    ReportedIffRepeated(rules, |rules|, j);
  }

  lemma {:induction false} OverridesAreTwins(rules: seq<Rule>, i: nat, j: nat)
    requires i < j < |rules| && LowerCase(rules)
    ensures Overrides(rules, j, i) <==> TrimDot(rules[i].domain) == TrimDot(rules[j].domain) != ""
  {
    PathInjective(rules[i].domain, rules[j].domain);
  }

  /** The first rule that has an earlier dotted twin repeats no earlier string. */
  lemma {:induction false} FirstTwin(rules: seq<Rule>, n: nat) returns (i: nat, j: nat)
    requires n <= |rules|
    requires !NoDottedTwins(rules[..n])
    ensures i < j < n && TrimDot(rules[i].domain) == TrimDot(rules[j].domain) != ""
    ensures forall k | 0 <= k < j :: rules[k].domain != rules[j].domain
  {
    if !NoDottedTwins(rules[..n - 1]) {
      i, j := FirstTwin(rules, n - 1);
    } else {
      j := n - 1;
      i := LastTwin(rules[..n], j);
    }
  }

  lemma {:induction false} LastTwin(rules: seq<Rule>, n: nat) returns (i: nat)
    requires |rules| == n + 1 && !NoDottedTwins(rules) && NoDottedTwins(rules[..n])
    ensures i < n && TrimDot(rules[i].domain) == TrimDot(rules[n].domain) != ""
    ensures forall k | 0 <= k < n :: rules[k].domain != rules[n].domain
  {
    var j: nat;
    i, j :| 0 <= i < j < |rules| && TrimDot(rules[i].domain) == TrimDot(rules[j].domain) != ""
      && rules[i].domain != rules[j].domain;
    if j < n {
      FrontTwins(rules, n, i, j);
    }
    forall k | 0 <= k < n ensures rules[k].domain != rules[n].domain {
      if k != i && TrimDot(rules[k].domain) == TrimDot(rules[i].domain) {
        FrontTwins(rules, n, if k < i then k else i, if k < i then i else k);
      }
    }
  }

  lemma {:induction false} FrontTwins(rules: seq<Rule>, n: nat, a: nat, b: nat)
    requires n <= |rules| && NoDottedTwins(rules[..n])
    requires a < b < n && TrimDot(rules[a].domain) == TrimDot(rules[b].domain) != ""
    ensures rules[a].domain == rules[b].domain
  {
    assert rules[..n][a] == rules[a] && rules[..n][b] == rules[b];
  }

  /** A file with the domains `a` and `a..`. */
  const TWINS := RuleFile(1, [Some(Rule("a", "first", "")), Some(Rule("a..", "second", ""))])

  /** What it loads to. */
  const LOADED := [Rule("a", "first", ""), Rule("a.", "second", "")]

  /** The file loads, and its second rule silently replaces the first. */
  lemma {:induction false} SilentOverride()
    ensures TWINS.version == 1 && Sound(TWINS.rules, 2) && |LOADED| == |TWINS.rules| && Cleaned(TWINS.rules, LOADED)
    ensures Overrides(LOADED, 1, 0) && !Reported(LOADED, 1) && ExpectedWarnings(LOADED, 2) == []
    ensures Match(LOADED, "a") == Some(LOADED[1])
  {
    TwinsClean();
    PathInjective("a", "a.");
    assert SplitDomain("a") == Split("a");
    ReportedIffRepeated(LOADED, 2, 1);
    assert LastBefore(LOADED, 1, "a.") == None;
    WinnerIsBest(LOADED, "a", 1);
    MatchIsWinner(LOADED, "a");
  }

  lemma {:induction false} TwinsClean()
    ensures CleanDomain("a") == "a" && CleanDomain("a..") == "a." && Normalize("a.") == "a" == Normalize("a")
  {
    assert TrimSpace("a") == "a" && ToLower("a") == "a";
    assert TrimSpace("a..") == "a.." && ToLower("a..") == "a..";
    assert ToLower("a.") == "a.";
  }

  /** A rule written `..` is accepted and matches no name. */
  lemma {:induction false} DeadRuleLoads(i: nat)
    ensures var r := Rule("..", "v4", "");
      && RuleError(CleanRule(r), i) == None && CleanRule(r).domain == "."
      && forall name :: !Covers(CleanRule(r).domain, name)
  {
    assert TrimSpace("..") == ".." && ToLower("..") == "..";
    DeadRule(Rule("..", "v4", ""), i);
  }

  /** An accepted rule can match some name unless its cleaned domain is a single dot. */
  lemma {:induction false} DeadRule(r: Rule, i: nat)
    requires RuleError(CleanRule(r), i) == None
    ensures (exists name :: Covers(CleanRule(r).domain, name)) <==> CleanRule(r).domain != "."
  {
    var d := CleanRule(r).domain;
    ToLowerIdempotent(TrimSpace(r.domain));
    assert ToLower(d) == d;
    if d != "." {
      assert Normalize(d) == TrimDot(d) != "";
      assert Covers(d, d);
    }
  }

  /** A name without empty labels, as every unpacked DNS name is. */
  predicate ProperName(name: string) {
    "" !in PathOf(name)
  }

  /** A domain covers some proper name exactly when it has labels and none of them is empty. */
  lemma {:induction false} LiveRule(d: string)
    ensures (exists name :: ProperName(name) && Covers(d, name)) <==> PathOf(d) != [] && ProperName(d)
  {
    forall name ensures Covers(d, name) <==> PathOf(d) != [] && PathOf(d) <= PathOf(name) {
      CoversIsPathPrefix(d, name);
    }
    if name :| ProperName(name) && Covers(d, name) {
      PrefixHasNo(PathOf(d), PathOf(name), "");
    }
  }

  lemma {:induction false} PrefixHasNo(a: Path, b: Path, l: string)
    requires a <= b && l !in b
    ensures l !in a
  {
    assert b == a + b[|a|..];
  }

  /** A rule written `a..b` is accepted and matches no proper name. */
  lemma {:induction false} GapRuleLoads(i: nat)
    ensures var r := Rule("a..b", "v4", "");
      && RuleError(CleanRule(r), i) == None && CleanRule(r).domain == "a..b"
      && forall name | ProperName(name) :: !Covers("a..b", name)
  {
    assert TrimSpace("a..b") == "a..b" && ToLower("a..b") == "a..b";
    var head, tail := Split("a"), Split("") + Split("b");
    SplitAtDot("a", ".b");
    SplitAtDot("", "b");
    assert "a" + "." + ".b" == "a..b" && "" + "." + "b" == ".b";
    assert Split("a..b") == head + tail && tail[0] == "";
    assert SplitDomain("a..b")[|head|] == "";
    assert PathOf("a..b")[|head + tail| - 1 - |head|] == "";
    LiveRule("a..b");
  }

  // ---------------------------------------------------------------- order

  /** Neighbouring rules with different paths may trade places: only ties are settled by order. */
  lemma {:induction false} InsertsCommute(a: seq<Rule>, x: Rule, y: Rule, b: seq<Rule>)
    requires PathOf(x.domain) != PathOf(y.domain)
    ensures Table(a + [x, y] + b) == Table(a + [y, x] + b)
  {
    if b == [] {
      SwapAtEnd(a, x, y);
      PairAppend(a, x, y);
      PairAppend(a, y, x);
    } else {
      var front, last := b[..|b| - 1], b[|b| - 1];
      InsertsCommute(a, x, y, front);
      SameNext(a + [x, y] + front, a + [y, x] + front, last);
      LastApart(a + [x, y], b);
      LastApart(a + [y, x], b);
    }
  }

  lemma {:induction false} PairAppend(a: seq<Rule>, x: Rule, y: Rule)
    ensures a + [x, y] + [] == a + [x] + [y]
  {
  }

  lemma {:induction false} LastApart(p: seq<Rule>, b: seq<Rule>)
    requires b != []
    ensures p + b == p + b[..|b| - 1] + [b[|b| - 1]]
  {
  }

  lemma {:induction false} SwapAtEnd(a: seq<Rule>, x: Rule, y: Rule)
    requires PathOf(x.domain) != PathOf(y.domain)
    ensures Table(a + [x] + [y]) == Table(a + [y] + [x])
  {
    TableNext(a, x);
    TableNext(a, y);
    TableNext(a + [x], y);
    TableNext(a + [y], x);
    UpdatesCommute(Table(a), PathOf(x.domain), x, PathOf(y.domain), y);
  }

  lemma {:induction false} SameNext(p: seq<Rule>, q: seq<Rule>, last: Rule)
    requires Table(p) == Table(q)
    ensures Table(p + [last]) == Table(q + [last])
  {
    TableNext(p, last);
    TableNext(q, last);
  }

  function Enter(t: map<Path, Rule>, k: Path, r: Rule): map<Path, Rule> {
    if k == [] then t else t[k := r]
  }

  lemma {:induction false} TableNext(rules: seq<Rule>, r: Rule)
    ensures Table(rules + [r]) == Enter(Table(rules), PathOf(r.domain), r)
  {
    assert (rules + [r])[..|rules|] == rules;
  }

  lemma {:induction false} UpdatesCommute(t: map<Path, Rule>, k: Path, x: Rule, l: Path, y: Rule)
    requires k != l
    ensures Enter(Enter(t, k, x), l, y) == Enter(Enter(t, l, y), k, x)
  {
    if k != [] && l != [] {
      assert t[k := x][l := y] == t[l := y][k := x];
    }
  }

  // ---------------------------------------------------------------- pruning

  /** Another rule makes rule `i` useless: it covers rule `i`'s domain and is shorter, or replaces it. */
  ghost predicate Dominated(rules: seq<Rule>, i: nat)
    requires i < |rules|
  {
    exists j | 0 <= j < |rules| && Covers(rules[j].domain, rules[i].domain) ::
      PathOf(rules[j].domain) != PathOf(rules[i].domain) || i < j
  }

  ghost function Useless(rules: seq<Rule>): set<nat> {
    set i: nat | i < |rules| && Dominated(rules, i)
  }

  /** The first `n` rules without those at the dropped positions. */
  function Without(rules: seq<Rule>, drop: set<nat>, n: nat): seq<Rule>
    requires n <= |rules|
  {
    if n == 0 then []
    else Without(rules, drop, n - 1) + if n - 1 in drop then [] else [rules[n - 1]]
  }

  /** The undominated rules, in order. */
  ghost function Prune(rules: seq<Rule>): seq<Rule> {
    Without(rules, Useless(rules), |rules|)
  }

  /** The paths of `m` that no other path of `m` makes unreachable. */
  ghost predicate Topmost(m: map<Path, Rule>, k: Path) {
    k in m && forall j | 1 <= j < |k| :: k[..j] !in m
  }

  function Paths(rules: seq<Rule>): (paths: seq<Path>)
    ensures |paths| == |rules|
    ensures forall i | 0 <= i < |rules| :: paths[i] == PathOf(rules[i].domain)
  {
    seq(|rules|, i requires 0 <= i < |rules| => PathOf(rules[i].domain))
  }

  function LastIndex<T(==)>(xs: seq<T>, x: T): (r: Option<nat>)
    ensures r.Some? ==> r.value < |xs| && xs[r.value] == x
    ensures forall j | 0 <= j < |xs| && (r.None? || r.value < j) :: xs[j] != x
  {
    if xs == [] then None
    else if xs[|xs| - 1] == x then Some(|xs| - 1)
    else LastIndex(xs[..|xs| - 1], x)
  }

  /** Index of the last rule whose domain has path `k`. */
  function LastAt(rules: seq<Rule>, k: Path): (r: Option<nat>)
    ensures r.Some? ==> r.value < |rules|
  {
    LastIndex(Paths(rules), k)
  }

  lemma {:induction false} LastAtIsLast(rules: seq<Rule>, k: Path)
    ensures LastAt(rules, k).Some? ==> PathOf(rules[LastAt(rules, k).value].domain) == k
    ensures forall j | 0 <= j < |rules| && (LastAt(rules, k).None? || LastAt(rules, k).value < j) ::
      PathOf(rules[j].domain) != k
  {
  }

  lemma {:induction false} LastAtNext(front: seq<Rule>, last: Rule, k: Path)
    ensures LastAt(front + [last], k) == if PathOf(last.domain) == k then Some(|front|) else LastAt(front, k)
  {
    assert Paths(front + [last])[..|front|] == Paths(front);
  }

  lemma {:induction false} TableLastAt(rules: seq<Rule>, k: Path)
    ensures k in Table(rules) <==> k != [] && LastAt(rules, k).Some?
    ensures k in Table(rules) ==> Table(rules)[k] == rules[LastAt(rules, k).value]
  {
    if rules != [] {
      var front, last := rules[..|rules| - 1], rules[|rules| - 1];
      assert rules == front + [last];
      TableLastAt(front, k);
      TableNext(front, last);
      LastAtNext(front, last, k);
    }
  }

  /** A path is bound exactly when some rule has it, and then to the last such rule. */
  lemma {:induction false} TableEntry(rules: seq<Rule>, k: Path)
    ensures k in Table(rules) <==> k != [] && exists i | 0 <= i < |rules| :: PathOf(rules[i].domain) == k
    ensures forall i | 0 <= i < |rules| && PathOf(rules[i].domain) == k != []
      && (forall j | i < j < |rules| :: PathOf(rules[j].domain) != k) :: Table(rules)[k] == rules[i]
  {
    TableLastAt(rules, k);
    LastAtIsLast(rules, k);
    forall i | 0 <= i < |rules| && PathOf(rules[i].domain) == k != []
      && (forall j | i < j < |rules| :: PathOf(rules[j].domain) != k)
      ensures Table(rules)[k] == rules[i]
    {
      TableOfLast(rules, k, i);
    }
  }

  lemma {:induction false} TableOfLast(rules: seq<Rule>, k: Path, i: nat)
    requires i < |rules| && PathOf(rules[i].domain) == k && k != []
    requires forall j | i < j < |rules| :: PathOf(rules[j].domain) != k
    ensures k in Table(rules) && Table(rules)[k] == rules[i]
  {
    LastAtIndex(rules, k, i);
    TableLastAt(rules, k);
  }

  lemma {:induction false} LastAtIndex(rules: seq<Rule>, k: Path, i: nat)
    requires i < |rules| && PathOf(rules[i].domain) == k
    requires forall j | i < j < |rules| :: PathOf(rules[j].domain) != k
    ensures LastAt(rules, k) == Some(i)
  {
    LastIndexIs(Paths(rules), k, i);
  }

  lemma {:induction false} LastIndexIs<T>(xs: seq<T>, x: T, i: nat)
    requires i < |xs| && xs[i] == x && forall j | i < j < |xs| :: xs[j] != x
    ensures LastIndex(xs, x) == Some(i)
  {
  }

  /** The path of rule `i` is topmost, and no later rule has it. */
  ghost predicate Stands(rules: seq<Rule>, i: nat)
    requires i < |rules|
  {
    var k := PathOf(rules[i].domain);
    Topmost(Table(rules), k) && forall j | i < j < |rules| :: PathOf(rules[j].domain) != k
  }

  /** Rule `i` survives exactly when it is the table's entry at a topmost path. */
  lemma {:induction false} SurvivorIsTopmost(rules: seq<Rule>, i: nat)
    requires i < |rules| && PathOf(rules[i].domain) != []
    ensures !Dominated(rules, i) <==> Stands(rules, i)
  {
    if Dominated(rules, i) {
      var j :| 0 <= j < |rules| && Covers(rules[j].domain, rules[i].domain)
        && (PathOf(rules[j].domain) != PathOf(rules[i].domain) || i < j);
      DominatedFalls(rules, i, j);
    } else {
      UndominatedStands(rules, i);
    }
  }

  lemma {:induction false} DominatedFalls(rules: seq<Rule>, i: nat, j: nat)
    requires i < |rules| && j < |rules| && Covers(rules[j].domain, rules[i].domain)
    requires PathOf(rules[j].domain) != PathOf(rules[i].domain) || i < j
    ensures !Stands(rules, i)
  {
    var d, k := PathOf(rules[j].domain), PathOf(rules[i].domain);
    CoversIsPathPrefix(rules[j].domain, rules[i].domain);
    TableEntry(rules, d);
    if d != k {
      assert k[..|d|] == d && 1 <= |d| < |k|;
    }
  }

  lemma {:induction false} UndominatedStands(rules: seq<Rule>, i: nat)
    requires i < |rules| && PathOf(rules[i].domain) != [] && !Dominated(rules, i)
    ensures Stands(rules, i)
  {
    var k := PathOf(rules[i].domain);
    TableEntry(rules, k);
    forall j | i < j < |rules| ensures PathOf(rules[j].domain) != k {
      CoversIsPathPrefix(rules[j].domain, rules[i].domain);
    }
    forall j | 1 <= j < |k| ensures k[..j] !in Table(rules) {
      TableEntry(rules, k[..j]);
      if k[..j] in Table(rules) {
        var r :| 0 <= r < |rules| && PathOf(rules[r].domain) == k[..j];
        CoversIsPathPrefix(rules[r].domain, rules[i].domain);
      }
    }
  }

  lemma {:induction false} WithoutMembers(rules: seq<Rule>, drop: set<nat>, n: nat, r: Rule)
    requires n <= |rules|
    ensures r in Without(rules, drop, n) <==> exists i: nat | i < n :: rules[i] == r && i !in drop
  {
    if n > 0 {
      WithoutMembers(rules, drop, n - 1, r);
    }
  }

  /** Exactly the undominated rules are kept. */
  lemma {:induction false} PrunedMembers(rules: seq<Rule>, r: Rule)
    ensures r in Prune(rules) <==> exists i: nat | i < |rules| :: rules[i] == r && i !in Useless(rules)
  {
    WithoutMembers(rules, Useless(rules), |rules|, r);
  }

  /** The pruned list's table is the topmost part of the full table. */
  lemma {:induction false} PrunedTable(rules: seq<Rule>, k: Path)
    ensures var kept := Prune(rules);
      && (k in Table(kept) <==> Topmost(Table(rules), k))
      && (k in Table(kept) ==> Table(kept)[k] == Table(rules)[k])
  {
    if k in Table(Prune(rules)) {
      KeptIsTopmost(rules, k);
    } else if Topmost(Table(rules), k) {
      TopmostIsKept(rules, k);
    }
  }

  lemma {:induction false} KeptIsTopmost(rules: seq<Rule>, k: Path)
    requires k in Table(Prune(rules))
    ensures Topmost(Table(rules), k) && Table(Prune(rules))[k] == Table(rules)[k]
  {
    var kept := Prune(rules);
    TableLastAt(kept, k);
    LastAtIsLast(kept, k);
    var r := kept[LastAt(kept, k).value];
    PrunedMembers(rules, r);
    var i: nat :| i < |rules| && rules[i] == r && i !in Useless(rules);
    SurvivorIsTopmost(rules, i);
    TableOfLast(rules, k, i);
  }

  lemma {:induction false} TopmostIsKept(rules: seq<Rule>, k: Path)
    requires Topmost(Table(rules), k)
    ensures k in Table(Prune(rules))
  {
    TableLastAt(rules, k);
    LastAtIsLast(rules, k);
    var i := LastAt(rules, k).value;
    SurvivorIsTopmost(rules, i);
    PrunedMembers(rules, rules[i]);
    TableEntry(Prune(rules), k);
  }

  /** Keeping the topmost paths keeps every shortest match. */
  lemma {:induction false} TopmostDecide(t: map<Path, Rule>, kept: map<Path, Rule>, key: Path)
    requires forall k :: k in kept <==> Topmost(t, k)
    requires forall k | k in kept :: k in t && kept[k] == t[k]
    ensures ShortestMatch(kept, key) == ShortestMatch(t, key)
  {
    var n := ShortestLen(t, key);
    if n > 0 {
      forall j | 1 <= j < n ensures key[..n][..j] !in t {
        assert key[..n][..j] == key[..j];
      }
      assert Topmost(t, key[..n]);
    }
  }

  /** Pruning changes no lookup, whatever the name. */
  lemma {:induction false} PruningPreservesMatch(rules: seq<Rule>, name: string)
    ensures Match(Prune(rules), name) == Match(rules, name)
  {
    forall k ensures k in Table(Prune(rules)) <==> Topmost(Table(rules), k)
      ensures k in Table(Prune(rules)) ==> Table(Prune(rules))[k] == Table(rules)[k]
    {
      PrunedTable(rules, k);
    }
    TopmostDecide(Table(rules), Table(Prune(rules)), PathOf(name));
  }

  /** On the pruned rules at most one rule covers a name: shortest, longest and only match coincide. */
  lemma {:induction false} PrunedMatchIsUnique(rules: seq<Rule>, name: string, r: Rule, s: Rule)
    requires r in Prune(rules) && s in Prune(rules)
    requires Covers(r.domain, name) && Covers(s.domain, name)
    ensures r == s
  {
    PrunedMembers(rules, r);
    PrunedMembers(rules, s);
    var i: nat :| i < |rules| && rules[i] == r && i !in Useless(rules);
    var j: nat :| j < |rules| && rules[j] == s && j !in Useless(rules);
    if |PathOf(r.domain)| <= |PathOf(s.domain)| {
      SurvivorsApart(rules, name, i, j);
    } else {
      SurvivorsApart(rules, name, j, i);
    }
  }

  /** Two undominated rules covering one name are the same rule. */
  lemma {:induction false} SurvivorsApart(rules: seq<Rule>, name: string, i: nat, j: nat)
    requires i < |rules| && j < |rules| && !Dominated(rules, i) && !Dominated(rules, j)
    requires Covers(rules[i].domain, name) && Covers(rules[j].domain, name)
    requires |PathOf(rules[i].domain)| <= |PathOf(rules[j].domain)|
    ensures i == j
  {
    CoversIsPathPrefix(rules[i].domain, name);
    CoversIsPathPrefix(rules[j].domain, name);
    CoversIsPathPrefix(rules[i].domain, rules[j].domain);
    assert PathOf(rules[i].domain) == PathOf(rules[j].domain);
    CoversIsPathPrefix(rules[j].domain, rules[i].domain);
  }

  /** Nothing more can go: a rule survives exactly when it is the one its own domain finds. */
  lemma {:induction false} SurvivorIsNeeded(rules: seq<Rule>, i: nat)
    requires i < |rules| && Covers(rules[i].domain, rules[i].domain)
    ensures !Dominated(rules, i) <==>
      && Match(rules, rules[i].domain) == Some(rules[i]) && Winner(rules, rules[i].domain) == Some(i)
  {
    var name := rules[i].domain;
    MatchIsWinner(rules, name);
    WinnerIsBest(rules, name, i);
    if Dominated(rules, i) {
      var j :| 0 <= j < |rules| && Covers(rules[j].domain, name) && (PathOf(rules[j].domain) != PathOf(name) || i < j);
      FewerLabelsIsShorter(rules[j].domain, name, name);
      CoversIsPathPrefix(rules[j].domain, name);
      assert !Beats(rules, i, j);
    } else {
      forall j | 0 <= j < |rules| && Covers(rules[j].domain, name) ensures Beats(rules, i, j) {
        CoversIsPathPrefix(rules[j].domain, name);
        assert PathOf(rules[j].domain) == PathOf(name) && j <= i;
        PathInjective(rules[j].domain, name);
      }
    }
  }
}
