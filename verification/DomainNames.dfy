/**
 * Domain names as strings and as label sequences: the normalisation shared by
 * the parser and the trie, the label split, and the string-level meaning of
 * label-aligned suffix matching. Letters are ASCII.
 */
module DomainNames {
  import opened Prelude

  /** A walk from the trie root: labels from the top-level one downwards. */
  type Path = seq<string>

  function LowerChar(c: char): char {
    if 'A' <= c <= 'Z' then c - 'A' + 'a' else c
  }

  function ToLower(s: string): (r: string)
    ensures |r| == |s|
    ensures forall i | 0 <= i < |s| :: r[i] == LowerChar(s[i])
  {
    seq(|s|, i requires 0 <= i < |s| => LowerChar(s[i]))
  }

  /** Removes one trailing dot, if there is one. */
  function TrimDot(s: string): string {
    if s != "" && s[|s| - 1] == '.' then s[..|s| - 1] else s
  }

  function Normalize(name: string): string {
    TrimDot(ToLower(name))
  }

  /** Lower-casing twice is lower-casing once. */
  lemma {:induction false} ToLowerIdempotent(s: string)
    ensures ToLower(ToLower(s)) == ToLower(s)
  {
  }

  predicate IsSpace(c: char) {
    c == ' ' || c == '\t' || c == '\n' || c == '\r' || c as int == 0x0B || c as int == 0x0C
  }

  function TrimLeft(s: string): string {
    if s != "" && IsSpace(s[0]) then TrimLeft(s[1..]) else s
  }

  function TrimRight(s: string): string {
    if s != "" && IsSpace(s[|s| - 1]) then TrimRight(s[..|s| - 1]) else s
  }

  function TrimSpace(s: string): string {
    TrimRight(TrimLeft(s))
  }

  // ---------------------------------------------------------------- letter case and white space

  /** The same character, or the two cases of one ASCII letter. */
  predicate SameLetter(c: char, d: char) {
    || c == d
    || ('A' <= c <= 'Z' && d as int == c as int + 32)
    || ('A' <= d <= 'Z' && c as int == d as int + 32)
  }

  predicate SameButCase(s: string, t: string) {
    |s| == |t| && forall i | 0 <= i < |s| :: SameLetter(s[i], t[i])
  }

  predicate HasUpper(s: string) {
    exists i | 0 <= i < |s| :: 'A' <= s[i] <= 'Z'
  }

  /** Lower-casing changes the case of letters only, and leaves no capital. */
  lemma {:induction false} LoweredOnly(s: string)
    ensures SameButCase(s, ToLower(s)) && !HasUpper(ToLower(s))
    ensures forall i | 0 <= i < |s| && !('A' <= s[i] <= 'Z') :: ToLower(s)[i] == s[i]
  {
  }

  /** Lower-casing identifies exactly the strings that differ in case alone. */
  lemma {:induction false} LoweredAlike(s: string, t: string)
    ensures ToLower(s) == ToLower(t) <==> SameButCase(s, t)
  {
    if ToLower(s) == ToLower(t) {
      forall i | 0 <= i < |s| ensures SameLetter(s[i], t[i]) {
        assert ToLower(s)[i] == ToLower(t)[i];
      }
    }
  }

  /** Normalising drops at most one character, a trailing dot, and otherwise changes the case of letters only. */
  lemma {:induction false} Normalized(s: string)
    ensures var n := Normalize(s);
      && !HasUpper(n)
      && (if s != "" && s[|s| - 1] == '.' then SameButCase(s[..|s| - 1], n) else SameButCase(s, n))
  {
    LoweredOnly(s);
    assert forall i | 0 <= i < |Normalize(s)| :: Normalize(s)[i] == ToLower(s)[i];
  }

  /** Names that differ in case alone share a trie node. */
  lemma {:induction false} CaseIsIgnored(s: string, t: string)
    requires SameButCase(s, t)
    ensures Normalize(s) == Normalize(t) && PathOf(s) == PathOf(t)
  {
    LoweredAlike(s, t);
  }

  /** Tab, line feed, vertical tab, form feed, carriage return and space, as code points. */
  predicate Blank(s: string) {
    forall i | 0 <= i < |s| :: 9 <= s[i] as int <= 13 || s[i] as int == 32
  }

  /** Trimming takes white space off both ends, and all of it. */
  lemma {:induction false} Trimmed(s: string) returns (front: string, back: string)
    ensures s == front + TrimSpace(s) + back && Blank(front) && Blank(back)
    ensures var t := TrimSpace(s); t != "" ==> !Blank([t[0]]) && !Blank([t[|t| - 1]])
  {
    front := TrimmedLeft(s);
    back := TrimmedRight(TrimLeft(s));
    assert s == front + (TrimSpace(s) + back);
    var t := TrimSpace(s);
    if t != "" {
      assert TrimLeft(s)[0] == t[0];
    }
  }

  lemma {:induction false} TrimmedLeft(s: string) returns (front: string)
    ensures s == front + TrimLeft(s) && Blank(front)
    ensures TrimLeft(s) != "" ==> !Blank([TrimLeft(s)[0]])
  {
    if s != "" && IsSpace(s[0]) {
      var rest := TrimmedLeft(s[1..]);
      front := [s[0]] + rest;
      assert s == [s[0]] + s[1..];
    } else {
      front := "";
      assert s != "" ==> [s[0]][0] == s[0];
    }
  }

  lemma {:induction false} TrimmedRight(s: string) returns (back: string)
    ensures s == TrimRight(s) + back && Blank(back)
    ensures var t := TrimRight(s); t != "" ==> !Blank([t[|t| - 1]])
  {
    if s != "" && IsSpace(s[|s| - 1]) {
      var rest := TrimmedRight(s[..|s| - 1]);
      back := rest + [s[|s| - 1]];
      assert s == s[..|s| - 1] + [s[|s| - 1]];
    } else {
      back := "";
      assert s != "" ==> [s[|s| - 1]][0] == s[|s| - 1];
    }
  }

  // ---------------------------------------------------------------- labels

  /** How one more leading character changes the pieces. */
  function Prepend(c: char, rest: seq<string>): seq<string>
    requires |rest| >= 1
  {
    if c == '.' then [""] + rest else [[c] + rest[0]] + rest[1..]
  }

  /** The pieces of `s` between dots; there is always at least one. */
  function Split(s: string): (labels: seq<string>)
    ensures |labels| >= 1
    ensures forall l | l in labels :: '.' !in l
  {
    if s == "" then [""]
    else
      Prepend(s[0], Split(s[1..]))
  }

  function Join(labels: seq<string>): string
    requires |labels| >= 1
  {
    if |labels| == 1 then labels[0] else labels[0] + "." + Join(labels[1..])
  }

  /** The labels of a name, leftmost first; none for the empty name and the root. */
  function SplitDomain(name: string): seq<string> {
    var n := Normalize(name);
    if n == "" then [] else Split(n)
  }

  function PathOf(name: string): Path {
    Reverse(SplitDomain(name))
  }

  lemma {:induction false} JoinSplit(s: string)
    ensures Join(Split(s)) == s
  {
    if s != "" {
      JoinSplit(s[1..]);
      JoinPrepend(s[0], Split(s[1..]));
      assert s == [s[0]] + s[1..];
    }
  }

  lemma {:induction false} JoinPrepend(c: char, rest: seq<string>)
    requires |rest| >= 1
    ensures Join(Prepend(c, rest)) == [c] + Join(rest)
  {
    if c == '.' {
      assert ([""] + rest)[1..] == rest;
      assert Join([""] + rest) == "" + "." + Join(rest);
    } else {
      JoinFirst([c] + rest[0], rest[1..]);
      JoinFirst(rest[0], rest[1..]);
      assert [rest[0]] + rest[1..] == rest;
    }
  }

  /** Joining, first label apart. */
  lemma {:induction false} JoinFirst(first: string, rest: seq<string>)
    ensures Join([first] + rest) == first + if rest == [] then "" else "." + Join(rest)
  {
    assert ([first] + rest)[1..] == rest;
  }

  lemma {:induction false} PrependChar(c: char, rest: seq<string>, more: seq<string>)
    requires |rest| >= 1
    ensures Prepend(c, rest + more) == Prepend(c, rest) + more
  {
    assert (rest + more)[0] == rest[0] && (rest + more)[1..] == rest[1..] + more;
  }

  /** Splitting after a dot: everything before it and everything after it. */
  lemma {:induction false} SplitAtDot(a: string, b: string)
    ensures Split(a + "." + b) == Split(a) + Split(b)
  {
    var s := a + "." + b;
    if a == "" {
      assert s[1..] == b;
    } else {
      SplitAtDot(a[1..], b);
      assert s[0] == a[0] && s[1..] == a[1..] + "." + b;
      PrependChar(a[0], Split(a[1..]), Split(b));
    }
  }

  lemma {:induction false} SplitLabel(piece: string)
    requires '.' !in piece
    ensures Split(piece) == [piece]
  {
    if piece != "" {
      assert piece == [piece[0]] + piece[1..];
      SplitLabel(piece[1..]);
    }
  }

  lemma {:induction false} SplitJoin(labels: seq<string>)
    requires |labels| >= 1
    requires forall l | l in labels :: '.' !in l
    ensures Split(Join(labels)) == labels
  {
    SplitLabel(labels[0]);
    if |labels| > 1 {
      SplitJoin(labels[1..]);
      SplitAtDot(labels[0], Join(labels[1..]));
      assert labels == [labels[0]] + labels[1..];
    } else {
      assert labels == [labels[0]];
    }
  }

  lemma {:induction false} JoinAppend(a: seq<string>, b: seq<string>)
    requires |a| >= 1 && |b| >= 1
    ensures Join(a + b) == Join(a) + "." + Join(b)
  {
    if |a| == 1 {
      assert (a + b)[1..] == b;
    } else {
      assert (a + b)[1..] == a[1..] + b;
      JoinAppend(a[1..], b);
      assert a[0] + "." + (Join(a[1..]) + "." + Join(b)) == (a[0] + "." + Join(a[1..])) + "." + Join(b);
    }
  }

  predicate EndsWith(s: string, tail: string) {
    IsSuffix(tail, s)
  }

  /** The labels of `d` end the labels of `n` exactly when `n` is `d` or ends with a dot and `d`. */
  lemma {:induction false} LabelAlignment(d: string, n: string)
    ensures IsSuffix(Split(d), Split(n)) <==> n == d || EndsWith(n, "." + d)
  {
    if IsSuffix(Split(d), Split(n)) {
      LabelsToString(d, n);
    }
    if EndsWith(n, "." + d) {
      StringToLabels(d, n);
    }
  }

  lemma {:induction false} LabelsToString(d: string, n: string)
    requires IsSuffix(Split(d), Split(n))
    ensures n == d || EndsWith(n, "." + d)
  {
    var ds, ns := Split(d), Split(n);
    JoinSplit(d);
    JoinSplit(n);
    var cut := |ns| - |ds|;
    assert ns == ns[..cut] + ds;
    if cut > 0 {
      JoinAppend(ns[..cut], ds);
      assert n == Join(ns[..cut]) + ("." + d);
    } else {
      assert ns == ds;
    }
  }

  lemma {:induction false} StringToLabels(d: string, n: string)
    requires EndsWith(n, "." + d)
    ensures IsSuffix(Split(d), Split(n))
  {
    var head := n[..|n| - |"." + d|];
    assert n == head + ("." + d) == head + "." + d;
    SplitAtDot(head, d);
  }

  /** What it means, on strings, that a rule for `d` covers the name `n`. */
  predicate Covers(d: string, n: string) {
    var d', n' := Normalize(d), Normalize(n);
    d' != "" && n' != "" && (n' == d' || EndsWith(n', "." + d'))
  }

  /** The walk along labels decides exactly the string-level relation. */
  lemma {:induction false} CoversIsPathPrefix(d: string, n: string)
    ensures Covers(d, n) <==> PathOf(d) != [] && PathOf(d) <= PathOf(n)
  {
    SuffixIsReversedPrefix(SplitDomain(d), SplitDomain(n));
    LabelAlignment(Normalize(d), Normalize(n));
  }

  /** Two names share a path exactly when they agree after normalisation. */
  lemma {:induction false} PathInjective(a: string, b: string)
    ensures PathOf(a) == PathOf(b) <==> Normalize(a) == Normalize(b)
  {
    if PathOf(a) == PathOf(b) {
      assert |SplitDomain(a)| == |SplitDomain(b)|;
      forall i | 0 <= i < |SplitDomain(a)| ensures SplitDomain(a)[i] == SplitDomain(b)[i] {
        var j := |SplitDomain(a)| - 1 - i;
        assert PathOf(a)[j] == SplitDomain(a)[i] && PathOf(b)[j] == SplitDomain(b)[i];
      }
      assert SplitDomain(a) == SplitDomain(b);
      if Normalize(a) != "" {
        JoinSplit(Normalize(a));
        JoinSplit(Normalize(b));
      }
    }
  }

  /** Among names covering one name, fewer labels means a shorter string. */
  lemma {:induction false} FewerLabelsIsShorter(d: string, e: string, n: string)
    requires Covers(d, n) && Covers(e, n)
    ensures |PathOf(d)| <= |PathOf(e)| <==> |Normalize(d)| <= |Normalize(e)|
    ensures |PathOf(d)| == |PathOf(e)| <==> PathOf(d) == PathOf(e)
  {
    CoversIsPathPrefix(d, n);
    CoversIsPathPrefix(e, n);
    PathInjective(d, e);
    if |PathOf(d)| <= |PathOf(e)| {
      assert PathOf(d) <= PathOf(e);
      CoversIsPathPrefix(d, e);
    } else {
      assert PathOf(e) <= PathOf(d);
      CoversIsPathPrefix(e, d);
    }
  }
}
