/** Shared vocabulary: optional values, results, and a few facts about sequences. */
module Prelude {
  datatype Option<+T> = None | Some(value: T)

  datatype Result<+T, +E> = Ok(value: T) | Err(error: E)

  predicate NoDuplicates<T(==)>(xs: seq<T>) {
    forall i, j | 0 <= i < j < |xs| :: xs[i] != xs[j]
  }

  function Reverse<T>(xs: seq<T>): (r: seq<T>)
    ensures |r| == |xs|
    ensures forall i | 0 <= i < |xs| :: r[i] == xs[|xs| - 1 - i]
  {
    seq(|xs|, i requires 0 <= i < |xs| => xs[|xs| - 1 - i])
  }

  predicate IsSuffix<T(==)>(s: seq<T>, xs: seq<T>) {
    |s| <= |xs| && xs[|xs| - |s|..] == s
  }

  /** Reversal turns suffixes into prefixes. */
  lemma {:induction false} SuffixIsReversedPrefix<T>(s: seq<T>, xs: seq<T>)
    ensures IsSuffix(s, xs) <==> Reverse(s) <= Reverse(xs)
  {
    if IsSuffix(s, xs) {
      forall i | 0 <= i < |s| ensures Reverse(s)[i] == Reverse(xs)[i] {
        assert s[|s| - 1 - i] == xs[|xs| - |s|..][|s| - 1 - i];
      }
    }
    if Reverse(s) <= Reverse(xs) {
      assert |s| <= |xs|;
      forall i | 0 <= i < |s| ensures xs[|xs| - |s|..][i] == s[i] {
        assert Reverse(s)[|s| - 1 - i] == Reverse(xs)[|s| - 1 - i];
      }
    }
  }

  lemma {:induction false} AppendAssociative<T>(a: seq<T>, b: seq<T>, c: seq<T>)
    ensures (a + b) + c == a + (b + c)
  {
  }

  lemma {:induction false} NothingFirst<T>(xs: seq<T>)
    ensures [] + xs == xs == xs + []
  {
  }

  /** Concatenation of the images of `xs` under `f`. */
  function FlatMap<A, B>(f: A -> seq<B>, xs: seq<A>): seq<B> {
    if xs == [] then [] else f(xs[0]) + FlatMap(f, xs[1..])
  }

  lemma {:induction false} FlatMapAppend<A, B>(f: A -> seq<B>, xs: seq<A>, ys: seq<A>)
    ensures FlatMap(f, xs + ys) == FlatMap(f, xs) + FlatMap(f, ys)
  {
    if xs == [] {
      assert xs + ys == ys;
    } else {
      assert (xs + ys)[1..] == xs[1..] + ys;
      FlatMapAppend(f, xs[1..], ys);
    }
  }

  lemma {:induction false} FlatMapSnoc<A, B>(f: A -> seq<B>, xs: seq<A>, x: A)
    ensures FlatMap(f, xs + [x]) == FlatMap(f, xs) + f(x)
  {
    FlatMapAppend(f, xs, [x]);
    assert FlatMap(f, [x]) == f(x) + FlatMap(f, []);
  }

  lemma {:induction false} FlatMapNext<A, B>(f: A -> seq<B>, xs: seq<A>, i: nat)
    requires i < |xs|
    ensures FlatMap(f, xs[..i + 1]) == FlatMap(f, xs[..i]) + f(xs[i])
  {
    assert xs[..i + 1] == xs[..i] + [xs[i]];
    FlatMapSnoc(f, xs[..i], xs[i]);
  }

  lemma {:induction false} FlatMapMembership<A, B>(f: A -> seq<B>, xs: seq<A>, b: B)
    ensures b in FlatMap(f, xs) <==> exists x :: x in xs && b in f(x)
  {
    if xs != [] {
      FlatMapMembership(f, xs[1..], b);
      assert xs == [xs[0]] + xs[1..];
    }
  }

  lemma {:induction false} FlatMapOne<A, B>(f: A -> seq<B>, xs: seq<A>)
    requires xs != []
    ensures FlatMap(f, xs) == f(xs[0]) + FlatMap(f, xs[1..])
  {
  }

  /** An occurrence of `x`, and what stands before and behind it. */
  lemma {:induction false} TakeOut<T>(ys: seq<T>, x: T) returns (front: seq<T>, back: seq<T>)
    requires x in multiset(ys)
    ensures ys == front + ([x] + back)
    ensures multiset(front + back) == multiset(ys) - multiset{x}
  {
    var k :| 0 <= k < |ys| && ys[k] == x;
    front, back := ys[..k], ys[k + 1..];
    assert ys == front + ([x] + back);
  }

  /** Permuting the input, and permuting each image, permutes the output. */
  lemma {:induction false} FlatMapPermutation<A, B>(f: A -> seq<B>, g: A -> seq<B>, xs: seq<A>, ys: seq<A>)
    requires multiset(xs) == multiset(ys)
    requires forall x | x in xs :: multiset(f(x)) == multiset(g(x))
    ensures multiset(FlatMap(f, xs)) == multiset(FlatMap(g, ys))
  {
    if xs == [] {
      assert |ys| == |multiset(ys)| == |multiset(xs)|;
    } else {
      var x := xs[0];
      assert xs == [x] + xs[1..];
      assert x in multiset(xs);
      var front, back := TakeOut(ys, x);
      FlatMapPermutation(f, g, xs[1..], front + back);
      FlatMapAppend(g, front, [x] + back);
      FlatMapAppend(g, front, back);
      FlatMapAppend(g, [x], back);
      FlatMapOne(f, xs);
      BagSwap(multiset(FlatMap(g, front)), multiset(g(x)), multiset(FlatMap(g, back)));
    }
  }

  /** Two duplicate-free listings of the same set are permutations of each other. */
  lemma {:induction false} SameSetSameMultiset<T>(xs: seq<T>, ys: seq<T>)
    requires NoDuplicates(xs) && NoDuplicates(ys)
    requires forall x :: x in xs <==> x in ys
    ensures multiset(xs) == multiset(ys)
  {
    forall x ensures multiset(xs)[x] == multiset(ys)[x] {
      CountOnce(xs, x);
      CountOnce(ys, x);
    }
  }

  lemma {:induction false} SameMultisetSameLength<T>(xs: seq<T>, ys: seq<T>)
    requires multiset(xs) == multiset(ys)
    ensures |xs| == |ys|
  {
    assert |multiset(xs)| == |xs| && |multiset(ys)| == |ys|;
  }

  lemma {:induction false} CountOnce<T>(xs: seq<T>, x: T)
    requires NoDuplicates(xs)
    ensures multiset(xs)[x] == if x in xs then 1 else 0
  {
    if xs != [] {
      var last := |xs| - 1;
      assert xs == xs[..last] + [xs[last]];
      CountOnce(xs[..last], x);
    }
  }

  lemma {:induction false} BagCancel<T>(a: multiset<T>, b: multiset<T>, x: multiset<T>)
    requires a + x == b + x
    ensures a == b
  {
    forall e ensures a[e] == b[e] {
      assert (a + x)[e] == (b + x)[e];
    }
  }

  lemma {:induction false} BagSwap<T>(a: multiset<T>, b: multiset<T>, c: multiset<T>)
    ensures a + (b + c) == b + (a + c)
  {
  }

  lemma {:induction false} BagAssociative<T>(a: multiset<T>, b: multiset<T>, c: multiset<T>)
    ensures (a + b) + c == a + (b + c)
    ensures (a + b) + c == (a + c) + b
  {
  }

  /** The distinct elements of `xs` in order of first appearance. */
  function FirstAppearances<T(==, !new)>(xs: seq<T>): (r: seq<T>)
    ensures NoDuplicates(r)
    ensures forall x :: x in r <==> x in xs
  {
    if xs == [] then []
    else
      var front, last := xs[..|xs| - 1], xs[|xs| - 1];
      assert xs == front + [last];
      var r := FirstAppearances(front);
      if last in front then r else r + [last]
  }

  lemma {:induction false} FirstAppearancesNext<T(!new)>(xs: seq<T>, n: nat)
    requires n < |xs|
    ensures FirstAppearances(xs[..n + 1]) ==
      FirstAppearances(xs[..n]) + if xs[n] in FirstAppearances(xs[..n]) then [] else [xs[n]]
  {
    assert xs[..n + 1][..n] == xs[..n];
  }

  /** Every finite set can be listed without repetition. */
  lemma {:induction false} Listing<T>(s: set<T>) returns (xs: seq<T>)
    ensures NoDuplicates(xs)
    ensures forall x :: x in xs <==> x in s
    decreases |s|
  {
    if s == {} {
      xs := [];
    } else {
      var x :| x in s;
      var rest := Listing(s - {x});
      xs := rest + [x];
    }
  }
}
