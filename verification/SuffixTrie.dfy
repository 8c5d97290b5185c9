/**
 * The domain suffix trie: a tree of heap nodes whose edges are labels, walked
 * from the top-level label downwards. The abstract value of a trie is the map
 * from paths to inserted values; `ShortestMatch` says which of them a name finds.
 */
module SuffixTrie {
  import opened Prelude
  import opened DomainNames

  /** The length of the shortest non-empty prefix of `key` bound in `m`; 0 if there is none. */
  function ShortestLen<V>(m: map<Path, V>, key: Path): (n: nat)
    ensures n <= |key|
    ensures n > 0 ==> key[..n] in m
    ensures forall j | 1 <= j <= |key| && (n == 0 || j < n) :: key[..j] !in m
  {
    ShortestFrom(m, key, 1)
  }

  function ShortestFrom<V>(m: map<Path, V>, key: Path, from: nat): (n: nat)
    requires 1 <= from
    ensures n == 0 || from <= n <= |key|
    ensures n > 0 ==> key[..n] in m
    ensures forall j | from <= j <= |key| && (n == 0 || j < n) :: key[..j] !in m
    decreases |key| + 1 - from
  {
    if from > |key| then 0
    else if key[..from] in m then from
    else ShortestFrom(m, key, from + 1)
  }

  function ShortestMatch<V>(m: map<Path, V>, key: Path): Option<V> {
    var n := ShortestLen(m, key);
    if n == 0 then None else Some(m[key[..n]])
  }

  /** One label further down. */
  function Child(p: Path, l: string): Path {
    p + [l]
  }

  lemma {:induction false} ChildOf(p: Path, l: string)
    ensures Parent(Child(p, l)) == p && Child(p, l)[|p|] == l
  {
  }

  function Parent(p: Path): Path
    requires p != []
  {
    p[..|p| - 1]
  }

  class Node<V> {
    var children: map<string, Node<V>>
    var terminal: bool
    var value: Option<V>
    /** The one path on which this node hangs. */
    ghost const path: Path

    constructor (ghost path: Path)
      ensures children == map[] && !terminal && value == None && this.path == path
    {
      children, terminal, value := map[], false, None;
      this.path := path;
    }
  }

  class Trie<V> {
    const root: Node<V>
    /** Every node of the trie under the path that leads to it. */
    ghost var nodes: map<Path, Node<V>>
    /** The abstract value: what was inserted, by path. */
    ghost var Contents: map<Path, V>

    /**
     * The nodes form a tree: the paths are closed under prefixes, a node's
     * children are exactly the nodes one label further down, and no node is
     * reached along two paths (so there is no sharing and no cycle).
     */
    ghost predicate Tree()
      reads this, nodes.Values
    {
      && [] in nodes && nodes[[]] == root
      && (forall p | p in nodes :: nodes[p].path == p)
      && (forall p {:trigger Parent(p)} | p in nodes && p != [] ::
            Parent(p) in nodes && p[|p| - 1] in nodes[Parent(p)].children)
      && (forall p, l {:trigger l in nodes[p].children} | p in nodes && l in nodes[p].children ::
            Child(p, l) in nodes && nodes[p].children[l] == nodes[Child(p, l)])
    }

    ghost predicate Valid()
      reads this, nodes.Values
    {
      && Tree()
      && [] !in Contents
      && (forall p | p in nodes :: nodes[p].terminal <==> p in Contents)
      && (forall p | p in Contents :: p in nodes && nodes[p].value == Some(Contents[p]))
    }

    constructor ()
      ensures Valid() && Contents == map[]
      ensures fresh(nodes.Values)
    {
      var r := new Node<V>([]);
      root := r;
      nodes := map[[] := r];
      Contents := map[];
    }

    /** A path that leads nowhere leads nowhere further down either. */
    lemma {:induction false} NothingBelow(key: Path, n: nat)
      requires Valid() && 1 <= n
      requires n <= |key| ==> key[..n] !in nodes
      ensures ShortestFrom(Contents, key, n) == 0
      decreases |key| + 1 - n
    {
      if n < |key| {
        assert Parent(key[..n + 1]) == key[..n];
      }
      if n <= |key| {
        NothingBelow(key, n + 1);
      }
    }

    method Insert(domain: string, value: V)
      requires Valid()
      modifies this`nodes, this`Contents, nodes.Values
      ensures Valid()
      ensures fresh(nodes.Values - old(nodes.Values))
      ensures Contents == if PathOf(domain) == [] then old(Contents)
                            else old(Contents)[PathOf(domain) := value]
    {
      var labels := SplitDomain(domain);
      if |labels| == 0 {
        return;
      }
      var cur := Descend(labels, PathOf(domain));
      Mark(cur, PathOf(domain), value);
    }

    /** Walks down along `labels`, last label first, hanging up the nodes that are missing. */
    method Descend(labels: seq<string>, ghost key: Path) returns (cur: Node<V>)
      requires Valid() && key == Reverse(labels)
      modifies this`nodes, nodes.Values`children
      ensures Valid()
      ensures fresh(nodes.Values - old(nodes.Values))
      ensures key in nodes && nodes[key] == cur
    {
      cur := root;
      ghost var n := 0;
      var i := |labels| - 1;
      while i >= 0
        invariant -1 <= i < |labels| && n == |labels| - 1 - i
        invariant Valid()
        invariant key[..n] in nodes && nodes[key[..n]] == cur
        invariant fresh(nodes.Values - old(nodes.Values))
      {
        var l := labels[i];
        assert key[..n + 1] == Child(key[..n], l);
        if l !in cur.children {
          AddChild(cur, key[..n], l);
        }
        cur := cur.children[l];
        n := n + 1;
        i := i - 1;
      }
      assert key[..n] == key;
    }

    method Mark(cur: Node<V>, ghost path: Path, value: V)
      requires Valid() && path in nodes && nodes[path] == cur && path != []
      modifies this`Contents, cur`terminal, cur`value
      ensures Valid()
      ensures Contents == old(Contents)[path := value]
    {
      cur.terminal := true;
      cur.value := Some(value);
      Contents := Contents[path := value];
    }

    /** Hangs a new, non-terminal node below `cur`. */
    method AddChild(cur: Node<V>, ghost path: Path, l: string)
      requires Valid() && path in nodes && nodes[path] == cur && l !in cur.children
      modifies this`nodes, cur`children
      ensures Valid()
      ensures l in cur.children && fresh(cur.children[l])
      ensures nodes == old(nodes)[Child(path, l) := cur.children[l]]
    {
      ChildOf(path, l);
      assert Child(path, l) !in nodes;
      var next := new Node<V>(Child(path, l));
      Hang(cur, path, l, next);
    }

    /** Links a blank node below `cur`. */
    method Hang(cur: Node<V>, ghost path: Path, l: string, next: Node<V>)
      requires Valid() && path in nodes && nodes[path] == cur && l !in cur.children
      requires Child(path, l) !in nodes && next.path == Child(path, l)
      requires next.children == map[] && !next.terminal
      modifies this`nodes, cur`children
      ensures Tree()
      ensures cur.children == old(cur.children)[l := next] && nodes == old(nodes)[Child(path, l) := next]
    {
      ghost var below := Child(path, l);
      ChildOf(path, l);
      cur.children := cur.children[l := next];
      nodes := nodes[below := next];
      forall p, k | p in nodes && k in nodes[p].children
        ensures Child(p, k) in nodes && nodes[p].children[k] == nodes[Child(p, k)]
      {
        ChildOf(p, k);
        if Child(p, k) == below {
          assert p == path && k == l;
        }
      }
    }

    method Lookup(name: string) returns (r: Option<V>)
      requires Valid()
      ensures r == ShortestMatch(Contents, PathOf(name))
    {
      var labels := SplitDomain(name);
      if |labels| == 0 {
        return None;
      }
      r := Walk(labels, PathOf(name));
    }

    method Walk(labels: seq<string>, ghost key: Path) returns (r: Option<V>)
      requires Valid() && key == Reverse(labels)
      ensures r == ShortestMatch(Contents, key)
    {
      var cur := root;
      ghost var n := 0;
      var i := |labels| - 1;
      while i >= 0
        invariant -1 <= i < |labels| && n == |labels| - 1 - i
        invariant key[..n] in nodes && nodes[key[..n]] == cur
        invariant ShortestLen(Contents, key) == ShortestFrom(Contents, key, n + 1)
      {
        var l := labels[i];
        ghost var path := key[..n];
        assert key[..n + 1] == Child(path, l);
        if l !in cur.children {
          assert Parent(Child(path, l)) == path;
          NothingBelow(key, n + 1);
          return None;
        }
        var next := cur.children[l];
        if next.terminal {
          return next.value;
        }
        cur := next;
        n := n + 1;
        i := i - 1;
      }
      return None;
    }
  }
}
