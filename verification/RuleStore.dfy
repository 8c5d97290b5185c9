/**
 * The published snapshot of the rules and the reload step around it. A trie
 * that was once published is never written again.
 */
module RuleStore {
  import opened Prelude
  import opened SuffixTrie
  import opened Rules

  datatype Snapshot = Snapshot(rs: RuleSet, trie: Trie<Rule>)

  /** `t` is an intact trie holding exactly what `rules` put into it. */
  ghost predicate Frozen(t: Trie<Rule>, rules: seq<Rule>)
    reads t, t.nodes.Values
  {
    t.Valid() && t.Contents == Table(rules)
  }

  class Store {
    var v: Option<Snapshot>

    ghost predicate Valid()
      reads this
      reads if v.Some? then {v.value.trie} else {}
      reads if v.Some? then v.value.trie.nodes.Values else {}
    {
      v.Some? ==> Frozen(v.value.trie, v.value.rs.rules)
    }

    constructor ()
      ensures Valid() && v == None
    {
      v := None;
    }

    method Get() returns (rs: Option<RuleSet>)
      ensures rs == if v.Some? then Some(v.value.rs) else None
    {
      if v.None? { return None; }
      return Some(v.value.rs);
    }

    method Trie() returns (t: Option<Trie<Rule>>)
      requires Valid()
      ensures t.Some? <==> v.Some?
      ensures t.Some? ==> t.value == v.value.trie && Frozen(t.value, v.value.rs.rules)
    {
      if v.None? { return None; }
      return Some(v.value.trie);
    }

    /** Publishes a trie made of new nodes only; nothing is written but the one field. */
    method Replace(rs: Option<RuleSet>)
      requires Valid()
      modifies this
      ensures Valid()
      ensures rs.None? ==> v == old(v)
      ensures rs.Some? ==> v.Some? && v.value.rs == rs.value
      ensures rs.Some? ==> fresh(v.value.trie) && fresh(v.value.trie.nodes.Values)
    {
      if rs.None? {
        return;
      }
      var t := BuildTrie(rs.value.rules);
      v := Some(Snapshot(rs.value, t));
    }
  }

  /** The version is supported and no entry is faulty. */
  ghost predicate Accepts(file: RuleFile) {
    file.version == 1 && Sound(file.rules, |file.rules|)
  }

  /** The outcome of reading a rules file: nothing when it cannot be read or decoded. */
  type FileRead = Option<RuleFile>

  /** The last file of a series that loads. */
  ghost function LastAccepted(files: seq<FileRead>): (r: Option<RuleFile>)
    ensures r.Some? ==> Accepts(r.value)
  {
    if files == [] then None
    else
      var last := files[|files| - 1];
      if last.Some? && Accepts(last.value) then last else LastAccepted(files[..|files| - 1])
  }

  lemma {:induction false} LastAcceptedNext(files: seq<FileRead>, i: nat)
    requires i < |files|
    ensures LastAccepted(files[..i + 1]) ==
      if files[i].Some? && Accepts(files[i].value) then files[i] else LastAccepted(files[..i])
  {
    assert files[..i + 1][..i] == files[..i];
  }

  /** The rules in force are those of `file`, cleaned. */
  ghost predicate InForce(v: Option<Snapshot>, file: RuleFile) {
    v.Some? && |v.value.rs.rules| == |file.rules| && Cleaned(file.rules, v.value.rs.rules)
  }

  class Reloader {
    const store: Store
    var reloadsOk: nat
    var reloadsFailed: nat
    var rulesActive: nat

    constructor (store: Store)
      ensures this.store == store && reloadsOk == 0 && reloadsFailed == 0
    {
      this.store := store;
      reloadsOk, reloadsFailed, rulesActive := 0, 0, 0;
    }

    /** Publishes the file's rules if they load; otherwise keeps the previous snapshot. */
    method Reload(read: FileRead)
      requires store.Valid()
      modifies this, store
      ensures store.Valid()
      ensures var ok := read.Some? && Accepts(read.value);
        && reloadsOk == old(reloadsOk) + (if ok then 1 else 0)
        && reloadsFailed == old(reloadsFailed) + (if ok then 0 else 1)
        && (ok ==> InForce(store.v, read.value) && rulesActive == |read.value.rules|)
        && (!ok ==> store.v == old(store.v) && rulesActive == old(rulesActive))
    {
      if read.None? {
        reloadsFailed := reloadsFailed + 1;
        return;
      }
      var loaded := LoadRules(read.value);
      if loaded.Err? {
        reloadsFailed := reloadsFailed + 1;
        return;
      }
      store.Replace(Some(loaded.value));
      reloadsOk := reloadsOk + 1;
      rulesActive := |loaded.value.rules|;
    }

    /**
     * Any series of reloads: the last file that loads is in force, every file is
     * counted once, and any trie handed out before keeps all its lookups.
     */
    method ReloadAll(files: seq<FileRead>, ghost held: Trie<Rule>, ghost heldRules: seq<Rule>)
      requires store.Valid() && Frozen(held, heldRules)
      modifies this, store
      ensures store.Valid() && Frozen(held, heldRules)
      ensures reloadsOk + reloadsFailed == old(reloadsOk + reloadsFailed) + |files|
      ensures match LastAccepted(files)
        case None => store.v == old(store.v) && rulesActive == old(rulesActive)
        case Some(file) => InForce(store.v, file) && rulesActive == |file.rules|
    {
      for i := 0 to |files|
        invariant store.Valid() && Frozen(held, heldRules)
        invariant reloadsOk + reloadsFailed == old(reloadsOk + reloadsFailed) + i
        invariant match LastAccepted(files[..i])
          case None => store.v == old(store.v) && rulesActive == old(rulesActive)
          case Some(file) => InForce(store.v, file) && rulesActive == |file.rules|
      {
        LastAcceptedNext(files, i);
        Reload(files[i]);
      }
      assert files[..|files|] == files;
    }
  }
}
