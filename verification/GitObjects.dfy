/**
  Commits of the shared checkpoint store as structural values: git hashes are
  taken to be injective, so a commit *is* its tree, parent, date and subject.
  Also the pure specification of history pruning.
 */
module GitObjects {
  import opened Wrappers
  import opened Pathspec

  type Content = seq<bv8>
  type Tree = map<Path, Content>

  datatype Commit = Commit(tree: Tree, parent: Option<Commit>, date: int, subject: string)

  const DEFAULT_SUBJECT := "checkpoint"

  /** An empty message is replaced before `commit-tree` is called. */
  function OrDefault(subject: string): string {
    if subject == "" then DEFAULT_SUBJECT else subject
  }

  /** The history named by a commit, newest first. */
  function Chain(c: Commit): (chain: seq<Commit>)
    ensures |chain| >= 1 && chain[0] == c
  {
    [c] + (if c.parent.None? then [] else Chain(c.parent.value))
  }

  /** `a` is `b` or one of its ancestors. */
  predicate IsAncestor(a: Commit, b: Commit)
    decreases b
  {
    a == b || (b.parent.Some? && IsAncestor(a, b.parent.value))
  }

  lemma {:induction false} AncestorTransitive(a: Commit, b: Commit, c: Commit)
    requires IsAncestor(a, b) && IsAncestor(b, c)
    ensures IsAncestor(a, c)
    decreases c
  {
    if b != c {
      AncestorTransitive(a, b, c.parent.value);
    }
  }

  /** The ancestor's whole history is the tail of the descendant's history. */
  lemma {:induction false} AncestorChain(a: Commit, b: Commit)
    requires IsAncestor(a, b)
    ensures |Chain(a)| <= |Chain(b)|
    ensures Chain(b)[|Chain(b)| - |Chain(a)|..] == Chain(a)
    ensures a != b ==> |Chain(a)| < |Chain(b)|
    decreases b
  {
    if a != b {
      var q := b.parent.value;
      AncestorChain(a, q);
      assert Chain(b)[1..] == Chain(q);
      assert Chain(b)[|Chain(b)| - |Chain(a)|..] == Chain(q)[|Chain(q)| - |Chain(a)|..];
    }
  }

  /** Consecutive entries of a history are linked by the parent field, and the last has none. */
  lemma {:induction false} ChainIsLinear(c: Commit, i: nat)
    requires i < |Chain(c)|
    ensures Chain(c)[i].parent == if i + 1 < |Chain(c)| then Some(Chain(c)[i + 1]) else None
    ensures IsAncestor(Chain(c)[i], c)
    decreases c
  {
    if c.parent.Some? {
      if i > 0 {
        ChainIsLinear(c.parent.value, i - 1);
      }
    }
  }

  /** Each entry's parent is the next entry, and the last entry has none. */
  ghost predicate Linear(chain: seq<Commit>) {
    forall i :: 0 <= i < |chain| ==> chain[i].parent == if i + 1 < |chain| then Some(chain[i + 1]) else None
  }

  lemma HistoryIsLinear(c: Commit)
    ensures Linear(Chain(c))
  {
    forall i | 0 <= i < |Chain(c)|
      ensures Chain(c)[i].parent == if i + 1 < |Chain(c)| then Some(Chain(c)[i + 1]) else None
    {
      ChainIsLinear(c, i);
    }
  }

  // ---------------------------------------------------------------------
  // Pruning
  // ---------------------------------------------------------------------

  /** Rebuild a fresh chain from kept history entries, given newest first. */
  function Relink(kept: seq<Commit>): (tip: Option<Commit>)
    ensures tip.None? <==> kept == []
  {
    if kept == [] then None
    else Some(Commit(kept[0].tree, Relink(kept[1..]), kept[0].date, OrDefault(kept[0].subject)))
  }

  /** The newest k entries of a history, or all of it. */
  function Newest(tip: Commit, k: nat): (newest: seq<Commit>)
    ensures |newest| == if |Chain(tip)| <= k then |Chain(tip)| else k
  {
    if |Chain(tip)| <= k then Chain(tip) else Chain(tip)[..k]
  }

  /** The tip that `prune` installs when asked to keep `keepLast` snapshots. */
  function Pruned(tip: Commit, keepLast: nat): Commit
    requires keepLast >= 1
  {
    if |Chain(tip)| <= keepLast then tip else Relink(Newest(tip, keepLast)).value
  }

  lemma {:induction false} RelinkChain(kept: seq<Commit>)
    requires kept != []
    ensures |Chain(Relink(kept).value)| == |kept|
    ensures forall i :: 0 <= i < |kept| ==>
              var c := Chain(Relink(kept).value)[i];
              c.tree == kept[i].tree && c.date == kept[i].date && c.subject == OrDefault(kept[i].subject)
  {
    if |kept| > 1 {
      RelinkChain(kept[1..]);
    }
  }

  /** Relinking depends only on trees, dates and normalised subjects. */
  lemma {:induction false} RelinkCongruent(a: seq<Commit>, b: seq<Commit>)
    requires |a| == |b|
    requires forall i :: 0 <= i < |a| ==> a[i].tree == b[i].tree && a[i].date == b[i].date
                                          && OrDefault(a[i].subject) == OrDefault(b[i].subject)
    ensures Relink(a) == Relink(b)
  {
    if a != [] {
      RelinkCongruent(a[1..], b[1..]);
    }
  }

  /**
    Pruning to `k` keeps exactly the newest min(k, n) snapshots, in order, with
    their trees and dates. Subjects survive too; only a rebuilt chain has its
    empty subjects replaced.
   */
  lemma PruneKeepsNewest(tip: Commit, k: nat)
    requires k >= 1
    ensures var n := |Chain(tip)|; var after := Chain(Pruned(tip, k));
            && |after| == (if n <= k then n else k)
            && forall i :: 0 <= i < |after| ==>
                 && after[i].tree == Chain(tip)[i].tree
                 && after[i].date == Chain(tip)[i].date
                 && after[i].subject == if n <= k then Chain(tip)[i].subject else OrDefault(Chain(tip)[i].subject)
  {
    if |Chain(tip)| > k {
      RelinkChain(Chain(tip)[..k]);
    }
  }

  /** Pruning twice is pruning once to the smaller bound, commit for commit. */
  lemma PruneCompose(tip: Commit, k: nat, j: nat)
    requires k >= 1 && j >= 1
    ensures Pruned(Pruned(tip, k), j) == Pruned(tip, if j <= k then j else k)
  {
    PruneKeepsNewest(tip, k);
    if |Chain(tip)| > k && j < k {
      RelinkCongruent(Chain(Pruned(tip, k))[..j], Chain(tip)[..j]);
    }
  }

  lemma PruneIdempotent(tip: Commit, k: nat)
    requires k >= 1
    ensures Pruned(Pruned(tip, k), k) == Pruned(tip, k)
  {
    PruneCompose(tip, k, k);
  }
}
