/**
  The git-backed shared checkpoint store used by one caller at a time:
  take, list, restore and prune over per-project refs that share one object
  store. `GitProtocol` treats the same operations as interleaved steps.
 */
module GitStore {
  import opened Wrappers
  import opened GitObjects
  import opened Pathspec
  import GitLog

  type Project = string
  type Workdir = map<Path, Content>

  /** `excluded` is the fixed predicate of the shared `info/exclude` file. */
  datatype Config = Config(excluded: Path -> bool, maxFileBytes: nat, maxFileCount: nat)

  datatype Error = InvalidCommit | InvalidWorkdir | InvalidPath | InvalidArgument | TooManyFiles | GitCommand

  datatype State = State(
    refs: map<Project, Commit>,
    commits: set<Commit>,
    workdirs: map<Project, Workdir>)

  // ---------------------------------------------------------------------
  // Staging
  // ---------------------------------------------------------------------

  /** `git add -A` over a seeded index: excludes apply only to paths not already tracked. */
  function AddAll(cfg: Config, seed: Tree, w: Workdir): Tree {
    map q | q in w && (q in seed || !cfg.excluded(q)) :: w[q]
  }

  /** Drop index entries whose file on disk exceeds the size limit. */
  function DropOversize(cfg: Config, index: Tree, w: Workdir): Tree {
    map q | q in index && !(q in w && |w[q]| > cfg.maxFileBytes) :: index[q]
  }

  function Seed(base: Option<Commit>): Tree {
    if base.Some? then base.value.tree else map[]
  }

  function Stage(cfg: Config, base: Option<Commit>, w: Workdir): Tree {
    DropOversize(cfg, AddAll(cfg, Seed(base), w), w)
  }

  /** The files a snapshot covers, whatever the history was. */
  predicate Covered(cfg: Config, w: Workdir, q: Path) {
    q in w && !cfg.excluded(q) && |w[q]| <= cfg.maxFileBytes
  }

  function Snapshot(cfg: Config, w: Workdir): Tree {
    map q | q in w && Covered(cfg, w, q) :: w[q]
  }

  ghost predicate CleanTree(cfg: Config, t: Tree) {
    forall q :: q in t ==> !cfg.excluded(q)
  }

  /** Seeding the index from history cannot be observed in the staged tree. */
  lemma StageIgnoresHistory(cfg: Config, base: Option<Commit>, w: Workdir)
    requires CleanTree(cfg, Seed(base))
    ensures Stage(cfg, base, w) == Snapshot(cfg, w)
    ensures CleanTree(cfg, Stage(cfg, base, w))
  {
  }

  // ---------------------------------------------------------------------
  // Store invariant
  // ---------------------------------------------------------------------

  /** Every commit present has its parent present and holds no excluded path. */
  ghost predicate Closed(cfg: Config, commits: set<Commit>) {
    forall c :: c in commits ==>
                  CleanTree(cfg, c.tree) && (c.parent.Some? ==> c.parent.value in commits)
  }

  ghost predicate Valid(cfg: Config, s: State) {
    && Closed(cfg, s.commits)
    && (forall p :: p in s.refs ==> s.refs[p] in s.commits)
  }

  lemma {:induction false} ChainPresent(cfg: Config, commits: set<Commit>, c: Commit)
    requires Closed(cfg, commits) && c in commits
    ensures forall d :: d in Chain(c) ==> d in commits
    decreases c
  {
    if c.parent.Some? {
      ChainPresent(cfg, commits, c.parent.value);
    }
  }

  // ---------------------------------------------------------------------
  // Specifications of the operations
  // ---------------------------------------------------------------------

  predicate UpToDate(cfg: Config, s: State, p: Project)
    requires p in s.workdirs
  {
    p in s.refs && s.refs[p].tree == Snapshot(cfg, s.workdirs[p])
  }

  function NewCommit(cfg: Config, s: State, p: Project, reason: string, now: int): Commit
    requires p in s.workdirs
  {
    Commit(Snapshot(cfg, s.workdirs[p]), Lookup(s.refs, p), now, OrDefault(reason))
  }

  /** State after a snapshot of `p`: one commit on top of the old tip, or nothing. */
  function AfterTake(cfg: Config, s: State, p: Project, reason: string, now: int): State
    requires p in s.workdirs
  {
    if UpToDate(cfg, s, p) then s
    else
      var c := NewCommit(cfg, s, p, reason, now);
      s.(refs := s.refs[p := c], commits := s.commits + {c})
  }

  function Selected(c: Commit, target: Option<Path>): Tree {
    map q | q in c.tree && Selects(target, q) :: c.tree[q]
  }

  const PRE_RESTORE := "pre-restore snapshot"

  /** Commit names must be plain hexadecimal. */
  predicate ValidHash(hash: string) {
    hash != "" && forall i :: 0 <= i < |hash| ==> IsHexDigit(hash[i])
  }

  predicate IsHexDigit(c: char) {
    '0' <= c <= '9' || 'a' <= c <= 'f' || 'A' <= c <= 'F'
  }

  lemma HexDigits(hash: string)
    ensures ValidHash(hash) <==> hash != "" && forall c :: c in hash ==> c in "0123456789abcdefABCDEF"
  {
    if ValidHash(hash) {
      forall c | c in hash ensures c in "0123456789abcdefABCDEF" {
        HexDigit(c);
      }
    } else if hash != "" {
      var i :| 0 <= i < |hash| && !IsHexDigit(hash[i]);
      HexDigit(hash[i]);
      assert hash[i] in hash;
    }
  }

  lemma HexDigit(c: char)
    ensures IsHexDigit(c) <==> c in "0123456789abcdefABCDEF"
  {
    var digits := "0123456789abcdefABCDEF";
    if IsHexDigit(c) {
      var k := if c <= '9' then c as int - '0' as int
               else if c >= 'a' then c as int - 'a' as int + 10 else c as int - 'A' as int + 16;
      assert digits[k] == c;
    }
  }

  /** Why a restore is refused before it does anything. */
  function Refusal(cfg: Config, s: State, p: Project, target: Option<Path>): Option<Error> {
    if !ValidTarget(target) then Some(InvalidPath)
    else if p !in s.workdirs then Some(InvalidWorkdir)
    else if |s.workdirs[p]| > cfg.maxFileCount then Some(TooManyFiles)
    else None
  }

  function RestoreResult(cfg: Config, s: State, p: Project, c: Commit, target: Option<Path>, now: int)
    : Result<(), Error>
  {
    var refusal := Refusal(cfg, s, p, target);
    if refusal.Some? then Err(refusal.value)
    else if c !in AfterTake(cfg, s, p, PRE_RESTORE, now).commits || Selected(c, target) == map[] then Err(GitCommand)
    else Ok(())
  }

  /** Even a restore that fails at checkout leaves its pre-restore snapshot behind. */
  function AfterRestore(cfg: Config, s: State, p: Project, c: Commit, target: Option<Path>, now: int): State {
    if Refusal(cfg, s, p, target).Some? then s
    else
      var s1 := AfterTake(cfg, s, p, PRE_RESTORE, now);
      if RestoreResult(cfg, s, p, c, target, now).Err? then s1
      else s1.(workdirs := s1.workdirs[p := s1.workdirs[p] + Selected(c, target)])
  }

  /** What `git gc --prune=now` keeps: the histories of all refs. */
  function Reachable(refs: map<Project, Commit>): set<Commit> {
    set p, c | p in refs.Keys && c in Chain(refs[p]) :: c
  }

  function AfterPrune(s: State, p: Project, keepLast: nat): State
    requires keepLast >= 1
  {
    if p !in s.refs || |Chain(s.refs[p])| <= keepLast then s
    else
      var refs := s.refs[p := Pruned(s.refs[p], keepLast)];
      s.(refs := refs, commits := Reachable(refs))
  }

  /** The most recent `limit` snapshots, newest first. */
  function List(s: State, p: Project, limit: nat): (list: seq<Commit>)
    ensures |list| <= limit
    ensures p in s.refs ==> list <= Chain(s.refs[p]) && (|list| < limit ==> list == Chain(s.refs[p]))
  {
    if p !in s.refs then []
    else
      var chain := Chain(s.refs[p]);
      if limit <= |chain| then chain[..limit] else chain
  }

  // ---------------------------------------------------------------------
  // Every operation keeps the store valid and other projects untouched
  // ---------------------------------------------------------------------

  /** Project `q` cannot tell `s` from `t`: same ref, same workdir, whole history still present. */
  ghost predicate SameProject(s: State, t: State, q: Project) {
    && Lookup(s.refs, q) == Lookup(t.refs, q)
    && Lookup(s.workdirs, q) == Lookup(t.workdirs, q)
    && (q in t.refs ==> forall c :: c in Chain(t.refs[q]) ==> c in t.commits)
  }

  lemma RefsPresent(cfg: Config, s: State, q: Project)
    requires Valid(cfg, s)
    ensures SameProject(s, s, q)
  {
    if q in s.refs {
      ChainPresent(cfg, s.commits, s.refs[q]);
    }
  }

  lemma TakeKeepsValid(cfg: Config, s: State, p: Project, reason: string, now: int)
    requires Valid(cfg, s) && p in s.workdirs
    ensures Valid(cfg, AfterTake(cfg, s, p, reason, now))
  {
  }

  /** Nothing done to project `p` is visible to project `q`. */
  lemma TakeIsolated(cfg: Config, s: State, p: Project, reason: string, now: int, q: Project)
    requires Valid(cfg, s) && p in s.workdirs && q != p
    ensures SameProject(s, AfterTake(cfg, s, p, reason, now), q)
  {
    RefsPresent(cfg, s, q);
  }

  lemma RestoreKeepsValid(cfg: Config, s: State, p: Project, c: Commit, target: Option<Path>, now: int)
    requires Valid(cfg, s)
    ensures Valid(cfg, AfterRestore(cfg, s, p, c, target, now))
  {
  }

  lemma RestoreIsolated(cfg: Config, s: State, p: Project, c: Commit, target: Option<Path>, now: int, q: Project)
    requires Valid(cfg, s) && q != p
    ensures SameProject(s, AfterRestore(cfg, s, p, c, target, now), q)
  {
    RefsPresent(cfg, s, q);
    if p in s.workdirs {
      TakeIsolated(cfg, s, p, PRE_RESTORE, now, q);
    }
  }

  lemma {:induction false} ChainHasParents(c: Commit)
    ensures forall d :: d in Chain(c) && d.parent.Some? ==> d.parent.value in Chain(c)
  {
    forall d | d in Chain(c) && d.parent.Some? ensures d.parent.value in Chain(c) {
      var i :| 0 <= i < |Chain(c)| && Chain(c)[i] == d;
      ChainIsLinear(c, i);
    }
  }

  lemma PrunedTreesClean(cfg: Config, s: State, p: Project, keepLast: nat)
    requires Valid(cfg, s) && p in s.refs && keepLast >= 1
    ensures forall d :: d in Chain(Pruned(s.refs[p], keepLast)) ==> CleanTree(cfg, d.tree)
  {
    var tip := s.refs[p];
    PruneKeepsNewest(tip, keepLast);
    ChainPresent(cfg, s.commits, tip);
    forall d | d in Chain(Pruned(tip, keepLast)) ensures CleanTree(cfg, d.tree) {
      var i :| 0 <= i < |Chain(Pruned(tip, keepLast))| && Chain(Pruned(tip, keepLast))[i] == d;
    }
  }

  /** Once the new chain is written, everything the moved refs reach is in the store. */
  lemma RebuiltPresent(cfg: Config, s: State, commits: set<Commit>, p: Project, tip: Commit)
    requires Valid(cfg, s) && s.commits <= commits && forall c :: c in Chain(tip) ==> c in commits
    ensures Reachable(s.refs[p := tip]) <= commits
  {
    var refs := s.refs[p := tip];
    forall c | c in Reachable(refs) ensures c in commits {
      var q :| q in refs && c in Chain(refs[q]);
      if q != p {
        ChainPresent(cfg, s.commits, refs[q]);
      }
    }
  }

  lemma PruneKeepsValid(cfg: Config, s: State, p: Project, keepLast: nat)
    requires Valid(cfg, s) && keepLast >= 1
    ensures Valid(cfg, AfterPrune(s, p, keepLast))
  {
    var t := AfterPrune(s, p, keepLast);
    if p in s.refs && |Chain(s.refs[p])| > keepLast {
      forall c | c in t.commits
        ensures CleanTree(cfg, c.tree) && (c.parent.Some? ==> c.parent.value in t.commits)
      {
        var q :| q in t.refs && c in Chain(t.refs[q]);
        ChainHasParents(t.refs[q]);
        if q == p {
          PrunedTreesClean(cfg, s, p, keepLast);
        } else {
          ChainPresent(cfg, s.commits, s.refs[q]);
        }
      }
      assert forall q :: q in t.refs ==> t.refs[q] in Chain(t.refs[q]);
    }
  }

  lemma PruneIsolated(cfg: Config, s: State, p: Project, keepLast: nat, q: Project)
    requires Valid(cfg, s) && keepLast >= 1 && q != p
    ensures SameProject(s, AfterPrune(s, p, keepLast), q)
  {
    RefsPresent(cfg, s, q);
  }

  // ---------------------------------------------------------------------
  // Restore
  // ---------------------------------------------------------------------

  /**
    A successful restore is an overlay: selected paths take the commit's
    content, all others keep theirs, and the tip now holds the snapshot of the
    workdir as it was, whether or not that needed a new commit.
   */
  lemma RestoreOverlays(cfg: Config, s: State, p: Project, c: Commit, target: Option<Path>, now: int)
    requires RestoreResult(cfg, s, p, c, target, now).Ok?
    ensures var t := AfterRestore(cfg, s, p, c, target, now);
            && p in t.workdirs && p in t.refs
            && (forall q :: q in c.tree && Selects(target, q) ==>
                              q in t.workdirs[p] && t.workdirs[p][q] == c.tree[q])
            && (forall q :: !(q in c.tree && Selects(target, q)) ==>
                              Lookup(t.workdirs[p], q) == Lookup(s.workdirs[p], q))
            && t.refs[p].tree == Snapshot(cfg, s.workdirs[p])
  {
  }

  /** Checked before a restore: nothing it overwrites or creates escapes the pre-restore snapshot. */
  ghost predicate Undoable(cfg: Config, w: Workdir, c: Commit, target: Option<Path>) {
    forall q :: q in c.tree && Selects(target, q) ==>
                  Covered(cfg, w, q) || Lookup(w, q) == Some(c.tree[q])
  }

  /** Overlaying the commit and then the snapshot gives back `w` exactly when `Undoable`. */
  lemma OverlayUndone(cfg: Config, w: Workdir, c: Commit, target: Option<Path>)
    ensures var w2 := w + Selected(c, target) + Snapshot(cfg, w);
            && (forall q :: Covered(cfg, w, q) ==> Lookup(w2, q) == Some(w[q]))
            && (w2 == w <==> Undoable(cfg, w, c, target))
  {
  }

  /** Restoring a project to its own tip. */
  lemma RestoreTip(cfg: Config, s: State, p: Project, now: int)
    requires Valid(cfg, s) && p in s.refs && p in s.workdirs
    ensures var r := RestoreResult(cfg, s, p, s.refs[p], None, now);
            && (r.Ok? <==> |s.workdirs[p]| <= cfg.maxFileCount && s.refs[p].tree != map[])
            && (r.Ok? ==> AfterRestore(cfg, s, p, s.refs[p], None, now).workdirs[p]
                          == s.workdirs[p] + s.refs[p].tree)
  {
    var tip := s.refs[p];
    assert tip in AfterTake(cfg, s, p, PRE_RESTORE, now).commits;
  }

  /**
    Undoing a restore by restoring the tip it left. The undo itself succeeds
    exactly when the overlaid workdir is within the file limit and the
    pre-restore snapshot is not empty. It then brings back every covered path,
    and it brings back the whole workdir exactly when the restore was `Undoable`.
   */
  lemma RestoreUndone(cfg: Config, s: State, p: Project, c: Commit, target: Option<Path>, now: int, later: int)
    requires Valid(cfg, s)
    requires RestoreResult(cfg, s, p, c, target, now).Ok?
    ensures var w := s.workdirs[p];
            var s1 := AfterRestore(cfg, s, p, c, target, now);
            && p in s1.refs
            && var r := RestoreResult(cfg, s1, p, s1.refs[p], None, later);
               var s2 := AfterRestore(cfg, s1, p, s1.refs[p], None, later);
               && (r.Ok? <==> |w + Selected(c, target)| <= cfg.maxFileCount && Snapshot(cfg, w) != map[])
               && (r.Ok? ==>
                     && (forall q :: Covered(cfg, w, q) ==> Lookup(s2.workdirs[p], q) == Some(w[q]))
                     && (s2.workdirs[p] == w <==> Undoable(cfg, w, c, target)))
  {
    var w := s.workdirs[p];
    var s1 := AfterRestore(cfg, s, p, c, target, now);
    RestoreKeepsValid(cfg, s, p, c, target, now);
    RestoreTip(cfg, s1, p, later);
    OverlayUndone(cfg, w, c, target);
  }

  /**
    A selected path that the pre-restore snapshot does not cover keeps the restored
    content after the undo, whether the undo succeeds or not.
   */
  lemma EscapesUndo(cfg: Config, s: State, p: Project, c: Commit, target: Option<Path>, now: int, later: int, q: Path)
    requires Valid(cfg, s) && RestoreResult(cfg, s, p, c, target, now).Ok?
    requires q in c.tree && Selects(target, q) && !Covered(cfg, s.workdirs[p], q)
    ensures var s1 := AfterRestore(cfg, s, p, c, target, now);
            && p in s1.refs
            && var s2 := AfterRestore(cfg, s1, p, s1.refs[p], None, later);
               p in s2.workdirs && Lookup(s2.workdirs[p], q) == Some(c.tree[q])
  {
    var s1 := AfterRestore(cfg, s, p, c, target, now);
    RestoreOverlays(cfg, s, p, c, target, now);
    RestoreKeepsValid(cfg, s, p, c, target, now);
    RestoreTip(cfg, s1, p, later);
  }

  /** A file too large to snapshot is lost for good when a restore overwrites it. */
  lemma OversizeFileIsLost(cfg: Config, s: State, p: Project, c: Commit, target: Option<Path>, now: int, later: int,
                           q: Path)
    requires Valid(cfg, s) && RestoreResult(cfg, s, p, c, target, now).Ok?
    requires q in s.workdirs[p] && |s.workdirs[p][q]| > cfg.maxFileBytes
    requires q in c.tree && Selects(target, q) && c.tree[q] != s.workdirs[p][q]
    ensures var s1 := AfterRestore(cfg, s, p, c, target, now);
            && p in s1.refs
            && var s2 := AfterRestore(cfg, s1, p, s1.refs[p], None, later);
               && p in s2.workdirs && q in s2.workdirs[p]
               && s2.workdirs[p][q] == c.tree[q] != s.workdirs[p][q]
  {
    EscapesUndo(cfg, s, p, c, target, now, later, q);
  }

  function Small(a: Path, b: Path): Workdir {
    map[a := [], b := []]
  }

  function Grown(cfg: Config, a: Path, b: Path): Workdir {
    map[a := seq(cfg.maxFileBytes + 1, _ => 0), b := []]
  }

  /** The store after the first snapshot of `Small`, with the workdir as given. */
  function Snapped(p: Project, a: Path, b: Path, w: Workdir): State {
    var c := Commit(Small(a, b), None, 0, DEFAULT_SUBJECT);
    State(map[p := c], {c}, map[p := w])
  }

  lemma SmallSnaps(cfg: Config, p: Project, a: Path, b: Path)
    requires !cfg.excluded(a) && !cfg.excluded(b)
    ensures AfterTake(cfg, State(map[], {}, map[p := Small(a, b)]), p, "", 0) == Snapped(p, a, b, Small(a, b))
    ensures Valid(cfg, Snapped(p, a, b, Grown(cfg, a, b)))
  {
    assert Snapshot(cfg, Small(a, b)) == Small(a, b);
  }

  lemma GrownRestores(cfg: Config, p: Project, a: Path, b: Path)
    requires a != b && !cfg.excluded(a) && !cfg.excluded(b) && cfg.maxFileCount >= 2
    ensures var s := Snapped(p, a, b, Grown(cfg, a, b)); var c := s.refs[p];
            && RestoreResult(cfg, s, p, c, None, 1).Ok?
            && |Grown(cfg, a, b) + Selected(c, None)| <= cfg.maxFileCount && Snapshot(cfg, Grown(cfg, a, b)) != map[]
  {
    var s := Snapped(p, a, b, Grown(cfg, a, b));
    var c, w := s.refs[p], Grown(cfg, a, b);
    assert Selected(c, None) == Small(a, b);
    assert w + Small(a, b) == Small(a, b);
    assert |w| == 2 && |Small(a, b)| == 2;
    assert b in Snapshot(cfg, w) && b in Small(a, b);
    hide RestoreResult;
    SmallSnaps(cfg, p, a, b);
    RestoreTip(cfg, s, p, 1);
  }

  /**
    Such a loss happens to a store that starts empty: snapshot two small files, let one
    grow past the limit, restore the snapshot, undo. Both restores succeed, and the
    grown file is left empty.
   */
  lemma LossFromEmptyStore(cfg: Config, p: Project, a: Path, b: Path)
    requires a != b && !cfg.excluded(a) && !cfg.excluded(b) && cfg.maxFileCount >= 2
    ensures var s1 := AfterTake(cfg, State(map[], {}, map[p := Small(a, b)]), p, "", 0);
            var s2 := s1.(workdirs := map[p := Grown(cfg, a, b)]);
            && p in s1.refs && RestoreResult(cfg, s2, p, s1.refs[p], None, 1).Ok?
            && var s3 := AfterRestore(cfg, s2, p, s1.refs[p], None, 1);
               && p in s3.refs && RestoreResult(cfg, s3, p, s3.refs[p], None, 2).Ok?
               && var s4 := AfterRestore(cfg, s3, p, s3.refs[p], None, 2);
                  p in s4.workdirs && Lookup(s4.workdirs[p], a) == Some([]) != Lookup(s2.workdirs[p], a)
  {
    hide RestoreResult;
    hide AfterRestore;
    hide Snapshot;
    hide Selected;
    hide AfterTake;
    hide Valid;
    var s := Snapped(p, a, b, Grown(cfg, a, b));
    SmallSnaps(cfg, p, a, b);
    GrownRestores(cfg, p, a, b);
    RestoreUndone(cfg, s, p, s.refs[p], None, 1, 2);
    OversizeFileIsLost(cfg, s, p, s.refs[p], None, 1, 2, a);
  }

  /** No commit of a valid store holds an excluded path, so a restore leaves excluded files alone. */
  lemma RestoreSparesExcluded(cfg: Config, s: State, p: Project, c: Commit, target: Option<Path>, now: int, q: Path)
    requires Valid(cfg, s) && RestoreResult(cfg, s, p, c, target, now).Ok? && cfg.excluded(q)
    ensures var t := AfterRestore(cfg, s, p, c, target, now);
            p in t.workdirs && Lookup(t.workdirs[p], q) == Lookup(s.workdirs[p], q)
  {
    TakeKeepsValid(cfg, s, p, PRE_RESTORE, now);
  }

  /** A new snapshot appears at the head of the list and pushes the rest back. */
  lemma ListAfterTake(cfg: Config, s: State, p: Project, reason: string, now: int, limit: nat)
    requires p in s.workdirs
    ensures List(AfterTake(cfg, s, p, reason, now), p, limit + 1)
         == if UpToDate(cfg, s, p) then List(s, p, limit + 1)
            else [NewCommit(cfg, s, p, reason, now)] + List(s, p, limit)
  {
  }

  // ---------------------------------------------------------------------
  // What the operations do, file by file and entry by entry
  // ---------------------------------------------------------------------

  /** The tree holds exactly the files of the workdir that are neither excluded nor over the size limit. */
  ghost predicate HoldsFilesOf(cfg: Config, tree: Tree, w: Workdir) {
    forall q :: Lookup(tree, q)
             == if q in w && !cfg.excluded(q) && |w[q]| <= cfg.maxFileBytes then Some(w[q]) else None
  }

  /** What a snapshot of `w` makes of a ref: the old tip if it holds these files, else a new commit on top of it. */
  ghost predicate Snapshotted(cfg: Config, w: Workdir, was: Option<Commit>, tip: Commit, reason: string, now: int) {
    && HoldsFilesOf(cfg, tip.tree, w)
    && (if was.Some? && HoldsFilesOf(cfg, was.value.tree, w) then tip == was.value
        else tip.parent == was && tip.date == now && tip.subject == if reason == "" then "checkpoint" else reason)
  }

  lemma SnapshotHolds(cfg: Config, tree: Tree, w: Workdir)
    ensures HoldsFilesOf(cfg, tree, w) <==> tree == Snapshot(cfg, w)
  {
    if HoldsFilesOf(cfg, tree, w) {
      forall q ensures q in tree <==> q in Snapshot(cfg, w) {
        assert Lookup(tree, q)
            == if q in w && !cfg.excluded(q) && |w[q]| <= cfg.maxFileBytes then Some(w[q]) else None;
      }
      forall q | q in tree ensures tree[q] == Snapshot(cfg, w)[q] {
        assert Lookup(tree, q) == Some(w[q]);
      }
    }
  }

  lemma TakeMeans(cfg: Config, s: State, p: Project, reason: string, now: int)
    requires p in s.workdirs
    ensures var t := AfterTake(cfg, s, p, reason, now);
            && p in t.refs && Snapshotted(cfg, s.workdirs[p], Lookup(s.refs, p), t.refs[p], reason, now)
            && t.refs == s.refs[p := t.refs[p]] && t.workdirs == s.workdirs
            && t.commits == if Lookup(s.refs, p) == Some(t.refs[p]) then s.commits else s.commits + {t.refs[p]}
  {
    var t, w := AfterTake(cfg, s, p, reason, now), s.workdirs[p];
    SnapshotHolds(cfg, t.refs[p].tree, w);
    if p in s.refs {
      SnapshotHolds(cfg, s.refs[p].tree, w);
    }
  }

  /** The head of the list after a take, by its files, date and subject, and what follows it. */
  lemma HeadAfterTake(cfg: Config, s: State, p: Project, reason: string, now: int, limit: nat)
    requires p in s.workdirs
    ensures var list := List(AfterTake(cfg, s, p, reason, now), p, limit + 1);
            && list != [] && Snapshotted(cfg, s.workdirs[p], Lookup(s.refs, p), list[0], reason, now)
            && list == if Lookup(s.refs, p) == Some(list[0]) then List(s, p, limit + 1)
                       else [list[0]] + List(s, p, limit)
  {
    TakeMeans(cfg, s, p, reason, now);
    ListAfterTake(cfg, s, p, reason, now, limit);
    hide Snapshotted;
    hide Snapshot;
  }

  /** Entry by entry: the newest `keepLast`, or all; an empty subject is replaced when the history is rebuilt. */
  ghost predicate NewestKept(was: seq<Commit>, now: seq<Commit>, keepLast: nat) {
    && |now| == (if |was| <= keepLast then |was| else keepLast)
    && forall i :: 0 <= i < |now| ==>
         && now[i].tree == was[i].tree && now[i].date == was[i].date
         && now[i].subject == if |was| > keepLast && was[i].subject == "" then "checkpoint" else was[i].subject
  }

  /** Nothing but what the refs reach. */
  ghost predicate OnlyReachable(refs: map<Project, Commit>, commits: set<Commit>) {
    forall c :: c in commits <==> exists q :: q in refs && c in Chain(refs[q])
  }

  lemma PruneMeans(s: State, p: Project, keepLast: nat)
    requires keepLast >= 1
    ensures var t := AfterPrune(s, p, keepLast);
            && t.workdirs == s.workdirs
            && (if p !in s.refs then t == s
                else
                  && p in t.refs && t.refs == s.refs[p := t.refs[p]]
                  && NewestKept(Chain(s.refs[p]), Chain(t.refs[p]), keepLast)
                  && (if |Chain(s.refs[p])| <= keepLast then t == s else OnlyReachable(t.refs, t.commits)))
  {
    if p in s.refs {
      PruneKeepsNewest(s.refs[p], keepLast);
      hide Chain;
      hide Pruned;
    }
  }

  /** Why a restore is refused, in the order of the checks. */
  ghost function RestoreError(cfg: Config, workdirs: map<Project, Workdir>, p: Project, hash: string,
                              target: Option<Path>): Error
  {
    if !ValidHash(hash) then InvalidCommit
    else if !ValidTarget(target) then InvalidPath
    else if p !in workdirs then InvalidWorkdir
    else if |workdirs[p]| > cfg.maxFileCount then TooManyFiles
    else GitCommand
  }

  /** The workdir with the selected files of the commit put in place, and every other file as it was. */
  ghost predicate OverlaidWith(w: Workdir, was: Workdir, c: Commit, target: Option<Path>) {
    forall q :: Lookup(w, q) == if q in c.tree && Selects(target, q) then Some(c.tree[q]) else Lookup(was, q)
  }

  lemma OverlayMeans(w: Workdir, c: Commit, target: Option<Path>)
    ensures OverlaidWith(w + Selected(c, target), w, c, target)
  {
  }

  lemma ValidIgnoresWorkdirs(cfg: Config, s: State, workdirs: map<Project, Workdir>)
    requires Valid(cfg, s)
    ensures Valid(cfg, s.(workdirs := workdirs))
  {
  }

  lemma SelectedEmpty(c: Commit, target: Option<Path>)
    ensures Selected(c, target) == map[] <==> !exists q :: q in c.tree && Selects(target, q)
  {
    if q :| q in c.tree && Selects(target, q) {
      assert q in Selected(c, target);
    }
    if Selected(c, target) != map[] {
      var q :| q in Selected(c, target);
    }
  }

  // ---------------------------------------------------------------------
  // The store object
  // ---------------------------------------------------------------------

  class GitSharedStore {
    const cfg: Config
    var refs: map<Project, Commit>
    var commits: set<Commit>
    var workdirs: map<Project, Workdir>

    ghost function View(): State
      reads this
    {
      State(refs, commits, workdirs)
    }

    constructor (cfg: Config, workdirs: map<Project, Workdir>)
      ensures this.cfg == cfg && View() == State(map[], {}, workdirs) && Valid(cfg, View())
    {
      this.cfg := cfg;
      this.refs := map[];
      this.commits := {};
      this.workdirs := workdirs;
    }

    /** Seed, stage, drop oversize, compare, commit, advance the ref. */
    method TakeInner(p: Project, reason: string, now: int) returns (taken: Option<Commit>)
      requires Valid(cfg, View()) && p in workdirs
      modifies this`refs, this`commits
      ensures View() == AfterTake(cfg, old(View()), p, reason, now)
      ensures taken == if UpToDate(cfg, old(View()), p) then None
                       else Some(NewCommit(cfg, old(View()), p, reason, now))
      ensures Valid(cfg, View())
      ensures p in refs && Snapshotted(cfg, workdirs[p], Lookup(old(refs), p), refs[p], reason, now)
      ensures refs == old(refs)[p := refs[p]]
      ensures taken == if Lookup(old(refs), p) == Some(refs[p]) then None else Some(refs[p])
      ensures commits == if taken.None? then old(commits) else old(commits) + {refs[p]}
    {
      TakeMeans(cfg, View(), p, reason, now);
      TakeKeepsValid(cfg, View(), p, reason, now);
      var expectedOld := Lookup(refs, p);
      var index := AddAll(cfg, Seed(expectedOld), workdirs[p]);
      index := DropOversize(cfg, index, workdirs[p]);
      StageIgnoresHistory(cfg, expectedOld, workdirs[p]);
      if expectedOld.Some? && index == expectedOld.value.tree {
        return None;
      }
      var c := Commit(index, expectedOld, now, OrDefault(reason));
      commits := commits + {c};
      refs := refs[p := c];
      taken := Some(c);
    }

    method Take(p: Project, reason: string, now: int) returns (r: Result<Option<Commit>, Error>)
      requires Valid(cfg, View())
      modifies this`refs, this`commits
      ensures Valid(cfg, View())
      ensures r.Err? <==> p !in workdirs || |workdirs[p]| > cfg.maxFileCount
      ensures r.Err? ==> View() == old(View()) && r.error == if p !in workdirs then InvalidWorkdir else TooManyFiles
      ensures r.Ok? ==>
                && p in refs && Snapshotted(cfg, workdirs[p], Lookup(old(refs), p), refs[p], reason, now)
                && refs == old(refs)[p := refs[p]]
                && r.value == (if Lookup(old(refs), p) == Some(refs[p]) then None else Some(refs[p]))
                && commits == if r.value.None? then old(commits) else old(commits) + {refs[p]}
      ensures r.Ok? ==> View() == AfterTake(cfg, old(View()), p, reason, now)
    {
      if p !in workdirs {
        return Err(InvalidWorkdir);
      }
      if |workdirs[p]| > cfg.maxFileCount {
        return Err(TooManyFiles);
      }
      var taken := TakeInner(p, reason, now);
      r := Ok(taken);
    }

    /** `show` is how git prints a commit's fields; the entries are read back from the printed text. */
    method ListEntries(p: Project, limit: nat, show: Commit -> GitLog.Record) returns (entries: seq<GitLog.Record>)
      requires forall c :: c in List(View(), p, limit) ==> GitLog.Printable(show(c))
      ensures p !in refs ==> entries == []
      ensures p in refs ==>
                var history := Chain(refs[p]);
                && |entries| == (if limit <= |history| then limit else |history|)
                && forall i :: 0 <= i < |entries| ==> entries[i] == GitLog.Trimmed(show(history[i]))
    {
      var shots := List(State(refs, commits, workdirs), p, limit);
      var printed := seq(|shots|, i requires 0 <= i < |shots| => show(shots[i]));
      assert forall i :: 0 <= i < |printed| ==> shots[i] in shots;
      GitLog.LogRoundTrip(printed, "");
      entries := GitLog.ReadLog(GitLog.FormatLog(printed), "");
    }

    /** `resolve` is git's reading of a commit name. */
    method Restore(p: Project, hash: string, resolve: string -> Option<Commit>, target: Option<Path>, now: int)
      returns (r: Result<(), Error>)
      requires Valid(cfg, View())
      modifies this
      ensures Valid(cfg, View())
      ensures r.Ok? <==>
                && RestoreError(cfg, old(workdirs), p, hash, target) == GitCommand
                && resolve(hash).Some? && resolve(hash).value in commits
                && exists q :: q in resolve(hash).value.tree && Selects(target, q)
      ensures r.Err? ==> r.error == RestoreError(cfg, old(workdirs), p, hash, target) && workdirs == old(workdirs)
      ensures r.Err? && r.error != GitCommand ==> View() == old(View())
      ensures r.Ok? || r.error == GitCommand ==>
                && p in old(workdirs) && p in refs && refs == old(refs)[p := refs[p]]
                && Snapshotted(cfg, old(workdirs)[p], Lookup(old(refs), p), refs[p], "pre-restore snapshot", now)
      ensures r.Ok? ==>
                && p in workdirs && workdirs == old(workdirs)[p := workdirs[p]]
                && OverlaidWith(workdirs[p], old(workdirs)[p], resolve(hash).value, target)
      ensures !ValidHash(hash) ==> r == Err(InvalidCommit) && View() == old(View())
      ensures ValidHash(hash) && resolve(hash).Some? ==>
                var c := resolve(hash).value;
                && r == RestoreResult(cfg, old(View()), p, c, target, now)
                && View() == AfterRestore(cfg, old(View()), p, c, target, now)
      ensures ValidHash(hash) && resolve(hash).None? ==>
                match Refusal(cfg, old(View()), p, target)
                case Some(e) => r == Err(e) && View() == old(View())
                case None => r == Err(GitCommand) && View() == AfterTake(cfg, old(View()), p, PRE_RESTORE, now)
    {
      hide Valid;
      hide Snapshotted;
      hide OverlaidWith;
      hide AfterTake;
      hide Selected;
      hide Selects;
      hide ValidTarget;
      hide ValidHash;
      if !ValidHash(hash) {
        return Err(InvalidCommit);
      }
      if !ValidTarget(target) {
        return Err(InvalidPath);
      }
      if p !in workdirs {
        return Err(InvalidWorkdir);
      }
      if |workdirs[p]| > cfg.maxFileCount {
        return Err(TooManyFiles);
      }
      var _ := TakeInner(p, PRE_RESTORE, now);
      var commit := resolve(hash);
      if commit.None? || commit.value !in commits {
        return Err(GitCommand);
      }
      var overlay := Selected(commit.value, target);
      SelectedEmpty(commit.value, target);
      if overlay == map[] {
        return Err(GitCommand);
      }
      OverlayMeans(workdirs[p], commit.value, target);
      ValidIgnoresWorkdirs(cfg, View(), workdirs[p := workdirs[p] + overlay]);
      workdirs := workdirs[p := workdirs[p] + overlay];
      r := Ok(());
    }

    /** `commit-tree` the kept entries oldest first, each on top of the previous one. */
    method Rebuild(kept: seq<Commit>) returns (tip: Option<Commit>)
      modifies this`commits
      ensures tip == Relink(kept)
      ensures commits >= old(commits)
      ensures tip.Some? ==> forall c :: c in Chain(tip.value) ==> c in commits
    {
      tip := None;
      var i := |kept|;
      while i > 0
        invariant 0 <= i <= |kept|
        invariant tip == Relink(kept[i..])
        invariant tip.Some? ==> forall c :: c in Chain(tip.value) ==> c in commits
        invariant commits >= old(commits)
      {
        i := i - 1;
        var c := Commit(kept[i].tree, tip, kept[i].date, OrDefault(kept[i].subject));
        commits := commits + {c};
        tip := Some(c);
      }
    }

    /** Rebuild the kept history, swap the ref, collect garbage. */
    method RebuildAndCollect(p: Project, keepLast: nat)
      requires Valid(cfg, View()) && keepLast >= 1 && p in refs && |Chain(refs[p])| > keepLast
      modifies this`refs, this`commits
      ensures View() == AfterPrune(old(View()), p, keepLast)
    {
      hide Valid;
      hide Chain;
      hide Newest;
      hide Relink;
      hide Reachable;
      ghost var before := View();
      var tip := Rebuild(Newest(refs[p], keepLast));
      refs := refs[p := tip.value];
      RebuiltPresent(cfg, before, commits, p, tip.value);
      var reachable := Reachable(refs);
      commits := commits * reachable;
      assert commits == reachable;
    }

    method Prune(p: Project, keepLast: nat) returns (r: Result<(), Error>)
      requires Valid(cfg, View())
      modifies this`refs, this`commits
      ensures Valid(cfg, View())
      ensures r == if keepLast == 0 then Err(InvalidArgument) else Ok(())
      ensures keepLast == 0 || p !in old(refs) ==> View() == old(View())
      ensures keepLast >= 1 && p in old(refs) ==>
                && p in refs && refs == old(refs)[p := refs[p]]
                && NewestKept(Chain(old(refs)[p]), Chain(refs[p]), keepLast)
                && (if |Chain(old(refs)[p])| <= keepLast then View() == old(View()) else OnlyReachable(refs, commits))
      ensures View() == if keepLast == 0 then old(View()) else AfterPrune(old(View()), p, keepLast)
    {
      hide Valid;
      hide Chain;
      hide Pruned;
      hide Reachable;
      hide NewestKept;
      hide OnlyReachable;
      if keepLast == 0 {
        return Err(InvalidArgument);
      }
      PruneKeepsValid(cfg, View(), p, keepLast);
      PruneMeans(View(), p, keepLast);
      if p in refs && |Chain(refs[p])| > keepLast {
        RebuildAndCollect(p, keepLast);
      }
      r := Ok(());
    }
  }
}
