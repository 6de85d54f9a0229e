/**
  What compare-and-swap alone cannot promise: a prune may rebuild the very commit a
  stale writer has read. Of two writers that read the same value the second can
  still succeed exactly when what they read was a commit.
 */
module GitRevival {
  import opened Wrappers
  import opened GitObjects
  import opened GitProtocol
  import opened GitCollection
  import opened GitRuns
  import S = GitStore

  // ---------------------------------------------------------------------
  // Which histories there are
  // ---------------------------------------------------------------------

  /** Taking a snapshot of these files covers all of them. */
  ghost predicate Covers(cfg: S.Config, tree: Tree) {
    S.Snapshot(cfg, tree) == tree
  }

  /** A history as takes make it: named, coverable, and never the same tree twice in a row. */
  ghost predicate Healthy(cfg: S.Config, c: Commit)
    decreases c
  {
    && c.subject != "" && Covers(cfg, c.tree)
    && (c.parent.Some? ==> c.parent.value.tree != c.tree && Healthy(cfg, c.parent.value))
  }

  ghost predicate HealthyOption(cfg: S.Config, c: Option<Commit>) {
    c.Some? ==> Healthy(cfg, c.value)
  }

  /** Entries as a history has them. */
  ghost predicate HealthyEntries(cfg: S.Config, kept: seq<Commit>) {
    && (forall i :: 0 <= i < |kept| ==> Covers(cfg, kept[i].tree))
    && (forall i :: 0 <= i < |kept| - 1 ==> kept[i].tree != kept[i + 1].tree)
  }

  ghost predicate HealthyJob(cfg: S.Config, job: Job) {
    match job
    case HasRead(_, expected, _) => HealthyOption(cfg, expected)
    case HasStaged(_, expected, _, index) => HealthyOption(cfg, expected) && Covers(cfg, index)
    case HasTree(_, expected, _, index) => HealthyOption(cfg, expected) && Covers(cfg, index)
    case HasCommit(_, _, c) => Healthy(cfg, c)
    case PruneLinking(_, _, kept, last) =>
      && HealthyEntries(cfg, kept) && HealthyOption(cfg, last)
      && (last.Some? && kept != [] ==> kept[|kept| - 1].tree != last.value.tree)
    case _ => true
  }

  ghost predicate Honest(cfg: S.Config, w: World) {
    && (forall p :: p in w.refs ==> Healthy(cfg, w.refs[p]))
    && (forall j :: j in w.jobs ==> HealthyJob(cfg, w.jobs[j]))
  }

  lemma CoversIsClean(cfg: S.Config, tree: Tree)
    requires Covers(cfg, tree)
    ensures S.CleanTree(cfg, tree)
  {
    forall q | q in tree ensures !cfg.excluded(q) {
      assert q in S.Snapshot(cfg, tree);
    }
  }

  lemma StagedCovers(cfg: S.Config, expected: Option<Commit>, workdir: S.Workdir)
    requires HealthyOption(cfg, expected)
    ensures S.Stage(cfg, expected, workdir) == S.Snapshot(cfg, workdir)
    ensures Covers(cfg, S.Stage(cfg, expected, workdir))
  {
    if expected.Some? {
      CoversIsClean(cfg, expected.value.tree);
    }
    S.StageIgnoresHistory(cfg, expected, workdir);
  }

  lemma {:induction false} HealthyChain(cfg: S.Config, c: Commit)
    requires Healthy(cfg, c)
    ensures HealthyEntries(cfg, Chain(c))
    decreases c
  {
    if c.parent.Some? {
      HealthyChain(cfg, c.parent.value);
      assert Chain(c)[1..] == Chain(c.parent.value);
      assert forall i :: 1 <= i < |Chain(c)| ==> Chain(c)[i] == Chain(c.parent.value)[i - 1];
    }
  }

  lemma HealthyPrefix(cfg: S.Config, kept: seq<Commit>, n: nat)
    requires HealthyEntries(cfg, kept) && n <= |kept|
    ensures HealthyEntries(cfg, kept[..n])
  {
  }

  lemma NewestHealthy(cfg: S.Config, c: Commit, k: nat)
    requires Healthy(cfg, c)
    ensures HealthyEntries(cfg, Newest(c, k))
  {
    HealthyChain(cfg, c);
    if |Chain(c)| > k {
      HealthyPrefix(cfg, Chain(c), k);
    }
  }

  /** Moving one job, with or without new objects, keeps the histories healthy if the job is. */
  lemma MoveKeepsHonest(cfg: S.Config, w: World, objects: set<Object>, j: JobId, job: Job)
    requires Honest(cfg, w) && HealthyJob(cfg, job)
    ensures Honest(cfg, World(objects, w.refs, w.jobs[j := job]))
  {
  }

  lemma UpdateRefKeepsHonest(cfg: S.Config, w: World, j: JobId, p: Project, target: Commit, expected: Option<Commit>,
                             next: Job)
    requires Honest(cfg, w) && Healthy(cfg, target) && (next.Done? || next.PruneSwapped?)
    ensures Honest(cfg, UpdateRef(w, j, p, target, expected, next))
  {
  }

  lemma {:induction false} StageKeepsHonest(cfg: S.Config, w: World, j: JobId, job: Job, workdir: S.Workdir)
    requires Honest(cfg, w) && HealthyJob(cfg, job) && job.HasRead?
    ensures Honest(cfg, StageStep(cfg, w, j, job, workdir))
  {
    StagedCovers(cfg, job.expected, workdir);
    hide Covers;
    hide Healthy;
    var w' := StageStep(cfg, w, j, job, workdir);
    MoveKeepsHonest(cfg, w, w'.objects, j, w'.jobs[j]);
  }

  lemma {:induction false} CommitKeepsHonest(cfg: S.Config, w: World, j: JobId, job: Job, now: int)
    requires Honest(cfg, w) && HealthyJob(cfg, job) && JobOk(job) && job.HasTree?
    ensures Honest(cfg, CommitTreeStep(w, j, job, now))
  {
    var w' := CommitTreeStep(w, j, job, now);
    assert HealthyJob(cfg, w'.jobs[j]);
    hide Healthy;
    MoveKeepsHonest(cfg, w, w'.objects, j, w'.jobs[j]);
  }

  lemma {:induction false} LinkKeepsHonest(cfg: S.Config, w: World, j: JobId, job: Job)
    requires Honest(cfg, w) && HealthyJob(cfg, job) && job.PruneLinking? && job.kept != []
    ensures Honest(cfg, LinkStep(w, j, job))
  {
    var w' := LinkStep(w, j, job);
    HealthyPrefix(cfg, job.kept, |job.kept| - 1);
    assert HealthyJob(cfg, w'.jobs[j]);
    hide Healthy;
    MoveKeepsHonest(cfg, w, w'.objects, j, w'.jobs[j]);
  }

  lemma {:induction false} ReadKeepsHonest(cfg: S.Config, w: World, j: JobId, job: Job)
    requires Honest(cfg, w) && job.PruneCounted?
    ensures Honest(cfg, ReadStep(w, j, job))
  {
    if job.p in w.refs {
      NewestHealthy(cfg, w.refs[job.p], job.keepLast);
    }
    hide HealthyEntries;
    hide Healthy;
    MoveKeepsHonest(cfg, w, w.objects, j, ReadStep(w, j, job).jobs[j]);
  }

  lemma {:induction false} StepJobKeepsHonest(cfg: S.Config, w: World, l: Label, job: Job)
    requires Honest(cfg, w) && HealthyJob(cfg, job) && JobOk(job) && !l.BeginTake? && !l.BeginPrune?
    ensures Honest(cfg, StepJob(cfg, w, l, job))
  {
    hide Healthy;
    hide Covers;
    hide HealthyEntries;
    match l {
      case Stage(j, workdir) => if job.HasRead? { StageKeepsHonest(cfg, w, j, job, workdir); }
      case WriteTree(j) =>
        if job.HasStaged? {
          var w' := WriteTreeStep(w, j, job);
          MoveKeepsHonest(cfg, w, w'.objects, j, w'.jobs[j]);
        }
      case CommitTree(j, now) => if job.HasTree? { CommitKeepsHonest(cfg, w, j, job, now); }
      case Swap(j) =>
        if job.HasCommit? {
          UpdateRefKeepsHonest(cfg, w, j, job.p, job.commit, job.expected, Done(Taken(job.commit)));
        }
      case CountHistory(j) =>
        if job.PruneRead? { MoveKeepsHonest(cfg, w, w.objects, j, CountStep(w, j, job).jobs[j]); }
      case ReadHistory(j) => if job.PruneCounted? { ReadKeepsHonest(cfg, w, j, job); }
      case LinkNext(j) => if job.PruneLinking? && job.kept != [] { LinkKeepsHonest(cfg, w, j, job); }
      case PruneSwap(j) =>
        if job.PruneLinking? {
          if job.last.Some? {
            UpdateRefKeepsHonest(cfg, w, j, job.p, job.last.value, Some(job.tip), PruneSwapped);
          }
          MoveKeepsHonest(cfg, w, w.objects, j, Done(PruneDone));
        }
      case GcMark(j) =>
        if job.PruneSwapped? { MoveKeepsHonest(cfg, w, w.objects, j, MarkStep(w, j).jobs[j]); }
      case GcSweep(j) =>
        if job.PruneMarked? { MoveKeepsHonest(cfg, w, w.objects * job.marked, j, Done(PruneDone)); }
    }
  }

  lemma {:induction false} StepKeepsHonest(cfg: S.Config, w: World, l: Label)
    requires Sound(w) && Honest(cfg, w)
    ensures Honest(cfg, Step(cfg, w, l))
  {
    hide Healthy;
    match l {
      case BeginTake(j, p, reason) => MoveKeepsHonest(cfg, w, w.objects, j, HasRead(p, ReadRef(w, p), reason));
      case BeginPrune(j, p, keepLast) => MoveKeepsHonest(cfg, w, w.objects, j, Done(PruneDone));
      case _ => if l.j in w.jobs { StepJobKeepsHonest(cfg, w, l, w.jobs[l.j]); }
    }
  }

  lemma {:induction false} RunIsHonest(cfg: S.Config, ls: seq<Label>)
    ensures Sound(RunFrom(cfg, INIT, ls)) && Honest(cfg, RunFrom(cfg, INIT, ls))
  {
    RunKeepsSound(cfg, INIT, ls);
    if ls != [] {
      RunIsHonest(cfg, ls[..|ls| - 1]);
      StepKeepsHonest(cfg, RunFrom(cfg, INIT, ls[..|ls| - 1]), ls[|ls| - 1]);
    }
  }

  // ---------------------------------------------------------------------
  // Taking a history again
  // ---------------------------------------------------------------------

  function Oldest(c: Commit): Commit {
    if c.parent.None? then c else Oldest(c.parent.value)
  }

  /** The history of `r` taken again on top of `base`. */
  function Replant(base: Commit, r: Commit): Commit
    decreases r
  {
    Commit(r.tree, Some(if r.parent.None? then base else Replant(base, r.parent.value)), r.date, r.subject)
  }

  /** Pruned to the length of `r`, it is `r` again. */
  lemma {:induction false} ReplantThenPrune(cfg: S.Config, base: Commit, r: Commit)
    requires Healthy(cfg, r)
    ensures |Chain(Replant(base, r))| == |Chain(r)| + |Chain(base)|
    ensures Relink(Chain(Replant(base, r))[..|Chain(r)|]) == Some(r)
    decreases r
  {
    var top, n := Replant(base, r), |Chain(r)|;
    if r.parent.Some? {
      ReplantThenPrune(cfg, base, r.parent.value);
      assert Chain(top)[..n][1..] == Chain(Replant(base, r.parent.value))[..n - 1];
    } else {
      assert Chain(top)[..n][1..] == [];
    }
    assert Chain(top)[..n][0] == top;
  }

  function TakeOf(j: JobId, p: Project, c: Commit): seq<Label> {
    Prepare(j, p, c.subject, c.tree, c.date) + [Swap(j)]
  }

  /** Take every entry of the history of `r` again, oldest first, by jobs from `j` on. */
  function Retake(j: JobId, p: Project, r: Commit): seq<Label>
    decreases r
  {
    (if r.parent.None? then [] else Retake(j, p, r.parent.value)) + TakeOf(j + |Chain(r)| - 1, p, r)
  }

  /** No job from `j` on has begun. */
  ghost predicate FreshFrom(w: World, j: JobId) {
    forall k :: k in w.jobs ==> k < j
  }

  /** `w'` is `w` with more objects, `p`'s ref at `tip`, and more jobs, all before `j`. */
  ghost predicate MovedTo(w: World, w': World, p: Project, tip: Commit, j: JobId) {
    && Fit(w', p) && w'.refs == w.refs[p := tip] && w.objects <= w'.objects
    && FreshFrom(w', j) && forall k :: k in w.jobs ==> k in w'.jobs && w'.jobs[k] == w.jobs[k]
  }

  lemma {:induction false} TakeOnce(cfg: S.Config, w: World, j: JobId, p: Project, c: Commit)
    requires Fit(w, p) && p in w.refs && Covers(cfg, w.refs[p].tree) && FreshFrom(w, j)
    requires Covers(cfg, c.tree) && c.subject != "" && w.refs[p].tree != c.tree
    ensures var tip := Commit(c.tree, Some(w.refs[p]), c.date, c.subject);
            MovedTo(w, RunFrom(cfg, w, TakeOf(j, p, c)), p, tip, j + 1)
  {
    CoversIsClean(cfg, w.refs[p].tree);
    S.StageIgnoresHistory(cfg, Lookup(w.refs, p), c.tree);
    hide RunFrom;
    hide Sound;
    hide Prepare;
    hide S.Stage;
    UninterruptedTake(cfg, w, j, p, c.subject, c.tree, c.date);
  }

  lemma {:induction false} RetakeRuns(cfg: S.Config, w: World, j: JobId, p: Project, r: Commit)
    requires Fit(w, p) && p in w.refs && Covers(cfg, w.refs[p].tree) && FreshFrom(w, j)
    requires Healthy(cfg, r) && w.refs[p].tree != Oldest(r).tree
    ensures MovedTo(w, RunFrom(cfg, w, Retake(j, p, r)), p, Replant(w.refs[p], r), j + |Chain(r)|)
    decreases r
  {
    hide RunFrom;
    hide Fit;
    hide Covers;
    hide TakeOf;
    if r.parent.None? {
      TakeOnce(cfg, w, j, p, r);
      assert Retake(j, p, r) == TakeOf(j, p, r);
    } else {
      var parent := r.parent.value;
      var labels, k := Retake(j, p, parent), j + |Chain(parent)|;
      RetakeRuns(cfg, w, j, p, parent);
      var mid := RunFrom(cfg, w, labels);
      TakeOnce(cfg, mid, k, p, r);
      RunConcat(cfg, w, labels, TakeOf(k, p, r));
      assert w.refs[p := Replant(w.refs[p], parent)][p := Replant(w.refs[p], r)] == w.refs[p := Replant(w.refs[p], r)];
    }
  }

  /** Take the history of `r` again and prune to its length: `p` is at `r` again. */
  lemma {:induction false} BackTo(cfg: S.Config, w: World, j: JobId, p: Project, r: Commit) returns (ls: seq<Label>)
    requires Fit(w, p) && p in w.refs && Covers(cfg, w.refs[p].tree) && FreshFrom(w, j)
    requires Healthy(cfg, r) && w.refs[p].tree != Oldest(r).tree
    ensures MovedTo(w, RunFrom(cfg, w, ls), p, r, j + |Chain(r)| + 1)
  {
    hide RunFrom;
    hide Sound;
    hide Covers;
    hide Retake;
    hide PruneLabels;
    hide Relink;
    hide Chain;
    var labels, k := Retake(j, p, r), j + |Chain(r)|;
    RetakeRuns(cfg, w, j, p, r);
    var mid := RunFrom(cfg, w, labels);
    ReplantThenPrune(cfg, w.refs[p], r);
    UninterruptedPrune(cfg, mid, k, p, |Chain(r)|);
    RunConcat(cfg, w, labels, PruneLabels(k, p, |Chain(r)|));
    ls := labels + PruneLabels(k, p, |Chain(r)|);
  }

  lemma {:induction false} FreshJob(used: set<JobId>) returns (j: JobId)
    ensures forall k :: k in used ==> k < j
    decreases |used|
  {
    if used == {} {
      j := 0;
    } else {
      var k :| k in used;
      j := FreshJob(used - {k});
      j := if k < j then j else k + 1;
      assert forall m :: m in used ==> m == k || m in used - {k};
    }
  }

  /** From a child of `r`, `p` can be taken back to `r`. */
  lemma {:induction false} BackFromChild(cfg: S.Config, w: World, p: Project, r: Commit)
    returns (ls: seq<Label>, j: JobId)
    requires Fit(w, p) && p in w.refs && Healthy(cfg, w.refs[p]) && w.refs[p].parent == Some(r)
    ensures MovedTo(w, RunFrom(cfg, w, ls), p, r, j)
  {
    hide RunFrom;
    hide Fit;
    hide Covers;
    hide Retake;
    hide TakeOf;
    var k := FreshJob(w.jobs.Keys);
    if w.refs[p].tree != Oldest(r).tree {
      ls := BackTo(cfg, w, k, p, r);
      j := k + |Chain(r)| + 1;
    } else {
      TakeOnce(cfg, w, k, p, r);
      var mid := RunFrom(cfg, w, TakeOf(k, p, r));
      var rest := BackTo(cfg, mid, k + 1, p, r);
      RunConcat(cfg, w, TakeOf(k, p, r), rest);
      ls := TakeOf(k, p, r) + rest;
      j := k + 1 + |Chain(r)| + 1;
    }
  }

  /** Making the second writer's commit again, should a sweep have taken it. */
  lemma {:induction false} Remake(cfg: S.Config, w: World, j: JobId, p: Project, c: Commit)
    requires Fit(w, p) && p in w.refs && c.parent == Some(w.refs[p]) && Healthy(cfg, c) && FreshFrom(w, j)
    ensures var w' := RunFrom(cfg, w, Prepare(j, p, c.subject, c.tree, c.date));
            && w'.refs == w.refs && CommitObject(c) in w'.objects
            && forall k :: k in w.jobs ==> k in w'.jobs && w'.jobs[k] == w.jobs[k]
  {
    CoversIsClean(cfg, w.refs[p].tree);
    S.StageIgnoresHistory(cfg, Lookup(w.refs, p), c.tree);
    hide RunFrom;
    hide Sound;
    hide Prepare;
    hide S.Stage;
    PrepareRuns(cfg, w, j, p, c.subject, c.tree, c.date);
  }

  /** Whatever commit two writers had read, after the first has advanced from it a run lets the second through too. */
  lemma {:induction false} StaleWriterRevived(cfg: S.Config, w: World, second: JobId, p: Project, r: Commit)
    returns (ls: seq<Label>)
    requires Fit(w, p) && Honest(cfg, w) && p in w.refs && w.refs[p].parent == Some(r)
    requires Attempts(w, Swap(second), p, Some(r))
    ensures Advances(RunFrom(cfg, w, ls), Swap(second), p)
  {
    var c := w.jobs[second].commit;
    assert JobOk(w.jobs[second]) && HealthyJob(cfg, w.jobs[second]);
    hide RunFrom;
    hide Healthy;
    hide Prepare;
    hide Sound;
    var back, j := BackFromChild(cfg, w, p, r);
    var mid := RunFrom(cfg, w, back);
    Remake(cfg, mid, j, p, c);
    RunConcat(cfg, w, back, Prepare(j, p, c.subject, c.tree, c.date));
    ls := back + Prepare(j, p, c.subject, c.tree, c.date);
  }

  /**
    Two writers have read the same value in a world reached from the empty store, and the
    first has advanced the ref. No continuation lets the second through if and only if
    what they had read was that there is no ref.
   */
  lemma {:induction false} SecondShutOutIff(cfg: S.Config, before: seq<Label>, first: JobId, second: JobId, p: Project,
                                            expected: Option<Commit>)
    requires var w := RunFrom(cfg, INIT, before);
             && first != second && Attempts(w, Swap(first), p, expected) && Advances(w, Swap(first), p)
             && Attempts(w, Swap(second), p, expected)
    ensures var w1 := Step(cfg, RunFrom(cfg, INIT, before), Swap(first));
            (forall ls :: !Advances(RunFrom(cfg, w1, ls), Swap(second), p)) <==> expected.None?
  {
    RunIsHonest(cfg, before);
    var w := RunFrom(cfg, INIT, before);
    var w1 := Step(cfg, w, Swap(first));
    StepKeepsSound(cfg, w, Swap(first));
    StepKeepsHonest(cfg, w, Swap(first));
    AdvanceReplacesParent(cfg, w, Swap(first), p);
    SwapMovesOne(cfg, w, first, second);
    hide Step;
    hide RunFrom;
    hide Honest;
    hide Sound;
    if expected.Some? {
      var ls := StaleWriterRevived(cfg, w1, second, p, expected.value);
      assert Advances(RunFrom(cfg, w1, ls), Swap(second), p);
    } else {
      forall ls ensures !Advances(RunFrom(cfg, w1, ls), Swap(second), p) {
        ReadNothingConflicts(cfg, w1, ls, second, p);
      }
    }
  }

  lemma SwapMovesOne(cfg: S.Config, w: World, j: JobId, k: JobId)
    requires j != k && k in w.jobs
    ensures k in Step(cfg, w, Swap(j)).jobs && Step(cfg, w, Swap(j)).jobs[k] == w.jobs[k]
  {
  }
}
