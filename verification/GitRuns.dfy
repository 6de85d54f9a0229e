/**
  Runs of the checkpoint store without interference, and a run in which a sweep
  takes away a snapshot that was swapped in after the mark.
 */
module GitRuns {
  import opened Wrappers
  import opened GitObjects
  import opened GitProtocol
  import opened GitCollection
  import S = GitStore

  lemma {:induction false} RunConcat(cfg: S.Config, w: World, a: seq<Label>, b: seq<Label>)
    ensures RunFrom(cfg, w, a + b) == RunFrom(cfg, RunFrom(cfg, w, a), b)
  {
    if b == [] {
      assert a + b == a;
    } else {
      assert (a + b)[..|a + b| - 1] == a + b[..|b| - 1];
      RunConcat(cfg, w, a, b[..|b| - 1]);
    }
  }

  /** The four commands of a take up to, but not including, its `update-ref`. */
  function Prepare(j: JobId, p: Project, reason: string, workdir: S.Workdir, now: int): seq<Label> {
    [BeginTake(j, p, reason), Stage(j, workdir), WriteTree(j), CommitTree(j, now)]
  }

  /** The commit a take of `p` started in `w` builds. */
  function Prepared(cfg: S.Config, w: World, p: Project, reason: string, workdir: S.Workdir, now: int): Commit {
    Commit(S.Stage(cfg, Lookup(w.refs, p), workdir), Lookup(w.refs, p), now, OrDefault(reason))
  }

  lemma {:induction false} LastStep(cfg: S.Config, w: World, ls: seq<Label>, l: Label)
    ensures RunFrom(cfg, w, ls + [l]) == Step(cfg, RunFrom(cfg, w, ls), l)
  {
  }

  lemma {:induction false} RunThree(cfg: S.Config, w: World, a: Label, b: Label, c: Label)
    ensures RunFrom(cfg, w, [a, b, c]) == Step(cfg, Step(cfg, Step(cfg, w, a), b), c)
  {
    LastStep(cfg, w, [], a);
    assert [] + [a] == [a] && [a] + [b] == [a, b] && [a, b] + [c] == [a, b, c];
  }

  lemma {:induction false} RunFour(cfg: S.Config, w: World, a: Label, b: Label, c: Label, d: Label)
    ensures RunFrom(cfg, w, [a, b, c, d]) == Step(cfg, Step(cfg, Step(cfg, Step(cfg, w, a), b), c), d)
  {
    RunThree(cfg, w, a, b, c);
    LastStep(cfg, w, [a, b, c], d);
    assert [a, b, c] + [d] == [a, b, c, d];
  }

  /** Staging leaves the index's blobs in the store and nothing else new. */
  lemma StageRuns(cfg: S.Config, w: World, j: JobId, p: Project, reason: string, workdir: S.Workdir)
    requires Whole(w, p)
    requires p in w.refs ==> S.Stage(cfg, Lookup(w.refs, p), workdir) != w.refs[p].tree
    ensures var job := HasRead(p, Lookup(w.refs, p), reason);
            var index := S.Stage(cfg, Lookup(w.refs, p), workdir);
            var w' := StageStep(cfg, w, j, job, workdir);
            && w'.jobs == w.jobs[j := HasStaged(p, Lookup(w.refs, p), reason, index)]
            && w'.refs == w.refs && w.objects <= w'.objects && Blobs(index) <= w'.objects
  {
  }

  /** Writing the tree and the commit succeeds when the blobs and the parent are present. */
  lemma CommitRuns(cfg: S.Config, w: World, j: JobId, job: Job, now: int)
    requires j in w.jobs && w.jobs[j] == job && job.HasStaged? && Blobs(job.index) <= w.objects
    requires job.expected.Some? ==> CommitObject(job.expected.value) in w.objects
    ensures var w' := Step(cfg, Step(cfg, w, WriteTree(j)), CommitTree(j, now));
            var c := Commit(job.index, job.expected, now, OrDefault(job.reason));
            && w'.jobs == w.jobs[j := HasCommit(job.p, job.expected, c)]
            && w'.refs == w.refs && w.objects <= w'.objects && CommitObject(c) in w'.objects
  {
  }

  /** An uninterrupted preparation ends with the commit in the store and refs and other jobs unchanged. */
  lemma PrepareRuns(cfg: S.Config, w: World, j: JobId, p: Project, reason: string, workdir: S.Workdir, now: int)
    requires Fit(w, p) && j !in w.jobs
    requires p in w.refs ==> S.Stage(cfg, Lookup(w.refs, p), workdir) != w.refs[p].tree
    ensures var w' := RunFrom(cfg, w, Prepare(j, p, reason, workdir, now));
            var c := Prepared(cfg, w, p, reason, workdir, now);
            && Fit(w', p) && w'.refs == w.refs && w.objects <= w'.objects && CommitObject(c) in w'.objects
            && w'.jobs == w.jobs[j := HasCommit(p, Lookup(w.refs, p), c)]
  {
    RunKeepsFit(cfg, w, Prepare(j, p, reason, workdir, now), p);
    PreparedState(cfg, w, j, p, reason, workdir, now);
  }

  lemma {:induction false} PreparedState(cfg: S.Config, w: World, j: JobId, p: Project, reason: string,
                                         workdir: S.Workdir, now: int)
    requires Whole(w, p) && j !in w.jobs
    requires p in w.refs ==> S.Stage(cfg, Lookup(w.refs, p), workdir) != w.refs[p].tree
    ensures var w' := RunFrom(cfg, w, Prepare(j, p, reason, workdir, now));
            var c := Prepared(cfg, w, p, reason, workdir, now);
            && w'.refs == w.refs && w.objects <= w'.objects && CommitObject(c) in w'.objects
            && w'.jobs == w.jobs[j := HasCommit(p, Lookup(w.refs, p), c)]
  {
    RunFour(cfg, w, BeginTake(j, p, reason), Stage(j, workdir), WriteTree(j), CommitTree(j, now));
    hide S.Stage;
    hide RunFrom;
    hide Blobs;
    var job := HasRead(p, Lookup(w.refs, p), reason);
    var w1 := Step(cfg, w, BeginTake(j, p, reason));
    assert w1 == w.(jobs := w.jobs[j := job]);
    StageRuns(cfg, w1, j, p, reason, workdir);
    var w2 := StageStep(cfg, w1, j, job, workdir);
    hide StageStep;
    assert Step(cfg, w1, Stage(j, workdir)) == w2;
    hide Step;
    CommitRuns(cfg, w2, j, w2.jobs[j], now);
  }

  /** A whole take by a single writer is the store's sequential take. */
  lemma UninterruptedTake(cfg: S.Config, w: World, j: JobId, p: Project, reason: string, workdir: S.Workdir, now: int)
    requires Fit(w, p) && j !in w.jobs
    requires p in w.refs ==> S.Stage(cfg, Lookup(w.refs, p), workdir) != w.refs[p].tree
    ensures var w' := RunFrom(cfg, w, Prepare(j, p, reason, workdir, now) + [Swap(j)]);
            var c := Prepared(cfg, w, p, reason, workdir, now);
            && Fit(w', p) && w.objects <= w'.objects && CommitObject(c) in w'.objects
            && w'.refs == w.refs[p := c] && w'.jobs == w.jobs[j := Done(Taken(c))]
            && Advances(RunFrom(cfg, w, Prepare(j, p, reason, workdir, now)), Swap(j), p)
  {
    hide RunFrom;
    hide Sound;
    var ls := Prepare(j, p, reason, workdir, now);
    PrepareRuns(cfg, w, j, p, reason, workdir, now);
    StepKeepsSound(cfg, RunFrom(cfg, w, ls), Swap(j));
    LastStep(cfg, w, ls, Swap(j));
  }

  function Links(j: JobId, n: nat): seq<Label> {
    seq(n, _ => LinkNext(j))
  }

  /** Linking n entries leaves the others and the chain of the linked ones. */
  lemma {:induction false} LinksRun(cfg: S.Config, w: World, j: JobId, job: Job, n: nat)
    requires j in w.jobs && w.jobs[j] == job && job.PruneLinking? && job.last == None && n <= |job.kept|
    requires forall d :: d in job.kept ==> TreeObject(d.tree) in w.objects
    ensures var w' := RunFrom(cfg, w, Links(j, n));
            var m := |job.kept| - n;
            var last := Relink(job.kept[m..]);
            && w'.refs == w.refs && w.objects <= w'.objects
            && w'.jobs == w.jobs[j := PruneLinking(job.p, job.tip, job.kept[..m], last)]
            && (last.Some? ==> CommitObject(last.value) in w'.objects)
  {
    var m := |job.kept| - n;
    if n == 0 {
      assert job.kept[..m] == job.kept;
      assert w.jobs[j := job] == w.jobs;
    } else {
      assert Links(j, n)[..n - 1] == Links(j, n - 1);
      LinksRun(cfg, w, j, job, n - 1);
      LinkOne(cfg, RunFrom(cfg, w, Links(j, n - 1)), j, job, m);
    }
  }

  lemma {:induction false} LinkOne(cfg: S.Config, w: World, j: JobId, job: Job, m: nat)
    requires job.PruneLinking? && m < |job.kept| && j in w.jobs
    requires w.jobs[j] == PruneLinking(job.p, job.tip, job.kept[..m + 1], Relink(job.kept[m + 1..]))
    requires TreeObject(job.kept[m].tree) in w.objects
    requires Relink(job.kept[m + 1..]).Some? ==> CommitObject(Relink(job.kept[m + 1..]).value) in w.objects
    ensures var w' := Step(cfg, w, LinkNext(j)); var last := Relink(job.kept[m..]);
            && w'.refs == w.refs && w.objects <= w'.objects && last.Some? && CommitObject(last.value) in w'.objects
            && w'.jobs == w.jobs[j := PruneLinking(job.p, job.tip, job.kept[..m], last)]
  {
    assert job.kept[..m + 1][..m] == job.kept[..m];
  }

  /** The commands of a prune up to its links. */
  function ReadAll(j: JobId, p: Project, keepLast: nat): seq<Label> {
    [BeginPrune(j, p, keepLast), CountHistory(j), ReadHistory(j)]
  }

  /** The commands of a prune up to its `update-ref`. */
  function PruneLabels(j: JobId, p: Project, keepLast: nat): seq<Label> {
    ReadAll(j, p, keepLast) + Links(j, keepLast) + [PruneSwap(j)]
  }

  lemma {:induction false} ReadAllRuns(cfg: S.Config, w: World, j: JobId, p: Project, keepLast: nat)
    requires Whole(w, p) && j !in w.jobs && p in w.refs && 1 <= keepLast < |Chain(w.refs[p])|
    ensures RunFrom(cfg, w, ReadAll(j, p, keepLast))
         == w.(jobs := w.jobs[j := PruneLinking(p, w.refs[p], Chain(w.refs[p])[..keepLast], None)])
  {
    var a, b, c := BeginPrune(j, p, keepLast), CountHistory(j), ReadHistory(j);
    RunThree(cfg, w, a, b, c);
    var w1 := Step(cfg, w, a);
    var w2 := Step(cfg, w1, b);
    assert w2.jobs == w.jobs[j := PruneCounted(p, w.refs[p], keepLast)];
    assert Step(cfg, w2, c) == ReadStep(w2, j, w2.jobs[j]);
  }

  /** A prune run by itself installs the pruned tip and leaves everything else in place. */
  lemma {:induction false} UninterruptedPrune(cfg: S.Config, w: World, j: JobId, p: Project, keepLast: nat)
    requires Fit(w, p) && j !in w.jobs && p in w.refs && 1 <= keepLast < |Chain(w.refs[p])|
    ensures var w' := RunFrom(cfg, w, PruneLabels(j, p, keepLast));
            && Fit(w', p) && w'.refs == w.refs[p := Pruned(w.refs[p], keepLast)]
            && w.objects <= w'.objects && w'.jobs == w.jobs[j := PruneSwapped]
  {
    hide RunFrom;
    var ls := ReadAll(j, p, keepLast) + Links(j, keepLast);
    LinksAllRun(cfg, w, j, p, keepLast);
    LastStep(cfg, w, ls, PruneSwap(j));
    SwapRuns(cfg, RunFrom(cfg, w, ls), j, p, w.refs[p], Pruned(w.refs[p], keepLast));
    PruneKeepsFit(cfg, w, j, p, keepLast);
  }

  lemma {:induction false} PruneKeepsFit(cfg: S.Config, w: World, j: JobId, p: Project, keepLast: nat)
    requires Fit(w, p)
    ensures Fit(RunFrom(cfg, w, PruneLabels(j, p, keepLast)), p)
  {
    RunKeepsFit(cfg, w, PruneLabels(j, p, keepLast), p);
  }

  lemma {:induction false} LinksAllRun(cfg: S.Config, w: World, j: JobId, p: Project, keepLast: nat)
    requires Fit(w, p) && j !in w.jobs && p in w.refs && 1 <= keepLast < |Chain(w.refs[p])|
    ensures var w' := RunFrom(cfg, w, ReadAll(j, p, keepLast) + Links(j, keepLast));
            var tip := w.refs[p]; var newTip := Pruned(tip, keepLast);
            && w'.refs == w.refs && w.objects <= w'.objects && CommitObject(newTip) in w'.objects
            && w'.jobs == w.jobs[j := PruneLinking(p, tip, [], Some(newTip))]
  {
    TreesPresent(w, w.refs[p]);
    hide RunFrom;
    hide ReadAll;
    hide Links;
    hide Sound;
    hide Chain;
    hide Pruned;
    var w1 := RunFrom(cfg, w, ReadAll(j, p, keepLast));
    ReadAllRuns(cfg, w, j, p, keepLast);
    AllLinked(cfg, w1, j, p, w.refs[p], keepLast);
    RunConcat(cfg, w, ReadAll(j, p, keepLast), Links(j, keepLast));
  }

  lemma {:induction false} AllLinked(cfg: S.Config, w: World, j: JobId, p: Project, tip: Commit, keepLast: nat)
    requires 1 <= keepLast < |Chain(tip)| && j in w.jobs
    requires w.jobs[j] == PruneLinking(p, tip, Chain(tip)[..keepLast], None)
    requires forall d :: d in Chain(tip) ==> TreeObject(d.tree) in w.objects
    ensures var w' := RunFrom(cfg, w, Links(j, keepLast)); var newTip := Pruned(tip, keepLast);
            && w'.refs == w.refs && w.objects <= w'.objects && CommitObject(newTip) in w'.objects
            && w'.jobs == w.jobs[j := PruneLinking(p, tip, [], Some(newTip))]
  {
    LinksRun(cfg, w, j, w.jobs[j], keepLast);
  }

  lemma SwapRuns(cfg: S.Config, w: World, j: JobId, p: Project, tip: Commit, newTip: Commit)
    requires j in w.jobs && w.jobs[j] == PruneLinking(p, tip, [], Some(newTip))
    requires Lookup(w.refs, p) == Some(tip) && CommitObject(newTip) in w.objects
    ensures Step(cfg, w, PruneSwap(j)) == World(w.objects, w.refs[p := newTip], w.jobs[j := PruneSwapped])
  {
  }

  lemma TreesPresent(w: World, tip: Commit)
    requires Sound(w) && CommitObject(tip) in w.objects
    ensures forall d :: d in Chain(tip) ==> TreeObject(d.tree) in w.objects
  {
  }

  lemma PrunedToOne(c: Commit)
    requires c.parent.Some?
    ensures |Chain(c)| > 1 && Pruned(c, 1) == Commit(c.tree, None, c.date, OrDefault(c.subject))
  {
  }

  /** Two jobs that prepare in turn both hold a commit on the current tip, and either could swap it in. */
  lemma TwoWritersPrepare(cfg: S.Config, w: World, i: JobId, j: JobId, p: Project, workdir: S.Workdir)
    requires Fit(w, p) && i !in w.jobs && j !in w.jobs && i != j
    requires p in w.refs ==> S.Stage(cfg, Lookup(w.refs, p), workdir) != w.refs[p].tree
    ensures var w' := RunFrom(cfg, w, Prepare(i, p, "y", workdir, 0) + Prepare(j, p, "z", workdir, 0));
            && Fit(w', p) && w'.refs == w.refs && w'.jobs.Keys == w.jobs.Keys + {i, j}
            && Advances(w', Swap(i), p) && Advances(w', Swap(j), p)
            && w'.jobs[i].commit.tree == S.Stage(cfg, Lookup(w.refs, p), workdir)
  {
    hide RunFrom;
    PrepareRuns(cfg, w, i, p, "y", workdir, 0);
    var w1 := RunFrom(cfg, w, Prepare(i, p, "y", workdir, 0));
    PrepareRuns(cfg, w1, j, p, "z", workdir, 0);
    RunConcat(cfg, w, Prepare(i, p, "y", workdir, 0), Prepare(j, p, "z", workdir, 0));
  }

  /** Two writers that read the same value, either of which could swap, are reached by a run from the empty store. */
  lemma TwoWritersReady(cfg: S.Config, p: Project, one: S.Workdir, two: S.Workdir)
    requires S.Snapshot(cfg, one) == one && S.Snapshot(cfg, two) == two && one != two
    ensures var ls := Prepare(0, p, "x", one, 0) + [Swap(0)]
                      + (Prepare(1, p, "y", two, 0) + Prepare(2, p, "z", two, 0));
            var w := RunFrom(cfg, INIT, ls);
            && p in w.refs && w.refs[p] == Commit(one, None, 0, "x") && w.jobs.Keys == {0, 1, 2}
            && Advances(w, Swap(1), p) && Advances(w, Swap(2), p) && w.jobs[1].commit.tree == two
  {
    hide RunFrom;
    hide S.Stage;
    hide Prepare;
    S.StageIgnoresHistory(cfg, None, one);
    var take := Prepare(0, p, "x", one, 0) + [Swap(0)];
    UninterruptedTake(cfg, INIT, 0, p, "x", one, 0);
    var w1 := RunFrom(cfg, INIT, take);
    assert w1.jobs.Keys == {0} && w1.refs[p] == Commit(one, None, 0, "x");
    assert S.CleanTree(cfg, one);
    S.StageIgnoresHistory(cfg, Lookup(w1.refs, p), two);
    TwoWritersPrepare(cfg, w1, 1, 2, p, two);
    RunConcat(cfg, INIT, take, Prepare(1, p, "y", two, 0) + Prepare(2, p, "z", two, 0));
  }

  // ---------------------------------------------------------------------
  // A sweep can take a successful snapshot away
  // ---------------------------------------------------------------------

  lemma {:induction false} MarkRuns(cfg: S.Config, w: World, j: JobId)
    requires Inv(w) && j in w.jobs && w.jobs[j] == PruneSwapped
    ensures Step(cfg, w, GcMark(j)) == w.(jobs := w.jobs[j := PruneMarked(Reachable(w.refs))])
  {
    hide Reachable;
    TipsCarryAll(w.objects, w.refs);
  }

  lemma {:induction false} OnlyCommitReached(refs: map<Project, Commit>, p: Project, c: Commit, d: Commit)
    requires refs == map[p := c] && c.parent == None && CommitObject(d) in Reachable(refs)
    ensures d == c
  {
    assert CommitObject(d) in Closure(c);
  }

  /** Two snapshots of `p`, a prune to one, and its collection's mark. */
  function MarkedPrune(p: Project, one: S.Workdir, two: S.Workdir): seq<Label> {
    TwoTakes(p, one, two) + PruneLabels(2, p, 1) + [GcMark(2)]
  }

  function TwoTakes(p: Project, one: S.Workdir, two: S.Workdir): seq<Label> {
    Prepare(0, p, "a", one, 0) + [Swap(0)] + (Prepare(1, p, "b", two, 0) + [Swap(1)])
  }

  lemma {:induction false} TwoSnapshots(cfg: S.Config, p: Project, one: S.Workdir, two: S.Workdir)
    requires S.Snapshot(cfg, one) == one && S.Snapshot(cfg, two) == two && one != two
    ensures var w := RunFrom(cfg, INIT, TwoTakes(p, one, two));
            && Fit(w, p) && w.jobs.Keys == {0, 1}
            && w.refs == map[p := Commit(two, Some(Commit(one, None, 0, "a")), 0, "b")]
  {
    hide RunFrom;
    hide S.Stage;
    hide Prepare;
    S.StageIgnoresHistory(cfg, None, one);
    var first, second := Prepare(0, p, "a", one, 0) + [Swap(0)], Prepare(1, p, "b", two, 0) + [Swap(1)];
    UninterruptedTake(cfg, INIT, 0, p, "a", one, 0);
    var w1 := RunFrom(cfg, INIT, first);
    assert S.CleanTree(cfg, one);
    S.StageIgnoresHistory(cfg, Lookup(w1.refs, p), two);
    UninterruptedTake(cfg, w1, 1, p, "b", two, 0);
    RunConcat(cfg, INIT, first, second);
  }

  lemma {:induction false} MarkedPruneRuns(cfg: S.Config, p: Project, one: S.Workdir, two: S.Workdir)
    requires S.Snapshot(cfg, one) == one && S.Snapshot(cfg, two) == two && one != two
    ensures var w := RunFrom(cfg, INIT, MarkedPrune(p, one, two)); var c := Commit(two, None, 0, "b");
            && Inv(w) && w.jobs.Keys == {0, 1, 2} && w.refs == map[p := c]
            && w.jobs[2] == PruneMarked(Reachable(w.refs))
  {
    hide RunFrom;
    hide Prepare;
    hide PruneLabels;
    hide Inv;
    hide Reachable;
    hide Step;
    hide Pruned;
    hide Chain;
    hide TwoTakes;
    var takes, prune := TwoTakes(p, one, two), PruneLabels(2, p, 1);
    TwoSnapshots(cfg, p, one, two);
    var w1 := RunFrom(cfg, INIT, takes);
    PrunedToOne(w1.refs[p]);
    UninterruptedPrune(cfg, w1, 2, p, 1);
    RunConcat(cfg, INIT, takes, prune);
    BeforeMarkInv(cfg, p, one, two);
    var w2 := RunFrom(cfg, INIT, takes + prune);
    MarkRuns(cfg, w2, 2);
    StepKeepsInv(cfg, w2, GcMark(2));
    LastStep(cfg, INIT, takes + prune, GcMark(2));
  }

  lemma {:induction false} BeforeMarkInv(cfg: S.Config, p: Project, one: S.Workdir, two: S.Workdir)
    ensures Inv(RunFrom(cfg, INIT, TwoTakes(p, one, two) + PruneLabels(2, p, 1)))
  {
    RunKeepsInv(cfg, INIT, TwoTakes(p, one, two) + PruneLabels(2, p, 1));
  }

  /**
    A run from the empty store after which a project's snapshot was reported as taken
    and its ref names a commit that is not there: another project's prune marked
    before the snapshot was swapped in and swept after.
   */
  lemma {:induction false} SweepLosesSnapshot(cfg: S.Config, p: Project, q: Project, one: S.Workdir, two: S.Workdir)
    requires p != q && S.Snapshot(cfg, one) == one && S.Snapshot(cfg, two) == two && one != two
    ensures var ls := MarkedPrune(p, one, two) + (Prepare(3, q, "c", one, 0) + [Swap(3)] + [GcSweep(2)]);
            var w := RunFrom(cfg, INIT, ls);
            q in w.refs && 3 in w.jobs && w.jobs[3] == Done(Taken(w.refs[q])) && !Whole(w, q)
  {
    hide RunFrom;
    hide Prepare;
    hide MarkedPrune;
    MarkedPruneRuns(cfg, p, one, two);
    var w1 := RunFrom(cfg, INIT, MarkedPrune(p, one, two));
    var c := Prepared(cfg, w1, q, "c", one, 0);
    if CommitObject(c) in Reachable(w1.refs) {
      OnlyCommitReached(w1.refs, p, w1.refs[p], c);
    }
    var take := Prepare(3, q, "c", one, 0) + [Swap(3)];
    UninterruptedTake(cfg, w1, 3, q, "c", one, 0);
    var w2 := RunFrom(cfg, w1, take);
    NothingHappens(cfg, w2);
    UnmarkedIsSwept(cfg, w2, 2, [], q);
    LastStep(cfg, w1, take, GcSweep(2));
    RunConcat(cfg, INIT, MarkedPrune(p, one, two), take + [GcSweep(2)]);
  }

  lemma NothingHappens(cfg: S.Config, w: World)
    ensures RunFrom(cfg, w, []) == w
  {
  }
}
