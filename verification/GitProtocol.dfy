/**
  The checkpoint store under concurrency. Any number of jobs (snapshot takers
  and pruners) on any number of projects interleave their git commands over one
  shared object store. A garbage collection first marks what the refs reach and
  later sweeps the rest, and the commands of other jobs may fall in between.
  A run is an arbitrary sequence of step labels.

  Git's own existence checks are part of the model: `read-tree`, `write-tree`,
  `commit-tree` and `update-ref` fail on an object that is not in the store.
 */
module GitProtocol {
  import opened Wrappers
  import opened GitObjects
  import S = GitStore

  type Project = S.Project
  type JobId = nat

  datatype Object = BlobObject(content: Content) | TreeObject(tree: Tree) | CommitObject(commit: Commit)

  datatype Outcome = Unchanged | Taken(commit: Commit) | Conflict | GitFailed | PruneDone

  datatype Job =
    | HasRead(p: Project, expected: Option<Commit>, reason: string)
    | HasStaged(p: Project, expected: Option<Commit>, reason: string, index: Tree)
    | HasTree(p: Project, expected: Option<Commit>, reason: string, index: Tree)
    | HasCommit(p: Project, expected: Option<Commit>, commit: Commit)
    | PruneRead(p: Project, tip: Commit, keepLast: nat)
    | PruneCounted(p: Project, tip: Commit, keepLast: nat)
    // Entries still to be relinked, newest first, and the last commit made.
    | PruneLinking(p: Project, tip: Commit, kept: seq<Commit>, last: Option<Commit>)
    | PruneSwapped
    | PruneMarked(marked: set<Object>)
    | Done(outcome: Outcome)

  datatype World = World(objects: set<Object>, refs: map<Project, Commit>, jobs: map<JobId, Job>)

  /** One git command of one job. A label whose job is not at that point does nothing. */
  datatype Label =
    | BeginTake(j: JobId, p: Project, reason: string)
    | Stage(j: JobId, workdir: S.Workdir)
    | WriteTree(j: JobId)
    | CommitTree(j: JobId, now: int)
    | Swap(j: JobId)
    | BeginPrune(j: JobId, p: Project, keepLast: nat)
    | CountHistory(j: JobId)
    | ReadHistory(j: JobId)
    | LinkNext(j: JobId)
    | PruneSwap(j: JobId)
    | GcMark(j: JobId)
    | GcSweep(j: JobId)

  // ---------------------------------------------------------------------
  // Steps
  // ---------------------------------------------------------------------

  function Blobs(t: Tree): set<Object> {
    set q | q in t :: BlobObject(t[q])
  }

  function CommitObjects(c: Commit): set<Object> {
    set d | d in Chain(c) :: CommitObject(d)
  }

  function TreeObjects(c: Commit): set<Object> {
    set d | d in Chain(c) :: TreeObject(d.tree)
  }

  function BlobObjects(c: Commit): set<Object> {
    set d, q | d in Chain(c) && q in d.tree :: BlobObject(d.tree[q])
  }

  /** Everything reachable from a commit. */
  function Closure(c: Commit): set<Object> {
    CommitObjects(c) + TreeObjects(c) + BlobObjects(c)
  }

  function Reachable(refs: map<Project, Commit>): set<Object> {
    set p, o | p in refs.Keys && o in Closure(refs[p]) :: o
  }

  /** `rev-parse <ref>^{commit}`: a ref whose commit is not in the store reads as no ref. */
  function ReadRef(w: World, p: Project): Option<Commit> {
    if p in w.refs && CommitObject(w.refs[p]) in w.objects then Some(w.refs[p]) else None
  }

  function Finish(w: World, j: JobId, outcome: Outcome): World {
    w.(jobs := w.jobs[j := Done(outcome)])
  }

  function StageStep(cfg: S.Config, w: World, j: JobId, job: Job, workdir: S.Workdir): World
    requires job.HasRead?
  {
    if job.expected.Some? && CommitObject(job.expected.value) !in w.objects then Finish(w, j, GitFailed)
    else
      // `add -A` writes a blob for every staged file, also for the oversize ones dropped next.
      var added := S.AddAll(cfg, S.Seed(job.expected), workdir);
      var index := S.DropOversize(cfg, added, workdir);
      var w' := w.(objects := w.objects + Blobs(added));
      if job.expected.Some? && index == job.expected.value.tree then Finish(w', j, Unchanged)
      else w'.(jobs := w.jobs[j := HasStaged(job.p, job.expected, job.reason, index)])
  }

  function WriteTreeStep(w: World, j: JobId, job: Job): World
    requires job.HasStaged?
  {
    if !(Blobs(job.index) <= w.objects) then Finish(w, j, GitFailed)
    else World(w.objects + {TreeObject(job.index)}, w.refs,
               w.jobs[j := HasTree(job.p, job.expected, job.reason, job.index)])
  }

  function CommitTreeStep(w: World, j: JobId, job: Job, now: int): World
    requires job.HasTree?
  {
    if TreeObject(job.index) !in w.objects
       || (job.expected.Some? && CommitObject(job.expected.value) !in w.objects)
    then Finish(w, j, GitFailed)
    else
      var c := Commit(job.index, job.expected, now, OrDefault(job.reason));
      World(w.objects + {CommitObject(c)}, w.refs, w.jobs[j := HasCommit(job.p, job.expected, c)])
  }

  /** `git update-ref <ref> <new> <old>` and what the caller makes of its exit code. */
  function UpdateRef(w: World, j: JobId, p: Project, target: Commit, expected: Option<Commit>, next: Job): World {
    if Lookup(w.refs, p) != expected then Finish(w, j, Conflict)
    else if CommitObject(target) !in w.objects then Finish(w, j, GitFailed)
    else World(w.objects, w.refs[p := target], w.jobs[j := next])
  }

  /** `rev-list --count` and `log` look the ref up again, by name; they do not use the tip read first. */
  function CountStep(w: World, j: JobId, job: Job): World
    requires job.PruneRead?
  {
    if ReadRef(w, job.p).None? then Finish(w, j, GitFailed)
    else if |Chain(w.refs[job.p])| <= job.keepLast then Finish(w, j, PruneDone)
    else w.(jobs := w.jobs[j := PruneCounted(job.p, job.tip, job.keepLast)])
  }

  function ReadStep(w: World, j: JobId, job: Job): World
    requires job.PruneCounted?
  {
    if ReadRef(w, job.p).None? then Finish(w, j, GitFailed)
    else w.(jobs := w.jobs[j := PruneLinking(job.p, job.tip, Newest(w.refs[job.p], job.keepLast), None)])
  }

  /** `commit-tree` the oldest entry left on top of the last commit made. */
  function LinkStep(w: World, j: JobId, job: Job): World
    requires job.PruneLinking? && job.kept != []
  {
    var n := |job.kept| - 1;
    var entry := job.kept[n];
    if TreeObject(entry.tree) !in w.objects || (job.last.Some? && CommitObject(job.last.value) !in w.objects)
    then Finish(w, j, GitFailed)
    else
      var c := Commit(entry.tree, job.last, entry.date, OrDefault(entry.subject));
      World(w.objects + {CommitObject(c)}, w.refs, w.jobs[j := PruneLinking(job.p, job.tip, job.kept[..n], Some(c))])
  }

  /** `gc` walks the refs and fails on a missing object. */
  function MarkStep(w: World, j: JobId): World {
    if Reachable(w.refs) <= w.objects then w.(jobs := w.jobs[j := PruneMarked(Reachable(w.refs))])
    else Finish(w, j, GitFailed)
  }

  /** `--prune=now` spares no object that was not marked, however recent. */
  function SweepStep(w: World, j: JobId, marked: set<Object>): World {
    World(w.objects * marked, w.refs, w.jobs[j := Done(PruneDone)])
  }

  function Step(cfg: S.Config, w: World, l: Label): World {
    match l
    case BeginTake(j, p, reason) =>
      if j in w.jobs then w else w.(jobs := w.jobs[j := HasRead(p, ReadRef(w, p), reason)])
    case BeginPrune(j, p, keepLast) =>
      if j in w.jobs || keepLast == 0 then w
      else if ReadRef(w, p).None? then Finish(w, j, PruneDone)
      else w.(jobs := w.jobs[j := PruneRead(p, w.refs[p], keepLast)])
    case _ =>
      if l.j !in w.jobs then w else StepJob(cfg, w, l, w.jobs[l.j])
  }

  function StepJob(cfg: S.Config, w: World, l: Label, job: Job): World
    requires !l.BeginTake? && !l.BeginPrune?
  {
    match (l, job)
    case (Stage(j, workdir), HasRead(_, _, _)) => StageStep(cfg, w, j, job, workdir)
    case (WriteTree(j), HasStaged(_, _, _, _)) => WriteTreeStep(w, j, job)
    case (CommitTree(j, now), HasTree(_, _, _, _)) => CommitTreeStep(w, j, job, now)
    case (Swap(j), HasCommit(p, expected, c)) => UpdateRef(w, j, p, c, expected, Done(Taken(c)))
    case (CountHistory(j), PruneRead(_, _, _)) => CountStep(w, j, job)
    case (ReadHistory(j), PruneCounted(_, _, _)) => ReadStep(w, j, job)
    case (LinkNext(j), PruneLinking(_, _, kept, _)) => if kept == [] then w else LinkStep(w, j, job)
    case (PruneSwap(j), PruneLinking(p, tip, kept, last)) =>
      if kept != [] then w
      else if last.None? then Finish(w, j, PruneDone)
      else UpdateRef(w, j, p, last.value, Some(tip), PruneSwapped)
    case (GcMark(j), PruneSwapped) => MarkStep(w, j)
    case (GcSweep(j), PruneMarked(marked)) => SweepStep(w, j, marked)
    case _ => w
  }

  const INIT := World({}, map[], map[])

  /** The world after a run from `w`. Every interleaving is some label sequence. */
  function RunFrom(cfg: S.Config, w: World, ls: seq<Label>): World {
    if ls == [] then w else Step(cfg, RunFrom(cfg, w, ls[..|ls| - 1]), ls[|ls| - 1])
  }

  // ---------------------------------------------------------------------
  // Invariant of every reachable world
  // ---------------------------------------------------------------------

  ghost predicate Closed(objects: set<Object>) {
    && (forall t :: TreeObject(t) in objects ==> Blobs(t) <= objects)
    && (forall c :: CommitObject(c) in objects ==>
                      TreeObject(c.tree) in objects
                      && (c.parent.Some? ==> CommitObject(c.parent.value) in objects))
  }

  ghost predicate JobOk(job: Job) {
    match job
    case HasStaged(_, expected, _, index) => expected.Some? ==> index != expected.value.tree
    case HasTree(_, expected, _, index) => expected.Some? ==> index != expected.value.tree
    case HasCommit(_, expected, c) => c.parent == expected && (expected.Some? ==> c.tree != expected.value.tree)
    case PruneMarked(marked) => Closed(marked)
    case _ => true
  }

  /** Holds after every run. */
  ghost predicate Sound(w: World) {
    Closed(w.objects) && forall j :: j in w.jobs ==> JobOk(w.jobs[j])
  }

  /** The ref of `p`, if any, names a commit that is in the store; in a sound world, then, its whole history is. */
  ghost predicate Whole(w: World, p: Project) {
    p in w.refs ==> CommitObject(w.refs[p]) in w.objects
  }

  ghost predicate Fit(w: World, p: Project) {
    Sound(w) && Whole(w, p)
  }

  /** Sound, and no ref has been swept away. */
  ghost predicate Inv(w: World) {
    Sound(w) && forall p :: p in w.refs ==> Whole(w, p)
  }

  lemma {:induction false} ClosurePresent(objects: set<Object>, c: Commit)
    requires Closed(objects) && CommitObject(c) in objects
    ensures Closure(c) <= objects
    decreases c
  {
    forall d | d in Chain(c) ensures CommitObject(d) in objects && TreeObject(d.tree) in objects {
      if d != c {
        ClosurePresent(objects, c.parent.value);
      }
    }
  }

  lemma {:induction false} ReachableClosed(refs: map<Project, Commit>)
    ensures Closed(Reachable(refs))
  {
    forall t | TreeObject(t) in Reachable(refs) ensures Blobs(t) <= Reachable(refs) {
      var p :| p in refs && TreeObject(t) in Closure(refs[p]);
      assert Blobs(t) <= Closure(refs[p]);
    }
    forall c | CommitObject(c) in Reachable(refs)
      ensures TreeObject(c.tree) in Reachable(refs)
      ensures c.parent.Some? ==> CommitObject(c.parent.value) in Reachable(refs)
    {
      var p :| p in refs && CommitObject(c) in Closure(refs[p]);
      S.ChainHasParents(refs[p]);
      assert TreeObject(c.tree) in Closure(refs[p]);
      assert c.parent.Some? ==> CommitObject(c.parent.value) in Closure(refs[p]);
    }
  }

  lemma MoveJobKeepsSound(w: World, j: JobId, job: Job)
    requires Sound(w) && JobOk(job)
    ensures Sound(w.(jobs := w.jobs[j := job]))
  {
  }

  lemma UpdateRefKeepsSound(w: World, j: JobId, p: Project, target: Commit, expected: Option<Commit>, next: Job)
    requires Sound(w) && JobOk(next)
    ensures Sound(UpdateRef(w, j, p, target, expected, next))
  {
  }

  lemma MarkKeepsSound(w: World, j: JobId)
    requires Sound(w)
    ensures Sound(MarkStep(w, j))
  {
    ReachableClosed(w.refs);
  }

  /** A sweep leaves a closed store even when it takes a ref's commit away. */
  lemma SweepKeepsSound(w: World, j: JobId, marked: set<Object>)
    requires Sound(w) && Closed(marked)
    ensures Sound(SweepStep(w, j, marked))
  {
  }

  lemma StageKeepsSound(cfg: S.Config, w: World, j: JobId, job: Job, workdir: S.Workdir)
    requires Sound(w) && job.HasRead?
    ensures Sound(StageStep(cfg, w, j, job, workdir))
  {
    var added := S.AddAll(cfg, S.Seed(job.expected), workdir);
    assert Closed(w.objects + Blobs(added));
  }

  lemma WriteTreeKeepsSound(w: World, j: JobId, job: Job)
    requires Sound(w) && JobOk(job) && job.HasStaged?
    ensures Sound(WriteTreeStep(w, j, job))
  {
  }

  lemma CommitTreeKeepsSound(w: World, j: JobId, job: Job, now: int)
    requires Sound(w) && JobOk(job) && job.HasTree?
    ensures Sound(CommitTreeStep(w, j, job, now))
  {
  }

  lemma LinkKeepsSound(w: World, j: JobId, job: Job)
    requires Sound(w) && job.PruneLinking? && job.kept != []
    ensures Sound(LinkStep(w, j, job))
  {
  }

  lemma StepJobKeepsSound(cfg: S.Config, w: World, l: Label, job: Job)
    requires Sound(w) && JobOk(job) && !l.BeginTake? && !l.BeginPrune?
    ensures Sound(StepJob(cfg, w, l, job))
  {
    match l {
      case Stage(j, workdir) => if job.HasRead? { StageKeepsSound(cfg, w, j, job, workdir); }
      case WriteTree(j) => if job.HasStaged? { WriteTreeKeepsSound(w, j, job); }
      case CommitTree(j, now) => if job.HasTree? { CommitTreeKeepsSound(w, j, job, now); }
      case Swap(j) =>
        if job.HasCommit? {
          UpdateRefKeepsSound(w, j, job.p, job.commit, job.expected, Done(Taken(job.commit)));
        }
      case CountHistory(j) => if job.PruneRead? { assert Sound(CountStep(w, j, job)); }
      case ReadHistory(j) => if job.PruneCounted? { assert Sound(ReadStep(w, j, job)); }
      case LinkNext(j) => if job.PruneLinking? && job.kept != [] { LinkKeepsSound(w, j, job); }
      case PruneSwap(j) =>
        if job.PruneLinking? && job.last.Some? {
          UpdateRefKeepsSound(w, j, job.p, job.last.value, Some(job.tip), PruneSwapped);
        }
      case GcMark(j) => if job.PruneSwapped? { MarkKeepsSound(w, j); }
      case GcSweep(j) => if job.PruneMarked? { SweepKeepsSound(w, j, job.marked); }
    }
  }

  lemma StepKeepsSound(cfg: S.Config, w: World, l: Label)
    requires Sound(w)
    ensures Sound(Step(cfg, w, l))
  {
    match l {
      case BeginTake(j, p, reason) => MoveJobKeepsSound(w, j, HasRead(p, ReadRef(w, p), reason));
      case BeginPrune(j, p, keepLast) =>
      case _ => if l.j in w.jobs { StepJobKeepsSound(cfg, w, l, w.jobs[l.j]); }
    }
  }

  lemma {:induction false} RunKeepsSound(cfg: S.Config, w: World, ls: seq<Label>)
    requires Sound(w)
    ensures Sound(RunFrom(cfg, w, ls))
  {
    if ls != [] {
      RunKeepsSound(cfg, w, ls[..|ls| - 1]);
      StepKeepsSound(cfg, RunFrom(cfg, w, ls[..|ls| - 1]), ls[|ls| - 1]);
    }
  }

  // ---------------------------------------------------------------------
  // Compare-and-swap
  // ---------------------------------------------------------------------

  /** Job `l.j` is about to attempt its `update-ref` on `p`, expecting `expected`. */
  predicate Attempts(w: World, l: Label, p: Project, expected: Option<Commit>) {
    l.Swap? && l.j in w.jobs && w.jobs[l.j].HasCommit? && w.jobs[l.j].p == p && w.jobs[l.j].expected == expected
  }

  /** The label is a take's `update-ref` on `p` that goes through. */
  predicate Advances(w: World, l: Label, p: Project) {
    && l.Swap? && l.j in w.jobs
    && var job := w.jobs[l.j];
       job.HasCommit? && job.p == p && Lookup(w.refs, p) == job.expected && CommitObject(job.commit) in w.objects
  }

  /** The label is a prune's `update-ref` on `p` that goes through. */
  predicate Rewrites(w: World, l: Label, p: Project) {
    && l.PruneSwap? && l.j in w.jobs
    && var job := w.jobs[l.j];
       && job.PruneLinking? && job.p == p && job.kept == [] && job.last.Some?
       && Lookup(w.refs, p) == Some(job.tip) && CommitObject(job.last.value) in w.objects
  }

  /** A snapshot's parent is exactly the ref value it replaced. */
  lemma AdvanceReplacesParent(cfg: S.Config, w: World, l: Label, p: Project)
    requires Sound(w) && Advances(w, l, p)
    ensures var w' := Step(cfg, w, l);
            && p in w'.refs && w'.jobs[l.j] == Done(Taken(w'.refs[p]))
            && w'.refs[p].parent == Lookup(w.refs, p)
            && (p in w.refs ==> w'.refs[p].tree != w.refs[p].tree)
            && w'.refs == w.refs[p := w'.refs[p]] && w'.objects == w.objects
  {
  }

  /** A failed attempt changes nothing but the job's own outcome, and a moved ref is reported as a conflict. */
  lemma FailedAttemptChangesNothing(cfg: S.Config, w: World, l: Label, p: Project, expected: Option<Commit>)
    requires Attempts(w, l, p, expected) && !Advances(w, l, p)
    ensures Step(cfg, w, l) == Finish(w, l.j, if Lookup(w.refs, p) != expected then Conflict else GitFailed)
  {
  }

  /** Only successful `update-ref` commands on `p` move `p`'s ref. */
  lemma OnlySwapsMoveRefs(cfg: S.Config, w: World, l: Label, p: Project)
    requires !Advances(w, l, p) && !Rewrites(w, l, p)
    ensures Lookup(Step(cfg, w, l).refs, p) == Lookup(w.refs, p)
  {
  }

  ghost predicate Extends(a: Option<Commit>, b: Option<Commit>) {
    a.Some? ==> b.Some? && IsAncestor(a.value, b.value)
  }

  ghost predicate NoRewrite(cfg: S.Config, w: World, ls: seq<Label>, p: Project) {
    forall i :: 0 <= i < |ls| ==> !Rewrites(RunFrom(cfg, w, ls[..i]), ls[i], p)
  }

  lemma NoRewritePrefix(cfg: S.Config, w: World, ls: seq<Label>, p: Project)
    requires ls != [] && NoRewrite(cfg, w, ls, p)
    ensures var n := |ls| - 1;
            NoRewrite(cfg, w, ls[..n], p) && !Rewrites(RunFrom(cfg, w, ls[..n]), ls[n], p)
  {
    var n := |ls| - 1;
    forall i | 0 <= i < n ensures !Rewrites(RunFrom(cfg, w, ls[..n][..i]), ls[..n][i], p) {
      assert ls[..n][..i] == ls[..i];
    }
  }

  /** Between prunes of `p` the old history is always an ancestor chain of the new one. */
  lemma {:induction false} HistoryOnlyGrows(cfg: S.Config, w: World, ls: seq<Label>, p: Project)
    requires Sound(w) && NoRewrite(cfg, w, ls, p)
    ensures Extends(Lookup(w.refs, p), Lookup(RunFrom(cfg, w, ls).refs, p))
  {
    if ls != [] {
      var n := |ls| - 1;
      var mid, l := RunFrom(cfg, w, ls[..n]), ls[n];
      NoRewritePrefix(cfg, w, ls, p);
      HistoryOnlyGrows(cfg, w, ls[..n], p);
      RunKeepsSound(cfg, w, ls[..n]);
      if Advances(mid, l, p) {
        AdvanceReplacesParent(cfg, mid, l, p);
      } else {
        OnlySwapsMoveRefs(cfg, mid, l, p);
      }
    }
  }

  /** The commit a prune's `update-ref` installs. */
  function Installed(w: World, l: Label): Commit
    requires l.j in w.jobs && w.jobs[l.j].PruneLinking? && w.jobs[l.j].last.Some?
  {
    w.jobs[l.j].last.value
  }

  /** No prune of `p` takes its history back to `e` or to an ancestor of `e`. */
  ghost predicate NoReturn(cfg: S.Config, w: World, ls: seq<Label>, p: Project, e: Commit) {
    forall i :: 0 <= i < |ls| ==>
                  var v := RunFrom(cfg, w, ls[..i]);
                  Rewrites(v, ls[i], p) ==> !IsAncestor(Installed(v, ls[i]), e)
  }

  /** A history that has grown past `e` does not come back to it by growing further. */
  lemma {:induction false} StaysPast(cfg: S.Config, w: World, ls: seq<Label>, p: Project, e: Commit)
    requires Sound(w) && p in w.refs && !IsAncestor(w.refs[p], e) && NoReturn(cfg, w, ls, p, e)
    ensures var w' := RunFrom(cfg, w, ls); p in w'.refs && !IsAncestor(w'.refs[p], e)
  {
    if ls != [] {
      var n := |ls| - 1;
      var mid, l := RunFrom(cfg, w, ls[..n]), ls[n];
      forall i | 0 <= i < n
        ensures var v := RunFrom(cfg, w, ls[..n][..i]);
                Rewrites(v, ls[..n][i], p) ==> !IsAncestor(Installed(v, ls[..n][i]), e)
      {
        assert ls[..n][..i] == ls[..i];
      }
      StaysPast(cfg, w, ls[..n], p, e);
      RunKeepsSound(cfg, w, ls[..n]);
      StepStaysPast(cfg, mid, l, p, e);
    }
  }

  lemma {:induction false} StepStaysPast(cfg: S.Config, w: World, l: Label, p: Project, e: Commit)
    requires Sound(w) && p in w.refs && !IsAncestor(w.refs[p], e)
    requires Rewrites(w, l, p) ==> !IsAncestor(Installed(w, l), e)
    ensures var w' := Step(cfg, w, l); p in w'.refs && !IsAncestor(w'.refs[p], e)
  {
    if Advances(w, l, p) {
      AdvanceReplacesParent(cfg, w, l, p);
      hide Step;
      var next := Step(cfg, w, l).refs[p];
      if IsAncestor(next, e) {
        AncestorTransitive(w.refs[p], next, e);
      }
    } else if !Rewrites(w, l, p) {
      OnlySwapsMoveRefs(cfg, w, l, p);
    }
  }

  lemma {:induction false} ChildIsPast(e: Commit, child: Commit)
    requires child.parent == Some(e)
    ensures !IsAncestor(child, e)
  {
    if IsAncestor(child, e) {
      AncestorChain(child, e);
    }
  }

  lemma {:induction false} RefsPersist(cfg: S.Config, w: World, ls: seq<Label>, p: Project)
    requires p in w.refs
    ensures p in RunFrom(cfg, w, ls).refs
  {
    if ls != [] {
      RefsPersist(cfg, w, ls[..|ls| - 1], p);
    }
  }

  /**
    Once one writer has advanced `p` from `expected`, every other writer that had read the
    same value gets a conflict and changes nothing: always if what they read was no ref,
    and otherwise until a prune takes the history back to the value read or further.
   */
  lemma {:induction false} SameReadConflicts(cfg: S.Config, w: World, first: Label, ls: seq<Label>, second: Label,
                                             p: Project, expected: Option<Commit>)
    requires Sound(w) && Attempts(w, first, p, expected) && Advances(w, first, p)
    requires expected.Some? ==> NoReturn(cfg, Step(cfg, w, first), ls, p, expected.value)
    requires Attempts(RunFrom(cfg, Step(cfg, w, first), ls), second, p, expected)
    ensures var w2 := RunFrom(cfg, Step(cfg, w, first), ls);
            Step(cfg, w2, second) == Finish(w2, second.j, Conflict)
  {
    var w1 := Step(cfg, w, first);
    var w2 := RunFrom(cfg, w1, ls);
    StepKeepsSound(cfg, w, first);
    AdvanceReplacesParent(cfg, w, first, p);
    hide Step;
    RefsPersist(cfg, w1, ls, p);
    if expected.Some? {
      ChildIsPast(expected.value, w1.refs[p]);
      StaysPast(cfg, w1, ls, p, expected.value);
    }
    FailedAttemptChangesNothing(cfg, w2, second, p, expected);
  }

  /** The job is a take of `p` that read `expected`, or has ended. */
  ghost predicate Expecting(job: Job, p: Project, expected: Option<Commit>) {
    || job.Done?
    || ((job.HasRead? || job.HasStaged? || job.HasTree? || job.HasCommit?) && job.p == p && job.expected == expected)
  }

  lemma StepKeepsExpecting(cfg: S.Config, w: World, l: Label, j: JobId, p: Project, expected: Option<Commit>)
    requires j in w.jobs && Expecting(w.jobs[j], p, expected)
    ensures j in Step(cfg, w, l).jobs && Expecting(Step(cfg, w, l).jobs[j], p, expected)
  {
  }

  /** A take that read no ref never goes through once there is one, whatever happens to it. */
  lemma {:induction false} ReadNothingConflicts(cfg: S.Config, w: World, ls: seq<Label>, j: JobId, p: Project)
    requires p in w.refs && j in w.jobs && Expecting(w.jobs[j], p, None)
    ensures var w' := RunFrom(cfg, w, ls);
            && j in w'.jobs && Expecting(w'.jobs[j], p, None) && !Advances(w', Swap(j), p)
            && (w'.jobs[j].HasCommit? ==> Step(cfg, w', Swap(j)) == Finish(w', j, Conflict))
  {
    RefsPersist(cfg, w, ls, p);
    if ls != [] {
      var n := |ls| - 1;
      ReadNothingConflicts(cfg, w, ls[..n], j, p);
      StepKeepsExpecting(cfg, RunFrom(cfg, w, ls[..n]), ls[n], j, p, None);
    }
  }

  // ---------------------------------------------------------------------
  // What a prune installs
  // ---------------------------------------------------------------------

  /** The prune has linked the tail of what it read, in order, and holds the rest; or it is past linking. */
  ghost predicate LinksUp(job: Job, read: seq<Commit>) {
    match job
    case PruneLinking(_, _, kept, last) =>
      |kept| <= |read| && kept == read[..|kept|] && last == Relink(read[|kept|..])
    case _ => job.PruneSwapped? || job.PruneMarked? || job.Done?
  }

  lemma {:induction false} LinkLinksUp(w: World, j: JobId, job: Job, read: seq<Commit>)
    requires job.PruneLinking? && job.kept != [] && LinksUp(job, read)
    ensures j in LinkStep(w, j, job).jobs && LinksUp(LinkStep(w, j, job).jobs[j], read)
  {
    var n := |job.kept| - 1;
    assert read[n..][1..] == read[n + 1..];
    assert job.kept[..n] == read[..n];
  }

  lemma {:induction false} StepLinksUp(cfg: S.Config, w: World, l: Label, j: JobId, read: seq<Commit>)
    requires j in w.jobs && LinksUp(w.jobs[j], read)
    ensures j in Step(cfg, w, l).jobs && LinksUp(Step(cfg, w, l).jobs[j], read)
  {
    var job := w.jobs[j];
    if l.j == j && l.LinkNext? && job.PruneLinking? && job.kept != [] {
      LinkLinksUp(w, j, job, read);
    } else {
      hide Relink;
    }
  }

  lemma {:induction false} RunLinksUp(cfg: S.Config, w: World, ls: seq<Label>, j: JobId, read: seq<Commit>)
    requires j in w.jobs && LinksUp(w.jobs[j], read)
    ensures var w' := RunFrom(cfg, w, ls); j in w'.jobs && LinksUp(w'.jobs[j], read)
  {
    if ls != [] {
      var n := |ls| - 1;
      RunLinksUp(cfg, w, ls[..n], j, read);
      StepLinksUp(cfg, RunFrom(cfg, w, ls[..n]), ls[n], j, read);
    }
  }

  /**
    Whatever happens meanwhile, other prunes of the project included: a prune that goes
    through installs the relinked newest entries of the history that the ref had when
    the prune read it.
   */
  lemma {:induction false} PruneInstallsWhatItRead(cfg: S.Config, w: World, ls: seq<Label>, j: JobId, p: Project)
    requires j in w.jobs && w.jobs[j].PruneCounted? && w.jobs[j].p == p && p in w.refs
    requires Rewrites(RunFrom(cfg, Step(cfg, w, ReadHistory(j)), ls), PruneSwap(j), p)
    ensures var w' := RunFrom(cfg, Step(cfg, w, ReadHistory(j)), ls);
            var installed := Relink(Newest(w.refs[p], w.jobs[j].keepLast));
            installed.Some? && Step(cfg, w', PruneSwap(j)).refs == w'.refs[p := installed.value]
  {
    var read := Newest(w.refs[p], w.jobs[j].keepLast);
    var w1 := Step(cfg, w, ReadHistory(j));
    assert read[|read|..] == [] && read[..|read|] == read && read[0..] == read;
    RunLinksUp(cfg, w1, ls, j, read);
  }

  /** The job is still the prune of `p` that read `tip`, or has ended. */
  ghost predicate Pruning(job: Job, p: Project, tip: Commit) {
    || job.Done?
    || ((job.PruneRead? || job.PruneCounted? || job.PruneLinking?) && job.p == p && job.tip == tip)
  }

  /** Everything the prune has read and rebuilt so far belongs to `tip`'s own history. */
  ghost predicate Tracks(job: Job, tip: Commit, keepLast: nat) {
    match job
    case PruneRead(_, _, n) => n == keepLast
    case PruneCounted(_, _, n) => n == keepLast && n < |Chain(tip)|
    case PruneLinking(_, _, _, _) => keepLast < |Chain(tip)| && LinksUp(job, Newest(tip, keepLast))
    case _ => job.Done?
  }

  lemma {:induction false} StepTracks(cfg: S.Config, w: World, l: Label, j: JobId, p: Project, tip: Commit,
                                      keepLast: nat)
    requires j in w.jobs && Pruning(w.jobs[j], p, tip) && !Rewrites(w, l, p)
    requires Lookup(w.refs, p) == Some(tip) ==> Tracks(w.jobs[j], tip, keepLast)
    ensures var w' := Step(cfg, w, l);
            && j in w'.jobs && Pruning(w'.jobs[j], p, tip)
            && (Lookup(w.refs, p) == Some(tip) ==> Tracks(w'.jobs[j], tip, keepLast))
  {
    var job, read := w.jobs[j], Newest(tip, keepLast);
    assert read[|read|..] == [] && read[..|read|] == read;
    if job.PruneLinking? && Lookup(w.refs, p) == Some(tip) {
      StepLinksUp(cfg, w, l, j, read);
    }
  }

  lemma {:induction false} PruneTracks(cfg: S.Config, w: World, ls: seq<Label>, j: JobId, p: Project, keepLast: nat)
    requires Sound(w) && p in w.refs && j in w.jobs && w.jobs[j] == PruneRead(p, w.refs[p], keepLast)
    requires NoRewrite(cfg, w, ls, p)
    ensures var w' := RunFrom(cfg, w, ls);
            && j in w'.jobs && Pruning(w'.jobs[j], p, w.refs[p])
            && (Lookup(w'.refs, p) == Lookup(w.refs, p) ==> Tracks(w'.jobs[j], w.refs[p], keepLast))
  {
    if ls != [] {
      var n := |ls| - 1;
      var mid, l, tip := RunFrom(cfg, w, ls[..n]), ls[n], w.refs[p];
      NoRewritePrefix(cfg, w, ls, p);
      PruneTracks(cfg, w, ls[..n], j, p, keepLast);
      StepTracks(cfg, mid, l, j, p, tip, keepLast);
      HistoryOnlyGrows(cfg, w, ls[..n], p);
      RunKeepsSound(cfg, w, ls[..n]);
      RefMovesOn(cfg, mid, l, p, tip);
    }
  }

  /** A ref that is at `tip` after a step other than a prune's swap was at `tip` before it. */
  lemma {:induction false} RefMovesOn(cfg: S.Config, w: World, l: Label, p: Project, tip: Commit)
    requires Sound(w) && Extends(Some(tip), Lookup(w.refs, p)) && !Rewrites(w, l, p)
    ensures Lookup(Step(cfg, w, l).refs, p) == Some(tip) ==> Lookup(w.refs, p) == Some(tip)
  {
    if Advances(w, l, p) {
      AdvanceReplacesParent(cfg, w, l, p);
      AncestorChain(tip, w.refs[p]);
    } else {
      OnlySwapsMoveRefs(cfg, w, l, p);
    }
  }

  /**
    A prune reads the ref, the count and the history by separate commands and links
    one commit at a time, while others go on. If it goes through and no other prune
    of the project did meanwhile, it installs exactly the pruned form of the value
    it replaces.
   */
  lemma {:induction false} PruneInstallsPruned(cfg: S.Config, w: World, ls: seq<Label>, j: JobId, p: Project,
                                               keepLast: nat)
    requires Sound(w) && p in w.refs && j in w.jobs && w.jobs[j] == PruneRead(p, w.refs[p], keepLast) && keepLast >= 1
    requires NoRewrite(cfg, w, ls, p) && Rewrites(RunFrom(cfg, w, ls), PruneSwap(j), p)
    ensures var w' := RunFrom(cfg, w, ls);
            && Lookup(w'.refs, p) == Lookup(w.refs, p) && |Chain(w.refs[p])| > keepLast
            && Step(cfg, w', PruneSwap(j)).refs == w'.refs[p := Pruned(w.refs[p], keepLast)]
  {
    PruneTracks(cfg, w, ls, j, p, keepLast);
    hide RunFrom;
    hide Sound;
    var read := Newest(w.refs[p], keepLast);
    assert read[0..] == read;
  }
}
