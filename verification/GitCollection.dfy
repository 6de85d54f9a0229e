/**
  Garbage collection in the shared checkpoint store: when a sweep takes a project's
  history away, when it spares it, and what the projects owe each other.
 */
module GitCollection {
  import opened Wrappers
  import opened GitObjects
  import opened GitProtocol
  import S = GitStore

  // ---------------------------------------------------------------------
  // Isolation of projects
  // ---------------------------------------------------------------------

  ghost predicate Untouched(cfg: S.Config, w: World, ls: seq<Label>, q: Project) {
    forall i :: 0 <= i < |ls| ==> var v := RunFrom(cfg, w, ls[..i]); !Rewrites(v, ls[i], q) && !Advances(v, ls[i], q)
  }

  lemma {:induction false} RefStays(cfg: S.Config, w: World, ls: seq<Label>, q: Project)
    requires Untouched(cfg, w, ls, q)
    ensures Lookup(RunFrom(cfg, w, ls).refs, q) == Lookup(w.refs, q)
  {
    if ls != [] {
      var n := |ls| - 1;
      forall i | 0 <= i < n
        ensures var v := RunFrom(cfg, w, ls[..n][..i]);
                !Rewrites(v, ls[..n][i], q) && !Advances(v, ls[..n][i], q)
      {
        assert ls[..n][..i] == ls[..i];
      }
      RefStays(cfg, w, ls[..n], q);
      OnlySwapsMoveRefs(cfg, RunFrom(cfg, w, ls[..n]), ls[n], q);
    }
  }

  // ---------------------------------------------------------------------
  // Garbage collection
  // ---------------------------------------------------------------------

  /** The label is a sweep that takes away the commit `p`'s ref names, since its mark did not see it. */
  predicate Loses(w: World, l: Label, p: Project) {
    && l.GcSweep? && l.j in w.jobs && w.jobs[l.j].PruneMarked?
    && p in w.refs && CommitObject(w.refs[p]) !in w.jobs[l.j].marked
  }

  /** A step breaks a ref exactly when it is such a sweep. */
  lemma WholeUnlessLost(cfg: S.Config, w: World, l: Label, p: Project)
    requires Whole(w, p)
    ensures Whole(Step(cfg, w, l), p) <==> !Loses(w, l, p)
  {
  }

  lemma TipsReachable(refs: map<Project, Commit>)
    ensures forall p :: p in refs ==> CommitObject(refs[p]) in Reachable(refs)
  {
    forall p | p in refs ensures CommitObject(refs[p]) in Reachable(refs) {
      assert CommitObject(refs[p]) in Closure(refs[p]);
    }
  }

  /** A closed set has every tip exactly when it has everything the tips reach. */
  lemma {:induction false} TipsCarryAll(objects: set<Object>, refs: map<Project, Commit>)
    requires Closed(objects)
    ensures (forall p :: p in refs ==> CommitObject(refs[p]) in objects) <==> Reachable(refs) <= objects
  {
    TipsReachable(refs);
    if forall p :: p in refs ==> CommitObject(refs[p]) in objects {
      forall o | o in Reachable(refs) ensures o in objects {
        var p :| p in refs && o in Closure(refs[p]);
        ClosurePresent(objects, refs[p]);
      }
    }
  }

  /** A sweep leaves every ref whole if and only if everything the refs now reach had been marked. */
  lemma {:induction false} SweepKeepsInv(cfg: S.Config, w: World, j: JobId)
    requires Inv(w) && j in w.jobs && w.jobs[j].PruneMarked?
    ensures Inv(Step(cfg, w, GcSweep(j))) <==> Reachable(w.refs) <= w.jobs[j].marked
  {
    var w' := Step(cfg, w, GcSweep(j));
    StepKeepsSound(cfg, w, GcSweep(j));
    assert JobOk(w.jobs[j]);
    TipsCarryAll(w.jobs[j].marked, w.refs);
    forall p | p in w.refs ensures Whole(w', p) <==> CommitObject(w.refs[p]) in w.jobs[j].marked {
      WholeUnlessLost(cfg, w, GcSweep(j), p);
    }
  }

  /** No other step breaks any ref. */
  lemma {:induction false} StepKeepsInv(cfg: S.Config, w: World, l: Label)
    requires Inv(w) && !l.GcSweep?
    ensures Inv(Step(cfg, w, l))
  {
    StepKeepsSound(cfg, w, l);
    forall p | p in Step(cfg, w, l).refs ensures Whole(Step(cfg, w, l), p) {
      WholeUnlessLost(cfg, w, l, p);
    }
  }

  lemma {:induction false} RunKeepsInv(cfg: S.Config, w: World, ls: seq<Label>)
    requires Inv(w) && forall i :: 0 <= i < |ls| ==> !ls[i].GcSweep?
    ensures Inv(RunFrom(cfg, w, ls))
  {
    if ls != [] {
      RunKeepsInv(cfg, w, ls[..|ls| - 1]);
      StepKeepsInv(cfg, RunFrom(cfg, w, ls[..|ls| - 1]), ls[|ls| - 1]);
    }
  }

  lemma {:induction false} RunKeepsFit(cfg: S.Config, w: World, ls: seq<Label>, p: Project)
    requires Fit(w, p) && forall i :: 0 <= i < |ls| ==> !ls[i].GcSweep?
    ensures Fit(RunFrom(cfg, w, ls), p)
  {
    RunKeepsSound(cfg, w, ls);
    WholeWithoutSweeps(cfg, w, ls, p);
  }

  ghost predicate WholeSoFar(cfg: S.Config, w: World, ls: seq<Label>, p: Project) {
    forall i :: 0 <= i <= |ls| ==> Whole(RunFrom(cfg, w, ls[..i]), p)
  }

  ghost predicate NeverLost(cfg: S.Config, w: World, ls: seq<Label>, p: Project) {
    forall i :: 0 <= i < |ls| ==> !Loses(RunFrom(cfg, w, ls[..i]), ls[i], p)
  }

  /** Over every run, a ref is whole at every moment if and only if no sweep of the run takes its commit away. */
  lemma {:induction false} WholeIffNeverLost(cfg: S.Config, w: World, ls: seq<Label>, p: Project)
    requires Whole(w, p)
    ensures WholeSoFar(cfg, w, ls, p) <==> NeverLost(cfg, w, ls, p)
  {
    assert ls[..|ls|] == ls;
    if ls != [] {
      var n := |ls| - 1;
      assert forall i :: 0 <= i <= n ==> ls[..n][..i] == ls[..i];
      assert forall i :: 0 <= i < n ==> ls[..n][i] == ls[i];
      WholeIffNeverLost(cfg, w, ls[..n], p);
      assert WholeSoFar(cfg, w, ls, p) <==> WholeSoFar(cfg, w, ls[..n], p) && Whole(RunFrom(cfg, w, ls), p);
      assert NeverLost(cfg, w, ls, p) <==> NeverLost(cfg, w, ls[..n], p) && !Loses(RunFrom(cfg, w, ls[..n]), ls[n], p);
      if WholeSoFar(cfg, w, ls[..n], p) {
        assert Whole(RunFrom(cfg, w, ls[..n][..n]), p);
        WholeUnlessLost(cfg, RunFrom(cfg, w, ls[..n]), ls[n], p);
      }
    }
  }

  /** While the commit its ref names is missing, no take of a project goes through. */
  lemma LostRefBlocksTakes(w: World, l: Label, p: Project)
    requires Sound(w) && !Whole(w, p)
    ensures !Advances(w, l, p)
  {
  }

  /** One project that has lost its commit makes every other project's collection fail, leaving all objects. */
  lemma {:induction false} LostRefFailsCollection(cfg: S.Config, w: World, j: JobId)
    requires Sound(w) && j in w.jobs && w.jobs[j].PruneSwapped?
    ensures var w' := Step(cfg, w, GcMark(j));
            && w'.objects == w.objects && w'.refs == w.refs
            && (w'.jobs[j] == Done(GitFailed) <==> exists p :: p in w.refs && !Whole(w, p))
            && (w'.jobs[j] == Done(GitFailed) || w'.jobs[j] == PruneMarked(Reachable(w.refs)))
  {
    TipsCarryAll(w.objects, w.refs);
  }

  /**
    A project that has lost its commit reads as one without snapshots: a prune begun then
    ends at once as if there were nothing to do, and a take begun then, which read no ref,
    never goes through, even after the commit is back.
   */
  lemma {:induction false} LostProjectStaysOut(cfg: S.Config, w: World, j: JobId, p: Project, reason: string,
                                               keepLast: nat, ls: seq<Label>)
    requires !Whole(w, p) && j !in w.jobs && keepLast >= 1
    ensures Step(cfg, w, BeginPrune(j, p, keepLast)) == Finish(w, j, PruneDone)
    ensures !Advances(RunFrom(cfg, Step(cfg, w, BeginTake(j, p, reason)), ls), Swap(j), p)
  {
    ReadNothingConflicts(cfg, Step(cfg, w, BeginTake(j, p, reason)), ls, j, p);
  }

  /** A mark set stays with its job until the job sweeps. */
  lemma {:induction false} MarkStays(cfg: S.Config, w: World, ls: seq<Label>, k: JobId)
    requires k in w.jobs && w.jobs[k].PruneMarked? && forall i :: 0 <= i < |ls| ==> ls[i] != GcSweep(k)
    ensures var w' := RunFrom(cfg, w, ls); k in w'.jobs && w'.jobs[k] == w.jobs[k]
  {
    if ls != [] {
      MarkStays(cfg, w, ls[..|ls| - 1], k);
      StepKeepsMark(cfg, RunFrom(cfg, w, ls[..|ls| - 1]), ls[|ls| - 1], k);
    }
  }

  lemma StepKeepsMark(cfg: S.Config, w: World, l: Label, k: JobId)
    requires k in w.jobs && w.jobs[k].PruneMarked? && l != GcSweep(k)
    ensures k in Step(cfg, w, l).jobs && Step(cfg, w, l).jobs[k] == w.jobs[k]
  {
  }

  /** A ref at an unmarked commit can only be advanced to another: the mark set is closed. */
  lemma {:induction false} UnmarkedStays(cfg: S.Config, w: World, ls: seq<Label>, q: Project, marked: set<Object>)
    requires Sound(w) && Closed(marked) && q in w.refs && CommitObject(w.refs[q]) !in marked
    requires NoRewrite(cfg, w, ls, q)
    ensures var w' := RunFrom(cfg, w, ls); q in w'.refs && CommitObject(w'.refs[q]) !in marked
  {
    if ls != [] {
      var n := |ls| - 1;
      var mid, l := RunFrom(cfg, w, ls[..n]), ls[n];
      NoRewritePrefix(cfg, w, ls, q);
      UnmarkedStays(cfg, w, ls[..n], q, marked);
      RunKeepsSound(cfg, w, ls[..n]);
      if Advances(mid, l, q) {
        AdvanceReplacesParent(cfg, mid, l, q);
      } else {
        OnlySwapsMoveRefs(cfg, mid, l, q);
      }
    }
  }

  /**
    A ref that has moved to a commit a collection did not mark is lost when that collection
    sweeps, whatever happens in between except a prune of the project.
   */
  lemma {:induction false} UnmarkedIsSwept(cfg: S.Config, w: World, k: JobId, ls: seq<Label>, q: Project)
    requires Sound(w) && k in w.jobs && w.jobs[k].PruneMarked?
    requires q in w.refs && CommitObject(w.refs[q]) !in w.jobs[k].marked
    requires NoRewrite(cfg, w, ls, q) && forall i :: 0 <= i < |ls| ==> ls[i] != GcSweep(k)
    ensures !Whole(Step(cfg, RunFrom(cfg, w, ls), GcSweep(k)), q)
  {
    assert JobOk(w.jobs[k]);
    MarkStays(cfg, w, ls, k);
    UnmarkedStays(cfg, w, ls, q, w.jobs[k].marked);
  }

  /** The label does not swap a commit outside the set in for `q`. */
  ghost predicate SwapWithin(w: World, l: Label, q: Project, marked: set<Object>) {
    Advances(w, l, q) ==> CommitObject(w.jobs[l.j].commit) in marked
  }

  ghost predicate SwapsWithin(cfg: S.Config, w: World, ls: seq<Label>, q: Project, marked: set<Object>) {
    forall i :: 0 <= i < |ls| ==> SwapWithin(RunFrom(cfg, w, ls[..i]), ls[i], q, marked)
  }

  lemma {:induction false} TipWithin(cfg: S.Config, w: World, ls: seq<Label>, q: Project, marked: set<Object>)
    requires Sound(w) && Closed(marked) && NoRewrite(cfg, w, ls, q)
    requires q in w.refs ==> CommitObject(w.refs[q]) in marked
    ensures var w' := RunFrom(cfg, w, ls);
            (q in w'.refs ==> CommitObject(w'.refs[q]) in marked) <==> SwapsWithin(cfg, w, ls, q, marked)
  {
    if ls != [] {
      var n := |ls| - 1;
      var mid, l := RunFrom(cfg, w, ls[..n]), ls[n];
      NoRewritePrefix(cfg, w, ls, q);
      RunKeepsSound(cfg, w, ls[..n]);
      TipWithin(cfg, w, ls[..n], q, marked);
      SwapsWithinSnoc(cfg, w, ls, q, marked);
      if Advances(mid, l, q) {
        AdvanceReplacesParent(cfg, mid, l, q);
      } else {
        OnlySwapsMoveRefs(cfg, mid, l, q);
      }
    }
  }

  lemma {:induction false} SwapsWithinSnoc(cfg: S.Config, w: World, ls: seq<Label>, q: Project, marked: set<Object>)
    requires ls != []
    ensures var n := |ls| - 1; var mid := RunFrom(cfg, w, ls[..n]);
            SwapsWithin(cfg, w, ls, q, marked) <==>
            SwapsWithin(cfg, w, ls[..n], q, marked) && SwapWithin(mid, ls[n], q, marked)
  {
    hide RunFrom;
    hide SwapWithin;
    var n := |ls| - 1;
    assert forall i :: 0 <= i < n ==> ls[..n][..i] == ls[..i] && ls[..n][i] == ls[i];
    if SwapsWithin(cfg, w, ls, q, marked) {
      forall i | 0 <= i < n ensures SwapWithin(RunFrom(cfg, w, ls[..n][..i]), ls[..n][i], q, marked) {
        assert SwapWithin(RunFrom(cfg, w, ls[..i]), ls[i], q, marked);
      }
    } else if SwapsWithin(cfg, w, ls[..n], q, marked) {
      forall i | 0 <= i < n ensures SwapWithin(RunFrom(cfg, w, ls[..i]), ls[i], q, marked) {
        assert SwapWithin(RunFrom(cfg, w, ls[..n][..i]), ls[..n][i], q, marked);
      }
    }
  }

  lemma {:induction false} WholeWithoutSweeps(cfg: S.Config, w: World, ls: seq<Label>, q: Project)
    requires Whole(w, q) && forall i :: 0 <= i < |ls| ==> !ls[i].GcSweep?
    ensures Whole(RunFrom(cfg, w, ls), q)
  {
    if ls != [] {
      WholeWithoutSweeps(cfg, w, ls[..|ls| - 1], q);
      WholeUnlessLost(cfg, RunFrom(cfg, w, ls[..|ls| - 1]), ls[|ls| - 1], q);
    }
  }

  /**
    Over every run from a collection's mark to its sweep in which the project is not pruned
    and nothing else is swept: the sweep spares the project if and only if each take of it
    that went through in the window swapped in a commit that had already been marked.
   */
  lemma {:induction false} SparedIffSwapsMarked(cfg: S.Config, w: World, k: JobId, ls: seq<Label>, q: Project)
    requires Fit(w, q) && k in w.jobs && w.jobs[k].PruneMarked?
    requires q in w.refs ==> CommitObject(w.refs[q]) in w.jobs[k].marked
    requires NoRewrite(cfg, w, ls, q) && forall i :: 0 <= i < |ls| ==> !ls[i].GcSweep?
    ensures Whole(Step(cfg, RunFrom(cfg, w, ls), GcSweep(k)), q) <==> SwapsWithin(cfg, w, ls, q, w.jobs[k].marked)
  {
    assert JobOk(w.jobs[k]);
    MarkStays(cfg, w, ls, k);
    WholeWithoutSweeps(cfg, w, ls, q);
    TipWithin(cfg, w, ls, q, w.jobs[k].marked);
    WholeUnlessLost(cfg, RunFrom(cfg, w, ls), GcSweep(k), q);
  }

  /** Some collection has marked and not yet swept. */
  ghost predicate Marking(w: World) {
    exists j :: j in w.jobs && w.jobs[j].PruneMarked?
  }

  /** Every collection under way has marked what `p`'s ref names. */
  ghost predicate Covered(w: World, p: Project) {
    forall j :: j in w.jobs && w.jobs[j].PruneMarked? && p in w.refs ==> CommitObject(w.refs[p]) in w.jobs[j].marked
  }

  /** No `update-ref` of `p` goes through between the mark and the sweep of any collection. */
  ghost predicate Quiet(cfg: S.Config, w: World, ls: seq<Label>, p: Project) {
    forall i :: 0 <= i < |ls| ==>
                  var v := RunFrom(cfg, w, ls[..i]);
                  Advances(v, ls[i], p) || Rewrites(v, ls[i], p) ==> !Marking(v)
  }

  /** A mark set was there before the step, or the step has just computed it. */
  lemma MarkedBefore(cfg: S.Config, w: World, l: Label, j: JobId)
    requires j in Step(cfg, w, l).jobs && Step(cfg, w, l).jobs[j].PruneMarked?
    ensures || (j in w.jobs && w.jobs[j] == Step(cfg, w, l).jobs[j])
            || (Step(cfg, w, l).jobs[j].marked == Reachable(w.refs) && Step(cfg, w, l).refs == w.refs)
  {
  }

  lemma {:induction false} StepKeepsCovered(cfg: S.Config, w: World, l: Label, p: Project)
    requires Whole(w, p) && Covered(w, p)
    requires Advances(w, l, p) || Rewrites(w, l, p) ==> !Marking(w)
    ensures Whole(Step(cfg, w, l), p) && Covered(Step(cfg, w, l), p)
  {
    hide Step;
    hide Reachable;
    TipsReachable(w.refs);
    WholeUnlessLost(cfg, w, l, p);
    var w' := Step(cfg, w, l);
    if !(Advances(w, l, p) || Rewrites(w, l, p)) {
      OnlySwapsMoveRefs(cfg, w, l, p);
    }
    forall j | j in w'.jobs && w'.jobs[j].PruneMarked? && p in w'.refs
      ensures CommitObject(w'.refs[p]) in w'.jobs[j].marked
    {
      MarkedBefore(cfg, w, l, j);
      assert w'.refs == w.refs || w'.refs[p] == w.refs[p];
    }
  }

  lemma {:induction false} QuietRefsStayWhole(cfg: S.Config, w: World, ls: seq<Label>, p: Project)
    requires Whole(w, p) && Covered(w, p) && Quiet(cfg, w, ls, p)
    ensures Whole(RunFrom(cfg, w, ls), p) && Covered(RunFrom(cfg, w, ls), p)
  {
    if ls != [] {
      var n := |ls| - 1;
      forall i | 0 <= i < n
        ensures var v := RunFrom(cfg, w, ls[..n][..i]);
                Advances(v, ls[..n][i], p) || Rewrites(v, ls[..n][i], p) ==> !Marking(v)
      {
        assert ls[..n][..i] == ls[..i];
      }
      QuietRefsStayWhole(cfg, w, ls[..n], p);
      StepKeepsCovered(cfg, RunFrom(cfg, w, ls[..n]), ls[n], p);
    }
  }

  /**
    Over every interleaving in which no `update-ref` of `p` falls between a collection's
    mark and its sweep, `p`'s ref names a finite, linear history all of whose commits,
    trees and blobs are in the store, whatever the other projects do.
   */
  lemma {:induction false} RefsNameWholeHistories(cfg: S.Config, ls: seq<Label>, p: Project)
    requires Quiet(cfg, INIT, ls, p)
    ensures var w := RunFrom(cfg, INIT, ls);
            p in w.refs ==> Closure(w.refs[p]) <= w.objects && Linear(Chain(w.refs[p]))
  {
    RunKeepsSound(cfg, INIT, ls);
    QuietRefsStayWhole(cfg, INIT, ls, p);
    var w := RunFrom(cfg, INIT, ls);
    if p in w.refs {
      ClosurePresent(w.objects, w.refs[p]);
      HistoryIsLinear(w.refs[p]);
    }
  }

  /**
    A project nobody swaps keeps its ref and everything reachable from it, whatever
    other projects do and wherever their commands fall between marks and sweeps.
   */
  lemma {:induction false} ProjectsIsolated(cfg: S.Config, w: World, ls: seq<Label>, q: Project)
    requires Sound(w) && Whole(w, q) && Covered(w, q) && Untouched(cfg, w, ls, q)
    ensures var w' := RunFrom(cfg, w, ls);
            && Lookup(w'.refs, q) == Lookup(w.refs, q)
            && (q in w.refs ==> Closure(w.refs[q]) <= w'.objects)
  {
    RunKeepsSound(cfg, w, ls);
    RefStays(cfg, w, ls, q);
    QuietRefsStayWhole(cfg, w, ls, q);
    var w' := RunFrom(cfg, w, ls);
    if q in w.refs {
      ClosurePresent(w'.objects, w'.refs[q]);
    }
  }
}
