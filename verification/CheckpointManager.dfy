/**
  Plan checkpoints: saving a plan between two steps and getting it back.
  Serialising and parsing a plan is taken to be the identity.
 */
module CheckpointManager {
  import opened Wrappers
  import opened Plans
  import opened PlanEngine

  datatype Checkpoint = Checkpoint(
    id: Id, planId: Id, lastCompletedStep: Option<Id>, planState: Plan, createdAt: int)

  datatype Error = NotFound(checkpoint: Id) | NoCheckpoints(plan: Id)

  /** The id of the last Completed node in list order. */
  function LastCompleted(nodes: seq<Node>): Option<Id> {
    var last := LastCompletedNode(nodes);
    if last.None? then None else Some(last.value.id)
  }

  /** The step of the latest completion in an event list. */
  function LatestCompletion(es: seq<Event>): Option<Id> {
    var last := LatestDone(es);
    if last.None? then None else Some(last.value.step)
  }

  /** The most recent checkpoint of a plan; ties in the creation time go either way. */
  ghost predicate IsLatest(saved: map<Id, Checkpoint>, planId: Id, c: Checkpoint) {
    && c.id in saved && saved[c.id] == c && c.planId == planId
    && forall i :: i in saved && saved[i].planId == planId ==> saved[i].createdAt <= c.createdAt
  }

  lemma {:induction false} LatestExists(saved: map<Id, Checkpoint>, ids: set<Id>, planId: Id) returns (best: Id)
    requires ids <= saved.Keys && exists i :: i in ids && saved[i].planId == planId
    ensures best in ids && saved[best].planId == planId
    ensures forall i :: i in ids && saved[i].planId == planId ==> saved[i].createdAt <= saved[best].createdAt
    decreases |ids|
  {
    best :| best in ids && saved[best].planId == planId;
    var rest := ids - {best};
    if exists i :: i in rest && saved[i].planId == planId {
      var other := LatestExists(saved, rest, planId);
      if saved[best].createdAt < saved[other].createdAt {
        best := other;
      }
    }
  }

  // ---------------------------------------------------------------------
  // What the recorded step means
  // ---------------------------------------------------------------------

  /** The first k nodes are Completed and all later ones Pending. */
  ghost predicate DoneUpTo(plan: Plan, k: nat) {
    && k <= |plan.nodes|
    && (forall i :: 0 <= i < k ==> plan.nodes[i].status == Completed)
    && (forall i :: k <= i < |plan.nodes| ==> plan.nodes[i].status == Pending)
  }

  lemma {:induction false} LastCompletedOf(nodes: seq<Node>, k: nat)
    requires k <= |nodes|
    requires forall i :: 0 <= i < k ==> nodes[i].status == Completed
    requires forall i :: k <= i < |nodes| ==> nodes[i].status == Pending
    ensures LastCompleted(nodes) == if k == 0 then None else Some(nodes[k - 1].id)
  {
    if k < |nodes| {
      LastCompletedOf(nodes[..|nodes| - 1], k);
    }
  }

  lemma PassExtendsPrefix(exec: Executor, s: Run, k: nat)
    requires UniqueIds(s.plan) && Live(s) && DoneUpTo(s.plan, k) && Iterate(exec, s).end.result.None?
    ensures k < |s.plan.nodes| && UniqueIds(Iterate(exec, s).end.plan)
    ensures DoneUpTo(Iterate(exec, s).end.plan, k + 1)
    ensures LatestCompletion(Iterate(exec, s).events) == Some(Iterate(exec, s).end.plan.nodes[k].id)
  {
    var n := NextPending(s.plan);
    assert n >= k && s.plan.nodes[k].status == Pending;
  }

  lemma {:induction false} BoundaryKeepsIds(exec: Executor, s: Run, m: nat, i: nat)
    requires UniqueIds(s.plan) && i < |s.plan.nodes|
    ensures var b := IterateN(exec, s, m).end.plan;
            |b.nodes| == |s.plan.nodes| && b.nodes[i].id == s.plan.nodes[i].id
    decreases m
  {
    if m > 0 {
      PassKeepsIds(exec, s, i);
      BoundaryKeepsIds(exec, Iterate(exec, s).end, m - 1, i);
    }
  }

  lemma {:induction false} PassKeepsIds(exec: Executor, s: Run, i: nat)
    requires UniqueIds(s.plan) && i < |s.plan.nodes|
    ensures var t := Iterate(exec, s).end.plan;
            UniqueIds(t) && |t.nodes| == |s.plan.nodes| && t.nodes[i].id == s.plan.nodes[i].id
  {
  }

  /** A pass that neither returns nor progresses leaves nothing to say about the rest. */
  lemma IdleBoundary(exec: Executor, s: Run, m: nat)
    requires UniqueIds(s.plan) && s.result.None? && !Live(s) && IterateN(exec, s, m).end.result.None?
    ensures IterateN(exec, s, m) == Leg(s, [])
  {
    if m > 0 {
      FixedPoint(exec, Iterate(exec, s).end, m - 1);
    }
  }

  lemma NotReturnedYet(exec: Executor, s: Run, m: nat)
    requires m > 0 && IterateN(exec, s, m).end.result.None?
    ensures Iterate(exec, s).end.result.None?
  {
    if Iterate(exec, s).end.result.Some? {
      FixedPoint(exec, Iterate(exec, s).end, m - 1);
    }
  }

  /** Between passes of a run from an all-Pending plan the completed nodes are a prefix of the list. */
  lemma {:induction false} BoundaryIsPrefix(exec: Executor, s: Run, k: nat, m: nat) returns (done: nat)
    requires UniqueIds(s.plan) && s.result.None? && DoneUpTo(s.plan, k)
    requires IterateN(exec, s, m).end.result.None?
    ensures var b := IterateN(exec, s, m);
            && k <= done && DoneUpTo(b.end.plan, done)
            && LatestCompletion(b.events) == if done == k then None else Some(b.end.plan.nodes[done - 1].id)
    decreases m
  {
    hide Iterate;
    if m == 0 || !Live(s) {
      if m > 0 {
        IdleBoundary(exec, s, m);
      }
      done := k;
    } else {
      var first := Iterate(exec, s);
      NotReturnedYet(exec, s, m);
      PassExtendsPrefix(exec, s, k);
      done := BoundaryIsPrefix(exec, first.end, k + 1, m - 1);
      LatestDoneConcat(first.events, IterateN(exec, first.end, m - 1).events);
      BoundaryKeepsIds(exec, first.end, m - 1, k);
    }
  }

  /**
    If every node began Pending, the step a checkpoint records at any step boundary
    is the step of the latest completion event so far.
   */
  lemma {:induction false} RecordedStepIsLatest(exec: Executor, plan: Plan, m: nat)
    requires UniqueIds(plan) && forall i :: 0 <= i < |plan.nodes| ==> plan.nodes[i].status == Pending
    requires IterateN(exec, Start(plan), m).end.result.None?
    ensures var b := IterateN(exec, Start(plan), m);
            LastCompleted(b.end.plan.nodes) == LatestCompletion(b.events)
  {
    var done := BoundaryIsPrefix(exec, Start(plan), 0, m);
    LastCompletedOf(IterateN(exec, Start(plan), m).end.plan.nodes, done);
  }

  // ---------------------------------------------------------------------
  // The manager object
  // ---------------------------------------------------------------------

  /** The last checkpoint with an id, in a list of checkpoints. */
  ghost function LastWith(created: seq<Checkpoint>, id: Id): Option<Checkpoint> {
    if created == [] then None
    else if created[|created| - 1].id == id then Some(created[|created| - 1])
    else LastWith(created[..|created| - 1], id)
  }

  lemma {:induction false} LastWithMeaning(created: seq<Checkpoint>, id: Id)
    ensures LastWith(created, id).None? ==> forall k :: 0 <= k < |created| ==> created[k].id != id
    ensures LastWith(created, id).Some? ==>
              exists k: nat :: IsLastWith(created, id, k) && LastWith(created, id).value == created[k]
  {
    if created != [] {
      var n := |created| - 1;
      if created[n].id == id {
        assert IsLastWith(created, id, n);
      } else {
        LastWithMeaning(created[..n], id);
        if LastWith(created, id).Some? {
          var k: nat :| IsLastWith(created[..n], id, k) && LastWith(created, id).value == created[..n][k];
          assert IsLastWith(created, id, k);
        }
      }
    }
  }

  ghost predicate IsLastWith(created: seq<Checkpoint>, id: Id, k: nat) {
    k < |created| && created[k].id == id && forall j :: k < j < |created| ==> created[j].id != id
  }

  class Manager {
    var saved: map<Id, Checkpoint>
    /** Every checkpoint made so far, in order. */
    ghost var created: seq<Checkpoint>

    /** The store holds, under each id, the last checkpoint made with it. */
    ghost predicate Valid()
      reads this
    {
      forall i :: Lookup(saved, i) == LastWith(created, i)
    }

    constructor ()
      ensures created == [] && Valid()
    {
      saved := map[];
      created := [];
    }

    method CreateCheckpoint(plan: Plan, id: Id, now: int) returns (c: Checkpoint)
      requires Valid()
      modifies this
      ensures Valid()
      ensures c == Checkpoint(id, plan.id, LastCompleted(plan.nodes), plan, now)
      ensures created == old(created) + [c]
    {
      var i := |plan.nodes|;
      assert plan.nodes[..i] == plan.nodes;
      while i > 0 && plan.nodes[i - 1].status != Completed
        invariant 0 <= i <= |plan.nodes|
        invariant LastCompleted(plan.nodes) == LastCompleted(plan.nodes[..i])
      {
        assert plan.nodes[..i][..i - 1] == plan.nodes[..i - 1];
        i := i - 1;
      }
      c := Checkpoint(id, plan.id, if i == 0 then None else Some(plan.nodes[i - 1].id), plan, now);
      saved := saved[id := c];
      created := created + [c];
      assert created[..|created| - 1] == old(created);
    }

    /** The plan that was given to the last `CreateCheckpoint` that made this id, or an error if none did. */
    method Rollback(checkpointId: Id) returns (r: Result<Plan, Error>)
      requires Valid()
      ensures r.Ok? ==> exists k: nat :: IsLastWith(created, checkpointId, k) && r.value == created[k].planState
      ensures r.Err? ==>
                r.error == NotFound(checkpointId) && forall k :: 0 <= k < |created| ==> created[k].id != checkpointId
    {
      assert Lookup(saved, checkpointId) == LastWith(created, checkpointId);
      LastWithMeaning(created, checkpointId);
      if checkpointId !in saved {
        return Err(NotFound(checkpointId));
      }
      r := Ok(saved[checkpointId].planState);
    }

    method RollbackToLatest(planId: Id) returns (r: Result<Plan, Error>)
      requires Valid()
      ensures r.Err? <==> forall i :: i in saved ==> saved[i].planId != planId
      ensures r.Err? ==> r.error == NoCheckpoints(planId)
      ensures r.Ok? ==> exists c :: IsLatest(saved, planId, c) && r.value == c.planState
    {
      forall i | i in saved ensures saved[i].id == i {
        assert Lookup(saved, i) == LastWith(created, i);
        LastWithMeaning(created, i);
      }
      if forall i | i in saved :: saved[i].planId != planId {
        return Err(NoCheckpoints(planId));
      }
      ghost var best := LatestExists(saved, saved.Keys, planId);
      assert best in saved.Keys && saved[best].planId == planId
             && forall j | j in saved.Keys :: saved[j].planId == planId ==> saved[j].createdAt <= saved[best].createdAt;
      var i :| i in saved.Keys && saved[i].planId == planId
               && forall j | j in saved.Keys :: saved[j].planId == planId ==> saved[j].createdAt <= saved[i].createdAt;
      r := Ok(saved[i].planState);
    }

    /** Save at a step boundary, crash, roll back, run again: the outcome of the uninterrupted run. */
    method CrashAndResume(engine: Engine, plan: Plan, ghost m: nat, boundary: Plan, id: Id, now: int)
      returns (final: Plan, outcome: Outcome)
      requires Valid() && UniqueIds(plan)
      requires IterateN(engine.exec, Start(plan), m).end == Run(boundary, None)
      modifies this, engine`eventLog
      ensures var whole := Drive(engine.exec, Start(plan)).end;
              && final == whole.plan
              && (outcome == if whole.result.Some? then Returned(whole.result.value) else Spins)
      ensures var before := IterateN(engine.exec, Start(plan), m).events;
              && |engine.eventLog| > |old(engine.eventLog)| && old(engine.eventLog) <= engine.eventLog
              && Log(engine.exec, plan)
                 == [Created(plan.id, plan.description)] + before + engine.eventLog[|old(engine.eventLog)| + 1..]
    {
      ResumeEquivalent(engine.exec, plan, m);
      var c := CreateCheckpoint(boundary, id, now);
      assert IsLastWith(created, c.id, |created| - 1);
      var restored := Rollback(c.id);
      ghost var log := engine.eventLog;
      final, outcome := engine.Execute(restored.value);
      assert engine.eventLog[|log| + 1..] == Log(engine.exec, boundary)[1..];
    }
  }
}
