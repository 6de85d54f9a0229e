/**
  The plan execution engine. One pass of its loop is the function `Iterate`;
  the loop can spin forever on a node whose dependencies are not met, so the
  results are about `IterateN` for every number of passes.
 */
module PlanEngine {
  import opened Wrappers
  import opened Plans

  datatype Event =
    | Created(planId: Id, description: string)
    | Started(planId: Id, step: Id)
    | StepCompleted(planId: Id, step: Id, output: Value)
    | StepFailed(planId: Id, step: Id, error: string)
    | AllCompleted(planId: Id)

  /** The step executor is any function of the plan it sees and the node it is asked to run. */
  type Executor = (Plan, Id) -> Result<Value, string>

  /** Loop state: `result` is set once `execute` has returned. */
  datatype Run = Run(plan: Plan, result: Option<Result<(), string>>)

  /** A stretch of the loop: the state it ends in and the events it emits. */
  datatype Leg = Leg(end: Run, events: seq<Event>)

  function Start(plan: Plan): Run {
    Run(plan.(status := PlanRunning), None)
  }

  /** The step at the head of the pending list has a dependency that is not Completed. */
  predicate Stuck(s: Run) {
    && s.result.None?
    && var k := NextPending(s.plan);
       k < |s.plan.nodes|
       && var node := s.plan.nodes[FindNode(s.plan, s.plan.nodes[k].id)];
          !DepsMet(s.plan, node)
  }

  /** Mark a node Running, run it, and record what came back. */
  function RunStep(exec: Executor, plan: Plan, id: Id): Leg
    requires FindNode(plan, id) < |plan.nodes|
  {
    var node := plan.nodes[FindNode(plan, id)];
    var running := SetNode(plan, id, node.(status := Running));
    match exec(running, id)
    case Ok(v) =>
      Leg(Run(SetNode(running, id, node.(status := Completed, output := Some(v))), None),
          [Started(plan.id, id), StepCompleted(plan.id, id, v)])
    case Err(e) =>
      Leg(Run(SetNode(running, id, node.(status := Failed, error := Some(e))).(status := PlanFailed), Some(Err(e))),
          [Started(plan.id, id), StepFailed(plan.id, id, e)])
  }

  /** One pass of the `while` loop, or the code after it when no node is Pending. */
  function Iterate(exec: Executor, s: Run): Leg {
    var k := NextPending(s.plan);
    if s.result.Some? then Leg(s, [])
    else if k == |s.plan.nodes| then
      Leg(Run(s.plan.(status := PlanCompleted), Some(Ok(()))), [AllCompleted(s.plan.id)])
    else if Stuck(s) then Leg(s, [])
    else RunStep(exec, s.plan, s.plan.nodes[k].id)
  }

  function IterateN(exec: Executor, s: Run, n: nat): Leg
    decreases n
  {
    if n == 0 then Leg(s, [])
    else
      var first := Iterate(exec, s);
      var rest := IterateN(exec, first.end, n - 1);
      Leg(rest.end, first.events + rest.events)
  }

  // ---------------------------------------------------------------------
  // One productive pass
  // ---------------------------------------------------------------------

  ghost predicate Live(s: Run) {
    s.result.None? && NextPending(s.plan) < |s.plan.nodes| && !Stuck(s)
  }

  lemma {:induction false} CountUpdate(nodes: seq<Node>, k: nat, node: Node)
    requires k < |nodes| && nodes[k].status == Pending && node.status != Pending
    ensures PendingCount(nodes[k := node]) == PendingCount(nodes) - 1
  {
    var n := |nodes| - 1;
    if k < n {
      CountUpdate(nodes[..n], k, node);
    }
  }

  /** The node the first Pending one becomes. */
  function Settled(exec: Executor, plan: Plan): Node
    requires NextPending(plan) < |plan.nodes|
  {
    var node := plan.nodes[NextPending(plan)];
    match exec(SetNode(plan, node.id, node.(status := Running)), node.id)
    case Ok(v) => node.(status := Completed, output := Some(v))
    case Err(e) => node.(status := Failed, error := Some(e))
  }

  /** A live pass settles the first Pending node, touches no other, and emits a pair of events about it. */
  lemma LivePass(exec: Executor, s: Run)
    requires UniqueIds(s.plan) && Live(s)
    ensures var k := NextPending(s.plan); var done := Settled(exec, s.plan); var leg := Iterate(exec, s);
            && DepsMet(s.plan, s.plan.nodes[k])
            && |leg.events| == 2 && leg.events[0] == Started(s.plan.id, done.id)
            && (if done.status == Completed then
                  && leg.end == Run(s.plan.(nodes := s.plan.nodes[k := done]), None)
                  && leg.events[1] == StepCompleted(s.plan.id, done.id, done.output.value)
                else
                  && leg.end == Run(s.plan.(nodes := s.plan.nodes[k := done], status := PlanFailed),
                                    Some(Err(done.error.value)))
                  && leg.events[1] == StepFailed(s.plan.id, done.id, done.error.value))
  {
  }

  /**
    A pass asks the executor about the first Pending node, in the plan with that node
    Running, and records its answer and nothing else: on the node, in the event, and on
    failure in the plan's status and the result.
   */
  lemma PassRecordsAnswer(exec: Executor, s: Run)
    requires UniqueIds(s.plan) && Live(s)
    ensures var k := NextPending(s.plan); var node := s.plan.nodes[k]; var leg := Iterate(exec, s);
            var asked := s.plan.(nodes := s.plan.nodes[k := node.(status := Running)]);
            var answer := exec(asked, node.id);
            && leg.events == [Started(s.plan.id, node.id),
                              if answer.Ok? then StepCompleted(s.plan.id, node.id, answer.value)
                              else StepFailed(s.plan.id, node.id, answer.error)]
            && leg.end.plan.nodes
               == s.plan.nodes[k := if answer.Ok? then node.(status := Completed, output := Some(answer.value))
                                    else node.(status := Failed, error := Some(answer.error))]
            && leg.end.plan.id == s.plan.id && leg.end.plan.description == s.plan.description
            && leg.end.plan.status == (if answer.Ok? then s.plan.status else PlanFailed)
            && leg.end.result == if answer.Ok? then None else Some(Err(answer.error))
  {
    LivePass(exec, s);
  }

  /** What the recursions below need of a live pass. */
  lemma PassShrinks(exec: Executor, s: Run)
    requires UniqueIds(s.plan) && Live(s)
    ensures var t := Iterate(exec, s).end;
            UniqueIds(t.plan) && PendingCount(t.plan.nodes) < PendingCount(s.plan.nodes)
  {
    LivePass(exec, s);
    CountUpdate(s.plan.nodes, NextPending(s.plan), Settled(exec, s.plan));
  }

  // ---------------------------------------------------------------------
  // Where the loop ends up
  // ---------------------------------------------------------------------

  /** The whole rest of the loop: it ends returned, or stuck for good. */
  ghost function Drive(exec: Executor, s: Run): Leg
    requires UniqueIds(s.plan)
    decreases PendingCount(s.plan.nodes)
  {
    if Live(s) then
      PassShrinks(exec, s);
      var first := Iterate(exec, s);
      var rest := Drive(exec, first.end);
      Leg(rest.end, first.events + rest.events)
    else Iterate(exec, s)
  }

  lemma {:induction false} DriveLive(exec: Executor, s: Run)
    requires UniqueIds(s.plan) && Live(s)
    ensures var first := Iterate(exec, s);
            && UniqueIds(first.end.plan) && PendingCount(first.end.plan.nodes) < PendingCount(s.plan.nodes)
            && Drive(exec, s) == Leg(Drive(exec, first.end).end, first.events + Drive(exec, first.end).events)
  {
    PassShrinks(exec, s);
  }

  /** A pass without progress is a fixed point. */
  lemma {:induction false} FixedPoint(exec: Executor, s: Run, n: nat)
    requires Iterate(exec, s) == Leg(s, [])
    ensures IterateN(exec, s, n) == Leg(s, [])
  {
    if n > 0 {
      FixedPoint(exec, s, n - 1);
    }
  }

  /** After enough passes the loop has done what `Drive` says, and it never does anything again. */
  lemma {:induction false} LoopSettles(exec: Executor, s: Run, n: nat)
    requires UniqueIds(s.plan) && n > PendingCount(s.plan.nodes)
    ensures IterateN(exec, s, n) == Drive(exec, s)
    ensures Drive(exec, s).end.result.None? ==> Stuck(Drive(exec, s).end)
    decreases n
  {
    if Live(s) {
      PassShrinks(exec, s);
      LoopSettles(exec, Iterate(exec, s).end, n - 1);
    } else {
      FixedPoint(exec, Iterate(exec, s).end, n - 1);
    }
  }

  ghost predicate Terminates(exec: Executor, s: Run) {
    exists n: nat :: IterateN(exec, s, n).end.result.Some?
  }

  /** Running m passes and then n passes is running m + n passes. */
  lemma {:induction false} IterateSplit(exec: Executor, s: Run, m: nat, n: nat)
    ensures var a := IterateN(exec, s, m); var b := IterateN(exec, a.end, n);
            IterateN(exec, s, m + n) == Leg(b.end, a.events + b.events)
    decreases m
  {
    hide Iterate;
    if m > 0 {
      var first := Iterate(exec, s);
      IterateSplit(exec, first.end, m - 1, n);
      var a := IterateN(exec, first.end, m - 1);
      var b := IterateN(exec, a.end, n);
      assert first.events + (a.events + b.events) == (first.events + a.events) + b.events;
    }
  }

  lemma NoPass(exec: Executor, s: Run)
    ensures IterateN(exec, s, 0) == Leg(s, [])
  {
  }

  lemma {:induction false} OneMorePass(exec: Executor, s: Run, n: nat)
    ensures var a := IterateN(exec, s, n); var b := Iterate(exec, a.end);
            IterateN(exec, s, n + 1) == Leg(b.end, a.events + b.events)
  {
    IterateSplit(exec, s, n, 1);
  }

  lemma StuckPass(exec: Executor, s: Run)
    requires Stuck(s)
    ensures Iterate(exec, s) == Leg(s, [])
  {
  }

  lemma LastPass(exec: Executor, s: Run)
    requires s.result.None? && NextPending(s.plan) == |s.plan.nodes|
    ensures Iterate(exec, s) == Leg(Run(s.plan.(status := PlanCompleted), Some(Ok(()))), [AllCompleted(s.plan.id)])
  {
  }

  /** Once the loop has returned or is stuck, it has done what `Drive` says. */
  lemma {:induction false} SettledIsDriven(exec: Executor, s: Run, n: nat)
    requires UniqueIds(s.plan)
    requires var t := IterateN(exec, s, n).end; t.result.Some? || Stuck(t)
    ensures IterateN(exec, s, n) == Drive(exec, s)
  {
    var more := PendingCount(s.plan.nodes) + 1;
    IterateSplit(exec, s, n, more);
    FixedPoint(exec, IterateN(exec, s, n).end, more);
    LoopSettles(exec, s, n + more);
  }

  /** The loop returns exactly when the state it settles in has a result. */
  lemma {:induction false} TerminatesIffDriven(exec: Executor, s: Run)
    requires UniqueIds(s.plan)
    ensures Terminates(exec, s) <==> Drive(exec, s).end.result.Some?
  {
    if Terminates(exec, s) {
      var n: nat :| IterateN(exec, s, n).end.result.Some?;
      SettledIsDriven(exec, s, n);
    } else {
      LoopSettles(exec, s, PendingCount(s.plan.nodes) + 1);
    }
  }

  // ---------------------------------------------------------------------
  // Exactly which plans terminate
  // ---------------------------------------------------------------------

  ghost predicate AlwaysSucceeds(exec: Executor) {
    forall p: Plan, id: Id :: exec(p, id).Ok?
  }

  /** Dependency `d` of the node at `i` is Completed, or Pending at an earlier position. */
  ghost predicate Satisfiable(plan: Plan, i: nat, d: Id)
    requires i < |plan.nodes|
  {
    exists j :: && 0 <= j < |plan.nodes| && plan.nodes[j].id == d
                && (plan.nodes[j].status == Completed || (j < i && plan.nodes[j].status == Pending))
  }

  /** The list order respects the dependencies of every Pending node up to a position. */
  ghost predicate OrderedUpTo(plan: Plan, last: nat) {
    forall i, d | 0 <= i < |plan.nodes| && i <= last && plan.nodes[i].status == Pending && d in plan.nodes[i].deps ::
      Satisfiable(plan, i, d)
  }

  /** The list order respects the dependencies of every Pending node. */
  ghost predicate Ordered(plan: Plan) {
    OrderedUpTo(plan, |plan.nodes|)
  }

  /**
    Where the executor first fails when the Pending nodes are run in list order, or the
    length of the list. Dependencies play no part in it.
   */
  ghost function FirstFailure(exec: Executor, plan: Plan): (f: nat)
    ensures NextPending(plan) <= f <= |plan.nodes|
    decreases PendingCount(plan.nodes)
  {
    var k := NextPending(plan);
    if k == |plan.nodes| || Settled(exec, plan).status == Failed then k
    else
      CountUpdate(plan.nodes, k, Settled(exec, plan));
      FirstFailure(exec, plan.(nodes := plan.nodes[k := Settled(exec, plan)]))
  }

  lemma PassKeepsOrder(exec: Executor, s: Run, last: nat)
    requires UniqueIds(s.plan) && Live(s) && Iterate(exec, s).end.result.None?
    ensures OrderedUpTo(Iterate(exec, s).end.plan, last) <==> OrderedUpTo(s.plan, last)
  {
  }

  lemma {:induction false} ReturnsIffOrdered(exec: Executor, s: Run)
    requires UniqueIds(s.plan) && s.result.None?
    ensures Drive(exec, s).end.result.Some? <==> OrderedUpTo(s.plan, FirstFailure(exec, s.plan))
    decreases PendingCount(s.plan.nodes)
  {
    if Live(s) {
      PassShrinks(exec, s);
      LivePass(exec, s);
      if Iterate(exec, s).end.result.None? {
        PassKeepsOrder(exec, s, FirstFailure(exec, s.plan));
        ReturnsIffOrdered(exec, Iterate(exec, s).end);
      }
    }
  }

  lemma {:induction false} NoFailure(exec: Executor, plan: Plan)
    requires AlwaysSucceeds(exec)
    ensures FirstFailure(exec, plan) == |plan.nodes|
    decreases PendingCount(plan.nodes)
  {
    var k := NextPending(plan);
    if k < |plan.nodes| {
      CountUpdate(plan.nodes, k, Settled(exec, plan));
      NoFailure(exec, plan.(nodes := plan.nodes[k := Settled(exec, plan)]));
    }
  }

  /** `execute` returns if and only if the plan is ordered up to the first node at which the executor fails. */
  lemma {:induction false} TerminatesIffOrderedSoFar(exec: Executor, plan: Plan)
    requires UniqueIds(plan)
    ensures Terminates(exec, Start(plan)) <==> OrderedUpTo(plan, FirstFailure(exec, Start(plan).plan))
  {
    var s := Start(plan);
    forall i, d | 0 <= i < |plan.nodes| ensures Satisfiable(s.plan, i, d) <==> Satisfiable(plan, i, d) {
    }
    TerminatesIffDriven(exec, s);
    ReturnsIffOrdered(exec, s);
  }

  /** It returns on every ordered plan whatever the executor does; if the executor always succeeds, only on those. */
  lemma {:induction false} TerminatesIffOrdered(exec: Executor, plan: Plan)
    requires UniqueIds(plan)
    ensures Ordered(plan) ==> Terminates(exec, Start(plan))
    ensures AlwaysSucceeds(exec) ==> (Terminates(exec, Start(plan)) <==> Ordered(plan))
  {
    TerminatesIffOrderedSoFar(exec, plan);
    if AlwaysSucceeds(exec) {
      NoFailure(exec, Start(plan).plan);
    }
  }

  /** Every dependency has a smaller rank than the node that depends on it. */
  ghost predicate Ranks(plan: Plan, rank: map<Id, nat>) {
    forall i, d :: 0 <= i < |plan.nodes| && d in plan.nodes[i].deps ==>
                     d in rank && plan.nodes[i].id in rank && rank[d] < rank[plan.nodes[i].id]
  }

  ghost predicate Acyclic(plan: Plan) {
    exists rank :: Ranks(plan, rank)
  }

  /** Of plans that have not started, the ordered ones are acyclic. */
  lemma OrderedIsAcyclic(plan: Plan)
    requires UniqueIds(plan) && Ordered(plan) && forall i :: 0 <= i < |plan.nodes| ==> plan.nodes[i].status == Pending
    ensures Acyclic(plan)
  {
    var rank := map i | 0 <= i < |plan.nodes| :: plan.nodes[i].id := i;
    forall i, d | 0 <= i < |plan.nodes| && d in plan.nodes[i].deps
      ensures d in rank && plan.nodes[i].id in rank && rank[d] < rank[plan.nodes[i].id]
    {
      assert Satisfiable(plan, i, d);
    }
    assert Ranks(plan, rank);
  }

  /** Node 1 depends on node 2, which follows it. */
  const BACKWARDS :=
    Plan(0, "", [Node(1, "", Pending, [2], None, None), Node(2, "", Pending, [], None, None)], PlanPending)

  /** Not the other way round: an acyclic plan on which `execute` never returns, whatever the executor does. */
  lemma {:induction false} AcyclicCanSpin(exec: Executor)
    ensures UniqueIds(BACKWARDS) && Acyclic(BACKWARDS) && !Terminates(exec, Start(BACKWARDS))
  {
    BackwardsAcyclic();
    hide Terminates;
    hide UniqueIds;
    hide Acyclic;
    hide FirstFailure;
    BackwardsUnordered(FirstFailure(exec, Start(BACKWARDS).plan));
    hide OrderedUpTo;
    TerminatesIffOrderedSoFar(exec, BACKWARDS);
  }

  lemma BackwardsAcyclic()
    ensures UniqueIds(BACKWARDS) && Acyclic(BACKWARDS)
  {
    assert Ranks(BACKWARDS, map[1 := 1, 2 := 0]);
  }

  lemma BackwardsUnordered(last: nat)
    ensures !OrderedUpTo(BACKWARDS, last)
  {
    assert !Satisfiable(BACKWARDS, 0, 2);
    assert BACKWARDS.nodes[0].status == Pending && 2 in BACKWARDS.nodes[0].deps;
  }

  // ---------------------------------------------------------------------
  // Shape of the log
  // ---------------------------------------------------------------------

  /** (Started Completed)* followed by AllCompleted or by Started Failed, all of one plan. */
  ghost predicate StepsThenEnd(es: seq<Event>, planId: Id) {
    || es == [AllCompleted(planId)]
    || (|es| == 2 && es[0].Started? && es[0].planId == planId
        && es[1].StepFailed? && es[1].planId == planId && es[1].step == es[0].step)
    || (|es| >= 2 && es[0].Started? && es[0].planId == planId
        && es[1].StepCompleted? && es[1].planId == planId && es[1].step == es[0].step
        && StepsThenEnd(es[2..], planId))
  }

  lemma {:induction false} EventsShape(exec: Executor, s: Run)
    requires UniqueIds(s.plan) && s.result.None? && Drive(exec, s).end.result.Some?
    ensures StepsThenEnd(Drive(exec, s).events, s.plan.id)
    decreases PendingCount(s.plan.nodes)
  {
    if Live(s) {
      PassShrinks(exec, s);
      var t := Iterate(exec, s).end;
      if t.result.None? {
        EventsShape(exec, t);
      }
    }
  }

  /** How a run that returns ends: with AllCompleted and the plan Completed, or with the failure it reports. */
  lemma {:induction false} EndOfRun(exec: Executor, s: Run)
    requires UniqueIds(s.plan) && s.result.None? && Drive(exec, s).end.result.Some?
    ensures var leg := Drive(exec, s); var n := |leg.events|;
            && n >= 1
            && (if leg.end.result.value.Ok? then
                  leg.end.plan.status == PlanCompleted && leg.events[n - 1] == AllCompleted(s.plan.id)
                else
                  && leg.end.plan.status == PlanFailed && leg.events[n - 1].StepFailed?
                  && leg.events[n - 1].error == leg.end.result.value.error)
    decreases PendingCount(s.plan.nodes)
  {
    if Live(s) {
      DriveLive(exec, s);
      LivePass(exec, s);
      var t := Iterate(exec, s).end;
      if t.result.None? {
        EndOfRun(exec, t);
      } else {
        assert Drive(exec, t).events == [];
      }
    }
  }

  /** A completion of `d` is recorded before position `k`. */
  ghost predicate CompletedBefore(es: seq<Event>, k: nat, d: Id)
    requires k <= |es|
  {
    exists m :: 0 <= m < k && es[m].StepCompleted? && es[m].step == d
  }

  /** The step started at `k` was Pending, and its dependencies were Completed then or have completed since. */
  ghost predicate StartJustified(plan: Plan, es: seq<Event>, k: nat)
    requires k < |es| && es[k].Started?
  {
    var f := FindNode(plan, es[k].step);
    && f < |plan.nodes| && plan.nodes[f].status == Pending
    && forall d :: d in plan.nodes[f].deps ==> IsCompleted(plan, d) || CompletedBefore(es, k, d)
  }

  /** A live pass completes at most the node it works on, and keeps every id where it was. */
  lemma PassCompletesOnlyHead(exec: Executor, s: Run, d: Id)
    requires UniqueIds(s.plan) && Live(s)
    ensures var t := Iterate(exec, s).end;
            && FindNode(t.plan, d) == FindNode(s.plan, d)
            && (IsCompleted(t.plan, d) ==>
                  IsCompleted(s.plan, d) || (t.result.None? && d == s.plan.nodes[NextPending(s.plan)].id))
  {
  }

  /** What justifies a start after a pass justifies it before, two events later. */
  lemma JustifiedBeforePass(exec: Executor, s: Run, es: seq<Event>, k: nat)
    requires UniqueIds(s.plan) && Live(s)
    requires k < |es| && es[k].Started? && StartJustified(Iterate(exec, s).end.plan, es, k)
    ensures |Iterate(exec, s).events| == 2
    ensures StartJustified(s.plan, Iterate(exec, s).events + es, k + 2)
  {
    LivePass(exec, s);
    var t, all := Iterate(exec, s).end, Iterate(exec, s).events + es;
    var f := FindNode(s.plan, es[k].step);
    forall d | d in s.plan.nodes[f].deps ensures IsCompleted(s.plan, d) || CompletedBefore(all, k + 2, d) {
      PassCompletesOnlyHead(exec, s, d);
      if !IsCompleted(t.plan, d) {
        var m :| 0 <= m < k && es[m].StepCompleted? && es[m].step == d;
        assert all[m + 2] == es[m];
      } else if !IsCompleted(s.plan, d) {
        assert all[1].StepCompleted? && all[1].step == d;
      }
    }
  }

  lemma HeadJustified(exec: Executor, s: Run, es: seq<Event>)
    requires UniqueIds(s.plan) && Live(s)
    ensures var all := Iterate(exec, s).events + es;
            && |all| == |es| + 2 && all[0].Started? && !all[1].Started? && StartJustified(s.plan, all, 0)
  {
  }

  lemma {:induction false} StartsJustified(exec: Executor, s: Run, k: nat)
    requires UniqueIds(s.plan) && k < |Drive(exec, s).events| && Drive(exec, s).events[k].Started?
    ensures StartJustified(s.plan, Drive(exec, s).events, k)
    decreases PendingCount(s.plan.nodes)
  {
    hide Iterate;
    hide StartJustified;
    if Live(s) {
      DriveLive(exec, s);
      var rest := Drive(exec, Iterate(exec, s).end).events;
      HeadJustified(exec, s, rest);
      if k >= 2 {
        StartsJustified(exec, Iterate(exec, s).end, k - 2);
        JustifiedBeforePass(exec, s, rest, k - 2);
      }
    } else {
      IdleStartsNothing(exec, s);
    }
  }

  lemma {:induction false} IdleStartsNothing(exec: Executor, s: Run)
    requires UniqueIds(s.plan) && !Live(s)
    ensures forall k :: 0 <= k < |Drive(exec, s).events| ==> !Drive(exec, s).events[k].Started?
  {
  }

  /** The ids of the Started events, in order. */
  ghost function StartedIds(es: seq<Event>): seq<Id> {
    if es == [] then [] else (if es[0].Started? then [es[0].step] else []) + StartedIds(es[1..])
  }

  ghost predicate NoDuplicates(ids: seq<Id>) {
    forall i, j :: 0 <= i < j < |ids| ==> ids[i] != ids[j]
  }

  lemma {:induction false} StartedIdAt(es: seq<Event>, i: nat) returns (k: nat)
    requires i < |StartedIds(es)|
    ensures k < |es| && es[k].Started? && es[k].step == StartedIds(es)[i]
  {
    if es[0].Started? && i == 0 {
      k := 0;
    } else {
      k := StartedIdAt(es[1..], if es[0].Started? then i - 1 else i);
      k := k + 1;
    }
  }

  lemma {:induction false} StartedIdsPair(es: seq<Event>, rest: seq<Event>)
    requires |es| == 2 && es[0].Started? && !es[1].Started?
    ensures StartedIds(es + rest) == [es[0].step] + StartedIds(rest)
  {
  }

  lemma {:induction false} DriveStarts(exec: Executor, s: Run)
    requires UniqueIds(s.plan) && Live(s)
    ensures UniqueIds(Iterate(exec, s).end.plan)
    ensures StartedIds(Drive(exec, s).events)
         == [s.plan.nodes[NextPending(s.plan)].id] + StartedIds(Drive(exec, Iterate(exec, s).end).events)
  {
    LivePass(exec, s);
    StartedIdsPair(Iterate(exec, s).events, Drive(exec, Iterate(exec, s).end).events);
  }

  lemma {:induction false} NoStepStartsTwice(exec: Executor, s: Run)
    requires UniqueIds(s.plan)
    ensures NoDuplicates(StartedIds(Drive(exec, s).events))
    decreases PendingCount(s.plan.nodes)
  {
    if Live(s) {
      PassShrinks(exec, s);
      DriveStarts(exec, s);
      var t, k := Iterate(exec, s).end, NextPending(s.plan);
      NoStepStartsTwice(exec, t);
      var rest := StartedIds(Drive(exec, t).events);
      forall i | 0 <= i < |rest| ensures rest[i] != s.plan.nodes[k].id {
        var m := StartedIdAt(Drive(exec, t).events, i);
        StartsJustified(exec, t, m);
        LivePass(exec, s);
        PassCompletesOnlyHead(exec, s, s.plan.nodes[k].id);
      }
    }
  }

  /** The latest completion in an event list. */
  function LatestDone(es: seq<Event>): (e: Option<Event>)
    ensures e.Some? ==> e.value.StepCompleted?
  {
    if es == [] then None
    else if es[|es| - 1].StepCompleted? then Some(es[|es| - 1])
    else LatestDone(es[..|es| - 1])
  }

  lemma {:induction false} LatestDoneConcat(a: seq<Event>, b: seq<Event>)
    ensures LatestDone(a + b) == if LatestDone(b).Some? then LatestDone(b) else LatestDone(a)
  {
    if b == [] {
      assert a + b == a;
    } else {
      assert (a + b)[..|a + b| - 1] == a + b[..|b| - 1];
      LatestDoneConcat(a, b[..|b| - 1]);
    }
  }

  // ---------------------------------------------------------------------
  // The log is the source of truth
  // ---------------------------------------------------------------------

  function Apply(plan: Plan, e: Event): Plan {
    match e
    case Created(_, _) => plan.(status := PlanRunning)
    case AllCompleted(_) => plan.(status := PlanCompleted)
    case Started(_, id) =>
      var k := FindNode(plan, id);
      if k == |plan.nodes| then plan else SetNode(plan, id, plan.nodes[k].(status := Running))
    case StepCompleted(_, id, v) =>
      var k := FindNode(plan, id);
      if k == |plan.nodes| then plan
      else SetNode(plan, id, plan.nodes[k].(status := Completed, output := Some(v)))
    case StepFailed(_, id, e) =>
      var k := FindNode(plan, id);
      if k == |plan.nodes| then plan
      else SetNode(plan, id, plan.nodes[k].(status := Failed, error := Some(e))).(status := PlanFailed)
  }

  /** Rebuild a plan from events alone. */
  function Replay(plan: Plan, es: seq<Event>): Plan
    decreases |es|
  {
    if es == [] then plan else Replay(Apply(plan, es[0]), es[1..])
  }

  lemma ReplayPass(exec: Executor, s: Run, rest: seq<Event>)
    requires UniqueIds(s.plan) && Live(s)
    ensures Replay(s.plan, Iterate(exec, s).events + rest) == Replay(Iterate(exec, s).end.plan, rest)
  {
  }

  lemma {:induction false} ReplayRebuilds(exec: Executor, s: Run)
    requires UniqueIds(s.plan) && s.result.None?
    ensures Replay(s.plan, Drive(exec, s).events) == Drive(exec, s).end.plan
    decreases PendingCount(s.plan.nodes)
  {
    if Live(s) {
      PassShrinks(exec, s);
      var t := Iterate(exec, s).end;
      ReplayPass(exec, s, Drive(exec, t).events);
      if t.result.None? {
        ReplayRebuilds(exec, t);
      }
    }
  }

  /** The complete event log of an execution. */
  ghost function Log(exec: Executor, plan: Plan): seq<Event>
    requires UniqueIds(plan)
  {
    [Created(plan.id, plan.description)] + Drive(exec, Start(plan)).events
  }

  /**
    Every execution that returns, successfully or not: after Created its log is
    (Started Completed)* and then AllCompleted or Started Failed; every start was
    justified by the dependencies; no step started twice; and replaying the log
    over the initial plan rebuilds the final plan exactly.
   */
  lemma {:induction false} LogTellsTheRun(exec: Executor, plan: Plan)
    requires UniqueIds(plan) && Terminates(exec, Start(plan))
    ensures var steps := Log(exec, plan)[1..];
            && StepsThenEnd(steps, plan.id)
            && (forall k :: 0 <= k < |steps| && steps[k].Started? ==>
                              StartJustified(plan.(status := PlanRunning), steps, k))
            && NoDuplicates(StartedIds(steps))
            && Replay(plan, Log(exec, plan)) == Drive(exec, Start(plan)).end.plan
  {
    var s := Start(plan);
    TerminatesIffDriven(exec, s);
    EventsShape(exec, s);
    var steps := Drive(exec, s).events;
    forall k | 0 <= k < |steps| && steps[k].Started? ensures StartJustified(s.plan, steps, k) {
      StartsJustified(exec, s, k);
    }
    NoStepStartsTwice(exec, s);
    ReplayRebuilds(exec, s);
  }

  // ---------------------------------------------------------------------
  // Order and number of passes
  // ---------------------------------------------------------------------

  lemma {:induction false} PendingIdsSplit(nodes: seq<Node>, k: nat, node: Node)
    requires k < |nodes| && nodes[k].status == Pending && node.status != Pending
    requires forall i :: 0 <= i < k ==> nodes[i].status != Pending
    ensures PendingIds(nodes) == [nodes[k].id] + PendingIds(nodes[k := node])
  {
    if k > 0 {
      PendingIdsSplit(nodes[1..], k - 1, node);
    }
  }

  lemma {:induction false} NonePending(nodes: seq<Node>)
    requires forall i :: 0 <= i < |nodes| ==> nodes[i].status != Pending
    ensures PendingIds(nodes) == [] && PendingCount(nodes) == 0
  {
    if nodes != [] {
      NonePending(nodes[1..]);
      NonePending(nodes[..|nodes| - 1]);
    }
  }

  /** A successful run starts exactly the Pending nodes, in list order, one pass each, and then returns. */
  lemma {:induction false} OnePassPerPending(exec: Executor, s: Run, n: nat)
    requires UniqueIds(s.plan) && s.result.None? && Drive(exec, s).end.result == Some(Ok(()))
    ensures StartedIds(Drive(exec, s).events) == PendingIds(s.plan.nodes)
    ensures IterateN(exec, s, n).end.result.Some? <==> n > PendingCount(s.plan.nodes)
    decreases PendingCount(s.plan.nodes)
  {
    if Live(s) {
      PassShrinks(exec, s);
      LivePass(exec, s);
      var k, t := NextPending(s.plan), Iterate(exec, s).end;
      DriveStarts(exec, s);
      OnePassPerPending(exec, t, if n > 0 then n - 1 else 0);
      PendingIdsSplit(s.plan.nodes, k, Settled(exec, s.plan));
      CountUpdate(s.plan.nodes, k, Settled(exec, s.plan));
    } else {
      NonePending(s.plan.nodes);
      if n > 0 {
        FixedPoint(exec, Iterate(exec, s).end, n - 1);
      }
    }
  }

  /**
    A node that is not Pending when `execute` is called is never touched, whatever
    its status: a node left Running by a crash stays Running for good.
   */
  lemma {:induction false} OnlyPendingTouched(exec: Executor, s: Run, i: nat)
    requires UniqueIds(s.plan) && i < |s.plan.nodes| && s.plan.nodes[i].status != Pending
    ensures |Drive(exec, s).end.plan.nodes| == |s.plan.nodes|
    ensures Drive(exec, s).end.plan.nodes[i] == s.plan.nodes[i]
    decreases PendingCount(s.plan.nodes)
  {
    if Live(s) {
      PassShrinks(exec, s);
      OnlyPendingTouched(exec, Iterate(exec, s).end, i);
    }
  }

  /** In a run that ends Ok, a node ends Completed if and only if it began Pending or Completed. */
  lemma {:induction false} EndsCompleted(exec: Executor, s: Run, i: nat)
    requires UniqueIds(s.plan) && s.result.None? && Drive(exec, s).end.result == Some(Ok(())) && i < |s.plan.nodes|
    ensures Drive(exec, s).end.plan.status == PlanCompleted
    ensures |Drive(exec, s).end.plan.nodes| == |s.plan.nodes|
    ensures Drive(exec, s).end.plan.nodes[i].status == Completed
       <==> (s.plan.nodes[i].status == Pending || s.plan.nodes[i].status == Completed)
    decreases PendingCount(s.plan.nodes)
  {
    if Live(s) {
      DriveLive(exec, s);
      LivePass(exec, s);
      EndsCompleted(exec, Iterate(exec, s).end, i);
    }
  }

  /** A plan reported Completed has every node Completed if and only if every node began Pending or Completed. */
  lemma {:induction false} ReportedCompleted(exec: Executor, plan: Plan)
    requires UniqueIds(plan) && Drive(exec, Start(plan)).end.result == Some(Ok(()))
    ensures var final := Drive(exec, Start(plan)).end.plan;
            && final.status == PlanCompleted && |final.nodes| == |plan.nodes|
            && ((forall i :: 0 <= i < |final.nodes| ==> final.nodes[i].status == Completed)
                <==> forall i :: 0 <= i < |plan.nodes| ==>
                       plan.nodes[i].status == Pending || plan.nodes[i].status == Completed)
  {
    forall i | 0 <= i < |plan.nodes|
      ensures var final := Drive(exec, Start(plan)).end.plan;
              && final.status == PlanCompleted && |final.nodes| == |plan.nodes|
              && (final.nodes[i].status == Completed
                  <==> (plan.nodes[i].status == Pending || plan.nodes[i].status == Completed))
    {
      EndsCompleted(exec, Start(plan), i);
    }
    if plan.nodes != [] {
      EndsCompleted(exec, Start(plan), 0);
    }
  }

  /** A node that a crash left Running. */
  const INTERRUPTED := Plan(0, "", [Node(1, "", Running, [], None, None)], PlanRunning)

  /** It is reported Completed with the node still Running. */
  lemma InterruptedReportedCompleted(exec: Executor)
    ensures var end := Drive(exec, Start(INTERRUPTED)).end;
            && end.result == Some(Ok(())) && end.plan.status == PlanCompleted
            && end.plan.nodes == INTERRUPTED.nodes && end.plan.nodes[0].status == Running
  {
  }

  // ---------------------------------------------------------------------
  // Resuming from a step boundary
  // ---------------------------------------------------------------------

  /** Passes of a run that has not returned leave the plan's identity alone. */
  lemma {:induction false} BoundaryHeader(exec: Executor, s: Run, m: nat)
    requires UniqueIds(s.plan) && s.result.None? && IterateN(exec, s, m).end.result.None?
    ensures var b := IterateN(exec, s, m).end.plan;
            UniqueIds(b) && b.id == s.plan.id && b.description == s.plan.description && b.status == s.plan.status
    decreases m
  {
    if m > 0 {
      var t := Iterate(exec, s).end;
      if t.result.Some? {
        FixedPoint(exec, t, m - 1);
      } else {
        PassHeader(exec, s);
        BoundaryHeader(exec, t, m - 1);
      }
    }
  }

  lemma {:induction false} PassHeader(exec: Executor, s: Run)
    requires UniqueIds(s.plan) && s.result.None? && Iterate(exec, s).end.result.None?
    ensures var b := Iterate(exec, s).end.plan;
            UniqueIds(b) && b.id == s.plan.id && b.description == s.plan.description && b.status == s.plan.status
  {
  }

  /**
    Crash-resume: executing again from the plan as it stood after any number of
    passes gives the same final plan and result, and the resumed log after its
    Created is exactly what was still missing from the uninterrupted one.
   */
  lemma {:induction false} ResumeEquivalent(exec: Executor, plan: Plan, m: nat)
    requires UniqueIds(plan) && IterateN(exec, Start(plan), m).end.result.None?
    ensures var b := IterateN(exec, Start(plan), m);
            && UniqueIds(b.end.plan)
            && Drive(exec, Start(b.end.plan)).end == Drive(exec, Start(plan)).end
            && Log(exec, plan) == [Created(plan.id, plan.description)] + b.events + Log(exec, b.end.plan)[1..]
  {
    var s, b := Start(plan), IterateN(exec, Start(plan), m);
    BoundaryHeader(exec, s, m);
    var n := PendingCount(s.plan.nodes) + PendingCount(b.end.plan.nodes) + 1;
    IterateSplit(exec, s, m, n);
    LoopSettles(exec, s, m + n);
    LoopSettles(exec, b.end, n);
  }

  // ---------------------------------------------------------------------
  // The engine object
  // ---------------------------------------------------------------------

  /** What a caller of `execute` sees: a result, or a loop that goes round for ever. */
  datatype Outcome = Returned(result: Result<(), string>) | Spins

  class Engine {
    const exec: Executor
    var eventLog: seq<Event>

    constructor (exec: Executor)
      ensures this.exec == exec && eventLog == []
    {
      this.exec := exec;
      this.eventLog := [];
    }

    /** One pass of the loop body; `None` means go round again. */
    method Pass(plan0: Plan) returns (plan: Plan, outcome: Option<Outcome>)
      requires NextPending(plan0) < |plan0.nodes|
      modifies this`eventLog
      ensures var s := Run(plan0, None); var leg := Iterate(exec, s);
              && plan == leg.end.plan && eventLog == old(eventLog) + leg.events
              && (outcome == if Stuck(s) then Some(Spins)
                             else if leg.end.result.Some? then Some(Returned(leg.end.result.value)) else None)
    {
      var id := plan0.nodes[NextPending(plan0)].id;
      var node := plan0.nodes[FindNode(plan0, id)];
      if !DepsMet(plan0, node) {
        return plan0, Some(Spins);
      }
      plan := SetNode(plan0, id, node.(status := Running));
      eventLog := eventLog + [Started(plan.id, id)];
      match exec(plan, id) {
        case Ok(output) =>
          plan := SetNode(plan, id, node.(status := Completed, output := Some(output)));
          eventLog := eventLog + [StepCompleted(plan.id, id, output)];
          outcome := None;
        case Err(e) =>
          plan := SetNode(plan, id, node.(status := Failed, error := Some(e))).(status := PlanFailed);
          eventLog := eventLog + [StepFailed(plan.id, id, e)];
          outcome := Some(Returned(Err(e)));
      }
    }

    /**
      The loop, which stops here when a pass makes no progress: `LoopSettles` says none
      ever will, and `TerminatesIffDriven` that this is the only way not to return.
     */
    method Execute(plan0: Plan) returns (plan: Plan, outcome: Outcome)
      requires UniqueIds(plan0)
      modifies this`eventLog
      ensures var final := Drive(exec, Start(plan0)).end;
              && plan == final.plan && eventLog == old(eventLog) + Log(exec, plan0)
              && (outcome == if final.result.Some? then Returned(final.result.value) else Spins)
    {
      hide Drive;
      hide Iterate;
      hide Stuck;
      plan := plan0.(status := PlanRunning);
      eventLog := eventLog + [Created(plan.id, plan.description)];
      ghost var s, n := Start(plan0), 0;
      NoPass(exec, s);
      while NextPending(plan) < |plan.nodes|
        invariant IterateN(exec, s, n).end == Run(plan, None)
        invariant eventLog == old(eventLog) + ([Created(plan0.id, plan0.description)] + IterateN(exec, s, n).events)
        invariant UniqueIds(plan)
        decreases PendingCount(plan.nodes)
      {
        OneMorePass(exec, s, n);
        if Live(Run(plan, None)) {
          PassShrinks(exec, Run(plan, None));
        } else {
          StuckPass(exec, Run(plan, None));
        }
        var ended;
        plan, ended := Pass(plan);
        n := n + 1;
        if ended.Some? {
          SettledIsDriven(exec, s, n);
          return plan, ended.value;
        }
      }
      OneMorePass(exec, s, n);
      LastPass(exec, Run(plan, None));
      SettledIsDriven(exec, s, n + 1);
      plan := plan.(status := PlanCompleted);
      eventLog := eventLog + [AllCompleted(plan.id)];
      outcome := Returned(Ok(()));
    }
  }
}
