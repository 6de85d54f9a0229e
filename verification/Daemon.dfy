/**
  The line-delimited JSON daemon. One reader consumes stdin in order; plan and
  model-call requests run as spawned tasks; everything is written to one stdout
  under a lock, the text of a line and its newline as separate writes. A run is
  an arbitrary sequence of step labels, so every interleaving is covered.
 */
module Daemon {
  import opened Wrappers
  import opened Plans
  import opened PlanEngine

  /** One input line. `Ignored` is a blank line or an unsolicited message; reading an `Unreadable` one fails. */
  datatype Line =
    | Unreadable
    | Ignored
    | Malformed(reason: string)
    | ExecutePlan(requestId: Id, plan: Plan)
    | Ping(requestId: Id)
    | ListProviders(requestId: Id)
    | LlmCall(requestId: Id, system: string, prompt: string)
    | Shutdown(requestId: Id)

  datatype Message =
    | EventNotification(requestId: Id, event: Event)
    | ExecuteResponse(requestId: Id, completed: bool, output: Option<Value>, error: Option<string>)
    | PingResponse(requestId: Id)
    | ProvidersResponse(requestId: Id)
    | LlmResponse(requestId: Id, completed: bool, content: string, error: Option<string>)

  /** `providersOk` says whether the provider profiles serialise. */
  datatype Env = Env(exec: Executor, complete: string -> Result<string, string>, providersOk: bool)

  const NIL: Id := 0

  // ---------------------------------------------------------------------
  // What each line is answered with
  // ---------------------------------------------------------------------

  function Notifications(requestId: Id, es: seq<Event>): seq<Message> {
    seq(|es|, i requires 0 <= i < |es| => EventNotification(requestId, es[i]))
  }

  function Terminal(requestId: Id, plan: Plan, result: Result<(), string>): Message {
    match result
    case Ok(_) =>
      ExecuteResponse(requestId, true, if plan.nodes == [] then None else plan.nodes[|plan.nodes| - 1].output, None)
    case Err(e) => ExecuteResponse(requestId, false, None, Some(e))
  }

  function LlmAnswer(env: Env, requestId: Id, system: string, prompt: string): Message {
    match env.complete(if system == "" then prompt else system + "\n\n" + prompt)
    case Ok(content) => LlmResponse(requestId, true, content, None)
    case Err(e) => LlmResponse(requestId, false, "", Some(e))
  }

  ghost predicate Returns(env: Env, line: Line) {
    line.ExecutePlan? ==> UniqueIds(line.plan) && Drive(env.exec, Start(line.plan)).end.result.Some?
  }

  /** The messages a line is answered with, in order. */
  ghost function Replies(env: Env, line: Line): seq<Message>
    requires Returns(env, line)
  {
    match line
    case Unreadable => []
    case Ignored => []
    case Shutdown(_) => []
    case Malformed(reason) => [ExecuteResponse(NIL, false, None, Some("parse error: " + reason))]
    case Ping(id) => [PingResponse(id)]
    case ListProviders(id) => if env.providersOk then [ProvidersResponse(id)] else []
    case LlmCall(id, system, prompt) => [LlmAnswer(env, id, system, prompt)]
    case ExecutePlan(id, plan) =>
      var final := Drive(env.exec, Start(plan)).end;
      Notifications(id, Log(env.exec, plan)) + [Terminal(id, final.plan, final.result.value)]
  }

  /** `process_request`: a fresh engine, its whole event log, then one terminal response. */
  method ProcessRequest(env: Env, requestId: Id, plan: Plan) returns (r: Option<seq<Message>>)
    requires UniqueIds(plan)
    ensures r.Some? <==> Returns(env, ExecutePlan(requestId, plan))
    ensures r.Some? ==> r.value == Replies(env, ExecutePlan(requestId, plan))
  {
    var engine := new Engine(env.exec);
    var final, outcome := engine.Execute(plan);
    assert engine.eventLog == Log(env.exec, plan);
    match outcome {
      case Spins => r := None;
      case Returned(result) =>
        r := Some(Notifications(requestId, engine.eventLog) + [Terminal(requestId, final, result)]);
    }
  }

  /**
    The whole answer to a plan that returns: the log, event by event, and then the one
    response. It says completed if and only if the log ends in AllCompleted and the plan
    is Completed; otherwise the log ends in the failure whose error the response carries,
    without output.
   */
  lemma {:induction false} PlanAnswered(env: Env, id: Id, plan: Plan)
    requires Returns(env, ExecutePlan(id, plan))
    ensures var replies := Replies(env, ExecutePlan(id, plan)); var log := Log(env.exec, plan);
            var final := Drive(env.exec, Start(plan)).end.plan; var n := |log|;
            && |replies| == n + 1 && n >= 1
            && (forall i :: 0 <= i < n ==> replies[i] == EventNotification(id, log[i]))
            && replies[n].ExecuteResponse? && replies[n].requestId == id
            && (replies[n].completed <==> final.status == PlanCompleted)
            && (replies[n].completed <==> log[n - 1] == AllCompleted(plan.id))
            && (replies[n].completed ==>
                  && replies[n].error == None
                  && replies[n].output == if final.nodes == [] then None else final.nodes[|final.nodes| - 1].output)
            && (!replies[n].completed ==>
                  && log[n - 1].StepFailed? && replies[n].error == Some(log[n - 1].error) && replies[n].output == None)
  {
    EndOfRun(env.exec, Start(plan));
    hide Drive;
  }

  /** Every other line: who is answered, with what id, and what a model call asks for and reports. */
  lemma OthersAnswered(env: Env, line: Line)
    requires !line.ExecutePlan?
    ensures var replies := Replies(env, line);
            && (line.Unreadable? || line.Ignored? || line.Shutdown? ==> replies == [])
            && (line.Ping? ==> replies == [PingResponse(line.requestId)])
            && (line.ListProviders? ==>
                  |replies| == (if env.providersOk then 1 else 0)
                  && forall m :: m in replies ==> m == ProvidersResponse(line.requestId))
            && (line.Malformed? ==>
                  && |replies| == 1 && replies[0].ExecuteResponse? && replies[0].requestId == 0
                  && !replies[0].completed && replies[0].output == None
                  && replies[0].error == Some("parse error: " + line.reason))
    ensures line.LlmCall? ==>
              var replies := Replies(env, line);
              var asked := if line.system == "" then line.prompt else line.system + "\n\n" + line.prompt;
              var answer := env.complete(asked);
              && |replies| == 1 && replies[0].LlmResponse? && replies[0].requestId == line.requestId
              && (answer.Ok? ==> replies[0] == LlmResponse(line.requestId, true, answer.value, None))
              && (answer.Err? ==> replies[0] == LlmResponse(line.requestId, false, "", Some(answer.error)))
  {
  }

  /**
    Read as last in time: the latest completion is of the node whose output is reported if
    and only if that node was Pending at the request; its output is then the one reported.
   */
  lemma {:induction false} ResponseIsLatestOutput(exec: Executor, plan: Plan, requestId: Id)
    requires UniqueIds(plan) && plan.nodes != [] && Drive(exec, Start(plan)).end.result == Some(Ok(()))
    ensures var leg := Drive(exec, Start(plan)); var node := plan.nodes[|plan.nodes| - 1];
            var latest := LatestDone(leg.events);
            && (latest.Some? && latest.value.step == node.id <==> node.status == Pending)
            && (node.status == Pending ==>
                  Terminal(requestId, leg.end.plan, Ok(())).output == Some(latest.value.output))
  {
    var s, n := Start(plan), |plan.nodes|;
    hide Drive;
    hide LatestDone;
    if plan.nodes[n - 1].status == Pending {
      LastNodeIsLatest(exec, s);
    } else {
      NeverLatest(exec, s, n - 1);
    }
  }

  /** A node that is not Pending is not the latest to complete. */
  lemma {:induction false} NeverLatest(exec: Executor, s: Run, i: nat)
    requires UniqueIds(s.plan) && i < |s.plan.nodes| && s.plan.nodes[i].status != Pending
    ensures var latest := LatestDone(Drive(exec, s).events); latest.Some? ==> latest.value.step != s.plan.nodes[i].id
    decreases PendingCount(s.plan.nodes)
  {
    if Live(s) {
      DriveLive(exec, s);
      LivePass(exec, s);
      var first := Iterate(exec, s);
      hide Iterate;
      hide Drive;
      hide Live;
      NeverLatest(exec, first.end, i);
      LatestDoneConcat(first.events, Drive(exec, first.end).events);
      LatestOfTwo(first.events);
    } else {
      assert |Drive(exec, s).events| <= 1;
    }
  }

  lemma LatestOfTwo(es: seq<Event>)
    requires |es| == 2 && !es[0].StepCompleted?
    ensures LatestDone(es) == if es[1].StepCompleted? then Some(es[1]) else None
  {
    assert es[..1] == [es[0]] && [es[0]][..0] == [];
    assert LatestDone([es[0]]) == None;
  }

  lemma {:induction false} LastNodeIsLatest(exec: Executor, s: Run)
    requires UniqueIds(s.plan) && s.result.None? && Drive(exec, s).end.result == Some(Ok(()))
    requires s.plan.nodes != [] && s.plan.nodes[|s.plan.nodes| - 1].status == Pending
    ensures var leg := Drive(exec, s); var n := |s.plan.nodes|; var latest := LatestDone(leg.events);
            && |leg.end.plan.nodes| == n && latest.Some? && latest.value.step == s.plan.nodes[n - 1].id
            && leg.end.plan.nodes[n - 1].output == Some(latest.value.output)
    decreases PendingCount(s.plan.nodes)
  {
    var n := |s.plan.nodes|;
    LiveUntilDone(exec, s);
    DriveLive(exec, s);
    PassCompletes(exec, s);
    hide Iterate;
    hide Live;
    hide Drive;
    hide LatestDone;
    var first := Iterate(exec, s);
    var rest := Drive(exec, first.end);
    LatestDoneConcat(first.events, rest.events);
    if NextPending(s.plan) < n - 1 {
      LastNodeIsLatest(exec, first.end);
    } else {
      NothingLeft(exec, first.end);
      LatestOfPass(first.events, rest.events, s.plan.id);
    }
  }

  lemma {:induction false} PassCompletes(exec: Executor, s: Run)
    requires UniqueIds(s.plan) && Live(s) && Iterate(exec, s).end.result.None?
    ensures var k := NextPending(s.plan); var leg := Iterate(exec, s); var nodes := leg.end.plan.nodes;
            && leg.end.plan.id == s.plan.id && |leg.events| == 2 && leg.events[1].StepCompleted?
            && leg.events[1].step == s.plan.nodes[k].id
            && k < |nodes| == |s.plan.nodes|
            && nodes[k].status == Completed && nodes[k].output == Some(leg.events[1].output)
            && forall i :: 0 <= i < |nodes| && i != k ==> nodes[i] == s.plan.nodes[i]
  {
    LivePass(exec, s);
  }

  lemma {:induction false} NothingLeft(exec: Executor, s: Run)
    requires UniqueIds(s.plan) && s.result.None?
    requires forall i :: 0 <= i < |s.plan.nodes| ==> s.plan.nodes[i].status != Pending
    ensures var leg := Drive(exec, s);
            leg.events == [AllCompleted(s.plan.id)] && leg.end.plan.nodes == s.plan.nodes
  {
  }

  /** A run that returns successfully is not stuck while a node is Pending, and its next pass does not fail. */
  lemma {:induction false} LiveUntilDone(exec: Executor, s: Run)
    requires UniqueIds(s.plan) && s.result.None? && Drive(exec, s).end.result == Some(Ok(()))
    requires s.plan.nodes != [] && s.plan.nodes[|s.plan.nodes| - 1].status == Pending
    ensures Live(s) && Iterate(exec, s).end.result.None?
  {
  }

  lemma {:induction false} LatestOfPass(pass: seq<Event>, end: seq<Event>, planId: Id)
    requires |pass| == 2 && pass[1].StepCompleted? && end == [AllCompleted(planId)]
    ensures LatestDone(end).None? && LatestDone(pass) == Some(pass[1])
  {
  }

  /**
    The reported node is the last Completed one of the final list if and only if it was
    Pending or Completed at the request; its output is then the one reported.
   */
  lemma {:induction false} ResponseIsLastCompleted(exec: Executor, plan: Plan, requestId: Id)
    requires UniqueIds(plan) && plan.nodes != [] && Drive(exec, Start(plan)).end.result == Some(Ok(()))
    ensures var final := Drive(exec, Start(plan)).end.plan; var n := |plan.nodes|;
            var last := LastCompletedNode(final.nodes);
            var runs := plan.nodes[n - 1].status == Pending || plan.nodes[n - 1].status == Completed;
            && |final.nodes| == n
            && (last == Some(final.nodes[n - 1]) <==> runs)
            && (runs ==> Terminal(requestId, final, Ok(())).output == last.value.output)
  {
    hide Drive;
    EndsCompleted(exec, Start(plan), |plan.nodes| - 1);
  }

  /** One node to run, followed by one that is skipped. */
  const SKIPPED_LAST :=
    Plan(0, "", [Node(1, "", Pending, [], None, None), Node(2, "", Skipped, [], None, None)], PlanPending)

  /** Here a step completes with an output and the response reports none. */
  lemma {:induction false} SkippedLastReportsNothing(exec: Executor, requestId: Id)
    requires AlwaysSucceeds(exec)
    ensures UniqueIds(SKIPPED_LAST)
    ensures var end := Drive(exec, Start(SKIPPED_LAST)).end;
            && end.result == Some(Ok(())) && Terminal(requestId, end.plan, Ok(())).output == None
            && LastCompletedNode(end.plan.nodes).Some? && LastCompletedNode(end.plan.nodes).value.output.Some?
  {
    var s := Start(SKIPPED_LAST);
    LivePass(exec, s);
    DriveLive(exec, s);
    var t := Iterate(exec, s).end;
    NothingLeft(exec, t);
    LastPass(exec, t);
    assert t.plan.nodes[..1] == [t.plan.nodes[0]];
  }

  // ---------------------------------------------------------------------
  // Steps
  // ---------------------------------------------------------------------

  /** A consumed line: still being worked on by its task, or with this much left to write. */
  datatype Slot = Working | Writing(queue: seq<Message>)

  datatype Lock = Free | Held(owner: nat, textWritten: bool)

  /** `origin` is the input line a text answers; it is not part of the output. */
  datatype Chunk = Text(origin: nat, msg: Message) | Newline

  /**
    Line i of the input belongs to slot i once it has been read. After a failed read the
    process is `failing`: it does not wait for its tasks and may end at any moment.
   */
  datatype State = State(open: bool, failing: bool, slots: seq<Slot>, lock: Lock, out: seq<Chunk>)

  datatype Label = Read | EndOfInput | Finish(i: nat) | Acquire(i: nat) | WriteText | WriteNewline

  const INIT := State(true, false, [], Free, [])

  predicate Spawned(line: Line) {
    line.ExecutePlan? || line.LlmCall?
  }

  /** The reader answers a line itself before it reads the next one. */
  ghost predicate ReaderIdle(input: seq<Line>, s: State) {
    var n := |s.slots|;
    n == 0 || n > |input| || Spawned(input[n - 1]) || s.slots[n - 1] == Writing([])
  }

  ghost function Step(env: Env, input: seq<Line>, s: State, l: Label): State {
    match l
    case Read =>
      var n := |s.slots|;
      if !s.open || n >= |input| || !ReaderIdle(input, s) then s
      else if input[n].Unreadable? then s.(open := false, failing := true)
      else if Spawned(input[n]) then s.(slots := s.slots + [Working])
      else s.(slots := s.slots + [Writing(Replies(env, input[n]))], open := !input[n].Shutdown?)
    case EndOfInput =>
      if s.open && |s.slots| == |input| && ReaderIdle(input, s) then s.(open := false) else s
    case Finish(i) =>
      if i < |s.slots| && i < |input| && s.slots[i].Working? && Returns(env, input[i])
      then s.(slots := s.slots[i := Writing(Replies(env, input[i]))]) else s
    case Acquire(i) =>
      if i < |s.slots| && s.slots[i].Writing? && s.slots[i].queue != [] && s.lock.Free?
      then s.(lock := Held(i, false)) else s
    case WriteText =>
      if s.lock.Held? && !s.lock.textWritten && Holder(s).Some?
      then s.(lock := Held(s.lock.owner, true), out := s.out + [Text(s.lock.owner, Holder(s).value[0])]) else s
    case WriteNewline =>
      if s.lock.Held? && s.lock.textWritten && Holder(s).Some?
      then s.(slots := s.slots[s.lock.owner := Writing(Holder(s).value[1..])], lock := Free, out := s.out + [Newline])
      else s
  }

  /** The non-empty queue of the task that holds the lock. */
  function Holder(s: State): (q: Option<seq<Message>>)
    ensures q.Some? ==> s.lock.Held? && s.lock.owner < |s.slots| && q.value != []
  {
    if s.lock.Held? && s.lock.owner < |s.slots| && s.slots[s.lock.owner].Writing?
       && s.slots[s.lock.owner].queue != []
    then Some(s.slots[s.lock.owner].queue) else None
  }

  ghost function RunFrom(env: Env, input: seq<Line>, s: State, ls: seq<Label>): State {
    if ls == [] then s else Step(env, input, RunFrom(env, input, s, ls[..|ls| - 1]), ls[|ls| - 1])
  }

  /** Reader stopped and every spawned task joined. */
  ghost predicate Complete(s: State) {
    !s.open && s.lock.Free? && forall i :: 0 <= i < |s.slots| ==> s.slots[i] == Writing([])
  }

  /** The process may be over. */
  ghost predicate Ended(s: State) {
    Complete(s) || s.failing
  }

  // ---------------------------------------------------------------------
  // Reading the output back
  // ---------------------------------------------------------------------

  /** Text and newline strictly alternate, starting with a text. */
  ghost predicate WholeLines(out: seq<Chunk>) {
    |out| % 2 == 0 && forall i :: 0 <= i < |out| ==> (out[i].Text? <==> i % 2 == 0)
  }

  /** The messages written for input line i, in output order. */
  ghost function WrittenFor(out: seq<Chunk>, i: nat): seq<Message> {
    if out == [] then []
    else
      var last := out[|out| - 1];
      WrittenFor(out[..|out| - 1], i) + if last.Text? && last.origin == i then [last.msg] else []
  }

  /** The output without the text of a line whose newline is still to come. */
  ghost function Body(s: State): seq<Chunk> {
    if s.lock.Held? && s.lock.textWritten && s.out != [] then s.out[..|s.out| - 1] else s.out
  }

  /** What slot i still owes, together with what was written for line i, is exactly its reply. */
  ghost predicate SlotOk(env: Env, input: seq<Line>, s: State, i: nat) {
    if i >= |s.slots| then WrittenFor(Body(s), i) == []
    else
      && i < |input|
      && match s.slots[i]
         case Working => Spawned(input[i]) && WrittenFor(Body(s), i) == []
         case Writing(queue) => Returns(env, input[i]) && WrittenFor(Body(s), i) + queue == Replies(env, input[i])
  }

  ghost predicate LockOk(s: State) {
    s.lock.Held? ==>
      && Holder(s).Some?
      && (s.lock.textWritten ==> s.out != [] && s.out[|s.out| - 1] == Text(s.lock.owner, Holder(s).value[0]))
  }

  /** The next line cannot be read, and no line before it asks to stop. */
  ghost predicate FailsAt(input: seq<Line>, n: nat) {
    n < |input| && input[n].Unreadable? && forall i :: 0 <= i < n ==> !input[i].Shutdown?
  }

  /** The reader has read exactly up to the first shutdown or unreadable line, or is still reading. */
  ghost predicate ReaderOk(input: seq<Line>, s: State) {
    var n := |s.slots|;
    && n <= |input|
    && (forall i :: 0 <= i < n ==> !input[i].Unreadable?)
    && (forall i :: 0 <= i < n - 1 ==> !input[i].Shutdown?)
    && (s.open ==> !s.failing && forall i :: 0 <= i < n ==> !input[i].Shutdown?)
    && (!s.open ==> n == |input| || (n > 0 && input[n - 1].Shutdown?) || s.failing)
    && (s.failing ==> FailsAt(input, n) && ReaderIdle(input, s))
    && (forall i :: 0 <= i < n - 1 ==> Spawned(input[i]) || s.slots[i] == Writing([]))
  }

  ghost predicate Inv(env: Env, input: seq<Line>, s: State) {
    && LockOk(s) && ReaderOk(input, s) && WholeLines(Body(s))
    && forall i: nat :: SlotOk(env, input, s, i)
  }

  lemma ReadKeepsInv(env: Env, input: seq<Line>, s: State)
    requires Inv(env, input, s)
    ensures Inv(env, input, Step(env, input, s, Read))
  {
    hide WrittenFor;
    hide WholeLines;
    var t := Step(env, input, s, Read);
    if t != s {
      ReadKeepsReaderOk(env, input, s);
      hide ReaderOk;
      assert Body(t) == Body(s);
      forall i: nat ensures SlotOk(env, input, t, i) {
        assert SlotOk(env, input, s, i);
      }
    }
  }

  lemma ReadKeepsReaderOk(env: Env, input: seq<Line>, s: State)
    requires ReaderOk(input, s)
    ensures ReaderOk(input, Step(env, input, s, Read))
  {
    hide Replies;
  }

  lemma FinishKeepsInv(env: Env, input: seq<Line>, s: State, j: nat)
    requires Inv(env, input, s)
    ensures Inv(env, input, Step(env, input, s, Finish(j)))
  {
    hide WrittenFor;
    hide Replies;
    var t := Step(env, input, s, Finish(j));
    if t != s {
      forall i: nat ensures SlotOk(env, input, t, i) {
        assert SlotOk(env, input, s, i);
      }
    }
  }

  /** Ending a line turns the head of the holder's queue into written output, and nothing else. */
  lemma {:induction false} NewlineMovesHead(env: Env, input: seq<Line>, s: State, i: nat)
    requires LockOk(s) && s.lock.Held? && s.lock.textWritten && SlotOk(env, input, s, i)
    ensures SlotOk(env, input, Step(env, input, s, WriteNewline), i)
  {
    hide Replies;
    var owner, queue, body := s.lock.owner, Holder(s).value, Body(s);
    LineWritten(body, owner, queue, i);
    assert s.out == body + [Text(owner, queue[0])];
  }

  lemma {:induction false} LineWritten(body: seq<Chunk>, owner: nat, queue: seq<Message>, i: nat)
    requires queue != []
    ensures var written := WrittenFor(body + [Text(owner, queue[0])] + [Newline], i);
            if i == owner then written + queue[1..] == WrittenFor(body, i) + queue else written == WrittenFor(body, i)
  {
  }

  lemma OneMoreLine(out: seq<Chunk>, text: Chunk)
    requires WholeLines(out) && text.Text?
    ensures WholeLines(out + [text] + [Newline])
  {
  }

  lemma {:induction false} NewlineKeepsInv(env: Env, input: seq<Line>, s: State)
    requires Inv(env, input, s) && s.lock.Held? && s.lock.textWritten
    ensures Inv(env, input, Step(env, input, s, WriteNewline))
  {
    hide SlotOk;
    hide WholeLines;
    var t := Step(env, input, s, WriteNewline);
    assert s.out == Body(s) + [s.out[|s.out| - 1]];
    OneMoreLine(Body(s), s.out[|s.out| - 1]);
    forall i: nat ensures SlotOk(env, input, t, i) {
      assert SlotOk(env, input, s, i);
      NewlineMovesHead(env, input, s, i);
    }
  }

  lemma StepKeepsInv(env: Env, input: seq<Line>, s: State, l: Label)
    requires Inv(env, input, s)
    ensures Inv(env, input, Step(env, input, s, l))
  {
    match l {
      case Read => ReadKeepsInv(env, input, s);
      case Finish(i) => FinishKeepsInv(env, input, s, i);
      case WriteNewline => if s.lock.Held? && s.lock.textWritten { NewlineKeepsInv(env, input, s); }
      case _ =>
        var t := Step(env, input, s, l);
        assert Body(t) == Body(s);
        forall i: nat ensures SlotOk(env, input, t, i) {
          assert SlotOk(env, input, s, i);
        }
    }
  }

  lemma {:induction false} RunKeepsInv(env: Env, input: seq<Line>, s: State, ls: seq<Label>)
    requires Inv(env, input, s)
    ensures Inv(env, input, RunFrom(env, input, s, ls))
  {
    if ls != [] {
      RunKeepsInv(env, input, s, ls[..|ls| - 1]);
      StepKeepsInv(env, input, RunFrom(env, input, s, ls[..|ls| - 1]), ls[|ls| - 1]);
    }
  }

  /** How many lines the daemon accepts: up to the first unreadable one, or up to and including the first shutdown. */
  ghost function Accepted(input: seq<Line>): nat {
    if input == [] || input[0].Unreadable? then 0
    else if input[0].Shutdown? then 1
    else 1 + Accepted(input[1..])
  }

  lemma {:induction false} AcceptedUnique(input: seq<Line>, n: nat)
    requires n <= |input| && forall i :: 0 <= i < n ==> !input[i].Unreadable? && (i < n - 1 ==> !input[i].Shutdown?)
    requires n == |input| || (n > 0 && input[n - 1].Shutdown?) || FailsAt(input, n)
    ensures n == Accepted(input)
  {
    if n > 1 || (n == 1 && !input[0].Shutdown?) {
      AcceptedUnique(input[1..], n - 1);
    }
  }

  /**
    In every complete run, under every interleaving: the output is whole lines; each
    accepted line has exactly its replies in the output, in order (for a plan, its
    engine events and then one terminal response); and no other line has any.
   */
  lemma CompleteRunAnswersAll(env: Env, input: seq<Line>, ls: seq<Label>)
    requires Complete(RunFrom(env, input, INIT, ls))
    ensures var out := RunFrom(env, input, INIT, ls).out;
            && WholeLines(out)
            && forall i: nat ::
                 if i < Accepted(input) then
                   i < |input| && Returns(env, input[i]) && WrittenFor(out, i) == Replies(env, input[i])
                 else WrittenFor(out, i) == []
  {
    RunKeepsInv(env, input, INIT, ls);
    var s := RunFrom(env, input, INIT, ls);
    AcceptedUnique(input, |s.slots|);
    forall i: nat
      ensures if i < Accepted(input) then
                i < |input| && Returns(env, input[i]) && WrittenFor(s.out, i) == Replies(env, input[i])
              else WrittenFor(s.out, i) == []
    {
      assert SlotOk(env, input, s, i);
    }
  }

  // ---------------------------------------------------------------------
  // Every run can only end complete
  // ---------------------------------------------------------------------

  /** Steps line i still needs: read, finish, and three per message. */
  ghost function Cost(env: Env, input: seq<Line>, s: State, i: nat): nat
    requires i < |input| && Returns(env, input[i])
  {
    if i >= |s.slots| then 2 + 3 * |Replies(env, input[i])|
    else if s.slots[i].Working? then 1 + 3 * |Replies(env, input[i])|
    else 3 * |s.slots[i].queue|
  }

  ghost function TotalCost(env: Env, input: seq<Line>, s: State, n: nat): nat
    requires n <= |input| && forall i :: 0 <= i < |input| ==> Returns(env, input[i])
  {
    if n == 0 then 0 else TotalCost(env, input, s, n - 1) + Cost(env, input, s, n - 1)
  }

  ghost function Remaining(env: Env, input: seq<Line>, s: State): int
    requires forall i :: 0 <= i < |input| ==> Returns(env, input[i])
  {
    TotalCost(env, input, s, |input|) + (if s.open then 1 else 0)
    - (if s.lock.Free? then 0 else if s.lock.textWritten then 2 else 1)
  }

  lemma {:induction false} CostChange(env: Env, input: seq<Line>, s: State, t: State, j: nat, n: nat)
    requires n <= |input| && j < |input| && forall i :: 0 <= i < |input| ==> Returns(env, input[i])
    requires forall i :: 0 <= i < |input| && i != j ==> Cost(env, input, t, i) == Cost(env, input, s, i)
    ensures TotalCost(env, input, t, n) - TotalCost(env, input, s, n)
         == if j < n then Cost(env, input, t, j) - Cost(env, input, s, j) else 0
  {
    hide Cost;
    if n > 0 {
      CostChange(env, input, s, t, j, n - 1);
    }
  }

  lemma {:induction false} OneLineInTotal(env: Env, input: seq<Line>, s: State, j: nat, n: nat)
    requires j < n <= |input| && forall i :: 0 <= i < |input| ==> Returns(env, input[i])
    ensures TotalCost(env, input, s, n) >= Cost(env, input, s, j)
  {
    hide Cost;
    if j < n - 1 {
      OneLineInTotal(env, input, s, j, n - 1);
    }
  }

  lemma NoLines(env: Env, input: seq<Line>, s: State)
    requires |input| == 0
    ensures TotalCost(env, input, s, 0) == 0
  {
  }

  /** Every step that does anything uses up some of the remaining work, which is never negative. */
  lemma StepsRunOut(env: Env, input: seq<Line>, s: State, l: Label)
    requires Inv(env, input, s) && forall i :: 0 <= i < |input| ==> Returns(env, input[i])
    ensures Remaining(env, input, s) >= 0
    ensures Step(env, input, s, l) != s ==>
              Remaining(env, input, Step(env, input, s, l)) < Remaining(env, input, s)
  {
    hide TotalCost;
    hide Replies;
    hide SlotOk;
    hide WholeLines;
    if s.lock.Held? {
      OneLineInTotal(env, input, s, s.lock.owner, |input|);
    }
    var t := Step(env, input, s, l);
    if t != s {
      var j := match l case Read => |s.slots| case Finish(i) => i case Acquire(i) => i
                 case EndOfInput => 0 case _ => s.lock.owner;
      if j < |input| {
        CostChange(env, input, s, t, j, |input|);
      } else {
        NoLines(env, input, s);
        NoLines(env, input, t);
      }
    }
  }

  /** A run that can go no further, on plans the engine returns from, is complete. */
  lemma StuckOnlyWhenComplete(env: Env, input: seq<Line>, s: State)
    requires Inv(env, input, s) && forall i :: 0 <= i < |input| ==> Returns(env, input[i])
    requires forall l :: Step(env, input, s, l) == s
    ensures Complete(s)
  {
    assert Step(env, input, s, WriteText) == s && Step(env, input, s, WriteNewline) == s;
    forall i | 0 <= i < |s.slots| ensures s.slots[i] == Writing([]) {
      assert Step(env, input, s, Acquire(i)) == s && Step(env, input, s, Finish(i)) == s;
    }
    assert Step(env, input, s, Read) == s && Step(env, input, s, EndOfInput) == s;
  }

  // ---------------------------------------------------------------------
  // What a failed read costs
  // ---------------------------------------------------------------------

  ghost predicate AllAnswered(env: Env, input: seq<Line>, out: seq<Chunk>) {
    forall i: nat | i < Accepted(input) && i < |input| && Returns(env, input[i]) ::
      WrittenFor(out, i) == Replies(env, input[i])
  }

  /** Some line cannot be read, it is reached, and a plan or a model call was accepted before it. */
  ghost predicate CanLoseReplies(input: seq<Line>) {
    FailsAt(input, Accepted(input)) && exists i :: 0 <= i < Accepted(input) && i < |input| && Spawned(input[i])
  }

  /** With no task to abandon, a failed read finds everything answered. */
  lemma NoTaskLost(env: Env, input: seq<Line>, s: State)
    requires Inv(env, input, s) && s.failing && forall i :: 0 <= i < |s.slots| ==> !Spawned(input[i])
    ensures Complete(s)
  {
  }

  lemma AtMostOneReply(env: Env, line: Line)
    requires !Spawned(line)
    ensures |Replies(env, line)| <= 1
  {
  }

  lemma {:induction false} RunSnoc(env: Env, input: seq<Line>, s: State, ls: seq<Label>, l: Label)
    ensures RunFrom(env, input, s, ls + [l]) == Step(env, input, RunFrom(env, input, s, ls), l)
  {
    assert (ls + [l])[..|ls|] == ls;
  }

  /** The reader has answered its own lines among the first n, and no task has got anywhere. */
  ghost predicate OnlyRead(input: seq<Line>, s: State, n: nat) {
    && n <= |input| && s.open && !s.failing && s.lock.Free? && |s.slots| == n
    && forall i :: 0 <= i < n ==> s.slots[i] == if Spawned(input[i]) then Working else Writing([])
  }

  /** Writing the one reply of the line just read. */
  lemma {:induction false} WriteOne(env: Env, input: seq<Line>, s: State, i: nat, m: Message)
    requires i < |s.slots| && s.slots[i] == Writing([m]) && s.lock.Free?
    ensures var t := Step(env, input, Step(env, input, Step(env, input, s, Acquire(i)), WriteText), WriteNewline);
            && t.open == s.open && t.failing == s.failing && t.lock.Free?
            && t.slots == s.slots[i := Writing([])]
  {
    assert [m][1..] == [];
  }

  lemma {:induction false} ReadOne(env: Env, input: seq<Line>, ls: seq<Label>, n: nat) returns (more: seq<Label>)
    requires n < |input| && !input[n].Shutdown? && !input[n].Unreadable?
    requires OnlyRead(input, RunFrom(env, input, INIT, ls), n)
    ensures OnlyRead(input, RunFrom(env, input, INIT, more), n + 1)
  {
    var s := RunFrom(env, input, INIT, ls);
    var t := Step(env, input, s, Read);
    RunSnoc(env, input, INIT, ls, Read);
    more := ls + [Read];
    if !Spawned(input[n]) && Replies(env, input[n]) != [] {
      AtMostOneReply(env, input[n]);
      var m := Replies(env, input[n])[0];
      assert Replies(env, input[n]) == [m];
      WriteOne(env, input, t, n, m);
      RunSnoc(env, input, INIT, more, Acquire(n));
      RunSnoc(env, input, INIT, more + [Acquire(n)], WriteText);
      RunSnoc(env, input, INIT, more + [Acquire(n)] + [WriteText], WriteNewline);
      more := more + [Acquire(n)] + [WriteText] + [WriteNewline];
    }
  }

  lemma {:induction false} ReadAll(env: Env, input: seq<Line>, n: nat) returns (ls: seq<Label>)
    requires n <= |input| && forall i :: 0 <= i < n ==> !input[i].Shutdown? && !input[i].Unreadable?
    ensures OnlyRead(input, RunFrom(env, input, INIT, ls), n)
  {
    if n == 0 {
      ls := [];
    } else {
      ls := ReadAll(env, input, n - 1);
      ls := ReadOne(env, input, ls, n - 1);
    }
  }

  lemma {:induction false} AcceptedReadable(input: seq<Line>)
    ensures Accepted(input) <= |input| && forall i :: 0 <= i < Accepted(input) ==> !input[i].Unreadable?
  {
    if input != [] && !input[0].Unreadable? && !input[0].Shutdown? {
      AcceptedReadable(input[1..]);
      assert forall i :: 1 <= i < |input| ==> input[i] == input[1..][i - 1];
    }
  }

  /** A run in which a failed read comes before any task has written anything. */
  lemma {:induction false} LosingRun(env: Env, input: seq<Line>) returns (ls: seq<Label>)
    requires CanLoseReplies(input) && forall i :: 0 <= i < |input| ==> Returns(env, input[i])
    ensures Ended(RunFrom(env, input, INIT, ls)) && !AllAnswered(env, input, RunFrom(env, input, INIT, ls).out)
  {
    hide RunFrom;
    hide Step;
    hide Replies;
    AcceptedReadable(input);
    ls := ReadAll(env, input, Accepted(input));
    RunSnoc(env, input, INIT, ls, Read);
    ReadFails(env, input, RunFrom(env, input, INIT, ls), Accepted(input));
    ls := ls + [Read];
    RunKeepsInv(env, input, INIT, ls);
    hide Inv;
    var i :| 0 <= i < Accepted(input) && i < |input| && Spawned(input[i]);
    TaskUnheard(env, input, RunFrom(env, input, INIT, ls), i);
  }

  lemma ReadFails(env: Env, input: seq<Line>, s: State, n: nat)
    requires OnlyRead(input, s, n) && FailsAt(input, n)
    ensures Step(env, input, s, Read) == s.(open := false, failing := true)
  {
  }

  lemma {:induction false} TaskUnheard(env: Env, input: seq<Line>, s: State, i: nat)
    requires Inv(env, input, s) && s.lock.Free? && i < |s.slots| && s.slots[i].Working? && i < |input|
    requires Returns(env, input[i])
    ensures WrittenFor(s.out, i) != Replies(env, input[i])
  {
    assert SlotOk(env, input, s, i);
  }

  /**
    On plans the engine returns from, every accepted line is answered in full whenever the
    process ends, in every run, if and only if no unreadable line is reached after a plan
    or a model call has been accepted.
   */
  lemma {:induction false} AnsweredUnlessReadFails(env: Env, input: seq<Line>)
    requires forall i :: 0 <= i < |input| ==> Returns(env, input[i])
    ensures (forall ls :: Ended(RunFrom(env, input, INIT, ls)) ==>
                            AllAnswered(env, input, RunFrom(env, input, INIT, ls).out))
       <==> !CanLoseReplies(input)
  {
    if CanLoseReplies(input) {
      var ls := LosingRun(env, input);
    } else {
      forall ls | Ended(RunFrom(env, input, INIT, ls))
        ensures AllAnswered(env, input, RunFrom(env, input, INIT, ls).out)
      {
        var s := RunFrom(env, input, INIT, ls);
        RunKeepsInv(env, input, INIT, ls);
        if s.failing {
          AcceptedUnique(input, |s.slots|);
          NoTaskLost(env, input, s);
        }
        CompleteRunAnswersAll(env, input, ls);
      }
    }
  }

  // ---------------------------------------------------------------------
  // Correlating by request id
  // ---------------------------------------------------------------------

  /** The messages carrying a request id, in output order: all a client can see. */
  ghost function WithRequestId(out: seq<Chunk>, id: Id): seq<Message> {
    if out == [] then []
    else
      var last := out[|out| - 1];
      WithRequestId(out[..|out| - 1], id) + if last.Text? && last.msg.requestId == id then [last.msg] else []
  }

  ghost function ReplyId(line: Line): Id {
    if line.Unreadable? || line.Ignored? || line.Malformed? then NIL else line.requestId
  }

  lemma ReplyIds(env: Env, line: Line, m: Message)
    requires Returns(env, line) && m in Replies(env, line)
    ensures m.requestId == ReplyId(line)
  {
  }

  lemma {:induction false} SelectById(out: seq<Chunk>, id: Id, i: nat)
    requires forall c :: c in out && c.Text? ==> (c.msg.requestId == id <==> c.origin == i)
    ensures WithRequestId(out, id) == WrittenFor(out, i)
  {
    if out != [] {
      SelectById(out[..|out| - 1], id, i);
    }
  }

  lemma {:induction false} ChunkIsWritten(out: seq<Chunk>, c: Chunk)
    requires c in out && c.Text?
    ensures c.msg in WrittenFor(out, c.origin)
  {
    if out[|out| - 1] != c {
      ChunkIsWritten(out[..|out| - 1], c);
    }
  }

  /** A request id used by one accepted line only selects exactly that line's replies. */
  lemma ClientSeesReplies(env: Env, input: seq<Line>, ls: seq<Label>, i: nat)
    requires Complete(RunFrom(env, input, INIT, ls)) && i < Accepted(input) && i < |input|
    requires forall j :: 0 <= j < Accepted(input) && j < |input| && j != i ==> ReplyId(input[j]) != ReplyId(input[i])
    ensures Returns(env, input[i])
    ensures WithRequestId(RunFrom(env, input, INIT, ls).out, ReplyId(input[i])) == Replies(env, input[i])
  {
    CompleteRunAnswersAll(env, input, ls);
    var out := RunFrom(env, input, INIT, ls).out;
    forall c | c in out && c.Text? ensures c.msg.requestId == ReplyId(input[i]) <==> c.origin == i {
      ChunkIsWritten(out, c);
      ReplyIds(env, input[c.origin], c.msg);
    }
    SelectById(out, ReplyId(input[i]), i);
  }
}
