/**
  Who closes a connector's inbound channel. One Connect epoch of the Slack,
  Discord and Signal connectors: any number of Receive and Disconnect calls, the
  long-lived worker with its session loop, the bridge goroutine and the caller's
  context, interleaved in any order. A run is an arbitrary sequence of labels.
 */
module Connector {
  type CallId = nat

  /** The fields guarded by the mutex. */
  datatype Flags = Flags(connected: bool, receiveStarted: bool, workerOwnsCh: bool)

  const FRESH := Flags(true, false, false)

  /** What a call has decided once it has released the mutex. */
  datatype Call =
    | MustSignal(ownsCh: bool)   // Disconnect, about to close `done`
    | MustClose(ownsCh: bool)    // Disconnect, about to close the channel unless a worker owns it
    | MustSpawn                  // Receive, about to start the worker
    | Returned

  /** The critical section of Disconnect. */
  function DisconnectLocked(f: Flags): (Flags, Call) {
    if !f.connected then (f, Returned) else (f.(connected := false), MustSignal(f.workerOwnsCh))
  }

  /** The critical section of Receive; `inbound` is false only for Slack while no app token is configured. */
  function ReceiveLocked(inbound: bool, f: Flags): (Flags, Call) {
    if !f.connected || f.receiveStarted then (f, Returned)
    else if !inbound then (f.(receiveStarted := true), Returned)
    else (f.(receiveStarted := true, workerOwnsCh := true), MustSpawn)
  }

  /** The worker goroutine. `AfterSession` is between an iteration and the context check. */
  datatype Phase = LoopTop | InSession | AfterSession(failed: bool) | Sleeping | Exiting | Exited

  datatype Worker = Worker(phase: Phase, cancelled: bool)

  /**
    `closes` and `doneCloses` count calls of close() on the two channels, `lateSends`
    sends on the inbound channel after it was closed; `onceDone` is the sync.Once.
   */
  datatype State = State(
    flags: Flags, calls: map<CallId, Call>, workers: map<CallId, Worker>,
    onceDone: bool, closes: nat, doneCloses: nat, lateSends: nat)

  const INIT := State(FRESH, map[], map[], false, 0, 0, 0)

  datatype Label =
    | Disconnect(i: CallId) | CloseDone(i: CallId) | CloseChannel(i: CallId)
    | Receive(i: CallId, inbound: bool) | Spawn(i: CallId)
    | CancelParent(i: CallId) | Bridge(i: CallId)
    | CheckContext(i: CallId) | Send(i: CallId) | EndSession(i: CallId, failed: bool) | Wake(i: CallId, byTimer: bool)
    | OnExit(i: CallId)

  // ---------------------------------------------------------------------
  // Steps
  // ---------------------------------------------------------------------

  /** `closeMsgOnce.Do(func() { close(msgCh) })` */
  function CloseOnce(s: State): State {
    if s.onceDone then s else s.(onceDone := true, closes := s.closes + 1)
  }

  /** Where the worker goes next; a session that panics ends as failed. */
  function NextPhase(w: Worker, l: Label): Phase {
    match (l, w.phase)
    case (CheckContext(_), LoopTop) => if w.cancelled then Exiting else InSession
    case (EndSession(_, failed), InSession) => AfterSession(failed)
    case (CheckContext(_), AfterSession(failed)) =>
      if w.cancelled then Exiting else if failed then Sleeping else LoopTop
    case (Wake(_, byTimer), Sleeping) => if byTimer then LoopTop else if w.cancelled then Exiting else Sleeping
    case _ => w.phase
  }

  function StepWorker(s: State, l: Label, w: Worker): State {
    match l
    case CancelParent(i) => s.(workers := s.workers[i := w.(cancelled := true)])
    case Bridge(i) => if s.doneCloses > 0 then s.(workers := s.workers[i := w.(cancelled := true)]) else s
    case Send(i) => if w.phase.InSession? && s.closes > 0 then s.(lateSends := s.lateSends + 1) else s
    case OnExit(i) =>
      if w.phase.Exiting? then CloseOnce(s).(workers := s.workers[i := w.(phase := Exited)]) else s
    case _ => s.(workers := s.workers[l.i := w.(phase := NextPhase(w, l))])
  }

  function Step(s: State, l: Label): State {
    match l
    case Disconnect(i) =>
      if i in s.calls then s
      else var (f, c) := DisconnectLocked(s.flags); s.(flags := f, calls := s.calls[i := c])
    case Receive(i, inbound) =>
      if i in s.calls then s
      else var (f, c) := ReceiveLocked(inbound, s.flags); s.(flags := f, calls := s.calls[i := c])
    case CloseDone(i) =>
      if i in s.calls && s.calls[i].MustSignal?
      then s.(doneCloses := s.doneCloses + 1, calls := s.calls[i := MustClose(s.calls[i].ownsCh)]) else s
    case CloseChannel(i) =>
      if i in s.calls && s.calls[i].MustClose?
      then (if s.calls[i].ownsCh then s else CloseOnce(s)).(calls := s.calls[i := Returned]) else s
    case Spawn(i) =>
      if i in s.calls && s.calls[i].MustSpawn?
      then s.(calls := s.calls[i := Returned], workers := s.workers[i := Worker(LoopTop, false)]) else s
    case _ => if l.i in s.workers then StepWorker(s, l, s.workers[l.i]) else s
  }

  function RunFrom(s: State, ls: seq<Label>): State {
    if ls == [] then s else Step(RunFrom(s, ls[..|ls| - 1]), ls[|ls| - 1])
  }

  // ---------------------------------------------------------------------
  // Invariant
  // ---------------------------------------------------------------------

  /** Call i is the Disconnect that took the connection down and has not returned. */
  predicate Leaving(s: State, i: CallId) {
    i in s.calls && (s.calls[i].MustSignal? || s.calls[i].MustClose?)
  }

  /** Call i is the Receive that owns, or is about to start, the worker. */
  predicate Owning(s: State, i: CallId) {
    i in s.workers || (i in s.calls && s.calls[i].MustSpawn?)
  }

  predicate Alive(s: State, i: CallId) {
    Owning(s, i) && !(i in s.workers && s.workers[i].phase.Exited?)
  }

  /** One Disconnect at most gets past the mutex, and what it read of the ownership stays true. */
  ghost predicate DisconnectOk(s: State) {
    && (forall i, j :: Leaving(s, i) && Leaving(s, j) ==> i == j)
    && (forall i :: Leaving(s, i) ==> !s.flags.connected && s.calls[i].ownsCh == s.flags.workerOwnsCh)
    && (forall i :: Leaving(s, i) ==> s.doneCloses == if s.calls[i].MustSignal? then 0 else 1)
    && (s.flags.connected ==> s.doneCloses == 0)
    && (!s.flags.connected && (forall i :: !Leaving(s, i)) ==> s.doneCloses == 1)
  }

  /** One worker at most, and exactly when the flag says so. */
  ghost predicate WorkerOk(s: State) {
    && (forall i, j :: Owning(s, i) && Owning(s, j) ==> i == j)
    && (forall i :: Owning(s, i) ==> s.flags.workerOwnsCh)
    && (forall i :: i in s.workers ==> i in s.calls && s.calls[i] == Returned)
    && (s.flags.workerOwnsCh ==> s.flags.receiveStarted && exists i :: Owning(s, i))
  }

  /** The channel is closed by its owner, at the owner's end, and only then. */
  ghost predicate ChannelOk(s: State) {
    && s.closes == (if s.onceDone then 1 else 0) && s.lateSends == 0
    && (s.flags.workerOwnsCh ==> forall i :: Owning(s, i) ==> (s.onceDone <==> !Alive(s, i)))
    && (!s.flags.workerOwnsCh ==>
          (s.onceDone <==> !s.flags.connected && forall i :: !Leaving(s, i)))
  }

  ghost predicate Inv(s: State) {
    DisconnectOk(s) && WorkerOk(s) && ChannelOk(s)
  }

  lemma DisconnectKeepsInv(s: State, i: CallId)
    requires Inv(s)
    ensures Inv(Step(s, Disconnect(i)))
  {
    var t := Step(s, Disconnect(i));
    assert forall j :: j != i ==> (Leaving(t, j) <==> Leaving(s, j));
    assert forall j :: Owning(t, j) <==> Owning(s, j);
    assert t.flags != s.flags ==> Leaving(t, i);
  }

  lemma CloseDoneKeepsInv(s: State, i: CallId)
    requires Inv(s)
    ensures Inv(Step(s, CloseDone(i)))
  {
    var t := Step(s, CloseDone(i));
    if t != s {
      assert Leaving(s, i);
      assert forall j :: (Leaving(t, j) <==> Leaving(s, j)) && (Owning(t, j) <==> Owning(s, j));
    }
  }

  lemma CloseChannelKeepsInv(s: State, i: CallId)
    requires Inv(s)
    ensures Inv(Step(s, CloseChannel(i)))
  {
    var t := Step(s, CloseChannel(i));
    if t != s {
      assert Leaving(s, i);
      forall j ensures !Leaving(t, j) {
        if Leaving(t, j) {
          assert j != i && Leaving(s, j);
        }
      }
      assert forall j :: Owning(t, j) <==> Owning(s, j);
    }
  }

  lemma ReceiveKeepsInv(s: State, i: CallId, inbound: bool)
    requires Inv(s)
    ensures Inv(Step(s, Receive(i, inbound)))
  {
    var t := Step(s, Receive(i, inbound));
    assert forall j :: Leaving(t, j) <==> Leaving(s, j);
    assert forall j :: j != i ==> (Owning(t, j) <==> Owning(s, j));
    assert t.flags.workerOwnsCh != s.flags.workerOwnsCh ==> Owning(t, i);
  }

  lemma SpawnKeepsInv(s: State, i: CallId)
    requires Inv(s)
    ensures Inv(Step(s, Spawn(i)))
  {
    var t := Step(s, Spawn(i));
    assert forall j :: (Leaving(t, j) <==> Leaving(s, j)) && (Owning(t, j) <==> Owning(s, j));
  }

  lemma WorkerStepKeepsInv(s: State, l: Label, w: Worker)
    requires Inv(s) && l.i in s.workers && s.workers[l.i] == w
    requires !(l.Disconnect? || l.Receive? || l.CloseDone? || l.CloseChannel? || l.Spawn?)
    ensures Inv(StepWorker(s, l, w))
  {
    var t := StepWorker(s, l, w);
    assert forall i :: Leaving(t, i) <==> Leaving(s, i);
    assert forall i :: Owning(t, i) <==> Owning(s, i);
    assert Owning(s, l.i);
  }

  lemma {:induction false} RunKeepsInv(s: State, ls: seq<Label>)
    requires Inv(s)
    ensures Inv(RunFrom(s, ls))
  {
    if ls != [] {
      var n := |ls| - 1;
      var t, l := RunFrom(s, ls[..n]), ls[n];
      RunKeepsInv(s, ls[..n]);
      match l {
        case Disconnect(i) => DisconnectKeepsInv(t, i);
        case CloseDone(i) => CloseDoneKeepsInv(t, i);
        case CloseChannel(i) => CloseChannelKeepsInv(t, i);
        case Receive(i, inbound) => ReceiveKeepsInv(t, i, inbound);
        case Spawn(i) => SpawnKeepsInv(t, i);
        case _ => if l.i in t.workers { WorkerStepKeepsInv(t, l, t.workers[l.i]); }
      }
    }
  }

  // ---------------------------------------------------------------------
  // Main results
  // ---------------------------------------------------------------------

  /** A Disconnect has gone through, every Receive has started what it had to, and every worker is gone. */
  ghost predicate ShutDown(s: State) {
    && !s.flags.connected && (forall i :: !Leaving(s, i))
    && (forall i :: !Alive(s, i))
  }

  /**
    Over every interleaving of one epoch: neither channel is closed twice, nothing is
    sent on the inbound channel after it closes, and after shutdown it is closed.
   */
  lemma ClosedExactlyOnce(ls: seq<Label>)
    ensures var s := RunFrom(INIT, ls);
            && s.closes <= 1 && s.doneCloses <= 1 && s.lateSends == 0
            && (ShutDown(s) ==> s.closes == 1 && s.doneCloses == 1)
  {
    RunKeepsInv(INIT, ls);
  }

  /** While its worker is alive the channel is open, even after Disconnect has returned. */
  lemma OpenWhileWorkerAlive(ls: seq<Label>, i: CallId)
    requires Alive(RunFrom(INIT, ls), i)
    ensures RunFrom(INIT, ls).closes == 0
  {
    RunKeepsInv(INIT, ls);
  }

  /** A worker on its way out was cancelled: by its caller, or because Disconnect closed `done`. */
  ghost predicate ExitJustified(s: State, ls: seq<Label>, i: CallId) {
    i in s.workers ==>
      var w := s.workers[i];
      && (w.phase.Exiting? || w.phase.Exited? ==> w.cancelled)
      && (w.cancelled ==> CancelParent(i) in ls || s.doneCloses > 0)
  }

  lemma StepJustifiesExit(s: State, l: Label, i: CallId)
    requires WorkerOk(s) && i in Step(s, l).workers
    ensures var w := Step(s, l).workers[i];
            if i !in s.workers then w == Worker(LoopTop, false)
            else
              && (w.cancelled ==> s.workers[i].cancelled || l == CancelParent(i) || s.doneCloses > 0)
              && (s.workers[i].cancelled ==> w.cancelled)
              && (w.phase.Exiting? ==> s.workers[i].phase.Exiting? || s.workers[i].cancelled)
              && (w.phase.Exited? ==> s.workers[i].phase.Exited? || s.workers[i].phase.Exiting?)
    ensures Step(s, l).doneCloses >= s.doneCloses
  {
  }

  /** Failing or panicking sessions never end a worker: it stops only when it is told to. */
  lemma {:induction false} WorkersStopOnlyWhenCancelled(ls: seq<Label>, i: CallId)
    ensures ExitJustified(RunFrom(INIT, ls), ls, i)
  {
    if ls != [] {
      var n := |ls| - 1;
      WorkersStopOnlyWhenCancelled(ls[..n], i);
      var s := RunFrom(INIT, ls[..n]);
      RunKeepsInv(INIT, ls[..n]);
      if i in Step(s, ls[n]).workers {
        StepJustifiesExit(s, ls[n], i);
      }
    }
  }

  /** Between a failed session and the next one the worker has slept its delay out. */
  lemma {:induction false} FailureWaits(s: State, ls: seq<Label>, i: CallId)
    requires Inv(s) && i in s.workers && s.workers[i].phase == AfterSession(true)
    requires forall k :: 0 <= k < |ls| ==> ls[k] != Wake(i, true)
    ensures var t := RunFrom(s, ls);
            i in t.workers && (t.workers[i].phase in {AfterSession(true), Sleeping, Exiting, Exited})
  {
    if ls != [] {
      var n := |ls| - 1;
      FailureWaits(s, ls[..n], i);
      RunKeepsInv(s, ls[..n]);
      StillWaits(RunFrom(s, ls[..n]), ls[n], i);
    }
  }

  lemma StillWaits(s: State, l: Label, i: CallId)
    requires Inv(s) && i in s.workers && s.workers[i].phase in {AfterSession(true), Sleeping, Exiting, Exited}
    requires l != Wake(i, true)
    ensures i in Step(s, l).workers
    ensures Step(s, l).workers[i].phase in {AfterSession(true), Sleeping, Exiting, Exited}
  {
  }

  /** How far a phase is from the next session. */
  ghost function StepsToSession(p: Phase): nat {
    match p
    case InSession => 0
    case LoopTop => 1
    case Sleeping => 2
    case _ => 3
  }

  /** A worker that has not been cancelled can always get into its next session. */
  lemma {:induction false} UncancelledRetries(s: State, i: CallId) returns (ls: seq<Label>)
    requires i in s.workers && !s.workers[i].cancelled && !s.workers[i].phase.Exiting? && !s.workers[i].phase.Exited?
    ensures var t := RunFrom(s, ls); i in t.workers && t.workers[i] == Worker(InSession, false)
    ensures forall k :: 0 <= k < |ls| ==> ls[k].CheckContext? || ls[k].Wake?
    decreases StepsToSession(s.workers[i].phase)
  {
    var phase := s.workers[i].phase;
    if phase.InSession? {
      ls := [];
    } else {
      var l := if phase.Sleeping? then Wake(i, true) else CheckContext(i);
      var rest := UncancelledRetries(Step(s, l), i);
      RunCons(s, l, rest);
      ls := [l] + rest;
    }
  }

  lemma {:induction false} RunConcat(s: State, a: seq<Label>, b: seq<Label>)
    ensures RunFrom(s, a + b) == RunFrom(RunFrom(s, a), b)
  {
    hide Step;
    if b == [] {
      assert a + b == a;
    } else {
      assert (a + b)[..|a + b| - 1] == a + b[..|b| - 1];
      RunConcat(s, a, b[..|b| - 1]);
    }
  }

  lemma RunCons(s: State, l: Label, rest: seq<Label>)
    ensures RunFrom(s, [l] + rest) == RunFrom(Step(s, l), rest)
  {
    OneStep(s, l);
    RunConcat(s, [l], rest);
    hide RunFrom;
    hide Step;
  }

  /** How far a cancelled worker is from the end. */
  function Rank(p: Phase): nat {
    match p
    case InSession => 4
    case AfterSession(_) => 3
    case Sleeping => 3
    case LoopTop => 2
    case Exiting => 1
    case Exited => 0
  }

  /** A cancelled worker never goes back: every step of its own but a send brings it nearer to its exit. */
  lemma CancelledWorkerWindsDown(s: State, l: Label)
    requires l.i in s.workers && s.workers[l.i].cancelled && s.workers[l.i].phase != Exited
    requires l.CheckContext? || l.EndSession? || l.Wake? || l.OnExit?
    requires Step(s, l) != s
    ensures var w := Step(s, l).workers[l.i];
            w.cancelled && Rank(w.phase) < Rank(s.workers[l.i].phase)
  {
  }

  // ---------------------------------------------------------------------
  // Shutdown is always in reach
  // ---------------------------------------------------------------------

  /** None of the labels is the caller's own cancellation. */
  ghost predicate Unaided(ls: seq<Label>) {
    forall k :: 0 <= k < |ls| ==> !ls[k].CancelParent?
  }

  lemma {:induction false} FreshCall(used: set<CallId>) returns (i: CallId)
    ensures forall k :: k in used ==> k < i
    decreases |used|
  {
    if used == {} {
      i := 0;
    } else {
      var k :| k in used;
      i := FreshCall(used - {k});
      i := if k < i then i else k + 1;
      assert forall m :: m in used ==> m == k || m in used - {k};
    }
  }

  /** A Disconnect that got past the mutex can finish. */
  lemma {:induction false} FinishLeaving(s: State) returns (ls: seq<Label>)
    requires Inv(s) && !s.flags.connected
    ensures var t := RunFrom(s, ls);
            && Inv(t) && t.flags == s.flags && t.workers == s.workers && forall i :: !Leaving(t, i)
    ensures Unaided(ls)
  {
    if i :| Leaving(s, i) {
      var s1 := Step(s, CloseDone(i));
      var s2 := Step(s1, CloseChannel(i));
      CloseDoneKeepsInv(s, i);
      CloseChannelKeepsInv(s1, i);
      ls := [CloseDone(i)] + [CloseChannel(i)];
      RunCons(s, CloseDone(i), [CloseChannel(i)]);
      RunCons(s1, CloseChannel(i), []);
      assert [CloseChannel(i)] + [] == [CloseChannel(i)];
      forall j ensures !Leaving(s2, j) {
        if Leaving(s2, j) {
          assert j != i && Leaving(s, j);
        }
      }
    } else {
      ls := [];
    }
  }

  /** A Receive that is about to start its worker can do so. */
  lemma {:induction false} FinishSpawning(s: State) returns (ls: seq<Label>)
    requires Inv(s) && !s.flags.connected && forall i :: !Leaving(s, i)
    ensures var t := RunFrom(s, ls);
            && Inv(t) && t.flags == s.flags && (forall i :: !Leaving(t, i))
            && forall i :: Owning(t, i) ==> i in t.workers
    ensures Unaided(ls)
  {
    if i :| i in s.calls && s.calls[i].MustSpawn? {
      var t := Step(s, Spawn(i));
      SpawnKeepsInv(s, i);
      ls := [Spawn(i)];
      RunCons(s, Spawn(i), []);
      assert [Spawn(i)] + [] == [Spawn(i)];
      assert Owning(s, i) && forall j :: Leaving(t, j) <==> Leaving(s, j);
      forall j | Owning(t, j) ensures j in t.workers {
        assert Owning(s, j);
      }
    } else {
      ls := [];
    }
  }

  /** A cancelled worker can exit by steps of its own. */
  lemma {:induction false} WindDown(s: State, j: CallId) returns (ls: seq<Label>)
    requires j in s.workers && s.workers[j].cancelled
    ensures var t := RunFrom(s, ls);
            && t.flags == s.flags && t.calls == s.calls && t.workers.Keys == s.workers.Keys
            && t.workers[j].phase == Exited
    ensures Unaided(ls)
    decreases Rank(s.workers[j].phase)
  {
    var phase := s.workers[j].phase;
    if phase.Exited? {
      ls := [];
    } else {
      var l := match phase
        case InSession => EndSession(j, false)
        case Sleeping => Wake(j, false)
        case Exiting => OnExit(j)
        case _ => CheckContext(j);
      var rest := WindDown(Step(s, l), j);
      RunCons(s, l, rest);
      ls := [l] + rest;
    }
  }

  /** Once Disconnect has closed `done`, the bridge cancels the worker, and it winds down. */
  lemma {:induction false} FinishWorker(s: State) returns (ls: seq<Label>)
    requires Inv(s) && !s.flags.connected && (forall i :: !Leaving(s, i)) && forall i :: Owning(s, i) ==> i in s.workers
    ensures ShutDown(RunFrom(s, ls)) && Unaided(ls)
  {
    if j :| j in s.workers {
      assert Owning(s, j) && s.doneCloses == 1;
      var s1 := Step(s, Bridge(j));
      var rest := WindDown(s1, j);
      RunCons(s, Bridge(j), rest);
      ls := [Bridge(j)] + rest;
      var t := RunFrom(s, ls);
      assert forall i :: Leaving(t, i) <==> Leaving(s, i);
      forall i ensures !Alive(t, i) {
        if Owning(t, i) {
          assert Owning(s, i);
        }
      }
    } else {
      ls := [];
    }
  }

  /**
    Shutdown is in reach from every state of every epoch, without any help from the
    callers' contexts: from a connected state by a run that begins with a Disconnect.
    Both channels have then been closed, exactly once.
   */
  lemma {:induction false} ShutdownInReach(before: seq<Label>) returns (more: seq<Label>)
    ensures RunFrom(INIT, before).flags.connected ==> more != [] && more[0].Disconnect?
    ensures var t := RunFrom(INIT, before + more); ShutDown(t) && t.closes == 1 && t.doneCloses == 1
    ensures Unaided(more)
  {
    InitKeepsInv(before);
    var s := RunFrom(INIT, before);
    hide RunFrom;
    more := [];
    var s1 := s;
    if s.flags.connected {
      var i := FreshCall(s.calls.Keys);
      s1 := Step(s, Disconnect(i));
      DisconnectKeepsInv(s, i);
      more := [Disconnect(i)];
      OneStep(s, Disconnect(i));
    } else {
      NoSteps(s);
    }
    hide Step;
    hide Inv;
    var a := FinishLeaving(s1);
    var s2 := RunFrom(s1, a);
    var b := FinishSpawning(s2);
    var s3 := RunFrom(s2, b);
    var c := FinishWorker(s3);
    RunConcat(s, more, a);
    RunConcat(s, more + a, b);
    RunConcat(s, more + a + b, c);
    more := more + a + b + c;
    RunConcat(INIT, before, more);
    ClosedExactlyOnce(before + more);
  }

  lemma OneStep(s: State, l: Label)
    ensures RunFrom(s, [l]) == Step(s, l)
  {
    hide Step;
    assert [l][..0] == [];
    assert RunFrom(s, []) == s;
  }

  lemma NoSteps(s: State)
    ensures RunFrom(s, []) == s
  {
  }

  lemma InitKeepsInv(ls: seq<Label>)
    ensures Inv(RunFrom(INIT, ls))
  {
    RunKeepsInv(INIT, ls);
  }

  lemma SignallerIsAlone(s: State, i: CallId)
    requires Inv(s) && i in s.calls && s.calls[i].MustSignal?
    ensures s.doneCloses == 0 && (forall j :: Leaving(s, j) ==> j == i)
    ensures s.calls[i].ownsCh <==> exists j :: Owning(s, j)
  {
    assert Leaving(s, i);
  }

  lemma SpawnerIsAlone(s: State, i: CallId)
    requires Inv(s) && i in s.calls && s.calls[i].MustSpawn?
    ensures s.closes == 0 && forall j :: Owning(s, j) ==> j == i
  {
    assert Owning(s, i) && Alive(s, i);
  }

  // ---------------------------------------------------------------------
  // The connector object
  // ---------------------------------------------------------------------

  /**
    The connector's guarded fields. `trace` is what has happened in the current epoch,
    the steps of the other goroutines included; every method stands for its critical section.
   */
  class Connector {
    /** An app token is configured (Slack); always true for Discord and Signal. */
    var inbound: bool
    var connected: bool
    var receiveStarted: bool
    var workerOwnsCh: bool
    ghost var begun: bool
    ghost var trace: seq<Label>

    ghost function View(): Flags
      reads this
    {
      Flags(connected, receiveStarted, workerOwnsCh)
    }

    /** The state of the epoch. */
    ghost function Now(): State
      reads this
    {
      RunFrom(INIT, trace)
    }

    /** The fields are those the epoch so far has led to. */
    ghost predicate Valid()
      reads this
    {
      if begun then View() == Now().flags else !connected && trace == []
    }

    constructor ()
      ensures Valid() && !begun
    {
      inbound, connected, receiveStarted, workerOwnsCh := false, false, false, false;
      begun, trace := false, [];
    }

    /** A failed Connect leaves the epoch as it was, but for the token; a successful one starts a fresh one. */
    method Connect(validated: bool, inbound: bool) returns (ok: bool)
      requires Valid()
      modifies this
      ensures Valid() && ok == validated && this.inbound == inbound
      ensures if validated then begun && trace == [] else begun == old(begun) && trace == old(trace)
      ensures validated ==> connected && !receiveStarted && !workerOwnsCh
    {
      this.inbound := inbound;
      if !validated {
        return false;
      }
      receiveStarted := false;
      workerOwnsCh := false;
      connected := true;
      begun, trace := true, [];
      ok := true;
    }

    /**
      Disconnect, as call i. If it is told to go on, `done` is still open, no other call
      will close it, and it is left to a worker to close the inbound channel exactly when
      there is one.
     */
    method Disconnect(ghost i: CallId) returns (next: Call)
      requires Valid() && i !in Now().calls
      modifies this`connected, this`trace
      ensures Valid()
      ensures begun ==> trace == old(trace) + [Label.Disconnect(i)] && i in Now().calls && next == Now().calls[i]
      ensures !begun ==> next == Returned && trace == old(trace)
      ensures next.MustSignal? ==>
                && Now().doneCloses == 0 && (forall j :: Leaving(Now(), j) ==> j == i)
                && (next.ownsCh <==> exists j :: Owning(Now(), j))
      ensures old(connected) ==> !connected && next == MustSignal(old(workerOwnsCh))
      ensures !old(connected) ==> next == Returned && View() == old(View())
    {
      hide Inv;
      hide Leaving;
      hide Owning;
      if begun {
        trace := trace + [Label.Disconnect(i)];
        assert trace[..|trace| - 1] == old(trace);
        InitKeepsInv(trace);
      }
      if !connected {
        return Returned;
      }
      connected := false;
      next := MustSignal(workerOwnsCh);
      SignallerIsAlone(Now(), i);
    }

    /**
      Receive, as call i. If it is told to start a worker, the channel is open and no
      other worker has been or will be started in this epoch.
     */
    method Receive(ghost i: CallId) returns (next: Call)
      requires Valid() && i !in Now().calls
      modifies this`receiveStarted, this`workerOwnsCh, this`trace
      ensures Valid()
      ensures begun ==> trace == old(trace) + [Label.Receive(i, inbound)] && i in Now().calls && next == Now().calls[i]
      ensures !begun ==> next == Returned && trace == old(trace)
      ensures next.MustSpawn? ==> Now().closes == 0 && forall j :: Owning(Now(), j) ==> j == i
      ensures if old(connected && !receiveStarted) then
                receiveStarted && workerOwnsCh == (old(workerOwnsCh) || inbound)
                && next == if inbound then MustSpawn else Returned
              else next == Returned && View() == old(View())
    {
      hide Inv;
      hide Owning;
      if begun {
        trace := trace + [Label.Receive(i, inbound)];
        assert trace[..|trace| - 1] == old(trace);
        InitKeepsInv(trace);
      }
      if !connected || receiveStarted {
        return Returned;
      }
      receiveStarted := true;
      if !inbound {
        return Returned;
      }
      workerOwnsCh := true;
      next := MustSpawn;
      SpawnerIsAlone(Now(), i);
    }
  }
}
