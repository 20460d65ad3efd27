/** The exactly-once callback guard and the two layers that classify what a
    transaction manager did with it. The manager is an adversary: it may invoke
    the callback any number of times from any goroutine, early, late or never,
    and return any error, or panic. */
module TransactionGuard {
  import opened Common
  import opened ErrorWalk
  import opened Sequences

  // ---------- The guard ----------

  /** The guard's fields; its snapshots have the same shape. */
  datatype Guard = Guard(
    calls: nat, inFlight: bool, completed: bool, returned: bool, repeated: bool,
    late: bool, closed: bool, escaped: bool, result: Option<Node>)

  const FRESH := Guard(0, false, false, false, false, false, false, false, None)

  datatype Verdict = Admitted | Repeat | TooLate

  function Enter(g: Guard): (Guard, Verdict) {
    if g.closed then (g.(late := true), TooLate)
    else if g.calls != 0 then (g.(calls := g.calls + 1, repeated := true), Repeat)
    else (g.(calls := 1, inFlight := true), Admitted)
  }

  function Record(g: Guard, result: Option<Node>): Guard {
    g.(returned := true, result := result)
  }

  function Leave(g: Guard): Guard {
    g.(inFlight := false, completed := true)
  }

  function Close(g: Guard): Guard {
    g.(closed := true, escaped := g.escaped || g.inFlight)
  }

  /** The critical sections of the guard object. */
  class ExactlyOnce {
    var guard: Guard

    constructor ()
      ensures guard == FRESH
    {
      guard := FRESH;
    }

    method EnterInvocation() returns (verdict: Verdict)
      modifies this
      ensures (guard, verdict) == Enter(old(guard))
      ensures verdict == Admitted <==> !old(guard).closed && old(guard).calls == 0
    {
      if guard.closed {
        guard := guard.(late := true);
        return TooLate;
      }
      guard := guard.(calls := guard.calls + 1);
      if guard.calls != 1 {
        guard := guard.(repeated := true);
        return Repeat;
      }
      guard := guard.(inFlight := true);
      verdict := Admitted;
    }

    method RecordReturn(result: Option<Node>)
      modifies this
      ensures guard == Record(old(guard), result)
    {
      guard := guard.(returned := true);
      guard := guard.(result := result);
    }

    method LeaveInvocation()
      modifies this
      ensures guard == Leave(old(guard))
    {
      guard := guard.(inFlight := false);
      guard := guard.(completed := true);
    }

    /** One invocation without interruption: the operation runs only for the
        first call before closing. A result is recorded unless the operation
        left by exiting its goroutine. */
    method Invoke(exits: bool, result: Option<Node>) returns (verdict: Verdict)
      modifies this
      ensures verdict == Enter(old(guard)).1
      ensures guard == if verdict != Admitted then Enter(old(guard)).0
                       else Leave(if exits then Enter(old(guard)).0 else Record(Enter(old(guard)).0, result))
    {
      verdict := EnterInvocation();
      if verdict == Admitted {
        if !exits { RecordReturn(result); }
        LeaveInvocation();
      }
    }

    /** The first half of CloseAndWait; the caller then waits while the returned
        flag is set. */
    method CloseGate() returns (mustWait: bool)
      modifies this
      ensures guard == Close(old(guard)) && mustWait == old(guard).inFlight
    {
      guard := guard.(closed := true);
      if guard.inFlight { guard := guard.(escaped := true); }
      mustWait := guard.inFlight;
    }
  }

  datatype Verified = NotInvoked | ReturnedOnce | PanickedOnce | Violated

  function SnapshotOutcome(s: Guard): Verified {
    if s.closed && s.calls == 0 && !s.inFlight && !s.completed && !s.returned && !s.repeated && !s.late && !s.escaped
       && s.result.None? then NotInvoked
    else if s.closed && s.calls == 1 && !s.inFlight && s.completed && !s.repeated && !s.late && !s.escaped then
      if s.returned then ReturnedOnce
      else if s.result.None? then PanickedOnce
      else Violated
    else Violated
  }

  // ---------- Classification ----------

  datatype Durability = RollbackPending | RolledBack | RollbackFailed | CommitFailed

  /** The outcome proof that a trusted backend attaches to its error. */
  datatype Proof = Proof(state: Durability, operation: Option<Node>, completion: Option<Node>)

  datatype Layer = Engine | Database(trusted: bool)

  /** The error graph, the error value that stands for this run's own failure,
      and the errors that are outcome proofs. All of it is the adversary's. */
  datatype Env = Env(layer: Layer, graph: Graph, own: Node, proofs: map<Node, Proof>)

  datatype Failure = Failure(cause: Option<Node>, invalidContext: bool, panicked: bool)

  datatype Outcome =
    | Success
    | ManagerFailed
    | ContractViolation
    | NotAtomic
    | OperationPanicked
    | OperationFailed(cause: Option<Node>)
    | Projected(proof: Proof)
    | Repanic

  function Root(env: Env, err: Option<Node>): Option<Proof> {
    if err.Some? then Find(env.proofs, err.value) else None
  }

  /** The operation's failure was proved to belong to this very run. */
  predicate Correlated(env: Env, snapshot: Guard, proof: Option<Proof>) {
    && Contains(env.graph, snapshot.result, env.own)
    && proof.Some? && Contains(env.graph, proof.value.operation, env.own)
  }

  function ClassifyEngine(env: Env, s: Guard, failure: Option<Failure>, err: Option<Node>, panicked: bool): Outcome {
    var proof := if panicked then None else Root(env, err);
    var failed := panicked || err.Some?;
    match SnapshotOutcome(s)
    case NotInvoked => if !failed || proof.Some? then ContractViolation else ManagerFailed
    case ReturnedOnce =>
      if failure.None? then
        if s.result.Some? then ContractViolation
        else if !failed then Success
        else if proof.Some? then NotAtomic
        else ContractViolation
      else if failure.value.invalidContext || panicked || !Correlated(env, s, proof) then ContractViolation
      else (match proof.value.state
            case RolledBack => if failure.value.panicked then OperationPanicked else OperationFailed(failure.value.cause)
            case RollbackPending => NotAtomic
            case RollbackFailed => NotAtomic
            case CommitFailed => ContractViolation)
    case PanickedOnce => ContractViolation
    case Violated => ContractViolation
  }

  function ClassifyDatabase(env: Env, trusted: bool, s: Guard, failure: Option<Failure>, err: Option<Node>, panicked: bool)
    : Outcome
  {
    var proof := if panicked then None else Root(env, err);
    match SnapshotOutcome(s)
    case NotInvoked => if (!panicked && err.None?) || proof.Some? then ContractViolation else ManagerFailed
    case ReturnedOnce =>
      if failure.None? then
        if s.result.Some? || panicked then ContractViolation
        else if err.None? then Success
        else if proof.None? || proof.value.state != CommitFailed then ContractViolation
        else Projected(proof.value)
      else if failure.value.invalidContext || panicked || !Correlated(env, s, proof) then ContractViolation
      else if proof.value.state == CommitFailed then ContractViolation
      else if failure.value.panicked then Repanic
      else if trusted && proof.value.state == RolledBack then OperationFailed(failure.value.cause)
      else Projected(proof.value)
    case PanickedOnce => ContractViolation
    case Violated => ContractViolation
  }

  function Classify(env: Env, s: Guard, failure: Option<Failure>, err: Option<Node>, panicked: bool): Outcome {
    match env.layer
    case Engine => ClassifyEngine(env, s, failure, err, panicked)
    case Database(trusted) => ClassifyDatabase(env, trusted, s, failure, err, panicked)
  }

  // ---------- Runs against an arbitrary manager ----------

  /** How the operation ended: with nil, an error or a panic, by exiting its
      goroutine, or before it began because the context was nil. */
  datatype Ending = ReturnedNil | ReturnedError(e: Node) | Panicked | Exited | NilContext

  /** The admitted invocation. */
  datatype Phase = Outside | Entered | Working | Ended(ending: Ending) | Recorded | Left

  datatype ManagerResult = Pending | Returned(err: Option<Node>, panicked: bool)

  datatype Closing = Open | Waiting | Closed(snapshot: Guard)

  datatype State = State(
    guard: Guard, phase: Phase, failure: Option<Failure>, manager: ManagerResult, closing: Closing,
    // Observations: how often the operation ran, how it ended, and when.
    runs: nat, ending: Option<Ending>, clock: nat, started: nat, ended: nat, leftAt: nat, managerAt: nat, closedAt: nat)

  const INITIAL := State(FRESH, Outside, None, Pending, Open, 0, None, 0, 0, 0, 0, 0, 0)

  datatype Step =
    | Invoke
    | BeginWork(nilContext: bool)
    | EndWork(ending: Ending)
    | RecordResult
    | LeaveGuard
    | ManagerReturns(err: Option<Node>, panicked: bool)
    | CloseGate
    | TakeSnapshot

  function OwnFailure(ending: Ending): Option<Failure> {
    match ending
    case ReturnedNil => None
    case ReturnedError(e) => Some(Failure(Some(e), false, false))
    case Panicked => Some(Failure(None, false, true))
    case Exited => Some(Failure(None, false, true))
    case NilContext => Some(Failure(None, true, false))
  }

  function Move(env: Env, s: State, step: Step): State {
    match step
    case Invoke =>
      var (g, verdict) := Enter(s.guard);
      if verdict == Admitted then s.(guard := g, phase := Entered) else s.(guard := g)
    case BeginWork(nilContext) =>
      if s.phase != Entered then s
      else if nilContext then
        s.(phase := Ended(NilContext), failure := OwnFailure(NilContext), ending := Some(NilContext), ended := s.clock)
      else s.(phase := Working, runs := s.runs + 1, started := s.clock)
    case EndWork(ending) =>
      if s.phase != Working || ending == NilContext then s
      else s.(phase := Ended(ending), failure := OwnFailure(ending), ending := Some(ending), ended := s.clock)
    case RecordResult =>
      if !s.phase.Ended? || s.phase.ending.Exited? then s
      else s.(phase := Recorded, guard := Record(s.guard, if s.phase.ending.ReturnedNil? then None else Some(env.own)))
    case LeaveGuard =>
      if s.phase == Recorded || s.phase == Ended(Exited)
      then s.(phase := Left, guard := Leave(s.guard), leftAt := s.clock) else s
    case ManagerReturns(err, panicked) =>
      if s.manager.Pending? then s.(manager := Returned(err, panicked), managerAt := s.clock) else s
    case CloseGate =>
      if s.manager.Returned? && s.closing.Open?
      then s.(guard := Close(s.guard), closing := Waiting, closedAt := s.clock) else s
    case TakeSnapshot =>
      if s.closing.Waiting? && !s.guard.inFlight then s.(closing := Closed(s.guard)) else s
  }

  function Apply(env: Env, s: State, step: Step): State {
    var s' := Move(env, s, step);
    s'.(clock := s.clock + 1)
  }

  function Run(env: Env, steps: seq<Step>): State {
    if steps == [] then INITIAL else Apply(env, Run(env, steps[..|steps| - 1]), steps[|steps| - 1])
  }

  // ---------- The invariant ----------

  predicate GuardOk(env: Env, s: State) {
    var g := s.guard;
    && g.inFlight == (s.phase != Outside && s.phase != Left)
    && (s.phase == Outside <==> g.calls == 0)
    && g.completed == (s.phase == Left)
    && g.repeated == (g.calls > 1)
    && (g.returned ==> s.phase == Recorded || s.phase == Left)
    && g.returned == ((s.phase == Recorded || s.phase == Left) && s.ending != Some(Exited))
    && g.result == (if g.returned && s.ending != Some(ReturnedNil) then Some(env.own) else None)
    && g.closed == !s.closing.Open?
    && (g.escaped || g.late ==> g.closed)
  }

  predicate PhaseOk(s: State) {
    && (s.phase == Outside || s.phase == Entered ==> s.runs == 0 && s.ending.None? && s.failure.None?)
    && (s.phase == Working ==> s.runs == 1 && s.ending.None? && s.failure.None? && s.started < s.clock)
    && (s.phase.Ended? ==> s.ending == Some(s.phase.ending))
    && (s.phase == Recorded ==> s.ending.Some? && !s.ending.value.Exited?)
    && (s.phase.Ended? || s.phase == Recorded || s.phase == Left ==>
          && s.ending.Some? && s.failure == OwnFailure(s.ending.value) && s.ended < s.clock
          && s.runs == (if s.ending.value.NilContext? then 0 else 1)
          && (s.runs == 1 ==> s.started < s.ended))
  }

  predicate ClosingOk(s: State) {
    && (s.manager.Returned? ==> s.managerAt < s.clock && (s.ending.Some? ==> s.ended != s.managerAt))
    && (s.phase == Left ==> s.ended < s.leftAt < s.clock)
    && (!s.closing.Open? ==> s.manager.Returned? && s.managerAt < s.closedAt < s.clock)
    && (!s.closing.Open? ==> s.guard.escaped == (s.guard.inFlight || (s.phase == Left && s.closedAt < s.leftAt)))
    && (!s.closing.Open? && s.phase == Left ==> s.leftAt != s.closedAt)
    && (s.closing.Closed? ==>
          var t := s.closing.snapshot;
          !s.guard.inFlight && t.closed && s.guard == t.(late := s.guard.late) && (t.late ==> s.guard.late))
  }

  predicate Inv(env: Env, s: State) {
    GuardOk(env, s) && PhaseOk(s) && ClosingOk(s)
  }

  /** Steps of the admitted invocation after it has entered. */
  predicate Inner(step: Step) { step.BeginWork? || step.EndWork? || step.RecordResult? || step.LeaveGuard? }

  lemma InnerKeepsGuard(env: Env, s: State, step: Step)
    requires Inv(env, s) && Inner(step)
    ensures GuardOk(env, Move(env, s, step))
  {
  }

  lemma OuterKeepsGuard(env: Env, s: State, step: Step)
    requires Inv(env, s) && !Inner(step)
    ensures GuardOk(env, Move(env, s, step))
  {
  }

  lemma StepKeepsGuard(env: Env, s: State, step: Step)
    requires Inv(env, s)
    ensures GuardOk(env, Move(env, s, step))
  {
    if Inner(step) { InnerKeepsGuard(env, s, step); } else { OuterKeepsGuard(env, s, step); }
  }

  lemma StepKeepsPhase(env: Env, s: State, step: Step)
    requires Inv(env, s)
    ensures PhaseOk(Apply(env, s, step))
  {
  }

  lemma WorkKeepsClosing(env: Env, s: State, step: Step)
    requires Inv(env, s) && (step.BeginWork? || step.EndWork?)
    ensures ClosingOk(Apply(env, s, step))
  {
  }

  lemma LeavingKeepsClosing(env: Env, s: State, step: Step)
    requires Inv(env, s) && (step.RecordResult? || step.LeaveGuard?)
    ensures ClosingOk(Apply(env, s, step))
  {
  }

  lemma InvokeKeepsClosing(env: Env, s: State)
    requires Inv(env, s)
    ensures ClosingOk(Apply(env, s, Invoke))
  {
  }

  lemma ManagerKeepsClosing(env: Env, s: State, step: Step)
    requires Inv(env, s) && (step.ManagerReturns? || step.CloseGate? || step.TakeSnapshot?)
    ensures ClosingOk(Apply(env, s, step))
  {
  }

  lemma StepKeepsClosing(env: Env, s: State, step: Step)
    requires Inv(env, s)
    ensures ClosingOk(Apply(env, s, step))
  {
    match step
    case Invoke => InvokeKeepsClosing(env, s);
    case BeginWork(_) => WorkKeepsClosing(env, s, step);
    case EndWork(_) => WorkKeepsClosing(env, s, step);
    case RecordResult => LeavingKeepsClosing(env, s, step);
    case LeaveGuard => LeavingKeepsClosing(env, s, step);
    case _ => ManagerKeepsClosing(env, s, step);
  }

  lemma {:induction false} RunKeepsInv(env: Env, steps: seq<Step>)
    ensures Inv(env, Run(env, steps))
  {
    if steps != [] {
      var s, step := Run(env, steps[..|steps| - 1]), steps[|steps| - 1];
      RunKeepsInv(env, steps[..|steps| - 1]);
      StepKeepsGuard(env, s, step);
      StepKeepsPhase(env, s, step);
      StepKeepsClosing(env, s, step);
    }
  }

  // ---------- Main results ----------

  /** What the layer returns once CloseAndWait has given it a snapshot. */
  function OutcomeOf(env: Env, s: State): Outcome
    requires s.closing.Closed? && s.manager.Returned?
  {
    Classify(env, s.closing.snapshot, s.failure, s.manager.err, s.manager.panicked)
  }

  /** The operation ran once and left the guard before the gate closed, and
      nothing else tried to enter before the snapshot. */
  predicate RanOnce(s: State, ending: Ending) {
    && s.closing.Closed? && s.closing.snapshot.calls == 1 && !s.closing.snapshot.late
    && s.runs == 1 && s.ending == Some(ending) && s.started < s.ended < s.leftAt < s.closedAt
  }

  /** The operation is run at most once, whatever the manager does. */
  lemma RunsAtMostOnce(env: Env, steps: seq<Step>)
    ensures Run(env, steps).runs <= 1
  {
    RunKeepsInv(env, steps);
  }

  lemma ClosedRun(env: Env, steps: seq<Step>)
    requires Run(env, steps).closing.Closed?
    ensures Inv(env, Run(env, steps)) && Run(env, steps).manager.Returned?
    ensures var s := Run(env, steps);
            && s.runs <= 1
            && (SnapshotOutcome(s.closing.snapshot) == ReturnedOnce && s.runs == 1 <==>
                  s.ending.Some? && !s.ending.value.Exited? && RanOnce(s, s.ending.value))
  {
    RunKeepsInv(env, steps);
  }

  /** Both layers report success exactly when the operation ran once, returned
      nil and left before the gate closed, and the manager returned nil. */
  lemma SuccessExactly(env: Env, steps: seq<Step>)
    requires Run(env, steps).closing.Closed?
    ensures var s := Run(env, steps);
            && s.manager.Returned?
            && (OutcomeOf(env, s) == Success <==> RanOnce(s, ReturnedNil) && s.manager == Returned(None, false))
  {
    ClosedRun(env, steps);
  }

  /** The Action engine surfaces the operation's own error exactly when it ran
      once and the manager proved a rollback of this very failure. */
  lemma OperationErrorExactly(env: Env, steps: seq<Step>, cause: Node)
    requires env.layer == Engine && Run(env, steps).closing.Closed?
    ensures var s := Run(env, steps);
            && s.manager.Returned?
            && (OutcomeOf(env, s) == OperationFailed(Some(cause)) <==>
                  && RanOnce(s, ReturnedError(cause)) && !s.manager.panicked
                  && Correlated(env, s.closing.snapshot, Root(env, s.manager.err))
                  && Root(env, s.manager.err).value.state == RolledBack)
  {
    ClosedRun(env, steps);
  }

  /** The database layer hands a proof on only for a failed commit of a
      successful operation, or for a correlated failure of this run. */
  lemma ProjectedProofIsGenuine(env: Env, steps: seq<Step>)
    requires env.layer.Database? && Run(env, steps).closing.Closed?
    ensures var s := Run(env, steps);
            && s.manager.Returned?
            && (OutcomeOf(env, s).Projected? ==>
                  && Root(env, s.manager.err) == Some(OutcomeOf(env, s).proof)
                  && if OutcomeOf(env, s).proof.state == CommitFailed then RanOnce(s, ReturnedNil)
                     else && s.ending.Some? && s.ending.value.ReturnedError? && RanOnce(s, s.ending.value)
                          && Correlated(env, s.closing.snapshot, Root(env, s.manager.err)))
  {
    ClosedRun(env, steps);
  }

  /** Once CloseAndWait has returned, the operation neither works nor starts,
      and the outcome is settled. */
  lemma {:induction false} NoWorkAfterClose(env: Env, steps: seq<Step>, more: seq<Step>)
    requires Run(env, steps).closing.Closed?
    ensures var s, s' := Run(env, steps), Run(env, steps + more);
            && s'.closing == s.closing && s'.manager == s.manager && s'.failure == s.failure
            && s'.phase == s.phase && s'.phase != Working && s'.runs == s.runs
  {
    if more == [] {
      ClosedRun(env, steps);
      assert steps + more == steps;
    } else {
      var front, last := more[..|more| - 1], more[|more| - 1];
      NoWorkAfterClose(env, steps, front);
      ClosedRun(env, steps + front);
      assert steps + more == steps + front + [last];
      Then(env, steps + front, last);
      ClosedStays(env, Run(env, steps + front), last);
    }
  }

  lemma ClosedStays(env: Env, s: State, step: Step)
    requires Inv(env, s) && s.closing.Closed? && s.manager.Returned?
    ensures var t := Apply(env, s, step);
            t.closing == s.closing && t.manager == s.manager && t.failure == s.failure && t.phase == s.phase && t.runs == s.runs
  {
  }

  /** The engine over the database layer: when the engine's manager is a run of
      the database layer that returned nil, an engine success means that both
      operations ran once to nil and the backend itself returned nil. */
  lemma LayersCompose(engine: Env, steps: seq<Step>, database: Env, inner: seq<Step>)
    requires engine.layer == Engine && database.layer.Database?
    requires Run(engine, steps).closing.Closed? && Run(database, inner).closing.Closed?
    requires Run(engine, steps).manager == Returned(None, false) ==>
               Run(database, inner).manager.Returned? && OutcomeOf(database, Run(database, inner)) == Success
    ensures var s, t := Run(engine, steps), Run(database, inner);
            && s.manager.Returned?
            && (OutcomeOf(engine, s) == Success ==>
                  RanOnce(s, ReturnedNil) && RanOnce(t, ReturnedNil) && t.manager == Returned(None, false))
  {
    SuccessExactly(engine, steps);
    SuccessExactly(database, inner);
  }

  // ---------- The window between the manager's return and the gate ----------

  /** Success means that the operation ended before the manager returned. */
  predicate Timely(env: Env, steps: seq<Step>) {
    var s := Run(env, steps);
    s.closing.Closed? && s.manager.Returned? && OutcomeOf(env, s) == Success ==> s.ended < s.managerAt
  }

  /** What stays settled once the manager has returned. */
  predicate Settled(s: State, t: State) {
    && t.manager == s.manager && t.managerAt == s.managerAt
    && (s.ending.Some? ==> t.ending == s.ending && t.ended == s.ended)
    && (s.guard.calls > 1 ==> t.guard.calls > 1)
  }

  lemma RunOneMore(env: Env, steps: seq<Step>, more: seq<Step>)
    requires more != []
    ensures Run(env, steps + more) == Apply(env, Run(env, steps + more[..|more| - 1]), more[|more| - 1])
  {
    LastOfConcat(steps, more);
  }

  lemma {:induction false} StaysSettled(env: Env, steps: seq<Step>, more: seq<Step>)
    requires Run(env, steps).manager.Returned?
    ensures Settled(Run(env, steps), Run(env, steps + more))
    decreases |more|
  {
    if more == [] {
      assert steps + more == steps;
    } else {
      var front := more[..|more| - 1];
      StaysSettled(env, steps, front);
      RunKeepsInv(env, steps + front);
      RunOneMore(env, steps, more);
      StepSettles(env, Run(env, steps + front), more[|more| - 1]);
    }
  }

  lemma StepSettles(env: Env, s: State, step: Step)
    requires Inv(env, s) && s.manager.Returned?
    ensures Settled(s, Apply(env, s, step))
  {
  }

  /** A step after a run. */
  lemma Then(env: Env, steps: seq<Step>, step: Step)
    ensures Run(env, steps + [step]) == Apply(env, Run(env, steps), step)
  {
    LastOfConcat(steps, [step]);
    assert steps + [] == steps;
  }

  /** The operation works; it can return nil and leave. */
  lemma Leaves(env: Env, steps: seq<Step>) returns (more: seq<Step>)
    requires var s := Run(env, steps); s.phase == Working && s.guard.calls == 1 && s.closing.Open?
    ensures var s, t := Run(env, steps), Run(env, steps + more);
            && t.phase == Left && t.ending == Some(ReturnedNil) && t.guard.calls == 1 && t.closing.Open?
            && t.manager == s.manager && t.managerAt == s.managerAt && t.started == s.started && t.ended == s.clock
  {
    more := [EndWork(ReturnedNil), RecordResult, LeaveGuard];
    var a := steps + [EndWork(ReturnedNil)];
    Then(env, steps, EndWork(ReturnedNil));
    var b := a + [RecordResult];
    Then(env, a, RecordResult);
    Then(env, b, LeaveGuard);
    assert steps + more == b + [LeaveGuard];
  }

  /** The operation has left after nil and the manager returned nil: closing
      reports success. */
  lemma Closes(env: Env, steps: seq<Step>) returns (more: seq<Step>)
    requires var s := Run(env, steps);
             && s.phase == Left && s.ending == Some(ReturnedNil) && s.guard.calls == 1 && s.closing.Open?
             && s.manager == Returned(None, false)
    ensures var s, t := Run(env, steps), Run(env, steps + more);
            && t.closing.Closed? && t.manager == s.manager && OutcomeOf(env, t) == Success
            && t.managerAt == s.managerAt && t.started == s.started && t.ended == s.ended
  {
    RunKeepsInv(env, steps);
    more := [Step.CloseGate, TakeSnapshot];
    var a := steps + [Step.CloseGate];
    Then(env, steps, Step.CloseGate);
    Then(env, a, TakeSnapshot);
    assert steps + more == a + [TakeSnapshot];
    RunKeepsInv(env, steps + more);
    SuccessExactly(env, steps + more);
  }

  /** The manager has returned nil while the operation works: it can still
      return nil and leave in time for the gate. */
  lemma WorkEndsLate(env: Env, steps: seq<Step>) returns (more: seq<Step>)
    requires var s := Run(env, steps);
             s.phase == Working && s.guard.calls == 1 && s.manager == Returned(None, false) && s.closing.Open?
    ensures !Timely(env, steps + more)
    ensures var s, t := Run(env, steps), Run(env, steps + more);
            && t.closing.Closed? && t.manager == s.manager && OutcomeOf(env, t) == Success
            && t.managerAt == s.managerAt && t.started == s.started
  {
    RunKeepsInv(env, steps);
    var leave := Leaves(env, steps);
    var close := Closes(env, steps + leave);
    more := leave + close;
    Regroup(steps, leave, close);
  }

  /** The manager has returned nil and the operation has not ended: unless a
      second invocation already spoilt the run, it can end too late unnoticed. */
  lemma EndsLate(env: Env, steps: seq<Step>) returns (more: seq<Step>)
    requires var s := Run(env, steps);
             s.ending.None? && s.guard.calls <= 1 && s.manager == Returned(None, false) && s.closing.Open?
    ensures !Timely(env, steps + more)
  {
    RunKeepsInv(env, steps);
    var s := Run(env, steps);
    if s.phase == Working {
      more := WorkEndsLate(env, steps);
    } else if s.phase == Entered {
      Then(env, steps, BeginWork(false));
      var rest := WorkEndsLate(env, steps + [BeginWork(false)]);
      more := [BeginWork(false)] + rest;
      Regroup(steps, [BeginWork(false)], rest);
    } else {
      Then(env, steps, Invoke);
      var entered := steps + [Invoke];
      Then(env, entered, BeginWork(false));
      var rest := WorkEndsLate(env, entered + [BeginWork(false)]);
      more := [Invoke] + ([BeginWork(false)] + rest);
      Regroup(entered, [BeginWork(false)], rest);
      Regroup(steps, [Invoke], [BeginWork(false)] + rest);
    }
  }

  /** A callback that the manager leaks to another goroutine can start and
      finish after the manager returned nil but before the gate closes; the run
      still counts as a success. */
  lemma EscapeUnnoticed(env: Env) returns (steps: seq<Step>)
    ensures var s := Run(env, steps);
            && s.closing.Closed? && s.manager == Returned(None, false)
            && OutcomeOf(env, s) == Success && s.managerAt < s.started
  {
    var a := [ManagerReturns(None, false)];
    Then(env, [], ManagerReturns(None, false));
    assert [] + a == a;
    Then(env, a, Invoke);
    var b := a + [Invoke];
    Then(env, b, BeginWork(false));
    var c := b + [BeginWork(false)];
    var more := WorkEndsLate(env, c);
    steps := c + more;
  }

  /** A manager that returns nil is safe, whatever happens next, exactly when at
      its return the operation has ended, or a second invocation has already
      ruled out success. */
  lemma ReturnIsTimelyExactly(env: Env, before: seq<Step>)
    requires Run(env, before).manager.Pending?
    ensures var at := before + [ManagerReturns(None, false)];
            (forall more :: Timely(env, at + more)) <==> Run(env, at).ending.Some? || Run(env, at).guard.calls > 1
  {
    var at := before + [ManagerReturns(None, false)];
    RunKeepsInv(env, before);
    Then(env, before, ManagerReturns(None, false));
    RunKeepsInv(env, at);
    var s := Run(env, at);
    if s.ending.Some? || s.guard.calls > 1 {
      forall more ensures Timely(env, at + more) {
        StaysSettled(env, at, more);
        if Run(env, at + more).closing.Closed? {
          RunKeepsInv(env, at + more);
          SuccessExactly(env, at + more);
        }
      }
    } else {
      var more := EndsLate(env, at);
      assert !Timely(env, at + more);
    }
  }
}
