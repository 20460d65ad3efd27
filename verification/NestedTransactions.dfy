/** Nested WithinTransaction calls over one database transaction: a nested call
    that fails marks the shared binding rollback-only. */
module NestedTransactions {
  import opened Common

  datatype Err =
    | Plain(n: nat)
    | RollbackOnly
    | NestedPanic
    | Join(first: Err, second: Option<Err>)
    | PendingRollback(cause: Err)

  datatype Ending = ReturnNil | ReturnError(e: Err) | Panic

  /** A transaction callback: nested calls in order, then an ending. The flags
      say what its caller does with a failure: swallow the error, recover the
      panic. Otherwise a nested failure ends the caller too. */
  datatype Op = Op(calls: seq<Op>, ending: Ending, swallow: bool, recover: bool)

  datatype Outcome = Fine | Failed(e: Err) | Panicked

  // ---------- What a callback does, without a transaction ----------

  /** How a callback ends. */
  function OutcomeOf(op: Op): Outcome
    decreases op, 1
  {
    OutcomeOfCalls(op.calls, op.ending)
  }

  function OutcomeOfCalls(calls: seq<Op>, ending: Ending): Outcome
    decreases calls, 0
  {
    if calls == [] then
      match ending
      case ReturnNil => Fine
      case ReturnError(e) => Failed(e)
      case Panic => Panicked
    else
      match OutcomeOf(calls[0])
      case Fine => OutcomeOfCalls(calls[1..], ending)
      case Failed(e) => if calls[0].swallow then OutcomeOfCalls(calls[1..], ending) else Failed(PendingRollback(e))
      case Panicked => if calls[0].recover then OutcomeOfCalls(calls[1..], ending) else Panicked
  }

  /** Whether a callback goes on after this nested call. */
  predicate Continues(call: Op) {
    match OutcomeOf(call)
    case Fine => true
    case Failed(_) => call.swallow
    case Panicked => call.recover
  }

  /** The outcomes of all calls executed in the tree, in completion order; the
      call itself comes last. */
  function Completions(op: Op): (r: seq<Outcome>)
    ensures |r| > 0 && r[|r| - 1] == OutcomeOf(op)
    decreases op, 1
  {
    NestedCompletions(op.calls) + [OutcomeOf(op)]
  }

  function NestedCompletions(calls: seq<Op>): seq<Outcome>
    decreases calls, 0
  {
    if calls == [] then []
    else Completions(calls[0]) + if Continues(calls[0]) then NestedCompletions(calls[1..]) else []
  }

  predicate AllFine(outcomes: seq<Outcome>) {
    forall i :: 0 <= i < |outcomes| ==> outcomes[i].Fine?
  }

  /** The rollback cause that a failed nested call proposes. */
  function Cause(o: Outcome): Err
    requires !o.Fine?
  {
    Join(RollbackOnly, Some(if o.Failed? then o.e else NestedPanic))
  }

  /** The cause after these completions: the first failure wins. */
  function FirstCause(before: Option<Err>, outcomes: seq<Outcome>): (r: Option<Err>)
    ensures before.Some? ==> r == before
    ensures before.None? ==> (r.None? <==> AllFine(outcomes))
    decreases outcomes
  {
    if before.Some? || outcomes == [] then before
    else FirstCause(if outcomes[0].Fine? then None else Some(Cause(outcomes[0])), outcomes[1..])
  }

  lemma {:induction false} FirstCauseConcat(before: Option<Err>, a: seq<Outcome>, b: seq<Outcome>)
    ensures FirstCause(before, a + b) == FirstCause(FirstCause(before, a), b)
    decreases |a|
  {
    if before.Some? {
    } else if a == [] {
      assert a + b == b;
    } else {
      assert (a + b)[1..] == a[1..] + b;
      FirstCauseConcat(if a[0].Fine? then None else Some(Cause(a[0])), a[1..], b);
    }
  }

  /** The cause of a failed tree is the cause of its first failed completion. */
  lemma {:induction false} FirstCauseIsFirst(outcomes: seq<Outcome>, i: nat)
    requires i < |outcomes| && !outcomes[i].Fine? && AllFine(outcomes[..i])
    ensures FirstCause(None, outcomes) == Some(Cause(outcomes[i]))
    decreases i
  {
    if i > 0 {
      assert outcomes[0] == outcomes[..i][0];
      assert outcomes[1..][..i - 1] == outcomes[..i][1..];
      FirstCauseIsFirst(outcomes[1..], i - 1);
    }
  }

  // ---------- The shared binding ----------

  class Binding {
    var cause: Option<Err>

    constructor ()
      ensures cause.None?
    {
      cause := None;
    }

    /** The first cause is kept. */
    method MarkRollbackOnly(e: Err)
      modifies this
      ensures cause == if old(cause).None? then Some(Join(RollbackOnly, Some(e))) else old(cause)
    {
      if cause.None? { cause := Some(Join(RollbackOnly, Some(e))); }
    }

    /** Runs a callback: its nested calls in order, then its ending. */
    method Callback(calls: seq<Op>, ending: Ending) returns (o: Outcome)
      modifies this
      ensures o == OutcomeOfCalls(calls, ending)
      ensures cause == FirstCause(old(cause), NestedCompletions(calls))
      decreases calls, 0
    {
      if calls == [] {
        match ending {
          case ReturnNil => return Fine;
          case ReturnError(e) => return Failed(e);
          case Panic => return Panicked;
        }
      }
      var nested := Nested(calls[0]);
      ghost var rest := if Continues(calls[0]) then NestedCompletions(calls[1..]) else [];
      FirstCauseConcat(old(cause), Completions(calls[0]), rest);
      match nested {
        case Fine => o := Callback(calls[1..], ending);
        case Failed(e) =>
          if calls[0].swallow { o := Callback(calls[1..], ending); } else { o := Failed(PendingRollback(e)); }
        case Panicked =>
          if calls[0].recover { o := Callback(calls[1..], ending); } else { o := Panicked; }
      }
    }

    /** A WithinTransaction call inside the transaction. */
    method Nested(op: Op) returns (o: Outcome)
      modifies this
      ensures o == OutcomeOf(op)
      ensures cause == FirstCause(old(cause), Completions(op))
      decreases op, 1
    {
      o := Callback(op.calls, op.ending);
      FirstCauseConcat(old(cause), NestedCompletions(op.calls), [OutcomeOf(op)]);
      assert [OutcomeOf(op)][1..] == [];
      match o {
        case Fine =>
        case Failed(e) => MarkRollbackOnly(e);
        case Panicked => MarkRollbackOnly(NestedPanic);
      }
    }
  }

  // ---------- The root ----------

  datatype RootResult =
    | Committed
    | CommitFailed
    | RolledBack(cause: Err)
    | RollbackFailed(cause: Err)
    | Unwound

  /** The root call. The governed backend and the ordinary one differ only in
      how they join a failed operation with the rollback-only cause. */
  method WithinTransaction(op: Op, rollbackFails: bool, commitFails: bool) returns (r: RootResult, commitAttempted: bool)
    ensures commitAttempted == Commits(op) == AllFine(Completions(op))
    ensures r == Committed <==> commitAttempted && !commitFails
    ensures commitAttempted ==> r == if commitFails then CommitFailed else Committed
    ensures OutcomeOf(op).Panicked? ==> r == Unwound
    ensures !commitAttempted && !OutcomeOf(op).Panicked? ==>
              var cause := RollbackCause(OutcomeOf(op), FirstCause(None, NestedCompletions(op.calls)));
              r == if rollbackFails then RollbackFailed(cause) else RolledBack(cause)
  {
    var binding := new Binding();
    var o := binding.Callback(op.calls, op.ending);
    commitAttempted := false;
    NothingHidden(op);
    if o.Panicked? {
      r := Unwound;
    } else if o.Failed? || binding.cause.Some? {
      var cause := RollbackCause(o, binding.cause);
      r := if rollbackFails then RollbackFailed(cause) else RolledBack(cause);
    } else {
      commitAttempted := true;
      r := if commitFails then CommitFailed else Committed;
    }
  }

  /** The reported cause: the operation's error joined with the sticky cause. */
  function RollbackCause(o: Outcome, sticky: Option<Err>): Err
    requires o.Failed? || sticky.Some?
  {
    if o.Failed? then Join(o.e, sticky) else sticky.value
  }

  /** The root's own tests before it commits: its callback returned nil and the
      binding carries no cause. */
  predicate Commits(op: Op) {
    OutcomeOf(op).Fine? && FirstCause(None, NestedCompletions(op.calls)).None?
  }

  /** Swallowing cannot hide a failure: the root attempts to commit exactly when
      every call executed in the tree, at any depth, ended fine. */
  lemma NothingHidden(op: Op)
    ensures Commits(op) <==> forall i :: 0 <= i < |Completions(op)| ==> Completions(op)[i].Fine?
  {
    var all, nested := Completions(op), NestedCompletions(op.calls);
    assert all == nested + [OutcomeOf(op)];
    assert all[|nested|] == OutcomeOf(op);
    if Commits(op) {
      forall i | 0 <= i < |all| ensures all[i].Fine? {
        if i < |nested| { assert all[i] == nested[i]; }
      }
    }
    if forall i :: 0 <= i < |all| ==> all[i].Fine? {
      forall i | 0 <= i < |nested| ensures nested[i].Fine? { assert all[i] == nested[i]; }
    }
  }
}
