/** Safety of governed execution over every run of the protocol. */
module GovernedTheorems {
  import opened Sequences
  import opened Common
  import opened GovernedTypes
  import opened GovernedProtocol

  // ---------- What a committed execution looks like ----------

  /** One handler execution with the decisions of its own transaction. */
  datatype Execution = Execution(
    req: Request, con: Contract, plan: Plan, source: Source,
    intent: Decision, impact: Decision, result: Result)

  function Reserved(x: Execution): Record {
    Reservation(x.req, x.con, x.plan, x.impact)
  }

  /** The complete trace of the transaction that committed `x`. */
  function TraceOf(x: Execution): seq<Entry> {
    var decided := [IntentAllowed(x.intent), ImpactAllowed(x.plan.body.impact, x.impact)];
    var ran := HandlerRan(x.req, x.con, x.plan, x.source, x.result);
    var audited := Audited("allowed", x.plan.hash, x.plan.body.impact);
    if x.req.key == "" then decided + [ran, audited]
    else decided + [RowReserved(Reserved(x)), ran, RowCompleted(CompletedRecord(Reserved(x), x.result)), audited]
  }

  /** A committed Preview of exactly this plan, by its own authorized request. */
  predicate IsPreview(trace: seq<Entry>, plan: Plan) {
    && |trace| == 4
    && trace[0].IntentAllowed? && trace[0].decision.allowed
    && trace[1].ImpactAllowed? && trace[1].decision.allowed && trace[1].impact == plan.body.impact
    && trace[1].decision.fingerprint == plan.body.fingerprint && WithinLimit(trace[1].decision, plan.body.impact)
    && trace[2].PlanSaved? && trace[2].plan == plan && Binds(plan, trace[2].req, trace[2].con)
    && trace[3] == Audited("previewed", plan.hash, plan.body.impact)
  }

  predicate Saved(history: seq<seq<Entry>>, plan: Plan) {
    exists i :: 0 <= i < |history| && IsPreview(history[i], plan)
  }

  /** The plan is authentic, bound to the request, and previewed when it must be. */
  predicate Provenance(history: seq<seq<Entry>>, req: Request, con: Contract, plan: Plan, source: Source) {
    && PlanIntact(plan) && Binds(plan, req, con)
    && (source.Loaded? ==> source.at < plan.body.expiresAt && Saved(history, plan))
    && (con.preview == PreviewRequired ==> source.Loaded?)
  }

  predicate IntentOk(con: Contract, d: Decision) {
    d.allowed && d.permission == con.permission
  }

  predicate ImpactOk(con: Contract, plan: Plan, d: Decision) {
    && d.allowed && d.permission == con.permission
    && WithinLimit(d, plan.body.impact) && d.fingerprint == plan.body.fingerprint
  }

  /** Everything governance demands of an execution, given the earlier history. */
  predicate Governed(history: seq<seq<Entry>>, x: Execution) {
    && Provenance(history, x.req, x.con, x.plan, x.source)
    && IntentOk(x.con, x.intent) && ImpactOk(x.con, x.plan, x.impact)
  }

  /** No handler ran and no row was completed. */
  predicate Quiet(trace: seq<Entry>) {
    forall j :: 0 <= j < |trace| ==> !trace[j].HandlerRan? && !trace[j].RowCompleted?
  }

  ghost predicate IsExecution(history: seq<seq<Entry>>, trace: seq<Entry>, x: Execution) {
    trace == TraceOf(x) && Governed(history, x)
  }

  function EffectsIn(trace: seq<Entry>, k: RowKey): nat {
    if trace == [] then 0
    else
      var last := trace[|trace| - 1];
      EffectsIn(trace[..|trace| - 1], k) +
      if last.HandlerRan? && last.req.key != "" && RequestKey(last.req) == k then 1 else 0
  }

  /** How many committed handler executions carry the idempotency key `k`. */
  function Effects(history: seq<seq<Entry>>, k: RowKey): nat {
    if history == [] then 0
    else Effects(history[..|history| - 1], k) + EffectsIn(history[|history| - 1], k)
  }

  // ---------- The invariant ----------

  predicate Answered(rows: Rows, req: Request, result: Result) {
    && RequestKey(req) in rows
    && rows[RequestKey(req)].status == Completed
    && rows[RequestKey(req)].result == result
    && rows[RequestKey(req)].inputHash == InputDigest(req.input)
  }

  predicate RowsOk(rows: Rows) {
    forall k :: k in rows ==> KeyOf(rows[k]) == k && rows[k].status == Completed
  }

  predicate PlansOk(plans: Plans, history: seq<seq<Entry>>) {
    forall h :: h in plans ==> plans[h].hash == h && Saved(history, plans[h])
  }

  ghost predicate TraceOk(history: seq<seq<Entry>>, i: nat, rows: Rows)
    requires i < |history|
  {
    || Quiet(history[i])
    || exists x :: && IsExecution(history[..i], history[i], x)
                   && (x.req.key != "" ==>
                         Find(rows, RequestKey(x.req)) == Some(CompletedRecord(Reserved(x), x.result)))
  }

  ghost predicate HistoryOk(history: seq<seq<Entry>>, rows: Rows) {
    forall i: nat :: i < |history| ==> TraceOk(history, i, rows)
  }

  predicate CountOk(history: seq<seq<Entry>>, k: RowKey, rows: Rows) {
    Effects(history, k) == if k in rows then 1 else 0
  }

  predicate AnswersOk(rows: Rows, answers: seq<Answer>) {
    forall i :: 0 <= i < |answers| && answers[i].req.key != "" ==> Answered(rows, answers[i].req, answers[i].result)
  }

  /** The overlay holds exactly this uncommitted row, or nothing without a key. */
  predicate Holds(c: Call, rec: Record) {
    c.tx.plans == map[] && c.tx.rows == if c.req.key == "" then map[] else map[RequestKey(c.req) := Some(rec)]
  }

  predicate Idle(c: Call, trace: seq<Entry>) {
    c.tx == Tx(map[], map[], trace)
  }

  function Decided(plan: Plan, intent: Decision, impact: Decision): seq<Entry> {
    [IntentAllowed(intent), ImpactAllowed(plan.body.impact, impact)]
  }

  ghost predicate OutsideOk(rows: Rows, history: seq<seq<Entry>>, c: Call, at: Outside) {
    && Idle(c, [])
    && match at
       case Start => true
       case Intended(_) => PlanPolicy(c.con, c.req.planHash)
       case Found => RequestKey(c.req) in rows
       case Absent(_) => PlanPolicy(c.con, c.req.planHash)
       case Planned(_, body, source) =>
         if source.Loaded? then Provenance(history, c.req, c.con, Hashed(body), source)
         else && body.fingerprint == "" && Binds(Hashed(body), c.req, c.con) && c.con.preview != PreviewRequired
              && body.impact.rows >= 0 && body.createdAt < body.expiresAt
       case Ready(plan, source) => Provenance(history, c.req, c.con, plan, source)
  }

  ghost predicate ReplayOk(rows: Rows, c: Call, at: Replaying) {
    && Idle(c, c.tx.trace) && Quiet(c.tx.trace)
    && match at
       case Opened => true
       case LoadedRow(row) => Find(rows, RequestKey(c.req)) == Some(row)
       case Checked(row, _) => Find(rows, RequestKey(c.req)) == Some(row)
       case Conflicted(_) => true
  }

  ghost predicate ExecOk(history: seq<seq<Entry>>, c: Call, plan: Plan, source: Source, at: Executing) {
    && Provenance(history, c.req, c.con, plan, source)
    && (!at.Begun? ==> IntentOk(c.con, at.intent))
    && (!at.Begun? && !at.IntentDecided? ==> ImpactOk(c.con, plan, at.impact))
    && match at
       case Begun => Idle(c, [])
       case IntentDecided(intent) => Idle(c, [IntentAllowed(intent)])
       case ImpactDecided(intent, impact) => Idle(c, Decided(plan, intent, impact))
       case Held(intent, impact) =>
         var x := Execution(c.req, c.con, plan, source, intent, impact, NO_RESULT);
         Holds(c, Reserved(x)) && c.tx.trace == TraceOf(x)[..if c.req.key == "" then 2 else 3]
       case Handled(intent, impact, result) =>
         var x := Execution(c.req, c.con, plan, source, intent, impact, result);
         Holds(c, Reserved(x)) && c.tx.trace == TraceOf(x)[..if c.req.key == "" then 3 else 4]
       case Recorded(intent, impact, result) =>
         var x := Execution(c.req, c.con, plan, source, intent, impact, result);
         && Holds(c, CompletedRecord(Reserved(x), result))
         && c.tx.trace == TraceOf(x)[..if c.req.key == "" then 3 else 5]
  }

  ghost predicate Executed(history: seq<seq<Entry>>, c: Call, result: Result, x: Execution) {
    && IsExecution(history, c.tx.trace, x) && x.req == c.req && x.result == result
    && Holds(c, CompletedRecord(Reserved(x), result))
  }

  ghost predicate DoneOk(rows: Rows, history: seq<seq<Entry>>, c: Call, result: Result) {
    || (Idle(c, c.tx.trace) && Quiet(c.tx.trace) && Answered(rows, c.req, result))
    || (exists x :: Executed(history, c, result, x))
  }

  ghost predicate PvOk(history: seq<seq<Entry>>, c: Call, at: Previewing) {
    match at
    case PvIntentDecided(draft, intent) => Idle(c, [IntentAllowed(intent)]) && intent.allowed
    case PvImpactDecided(draft, impact) =>
      && |c.tx.trace| == 2 && Idle(c, [c.tx.trace[0], ImpactAllowed(draft.impact, impact)])
      && c.tx.trace[0].IntentAllowed? && c.tx.trace[0].decision.allowed
      && impact.allowed && WithinLimit(impact, draft.impact)
    case PvSwept(plan) => PreviewOpen(c, plan) && |c.tx.trace| == 2 && OnlyDeletes(c.tx)
    case PvSaved(plan) => PreviewOpen(c, plan) && PreviewWrites(c, plan, 2)
    case PvDone(plan) =>
      && PreviewOpen(c, plan) && PreviewWrites(c, plan, 3)
      && c.tx.trace[|c.tx.trace| - 1] == Audited("previewed", plan.hash, plan.body.impact)
    case _ => Idle(c, [])
  }

  ghost predicate CallOk(rows: Rows, history: seq<seq<Entry>>, c: Call) {
    match c.pc
    case Out(at) => OutsideOk(rows, history, c, at)
    case Replay(at) => ReplayOk(rows, c, at)
    case Exec(plan, source, at) => ExecOk(history, c, plan, source, at)
    case Done(result) => DoneOk(rows, history, c, result)
    case Pv(at) => PvOk(history, c, at)
    case Failed => true
  }

  predicate OnlyDeletes(tx: Tx) {
    forall h :: h in tx.plans ==> tx.plans[h].None?
  }

  predicate PreviewOpen(c: Call, plan: Plan) {
    var t := c.tx.trace;
    && c.tx.rows == map[] && Quiet(t) && |t| >= 2
    && plan == Hashed(plan.body) && Binds(plan, c.req, c.con)
    && t[0].IntentAllowed? && t[0].decision.allowed
    && t[1].ImpactAllowed? && t[1].decision.allowed && t[1].impact == plan.body.impact
    && t[1].decision.fingerprint == plan.body.fingerprint && WithinLimit(t[1].decision, plan.body.impact)
  }

  /** Either this transaction inserted the plan, or it only deleted plans. */
  predicate PreviewWrites(c: Call, plan: Plan, length: nat) {
    var t := c.tx.trace;
    || (|t| == length && OnlyDeletes(c.tx))
    || (|t| == length + 1 && length >= 2 && t[2] == PlanSaved(c.req, c.con, plan)
        && plan.hash in c.tx.plans && c.tx.plans[plan.hash] == Some(plan)
        && forall h :: h in c.tx.plans && h != plan.hash ==> c.tx.plans[h].None?)
  }

  ghost predicate CallsOk(s: State) {
    forall id :: id in s.calls ==> CallOk(s.rows, s.history, s.calls[id])
  }

  /** Uncommitted rows are exclusive: not committed and not held twice. */
  predicate LocksOk(rows: Rows, calls: map<nat, Call>) {
    && (forall id, k :: id in calls && k in calls[id].tx.rows ==> k !in rows)
    && (forall id, other, k :: id in calls && other in calls && id != other ==>
          !(k in calls[id].tx.rows && k in calls[other].tx.rows))
  }

  ghost predicate Inv(s: State) {
    && RowsOk(s.rows) && PlansOk(s.plans, s.history) && HistoryOk(s.history, s.rows)
    && (forall k :: CountOk(s.history, k, s.rows))
    && AnswersOk(s.rows, s.answers) && CallsOk(s) && LocksOk(s.rows, s.calls)
  }

  // ---------- Steps of one call ----------

  /** A step changes only the call; the row it starts to hold was free. */
  ghost predicate StepOk(s: State, id: nat, c: Call, c': Call) {
    && CallOk(s.rows, s.history, c')
    && (forall k :: k in c'.tx.rows && k !in c.tx.rows ==> k !in s.rows && !RowBlocked(s, id, k))
  }

  /** What a transaction that wrote nothing sees. */
  lemma IdleView(rows: Rows, plans: Plans, tx: Tx)
    requires tx.rows == map[]
    ensures RowsView(rows, tx) == rows
    ensures tx.plans == map[] ==> PlansView(plans, tx) == plans
  {
    assert RowsView(rows, tx) == rows;
    if tx.plans == map[] { assert PlansView(plans, tx) == plans; }
  }

  /** What a transaction sees that holds one uncommitted row. */
  lemma HoldingView(rows: Rows, tx: Tx, k: RowKey, rec: Record)
    requires tx.rows == map[k := Some(rec)]
    ensures RowsView(rows, tx) == rows[k := rec]
  {
    assert RowsView(rows, tx) == rows[k := rec];
  }

  lemma OutsideStep(s: State, id: nat, c: Call, at: Outside, choice: Choice)
    requires PlansOk(s.plans, s.history) && OutsideOk(s.rows, s.history, c, at)
    ensures var r := AdvanceOutside(s, c, at, choice); r.Some? ==> StepOk(s, id, c, r.value)
  {
  }

  lemma ReplayStep(s: State, id: nat, c: Call, at: Replaying, choice: Choice)
    requires RowsOk(s.rows) && ReplayOk(s.rows, c, at)
    ensures var r := GovernedProtocol.AdvanceReplay(s, c, at, choice); r.Some? ==> StepOk(s, id, c, r.value)
  {
    IdleView(s.rows, s.plans, c.tx);
  }

  lemma DecideStep(s: State, id: nat, c: Call, plan: Plan, source: Source, at: Executing, choice: Choice)
    requires ExecOk(s.history, c, plan, source, at) && (at.Begun? || at.IntentDecided?)
    ensures var r := AdvanceDecisions(c, plan, source, at, choice); r.Some? ==> StepOk(s, id, c, r.value)
  {
  }

  lemma ReserveStep(s: State, id: nat, c: Call, plan: Plan, source: Source, at: Executing, choice: Choice)
    requires ExecOk(s.history, c, plan, source, at) && at.ImpactDecided?
    ensures var r := AdvanceExecution(s, id, c, plan, source, at, choice); r.Some? ==> StepOk(s, id, c, r.value)
  {
    IdleView(s.rows, s.plans, c.tx);
  }

  lemma HandlerStep(s: State, id: nat, c: Call, plan: Plan, source: Source, at: Executing, choice: Choice)
    requires ExecOk(s.history, c, plan, source, at) && at.Held?
    ensures var r := AdvanceExecution(s, id, c, plan, source, at, choice); r.Some? ==> StepOk(s, id, c, r.value)
  {
  }

  lemma CompleteStep(s: State, id: nat, c: Call, plan: Plan, source: Source, at: Executing, choice: Choice)
    requires ExecOk(s.history, c, plan, source, at) && at.Handled?
    ensures var r := AdvanceExecution(s, id, c, plan, source, at, choice); r.Some? ==> StepOk(s, id, c, r.value)
  {
    if c.req.key != "" { HoldingView(s.rows, c.tx, RequestKey(c.req), Reservation(c.req, c.con, plan, at.impact)); }
  }

  lemma AuditStep(s: State, id: nat, c: Call, plan: Plan, source: Source, at: Executing, choice: Choice)
    requires ExecOk(s.history, c, plan, source, at) && at.Recorded?
    ensures var r := AdvanceExecution(s, id, c, plan, source, at, choice); r.Some? ==> StepOk(s, id, c, r.value)
  {
    var x := Execution(c.req, c.con, plan, source, at.intent, at.impact, at.result);
    if choice.Audit? {
      assert Executed(s.history, AdvanceExecution(s, id, c, plan, source, at, choice).value, at.result, x);
    }
  }

  lemma PreviewStep(s: State, id: nat, c: Call, at: Previewing, choice: Choice)
    requires PvOk(s.history, c, at)
    requires at.PvStart? || at.PvIntended? || at.PvDrafted? || at.PvReady? || at.PvBegun? || at.PvIntentDecided?
    ensures var r := AdvancePreview(s, id, c, at, choice); r.Some? ==> StepOk(s, id, c, r.value)
  {
  }

  lemma SweepStep(s: State, id: nat, c: Call, at: Previewing, choice: Choice)
    requires PvOk(s.history, c, at) && at.PvImpactDecided?
    ensures var r := AdvanceSave(s, id, c, at, choice); r.Some? ==> StepOk(s, id, c, r.value)
  {
  }

  lemma SaveStep(s: State, id: nat, c: Call, at: Previewing, choice: Choice)
    requires PvOk(s.history, c, at) && (at.PvSwept? || at.PvSaved?)
    ensures var r := AdvanceSave(s, id, c, at, choice); r.Some? ==> StepOk(s, id, c, r.value)
  {
  }

  /** Every step of a call keeps what its position promises. */
  lemma CallStepOk(s: State, id: nat, c: Call, choice: Choice)
    requires RowsOk(s.rows) && PlansOk(s.plans, s.history) && CallOk(s.rows, s.history, c)
    ensures var r := Advance(s, id, c, choice); r.Some? ==> StepOk(s, id, c, r.value)
  {
    match c.pc
    case Out(at) => OutsideStep(s, id, c, at, choice);
    case Replay(at) => ReplayStep(s, id, c, at, choice);
    case Exec(plan, source, at) =>
      match at {
        case ImpactDecided(_, _) => ReserveStep(s, id, c, plan, source, at, choice);
        case Held(_, _) => HandlerStep(s, id, c, plan, source, at, choice);
        case Handled(_, _, _) => CompleteStep(s, id, c, plan, source, at, choice);
        case Recorded(_, _, _) => AuditStep(s, id, c, plan, source, at, choice);
        case _ => DecideStep(s, id, c, plan, source, at, choice);
      }
    case Pv(at) =>
      if at.PvImpactDecided? || at.PvSwept? || at.PvSaved? || at.PvDone? {
        if at.PvImpactDecided? { SweepStep(s, id, c, at, choice); }
        else if !at.PvDone? { SaveStep(s, id, c, at, choice); }
      } else {
        PreviewStep(s, id, c, at, choice);
      }
    case Done(_) =>
    case Failed =>
  }

  // ---------- Commit ----------

  /** Later commits do not disturb a call: rows and history only grow. */
  lemma CallOkMonotone(rows: Rows, rows': Rows, history: seq<seq<Entry>>, t: seq<Entry>, c: Call)
    requires CallOk(rows, history, c)
    requires forall k :: k in rows ==> k in rows' && rows'[k] == rows[k]
    ensures CallOk(rows', history + [t], c)
  {
    SavedMonotone(history, t);
    if c.pc.Done? {
      if x :| Executed(history, c, c.pc.result, x) {
        assert Executed(history + [t], c, c.pc.result, x);
      }
    }
  }

  lemma SavedMonotone(history: seq<seq<Entry>>, t: seq<Entry>)
    ensures forall plan :: Saved(history, plan) ==> Saved(history + [t], plan)
  {
    forall plan | Saved(history, plan) ensures Saved(history + [t], plan) {
      var i :| 0 <= i < |history| && IsPreview(history[i], plan);
      assert (history + [t])[i] == history[i];
    }
  }

  lemma EffectsAppend(history: seq<seq<Entry>>, t: seq<Entry>, k: RowKey)
    ensures Effects(history + [t], k) == Effects(history, k) + EffectsIn(t, k)
  {
    assert (history + [t])[..|history|] == history;
  }

  lemma {:induction false} QuietHasNoEffects(t: seq<Entry>, k: RowKey)
    requires Quiet(t)
    ensures EffectsIn(t, k) == 0
  {
    if t != [] { QuietHasNoEffects(t[..|t| - 1], k); }
  }

  /** An execution's trace carries exactly one effect, under its own key. */
  lemma ExecutionEffects(x: Execution, k: RowKey)
    ensures EffectsIn(TraceOf(x), k) == if x.req.key != "" && RequestKey(x.req) == k then 1 else 0
  {
    var t := TraceOf(x);
    var at := if x.req.key == "" then 2 else 3;
    QuietHasNoEffects(t[..at], k);
    assert t[..at + 1][..at] == t[..at];
    var one := if x.req.key != "" && RequestKey(x.req) == k then 1 else 0;
    assert EffectsIn(t[..at + 1], k) == one;
    if x.req.key == "" {
      assert t[..3] == t[..|t| - 1];
    } else {
      assert t[..5][..4] == t[..4];
      assert EffectsIn(t[..5], k) == one;
      assert t[..5] == t[..|t| - 1];
    }
  }

  lemma HistoryMonotone(history: seq<seq<Entry>>, t: seq<Entry>, rows: Rows, rows': Rows)
    requires HistoryOk(history, rows)
    requires forall k :: k in rows ==> k in rows' && rows'[k] == rows[k]
    ensures forall i: nat :: i < |history| ==> TraceOk(history + [t], i, rows')
  {
    forall i: nat | i < |history| ensures TraceOk(history + [t], i, rows') {
      assert TraceOk(history, i, rows);
      assert (history + [t])[..i] == history[..i];
    }
  }

  /** Committing an execution adds its row, its effect and nothing else. */
  lemma CommitExecution(s: State, tx: Tx, x: Execution)
    requires HistoryOk(s.history, s.rows) && RowsOk(s.rows) && forall k :: CountOk(s.history, k, s.rows)
    requires IsExecution(s.history, tx.trace, x)
    requires x.req.key == "" ==> tx.rows == map[]
    requires x.req.key != "" ==> tx.rows == map[RequestKey(x.req) := Some(CompletedRecord(Reserved(x), x.result))]
    requires x.req.key != "" ==> RequestKey(x.req) !in s.rows
    ensures var rows' := RowsView(s.rows, tx);
            && (x.req.key == "" ==> rows' == s.rows)
            && (x.req.key != "" ==> rows' == s.rows[RequestKey(x.req) := CompletedRecord(Reserved(x), x.result)])
            && RowsOk(rows') && HistoryOk(s.history + [tx.trace], rows')
            && forall k :: CountOk(s.history + [tx.trace], k, rows')
  {
    var done := CompletedRecord(Reserved(x), x.result);
    var rows' := RowsView(s.rows, tx);
    if x.req.key == "" { IdleView(s.rows, s.plans, tx); } else { HoldingView(s.rows, tx, RequestKey(x.req), done); }
    var h := s.history + [tx.trace];
    HistoryMonotone(s.history, tx.trace, s.rows, rows');
    assert h[..|s.history|] == s.history;
    assert TraceOk(h, |s.history|, rows');
    forall k ensures CountOk(h, k, rows') {
      EffectsAppend(s.history, tx.trace, k);
      ExecutionEffects(x, k);
      assert CountOk(s.history, k, s.rows);
    }
  }

  lemma CommitQuiet(s: State, tx: Tx)
    requires HistoryOk(s.history, s.rows) && forall k :: CountOk(s.history, k, s.rows)
    requires Quiet(tx.trace) && tx.rows == map[]
    ensures RowsView(s.rows, tx) == s.rows && HistoryOk(s.history + [tx.trace], s.rows)
    ensures forall k :: CountOk(s.history + [tx.trace], k, s.rows)
  {
    IdleView(s.rows, s.plans, tx);
    var h := s.history + [tx.trace];
    HistoryMonotone(s.history, tx.trace, s.rows, s.rows);
    assert TraceOk(h, |s.history|, s.rows);
    forall k ensures CountOk(h, k, s.rows) {
      EffectsAppend(s.history, tx.trace, k);
      QuietHasNoEffects(tx.trace, k);
      assert CountOk(s.history, k, s.rows);
    }
  }

  /** A committed overlay keeps the plan table explained by committed Previews. */
  lemma CommitPlans(s: State, c: Call)
    requires PlansOk(s.plans, s.history)
    requires c.tx.plans == map[] || (c.pc.Pv? && c.pc.pv.PvDone? && PvOk(s.history, c, c.pc.pv))
    ensures PlansOk(PlansView(s.plans, c.tx), s.history + [c.tx.trace])
  {
    SavedMonotone(s.history, c.tx.trace);
    var h' := s.history + [c.tx.trace];
    forall h | h in PlansView(s.plans, c.tx)
      ensures PlansView(s.plans, c.tx)[h].hash == h && Saved(h', PlansView(s.plans, c.tx)[h])
    {
      if h in c.tx.plans {
        assert IsPreview(h'[|s.history|], c.pc.pv.plan);
      }
    }
  }

  /** A call that ends without a durable commit takes its overlay with it. */
  lemma DropCall(s: State, id: nat)
    requires Inv(s) && id in s.calls
    ensures Inv(s.(calls := s.calls - {id}))
  {
  }

  /** The other calls after a commit that left the rows they hold alone. */
  lemma OthersOk(s: State, s': State, t: seq<Entry>)
    requires CallsOk(s) && LocksOk(s.rows, s.calls)
    requires s'.calls.Keys <= s.calls.Keys && forall id :: id in s'.calls ==> s'.calls[id] == s.calls[id]
    requires s'.history == s.history + [t]
    requires forall k :: k in s.rows ==> k in s'.rows && s'.rows[k] == s.rows[k]
    requires forall id, k :: id in s'.calls && k in s'.calls[id].tx.rows ==> k !in s'.rows
    ensures CallsOk(s') && LocksOk(s'.rows, s'.calls)
  {
    forall id | id in s'.calls ensures CallOk(s'.rows, s'.history, s'.calls[id]) {
      CallOkMonotone(s.rows, s'.rows, s.history, t, s.calls[id]);
    }
  }

  lemma CommitDone(s: State, id: nat, reported: bool)
    requires Inv(s) && id in s.calls && s.calls[id].pc.Done?
    ensures Inv(FinishCall(s, id, true, reported))
  {
    var c := s.calls[id];
    assert DoneOk(s.rows, s.history, c, c.pc.result);
    if x :| Executed(s.history, c, c.pc.result, x) {
      CommitExecuted(s, id, x, reported);
    } else {
      CommitReplayed(s, id, reported);
    }
  }

  lemma CommitExecuted(s: State, id: nat, x: Execution, reported: bool)
    requires Inv(s) && id in s.calls && s.calls[id].pc.Done?
    requires Executed(s.history, s.calls[id], s.calls[id].pc.result, x)
    ensures Inv(FinishCall(s, id, true, reported))
  {
    var c := s.calls[id];
    var s' := FinishCall(s, id, true, reported);
    assert PlansOk(s'.plans, s'.history) by { CommitPlans(s, c); }
    CommitExecution(s, c.tx, x);
    assert CallsOk(s') && LocksOk(s'.rows, s'.calls) by {
      OthersUnlocked(s, id, s', x);
      OthersOk(s, s', c.tx.trace);
    }
    assert AnswersOk(s'.rows, s'.answers) by { AnswersAfter(s, s'.rows, c.req, c.pc.result, x); }
  }

  lemma OthersUnlocked(s: State, id: nat, s': State, x: Execution)
    requires LocksOk(s.rows, s.calls) && id in s.calls && s'.calls == s.calls - {id} && x.req == s.calls[id].req
    requires Holds(s.calls[id], CompletedRecord(Reserved(x), x.result))
    requires s'.rows == if x.req.key == "" then s.rows else s.rows[RequestKey(x.req) := CompletedRecord(Reserved(x), x.result)]
    ensures forall other, k :: other in s'.calls && k in s'.calls[other].tx.rows ==> k !in s'.rows
  {
    forall other, k | other in s'.calls && k in s'.calls[other].tx.rows ensures k !in s'.rows {
      assert other != id && s'.calls[other] == s.calls[other];
    }
  }

  lemma AnswersAfter(s: State, rows': Rows, req: Request, result: Result, x: Execution)
    requires AnswersOk(s.rows, s.answers) && x.req == req && x.result == result && KeyOf(Reserved(x)) == RequestKey(req)
    requires rows' == if req.key == "" then s.rows else s.rows[RequestKey(req) := CompletedRecord(Reserved(x), result)]
    requires req.key != "" ==> RequestKey(req) !in s.rows
    ensures AnswersOk(rows', s.answers) && AnswersOk(rows', s.answers + [Answer(req, result)])
  {
    var more := s.answers + [Answer(req, result)];
    forall i | 0 <= i < |more| && more[i].req.key != "" ensures Answered(rows', more[i].req, more[i].result) {
      if i < |s.answers| { assert Answered(s.rows, s.answers[i].req, s.answers[i].result); }
    }
    forall i | 0 <= i < |s.answers| && s.answers[i].req.key != "" ensures Answered(rows', s.answers[i].req, s.answers[i].result) {
      assert more[i] == s.answers[i];
    }
  }

  lemma CommitReplayed(s: State, id: nat, reported: bool)
    requires Inv(s) && id in s.calls && s.calls[id].pc.Done?
    requires var c := s.calls[id]; Idle(c, c.tx.trace) && Quiet(c.tx.trace) && Answered(s.rows, c.req, c.pc.result)
    ensures Inv(FinishCall(s, id, true, reported))
  {
    var c := s.calls[id];
    CommitPlans(s, c);
    CommitQuiet(s, c.tx);
    OthersOk(s, FinishCall(s, id, true, reported), c.tx.trace);
  }

  lemma CommitPreview(s: State, id: nat, reported: bool)
    requires Inv(s) && id in s.calls && s.calls[id].pc.Pv? && s.calls[id].pc.pv.PvDone?
    ensures Inv(FinishCall(s, id, true, reported))
  {
    var c := s.calls[id];
    assert PvOk(s.history, c, c.pc.pv);
    CommitPlans(s, c);
    CommitQuiet(s, c.tx);
    OthersOk(s, FinishCall(s, id, true, reported), c.tx.trace);
  }

  lemma FinishOk(s: State, id: nat, durable: bool, reported: bool)
    requires Inv(s) && id in s.calls
    ensures Inv(FinishCall(s, id, durable, reported))
  {
    var c := s.calls[id];
    if durable && c.pc.Done? {
      CommitDone(s, id, reported);
    } else if durable && c.pc.Pv? && c.pc.pv.PvDone? {
      CommitPreview(s, id, reported);
    } else {
      DropCall(s, id);
    }
  }

  // ---------- Runs ----------

  lemma StepKeepsInv(s: State, step: Step)
    requires Inv(s)
    ensures Inv(Apply(s, step))
  {
    match step
    case CleanExpired(now) => CleanKeepsInv(s, now);
    case CallStep(id, choice) =>
      if choice.Execute? || choice.Preview? {
        NewCallKeepsInv(s, step);
      } else if id in s.calls {
        if choice.Finish? { FinishOk(s, id, choice.durable, choice.reported); }
        else if choice.Fail? { FailOk(s, id); }
        else { AdvanceKeepsInv(s, id, choice); }
      }
  }

  lemma CleanKeepsInv(s: State, now: int)
    requires Inv(s)
    ensures Inv(s.(plans := DeleteExpired(s.plans, now)))
  {
  }

  lemma NewCallKeepsInv(s: State, step: Step)
    requires Inv(s) && step.CallStep? && (step.choice.Execute? || step.choice.Preview?)
    ensures Inv(Apply(s, step))
  {
    if step.id !in s.calls { AddCall(s, step.id, Apply(s, step).calls[step.id]); }
  }

  lemma AddCall(s: State, id: nat, c: Call)
    requires Inv(s) && id !in s.calls && c.tx.rows == map[] && CallOk(s.rows, s.history, c)
    ensures Inv(s.(calls := s.calls[id := c]))
  {
  }

  lemma AdvanceKeepsInv(s: State, id: nat, choice: Choice)
    requires Inv(s) && id in s.calls
    ensures var next := Advance(s, id, s.calls[id], choice);
            next.Some? ==> Inv(s.(calls := s.calls[id := next.value]))
  {
    CallStepOk(s, id, s.calls[id], choice);
    var next := Advance(s, id, s.calls[id], choice);
    if next.Some? { ReplaceCall(s, id, next.value); }
  }

  lemma ReplaceCall(s: State, id: nat, c: Call)
    requires Inv(s) && id in s.calls && StepOk(s, id, s.calls[id], c)
    ensures Inv(s.(calls := s.calls[id := c]))
  {
    var calls' := s.calls[id := c];
    forall i, k | i in calls' && k in calls'[i].tx.rows ensures k !in s.rows {
      if i == id && k !in s.calls[id].tx.rows { assert k in c.tx.rows; }
    }
    forall i, other, k | i in calls' && other in calls' && i != other
      ensures !(k in calls'[i].tx.rows && k in calls'[other].tx.rows)
    {
      if i == id && k in c.tx.rows && k !in s.calls[id].tx.rows { assert !RowBlocked(s, id, k); }
      if other == id && k in c.tx.rows && k !in s.calls[id].tx.rows { assert !RowBlocked(s, id, k); }
    }
  }

  lemma FailOk(s: State, id: nat)
    requires Inv(s) && id in s.calls
    ensures Inv(s.(calls := s.calls[id := Aborted(s, s.calls[id])]))
  {
    assert CallOk(s.rows, s.history, s.calls[id]);
    ReplaceCall(s, id, Aborted(s, s.calls[id]));
  }

  lemma {:induction false} RunKeepsInv(steps: seq<Step>)
    ensures Inv(Run(steps))
  {
    if steps != [] {
      RunKeepsInv(steps[..|steps| - 1]);
      StepKeepsInv(Run(steps[..|steps| - 1]), steps[|steps| - 1]);
    }
  }

  // ---------- Main results ----------

  /** At most one execution commits per idempotency key, and one has committed
      exactly when the key's row exists; that row is never left running. */
  lemma AtMostOnce(steps: seq<Step>, k: RowKey)
    ensures var s := Run(steps);
            && Effects(s.history, k) <= 1
            && (Effects(s.history, k) == 1 <==> k in s.rows)
            && (k in s.rows ==> s.rows[k].status == Completed && KeyOf(s.rows[k]) == k)
  {
    RunKeepsInv(steps);
    assert CountOk(Run(steps).history, k, Run(steps).rows);
  }

  /** Every committed handler run is a complete governed execution: its
      transaction holds the two allowed decisions, the reservation and completed
      record of its key, and the audit event, and nothing else; the impact
      decision is on the executed plan's impact, within its row limit, with the
      plan's fingerprint. Its row stores its result. */
  lemma EveryEffectGoverned(steps: seq<Step>, i: nat, j: nat) returns (x: Execution)
    requires i < |Run(steps).history| && j < |Run(steps).history[i]| && Run(steps).history[i][j].HandlerRan?
    ensures var s := Run(steps);
            && s.history[i] == TraceOf(x)
            && s.history[i][j] == HandlerRan(x.req, x.con, x.plan, x.source, x.result)
            && Governed(s.history[..i], x)
            && (x.req.key != "" ==>
                  Find(s.rows, RequestKey(x.req)) == Some(CompletedRecord(Reserved(x), x.result)))
  {
    RunKeepsInv(steps);
    var s := Run(steps);
    x := ExecutionAt(s.history, s.rows, i, j);
  }

  lemma ExecutionAt(history: seq<seq<Entry>>, rows: Rows, i: nat, j: nat) returns (x: Execution)
    requires i < |history| && TraceOk(history, i, rows) && j < |history[i]| && history[i][j].HandlerRan?
    ensures IsExecution(history[..i], history[i], x)
    ensures history[i][j] == HandlerRan(x.req, x.con, x.plan, x.source, x.result)
    ensures x.req.key != "" ==> Find(rows, RequestKey(x.req)) == Some(CompletedRecord(Reserved(x), x.result))
  {
    x :| IsExecution(history[..i], history[i], x)
         && (x.req.key != "" ==> Find(rows, RequestKey(x.req)) == Some(CompletedRecord(Reserved(x), x.result)));
  }

  /** Where Preview is required, an earlier committed Preview saved exactly the
      executed plan, for the same contract, actor, channel, scope and input, and
      the plan had not expired when it was loaded. */
  lemma RequiredPreviewHappened(steps: seq<Step>, i: nat, j: nat) returns (p: nat)
    requires i < |Run(steps).history| && j < |Run(steps).history[i]| && Run(steps).history[i][j].HandlerRan?
    requires Run(steps).history[i][j].con.preview == PreviewRequired
    ensures var h := Run(steps).history;
            var ran := h[i][j];
            && p < i && IsPreview(h[p], ran.plan) && ran.source.Loaded? && ran.source.at < ran.plan.body.expiresAt
            && var saved := h[p][2];
            && saved.req.actionId == ran.req.actionId && saved.con.version == ran.con.version
            && saved.con.contractHash == ran.con.contractHash
            && saved.req.actorId == ran.req.actorId && saved.req.actorType == ran.req.actorType
            && saved.req.channel == ran.req.channel && saved.req.scope == ran.req.scope && saved.req.input == ran.req.input
  {
    var h := Run(steps).history;
    var x := EveryEffectGoverned(steps, i, j);
    var q :| 0 <= q < |h[..i]| && IsPreview(h[..i][q], x.plan);
    p := q;
  }

  /** Every success reported for a key carries the stored result of the one
      committed execution, and was asked with the same input. */
  lemma AnswersAgree(steps: seq<Step>, a: Answer, b: Answer)
    requires a in Run(steps).answers && b in Run(steps).answers
    requires a.req.key != "" && RequestKey(a.req) == RequestKey(b.req)
    ensures a.result == b.result && a.req.input == b.req.input
    ensures Effects(Run(steps).history, RequestKey(a.req)) == 1
    ensures Answered(Run(steps).rows, a.req, a.result)
  {
    RunKeepsInv(steps);
    AtMostOnce(steps, RequestKey(a.req));
  }

  /** Nothing that committed is ever taken back: history, rows and answers only
      grow as the run goes on. */
  lemma {:induction false} CommitsAreDurable(steps: seq<Step>, more: seq<Step>)
    ensures var s, s' := Run(steps), Run(steps + more);
            && s.history <= s'.history && s.answers <= s'.answers
            && forall k :: k in s.rows ==> k in s'.rows && s'.rows[k] == s.rows[k]
  {
    if more == [] {
      assert steps + more == steps;
    } else {
      var front := more[..|more| - 1];
      CommitsAreDurable(steps, front);
      RunOneMore(steps, more);
      RunKeepsInv(steps + front);
      StepIsDurable(Run(steps + front), more[|more| - 1]);
    }
  }

  lemma RunOneMore(steps: seq<Step>, more: seq<Step>)
    requires more != []
    ensures Run(steps + more) == Apply(Run(steps + more[..|more| - 1]), more[|more| - 1])
  {
    LastOfConcat(steps, more);
  }

  /** What no step undoes. */
  predicate Durable(s: State, t: State) {
    && s.history <= t.history && s.answers <= t.answers
    && forall k :: k in s.rows ==> k in t.rows && t.rows[k] == s.rows[k]
  }

  lemma SameIsDurable(s: State, t: State)
    requires t.history == s.history && t.answers == s.answers && t.rows == s.rows
    ensures Durable(s, t)
  {
  }

  lemma StepIsDurable(s: State, step: Step)
    requires LocksOk(s.rows, s.calls)
    ensures Durable(s, Apply(s, step))
  {
    if step.CallStep? && step.choice.Finish? && step.id in s.calls {
      FinishIsDurable(s, step.id, step.choice.durable, step.choice.reported);
    } else {
      SameIsDurable(s, Apply(s, step));
    }
  }

  lemma FinishIsDurable(s: State, id: nat, durable: bool, reported: bool)
    requires LocksOk(s.rows, s.calls) && id in s.calls
    ensures Durable(s, FinishCall(s, id, durable, reported))
  {
  }

  // ---------- The results are not vacuous ----------

  function Alone(c: Call): State {
    INITIAL.(calls := map[0 := c])
  }

  lemma Moves(steps: seq<Step>, c: Call, choice: Choice, c': Call)
    requires Run(steps) == Alone(c) && Advance(Alone(c), 0, c, choice) == Some(c')
    requires !choice.Execute? && !choice.Preview? && !choice.Finish? && !choice.Fail?
    ensures Run(steps + [CallStep(0, choice)]) == Alone(c')
  {
    assert (steps + [CallStep(0, choice)])[..|steps|] == steps;
    assert map[0 := c][0 := c'] == map[0 := c'];
  }

  lemma ReachesLookup(req: Request, con: Contract, d: Decision) returns (steps: seq<Step>)
    requires req.key != "" && req.planHash == NoDigest && con.preview != PreviewRequired
    requires d == Decision(true, "", con.permission, 0, "grant")
    ensures Run(steps) == Alone(Call(req, con, Out(Absent(d)), NO_TX))
  {
    var c := Call(req, con, Out(Start), NO_TX);
    steps := [CallStep(0, Execute(req, con))];
    assert steps[..0] == [];
    Moves(steps, c, Authorize(d), c.(pc := Out(Intended(d))));
    steps := steps + [CallStep(0, Authorize(d))];
    Moves(steps, c.(pc := Out(Intended(d))), LookUp, c.(pc := Out(Absent(d))));
    steps := steps + [CallStep(0, LookUp)];
  }

  lemma ReachesTransaction(req: Request, con: Contract, d: Decision, draft: Draft) returns (steps: seq<Step>, plan: Plan)
    requires req.key != "" && req.planHash == NoDigest && con.preview != PreviewRequired
    requires d == Decision(true, "", con.permission, 0, "grant") && draft.impact.rows >= 0
    ensures Run(steps) == Alone(Call(req, con, Exec(plan, Internal, Begun), NO_TX))
    ensures plan.body.fingerprint == "grant"
  {
    var body := DraftPlan(req, con, draft.payload, draft.impact, draft.snapshot, "", 0, 1);
    plan := Hashed(body.(fingerprint := "grant"));
    var c := Call(req, con, Out(Start), NO_TX);
    steps := ReachesLookup(req, con, d);
    Moves(steps, c.(pc := Out(Absent(d))), PlanByHandler(draft, 0, 1), c.(pc := Out(Planned(d, body, Internal))));
    steps := steps + [CallStep(0, PlanByHandler(draft, 0, 1))];
    Moves(steps, c.(pc := Out(Planned(d, body, Internal))), Authorize(d), c.(pc := Out(Ready(plan, Internal))));
    steps := steps + [CallStep(0, Authorize(d))];
    Moves(steps, c.(pc := Out(Ready(plan, Internal))), Begin, c.(pc := Exec(plan, Internal, Begun)));
    steps := steps + [CallStep(0, Begin)];
  }

  /** The call of `x` after the first `n` entries of its trace. */
  function At(x: Execution, exec: Executing, rows: map<RowKey, Option<Record>>, n: nat): Call
    requires n <= |TraceOf(x)|
  {
    Call(x.req, x.con, Exec(x.plan, x.source, exec), Tx(rows, map[], TraceOf(x)[..n]))
  }

  predicate Plain(x: Execution) {
    && x.req.key != "" && x.plan.body.fingerprint == "grant"
    && x.intent == x.impact == Decision(true, "", x.con.permission, 0, "grant")
  }

  lemma ReachesDecided(start: seq<Step>, x: Execution) returns (steps: seq<Step>)
    requires Plain(x) && Run(start) == Alone(At(x, Begun, map[], 0))
    ensures Run(steps) == Alone(At(x, ImpactDecided(x.intent, x.impact), map[], 2))
  {
    var d, trace := x.intent, TraceOf(x);
    assert trace[..0] + [trace[0]] == trace[..1] && trace[..1] + [trace[1]] == trace[..2];
    Moves(start, At(x, Begun, map[], 0), Authorize(d), At(x, IntentDecided(d), map[], 1));
    steps := start + [CallStep(0, Authorize(d))];
    Moves(steps, At(x, IntentDecided(d), map[], 1), Authorize(d), At(x, ImpactDecided(d, d), map[], 2));
    steps := steps + [CallStep(0, Authorize(d))];
  }

  lemma ReachesHandled(start: seq<Step>, x: Execution) returns (steps: seq<Step>)
    requires Plain(x) && Run(start) == Alone(At(x, ImpactDecided(x.intent, x.impact), map[], 2))
    ensures Run(steps) == Alone(At(x, Handled(x.intent, x.impact, x.result), map[RequestKey(x.req) := Some(Reserved(x))], 4))
  {
    var d, trace, held := x.intent, TraceOf(x), map[RequestKey(x.req) := Some(Reserved(x))];
    assert trace[..2] + [trace[2]] == trace[..3] && trace[..3] + [trace[3]] == trace[..4];
    var c := At(x, ImpactDecided(d, d), map[], 2);
    IdleView(map[], map[], c.tx);
    assert !RowBlocked(Alone(c), 0, RequestKey(x.req));
    Moves(start, c, Reserve, At(x, Held(d, d), held, 3));
    steps := start + [CallStep(0, Reserve)];
    Moves(steps, At(x, Held(d, d), held, 3), RunHandler(x.result), At(x, Handled(d, d, x.result), held, 4));
    steps := steps + [CallStep(0, RunHandler(x.result))];
  }

  lemma ReachesRecorded(start: seq<Step>, x: Execution) returns (steps: seq<Step>)
    requires Plain(x)
    requires Run(start) == Alone(At(x, Handled(x.intent, x.impact, x.result), map[RequestKey(x.req) := Some(Reserved(x))], 4))
    ensures var done := CompletedRecord(Reserved(x), x.result);
            Run(steps) == Alone(At(x, Recorded(x.intent, x.impact, x.result), map[RequestKey(x.req) := Some(done)], 5))
  {
    var d, k, trace, done := x.intent, RequestKey(x.req), TraceOf(x), CompletedRecord(Reserved(x), x.result);
    assert trace[..4] + [trace[4]] == trace[..5];
    var c := At(x, Handled(d, d, x.result), map[k := Some(Reserved(x))], 4);
    HoldingView(map[], c.tx, k, Reserved(x));
    assert c.tx.rows[k := Some(done)] == map[k := Some(done)];
    Moves(start, c, CompleteReservation, At(x, Recorded(d, d, x.result), map[k := Some(done)], 5));
    steps := start + [CallStep(0, CompleteReservation)];
  }

  lemma ReachesDone(start: seq<Step>, x: Execution) returns (steps: seq<Step>)
    requires Plain(x)
    requires Run(start) == Alone(At(x, Handled(x.intent, x.impact, x.result), map[RequestKey(x.req) := Some(Reserved(x))], 4))
    ensures var done := CompletedRecord(Reserved(x), x.result);
            Run(steps) == Alone(Call(x.req, x.con, Done(x.result),
                                     Tx(map[RequestKey(x.req) := Some(done)], map[], TraceOf(x))))
  {
    var k, trace, done := RequestKey(x.req), TraceOf(x), CompletedRecord(Reserved(x), x.result);
    steps := ReachesRecorded(start, x);
    assert trace[..5] + [trace[5]] == trace;
    var c := At(x, Recorded(x.intent, x.impact, x.result), map[k := Some(done)], 5);
    Moves(steps, c, Audit, c.(pc := Done(x.result), tx := c.tx.(trace := trace)));
    steps := steps + [CallStep(0, Audit)];
  }

  /** A keyed call whose decisions are allowed runs to one committed effect and a
      reported result. */
  lemma ExecutionHappens(req: Request, con: Contract, draft: Draft, result: Result) returns (steps: seq<Step>)
    requires req.key != "" && req.planHash == NoDigest && con.preview != PreviewRequired && draft.impact.rows >= 0
    ensures Effects(Run(steps).history, RequestKey(req)) == 1
    ensures Run(steps).answers == [Answer(req, result)]
  {
    var d := Decision(true, "", con.permission, 0, "grant");
    var start, plan := ReachesTransaction(req, con, d, draft);
    var x := Execution(req, con, plan, Internal, d, d, result);
    var almost := ReachesDecided(start, x);
    almost := ReachesHandled(almost, x);
    almost := ReachesDone(almost, x);
    steps := almost + [CallStep(0, Finish(true, true))];
    assert steps[..|steps| - 1] == almost;
    AtMostOnce(steps, RequestKey(req));
  }
}
