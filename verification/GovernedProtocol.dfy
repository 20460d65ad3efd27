/** Concurrent Preview and Execute calls as steps over one committed database
    and a private overlay per open transaction. Every authorizer, handler, clock
    and failure is a free choice of the step, so the properties hold against any
    of them. A step that its call cannot take leaves the state unchanged. */
module GovernedProtocol {
  import opened Common
  import opened GovernedTypes

  /** Where an executed plan came from. */
  datatype Source = Internal | Loaded(at: int)

  /** What a transaction did, in order. */
  datatype Entry =
    | IntentAllowed(decision: Decision)
    | ImpactAllowed(impact: Impact, decision: Decision)
    | RowReserved(rec: Record)
    | HandlerRan(req: Request, con: Contract, plan: Plan, source: Source, result: Result)
    | RowCompleted(rec: Record)
    | PlanSaved(req: Request, con: Contract, plan: Plan)
    | Audited(event: string, planHash: Digest, impact: Impact)

  /** Uncommitted work: written rows and plans (None when deleted), and the trace. */
  datatype Tx = Tx(rows: map<RowKey, Option<Record>>, plans: map<Digest, Option<Plan>>, trace: seq<Entry>)

  const NO_TX := Tx(map[], map[], [])

  datatype Draft = Draft(payload: string, impact: Impact, snapshot: string)

  /** Execute before it opens a transaction. */
  datatype Outside =
    | Start
    | Intended(intent: Decision)
    | Found
    | Absent(intent: Decision)
    | Planned(intent: Decision, body: PlanBody, source: Source)
    | Ready(plan: Plan, source: Source)

  /** Answering from a stored record, in a transaction of its own or after losing
      the reservation inside the execution transaction. */
  datatype Replaying =
    | Opened
    | LoadedRow(row: Record)
    | Checked(row: Record, intent: Decision)
    | Conflicted(intent: Decision)

  /** The execution transaction. */
  datatype Executing =
    | Begun
    | IntentDecided(intent: Decision)
    | ImpactDecided(intent: Decision, impact: Decision)
    | Held(intent: Decision, impact: Decision)
    | Handled(intent: Decision, impact: Decision, result: Result)
    | Recorded(intent: Decision, impact: Decision, result: Result)

  datatype Previewing =
    | PvStart
    | PvIntended(intent: Decision)
    | PvDrafted(intent: Decision, draft: Draft)
    | PvReady(draft: Draft)
    | PvBegun(draft: Draft)
    | PvIntentDecided(draft: Draft, intent: Decision)
    | PvImpactDecided(draft: Draft, impact: Decision)
    | PvSwept(plan: Plan)
    | PvSaved(plan: Plan)
    | PvDone(plan: Plan)

  /** How far a call has come. Done: the transaction's operation returned nil. */
  datatype Pc =
    | Out(out: Outside)
    | Replay(replay: Replaying)
    | Exec(plan: Plan, source: Source, exec: Executing)
    | Done(result: Result)
    | Pv(pv: Previewing)
    | Failed

  datatype Call = Call(req: Request, con: Contract, pc: Pc, tx: Tx)

  datatype Answer = Answer(req: Request, result: Result)

  datatype State = State(
    rows: Rows, plans: Plans, history: seq<seq<Entry>>,
    calls: map<nat, Call>, answers: seq<Answer>)

  const INITIAL := State(map[], map[], [], map[], [])

  datatype Choice =
    | Execute(req: Request, con: Contract)
    | Preview(req: Request, con: Contract)
    | Authorize(raw: Decision)
    | LookUp
    | PlanByHandler(draft: Draft, now: int, ttl: int)
    | LoadPlan(now: int)
    | Begin
    | Reserve
    | RunHandler(result: Result)
    | CompleteReservation
    | Audit
    | Sweep(now: int, ttl: int)
    | SavePlan
    | Fail
    | Finish(durable: bool, reported: bool)

  /** A step of one call, or the background deletion of expired plans. */
  datatype Step = CallStep(id: nat, choice: Choice) | CleanExpired(now: int)

  // ---------- Reads inside a transaction ----------

  function RowsView(rows: Rows, tx: Tx): Rows {
    map k | k in rows.Keys + tx.rows.Keys && (k in tx.rows ==> tx.rows[k].Some?)
        :: if k in tx.rows then tx.rows[k].value else rows[k]
  }

  function PlansView(plans: Plans, tx: Tx): Plans {
    map h | h in plans.Keys + tx.plans.Keys && (h in tx.plans ==> tx.plans[h].Some?)
        :: if h in tx.plans then tx.plans[h].value else plans[h]
  }

  /** The overlay after a statement changed the visible row `k` to that of `view`. */
  function WriteRow(tx: Tx, view: Rows, k: RowKey): Tx {
    tx.(rows := tx.rows[k := Find(view, k)])
  }

  /** Another open transaction has an uncommitted write on this row: the unique
      index makes a statement on the row wait. */
  predicate RowBlocked(s: State, id: nat, k: RowKey) {
    exists other :: other in s.calls && other != id && k in s.calls[other].tx.rows
  }

  predicate PlanBlocked(s: State, id: nat, h: Digest) {
    exists other :: other in s.calls && other != id && h in s.calls[other].tx.plans
  }

  predicate SweepBlocked(s: State, id: nat, now: int) {
    exists h :: h in s.plans && s.plans[h].body.expiresAt <= now && PlanBlocked(s, id, h)
  }

  // ---------- One call ----------

  function Traced(c: Call, e: Entry, pc: Pc): Call {
    c.(pc := pc, tx := c.tx.(trace := c.tx.trace + [e]))
  }

  /** A call that got an error inside its transaction: it gives its reservation
      back and waits for the rollback. */
  function Aborted(s: State, c: Call): Call {
    var c' := c.(pc := Failed);
    if c.req.key != "" && c.pc.Exec? && (c.pc.exec.Held? || c.pc.exec.Handled? || c.pc.exec.Recorded?) then
      var rec := Reservation(c.req, c.con, c.pc.plan, c.pc.exec.impact);
      c'.(tx := WriteRow(c.tx, AbortRow(RowsView(s.rows, c.tx), rec), KeyOf(rec)))
    else c'
  }

  function AdvanceOutside(s: State, c: Call, at: Outside, choice: Choice): Option<Call> {
    match at
    case Start =>
      if !choice.Authorize? then None else
      var d := Authorized(choice.raw, c.con.permission, "");
      if d.None? || (c.con.requiresIdempotency && c.req.key == "") || !PlanPolicy(c.con, c.req.planHash) then None
      else Some(c.(pc := Out(Intended(d.value))))
    case Intended(intent) =>
      if c.req.key == "" then Some(c.(pc := Out(Absent(intent))))
      else if !choice.LookUp? then None
      else if RequestKey(c.req) in s.rows then Some(c.(pc := Out(Found)))
      else Some(c.(pc := Out(Absent(intent))))
    case Found =>
      if choice.Begin? then Some(c.(pc := Replay(Opened), tx := NO_TX)) else None
    case Absent(intent) =>
      if choice.LoadPlan? && c.req.planHash != NoDigest then
        if c.req.planHash in s.plans && Usable(s.plans[c.req.planHash], c.req, c.con, choice.now)
        then Some(c.(pc := Out(Planned(intent, s.plans[c.req.planHash].body, Loaded(choice.now))))) else None
      else if choice.PlanByHandler? && c.req.planHash == NoDigest then
        if choice.ttl > 0 && choice.draft.impact.rows >= 0 then
          Some(c.(pc := Out(Planned(intent, DraftPlan(c.req, c.con, choice.draft.payload, choice.draft.impact,
                                                      choice.draft.snapshot, "", choice.now, choice.ttl), Internal))))
        else None
      else None
    case Planned(intent, body, source) =>
      if !choice.Authorize? then None else
      var d := AuthorizedImpact(choice.raw, c.con.permission, intent, body.impact, body.fingerprint);
      if d.None? then None
      else
        // An internal plan has no fingerprint yet: the decision seals it.
        var sealed := if body.fingerprint == "" then body.(fingerprint := d.value.fingerprint) else body;
        if InputDigest(c.req.input) != sealed.inputHash then None
        else Some(c.(pc := Out(Ready(Hashed(sealed), source))))
    case Ready(plan, source) =>
      if choice.Begin? then Some(c.(pc := Exec(plan, source, Begun), tx := NO_TX)) else None
  }

  function AdvanceReplay(s: State, c: Call, at: Replaying, choice: Choice): Option<Call> {
    match at
    case Opened =>
      if choice.LookUp? && RequestKey(c.req) in s.rows
      then Some(c.(pc := Replay(LoadedRow(s.rows[RequestKey(c.req)])))) else None
    case LoadedRow(row) =>
      if !choice.Authorize? then None else
      var d := Authorized(choice.raw, c.con.permission, "");
      if d.None? then None else Some(c.(pc := Replay(Checked(row, d.value))))
    case Conflicted(intent) =>
      var view := RowsView(s.rows, c.tx);
      if choice.LookUp? && RequestKey(c.req) in view
      then Some(c.(pc := Replay(Checked(view[RequestKey(c.req)], intent)))) else None
    case Checked(row, intent) =>
      if !choice.Authorize? then None else
      var r := ReplayedResult(LookupRecord(c.req, c.con), row, choice.raw, c.con.permission, intent);
      if r.None? then None else Some(c.(pc := Done(r.value)))
  }

  function AdvanceDecisions(c: Call, plan: Plan, source: Source, at: Executing, choice: Choice): Option<Call> {
    if !choice.Authorize? then None
    else if at.Begun? then
      var d := Authorized(choice.raw, c.con.permission, "");
      if d.None? then None else Some(Traced(c, IntentAllowed(d.value), Exec(plan, source, IntentDecided(d.value))))
    else if at.IntentDecided? then
      var d := AuthorizedImpact(choice.raw, c.con.permission, at.intent, plan.body.impact, plan.body.fingerprint);
      if d.None? then None
      else Some(Traced(c, ImpactAllowed(plan.body.impact, d.value), Exec(plan, source, ImpactDecided(at.intent, d.value))))
    else None
  }

  function AdvanceExecution(s: State, id: nat, c: Call, plan: Plan, source: Source, at: Executing, choice: Choice)
    : Option<Call>
  {
    match at
    case ImpactDecided(intent, impact) =>
      var rec := Reservation(c.req, c.con, plan, impact);
      if c.req.key == "" then Some(c.(pc := Exec(plan, source, Held(intent, impact))))
      else if !choice.Reserve? || RowBlocked(s, id, KeyOf(rec)) then None
      else
        var view := RowsView(s.rows, c.tx);
        if KeyOf(rec) in view then Some(c.(pc := Replay(Conflicted(intent))))
        else Some(Traced(c.(tx := WriteRow(c.tx, InsertRow(view, rec), KeyOf(rec))), RowReserved(rec),
                         Exec(plan, source, Held(intent, impact))))
    case Held(intent, impact) =>
      if !choice.RunHandler? then None
      else Some(Traced(c, HandlerRan(c.req, c.con, plan, source, choice.result),
                       Exec(plan, source, Handled(intent, impact, choice.result))))
    case Handled(intent, impact, result) =>
      var done := CompletedRecord(Reservation(c.req, c.con, plan, impact), result);
      if c.req.key == "" then Some(c.(pc := Exec(plan, source, Recorded(intent, impact, result))))
      else if !choice.CompleteReservation? then None
      else
        var view := RowsView(s.rows, c.tx);
        if !HasMatch(view, done) then None
        else Some(Traced(c.(tx := WriteRow(c.tx, CompleteRow(view, done), KeyOf(done))), RowCompleted(done),
                         Exec(plan, source, Recorded(intent, impact, result))))
    case Recorded(intent, impact, result) =>
      if choice.Audit? then Some(Traced(c, Audited("allowed", plan.hash, plan.body.impact), Done(result))) else None
    case _ => AdvanceDecisions(c, plan, source, at, choice)
  }

  function AdvancePreview(s: State, id: nat, c: Call, at: Previewing, choice: Choice): Option<Call> {
    match at
    case PvStart =>
      if !choice.Authorize? || c.con.preview == PreviewNone then None else
      var d := Authorized(choice.raw, c.con.permission, "");
      if d.None? then None else Some(c.(pc := Pv(PvIntended(d.value))))
    case PvIntended(intent) =>
      if choice.PlanByHandler? && choice.draft.impact.rows >= 0
      then Some(c.(pc := Pv(PvDrafted(intent, choice.draft)))) else None
    case PvDrafted(intent, draft) =>
      if !choice.Authorize? then None else
      var d := AuthorizedImpact(choice.raw, c.con.permission, intent, draft.impact, "");
      if d.None? then None else Some(c.(pc := Pv(PvReady(draft))))
    case PvReady(draft) =>
      if choice.Begin? then Some(c.(pc := Pv(PvBegun(draft)), tx := NO_TX)) else None
    case PvBegun(draft) =>
      if !choice.Authorize? then None else
      var d := Authorized(choice.raw, c.con.permission, "");
      if d.None? then None else Some(Traced(c, IntentAllowed(d.value), Pv(PvIntentDecided(draft, d.value))))
    case PvIntentDecided(draft, intent) =>
      if !choice.Authorize? then None else
      var d := AuthorizedImpact(choice.raw, c.con.permission, intent, draft.impact, "");
      if d.None? then None
      else Some(Traced(c, ImpactAllowed(draft.impact, d.value), Pv(PvImpactDecided(draft, d.value))))
    case _ => AdvanceSave(s, id, c, at, choice)
  }

  function AdvanceSave(s: State, id: nat, c: Call, at: Previewing, choice: Choice): Option<Call> {
    match at
    case PvImpactDecided(draft, impact) =>
      if !choice.Sweep? || choice.ttl <= 0 || SweepBlocked(s, id, choice.now) then None
      else
        var gone := map h | h in s.plans && s.plans[h].body.expiresAt <= choice.now :: None;
        var plan := Hashed(DraftPlan(c.req, c.con, draft.payload, draft.impact, draft.snapshot,
                                     impact.fingerprint, choice.now, choice.ttl));
        Some(c.(pc := Pv(PvSwept(plan)), tx := c.tx.(plans := gone)))
    case PvSwept(plan) =>
      if !choice.SavePlan? || PlanBlocked(s, id, plan.hash) then None
      else
        var view := PlansView(s.plans, c.tx);
        if plan.hash !in view then
          Some(Traced(c.(tx := c.tx.(plans := c.tx.plans[plan.hash := Some(plan)])), PlanSaved(c.req, c.con, plan),
                      Pv(PvSaved(plan))))
        else if view[plan.hash] == plan then Some(c.(pc := Pv(PvSaved(plan))))
        else None
    case PvSaved(plan) =>
      if choice.Audit? then Some(Traced(c, Audited("previewed", plan.hash, plan.body.impact), Pv(PvDone(plan)))) else None
    case _ => None
  }

  /** Steps that read the database and change only the call itself. */
  function Advance(s: State, id: nat, c: Call, choice: Choice): Option<Call> {
    match c.pc
    case Out(at) => AdvanceOutside(s, c, at, choice)
    case Replay(at) => AdvanceReplay(s, c, at, choice)
    case Exec(plan, source, at) => AdvanceExecution(s, id, c, plan, source, at, choice)
    case Pv(at) => AdvancePreview(s, id, c, at, choice)
    case Done(_) => None
    case Failed => None
  }

  predicate InTransaction(pc: Pc) {
    match pc
    case Out(_) => false
    case Pv(at) => !(at.PvStart? || at.PvIntended? || at.PvDrafted? || at.PvReady?)
    case Failed => false
    case _ => true
  }

  // ---------- The whole system ----------

  /** The database after a transaction's overlay became durable. */
  function Committed(s: State, tx: Tx): State {
    s.(rows := RowsView(s.rows, tx), plans := PlansView(s.plans, tx), history := s.history + [tx.trace])
  }

  /** The end of a call. Only an operation that returned nil can become durable;
      a success is reported only for a durable commit, but a durable commit may
      still be reported as an error (a lost commit acknowledgement or a crash). */
  function FinishCall(s: State, id: nat, durable: bool, reported: bool): State
    requires id in s.calls
  {
    var c := s.calls[id];
    var s' := s.(calls := s.calls - {id});
    if !durable then s'
    else if c.pc.Done? then
      var t := Committed(s', c.tx);
      if reported then t.(answers := t.answers + [Answer(c.req, c.pc.result)]) else t
    else if c.pc.Pv? && c.pc.pv.PvDone? then Committed(s', c.tx)
    else s'
  }

  function Apply(s: State, step: Step): State {
    match step
    case CleanExpired(now) =>
      if exists h :: h in s.plans && s.plans[h].body.expiresAt <= now
                     && exists id :: id in s.calls && h in s.calls[id].tx.plans
      then s else s.(plans := DeleteExpired(s.plans, now))
    case CallStep(id, choice) =>
      match choice
      case Execute(req, con) =>
        if id in s.calls then s else s.(calls := s.calls[id := Call(req, con, Out(Start), NO_TX)])
      case Preview(req, con) =>
        if id in s.calls then s else s.(calls := s.calls[id := Call(req, con, Pv(PvStart), NO_TX)])
      case Finish(durable, reported) =>
        if id in s.calls then FinishCall(s, id, durable, reported) else s
      case Fail =>
        if id in s.calls && InTransaction(s.calls[id].pc)
        then s.(calls := s.calls[id := Aborted(s, s.calls[id])]) else s
      case _ =>
        if id !in s.calls then s
        else
          var next := Advance(s, id, s.calls[id], choice);
          if next.None? then s else s.(calls := s.calls[id := next.value])
  }

  /** The state after a run, from an empty database. */
  function Run(steps: seq<Step>): State {
    if steps == [] then INITIAL else Apply(Run(steps[..|steps| - 1]), steps[|steps| - 1])
  }
}
