/** Requests, plans, decisions and idempotency records of the governed Action
    runtime, with the two persistence tables as operations on keyed maps. */
module GovernedTypes {
  import opened Common

  datatype Scope = Scope(kind: string, id: string)

  datatype Impact = Impact(rows: int, resources: seq<string>)

  datatype Result = Result(data: string, summary: string, references: seq<string>)

  const NO_RESULT := Result("", "", [])

  /** A SHA-256 digest. It is a constructor over the hashed material, so digests
      are equal exactly when the material is. */
  datatype Digest = NoDigest | InputDigest(canonical: string) | PlanDigest(body: PlanBody)

  /** The fields of a plan that its hash covers. */
  datatype PlanBody = PlanBody(
    actionId: string, actionVersion: string, contractHash: string,
    actorId: string, actorType: string, channel: string, scope: Scope,
    inputHash: Digest, payload: string, impact: Impact, snapshotHash: string,
    fingerprint: string, createdAt: int, expiresAt: int)

  datatype Plan = Plan(hash: Digest, body: PlanBody)

  /** A request after validation; `input` is its canonical JSON document. */
  datatype Request = Request(
    actionId: string, actorId: string, actorType: string, channel: string,
    scope: Scope, input: string, key: string, planHash: Digest)

  datatype PreviewMode = PreviewNone | PreviewOptional | PreviewRequired

  /** The registered contract that a call acquired together with its lease. */
  datatype Contract = Contract(
    version: string, contractHash: string, permission: string,
    preview: PreviewMode, requiresIdempotency: bool)

  datatype Decision = Decision(
    allowed: bool, code: string, permission: string, maxRows: int, fingerprint: string)

  datatype Status = Running | Completed

  datatype Record = Record(
    scope: Scope, actorId: string, actorType: string, actionId: string,
    actionVersion: string, contractHash: string, channel: string, key: string,
    inputHash: Digest, planHash: Digest, impact: Impact, fingerprint: string,
    status: Status, result: Result)

  /** The unique key of the idempotency table. */
  datatype RowKey = RowKey(scope: Scope, actorId: string, actorType: string, actionId: string, key: string)

  function KeyOf(rec: Record): RowKey {
    RowKey(rec.scope, rec.actorId, rec.actorType, rec.actionId, rec.key)
  }

  function RequestKey(req: Request): RowKey {
    RowKey(req.scope, req.actorId, req.actorType, req.actionId, req.key)
  }

  /** The record a call looks up: bound to the request, not yet to a plan. */
  function LookupRecord(req: Request, con: Contract): Record {
    Record(req.scope, req.actorId, req.actorType, req.actionId, con.version, con.contractHash,
           req.channel, req.key, InputDigest(req.input), req.planHash, Impact(0, []), "", Running, NO_RESULT)
  }

  /** The record a call reserves before it runs the handler. */
  function Reservation(req: Request, con: Contract, plan: Plan, decision: Decision): Record {
    LookupRecord(req, con).(planHash := plan.hash, impact := plan.body.impact, fingerprint := decision.fingerprint)
  }

  function CompletedRecord(rec: Record, result: Result): Record {
    rec.(status := Completed, result := result)
  }

  // ---------- Decisions ----------

  /** A decision that the authorizer returned, normalized; None when it is
      malformed or a denial, both of which end the call with an error. */
  function Authorized(raw: Decision, permission: string, fallback: string): (r: Option<Decision>)
    ensures r.Some? <==>
            && (raw.permission == "" || raw.permission == permission)
            && raw.maxRows >= 0 && raw.allowed && raw.code == ""
            && !(raw.fingerprint == "" && fallback == "")
    ensures r.Some? ==> r.value.allowed && r.value.permission == permission && r.value.fingerprint != ""
  {
    var d := if raw.permission == "" then raw.(permission := permission) else raw;
    if d.permission != permission || d.maxRows < 0 then None
    else
      var e := if d.fingerprint == "" then d.(fingerprint := fallback) else d;
      if e.fingerprint == "" then None
      else if e.allowed && e.code == "" then Some(e)
      else None
  }

  /** The impact is within the decision's row limit; zero means unlimited. */
  predicate WithinLimit(d: Decision, impact: Impact) {
    d.maxRows >= 0 && (d.maxRows > 0 ==> impact.rows <= d.maxRows)
  }

  /** Impact authorization; an empty expected fingerprint accepts any. */
  function AuthorizedImpact(raw: Decision, permission: string, intent: Decision, impact: Impact, expected: string)
    : (r: Option<Decision>)
    ensures r.Some? ==> r.value.allowed && r.value.permission == permission && r.value.fingerprint != ""
    ensures r.Some? ==> WithinLimit(r.value, impact) && (expected != "" ==> r.value.fingerprint == expected)
  {
    var d := Authorized(raw, permission, intent.fingerprint);
    if d.None? || !WithinLimit(d.value, impact) then None
    else if expected != "" && d.value.fingerprint != expected then None
    else d
  }

  /** The stored result of an earlier execution, when `existing` answers for
      `expected` and the impact decision on the stored impact still agrees. */
  function ReplayedResult(expected: Record, existing: Record, raw: Decision, permission: string, intent: Decision)
    : (r: Option<Result>)
    ensures r.Some? ==>
              && existing.status == Completed && r.value == existing.result
              && KeyOf(existing) == KeyOf(expected) && existing.inputHash == expected.inputHash
              && existing.channel == expected.channel
              && existing.actionVersion == expected.actionVersion && existing.contractHash == expected.contractHash
              && (expected.planHash != NoDigest ==> existing.planHash == expected.planHash)
  {
    if KeyOf(existing) != KeyOf(expected) then None
    else if existing.actorType != expected.actorType || existing.channel != expected.channel then None
    else if existing.actionVersion != expected.actionVersion || existing.contractHash != expected.contractHash then None
    else if expected.planHash != NoDigest && existing.planHash != expected.planHash then None
    else if existing.inputHash != expected.inputHash then None
    else if existing.status != Completed || existing.impact.rows < 0 then None
    else
      var d := AuthorizedImpact(raw, permission, intent, existing.impact, "");
      if d.None? || d.value.fingerprint != existing.fingerprint then None
      else Some(existing.result)
  }

  // ---------- Plans ----------

  /** The plan body that Preview and Execute build from a handler's plan data. */
  function DraftPlan(req: Request, con: Contract, payload: string, impact: Impact, snapshot: string,
                     fingerprint: string, now: int, ttl: int): PlanBody {
    PlanBody(req.actionId, con.version, con.contractHash, req.actorId, req.actorType, req.channel, req.scope,
             InputDigest(req.input), payload, impact, snapshot, fingerprint, now, now + ttl)
  }

  function Hashed(body: PlanBody): Plan {
    Plan(PlanDigest(body), body)
  }

  /** The plan belongs to this request under this contract. */
  predicate Binds(plan: Plan, req: Request, con: Contract) {
    && plan.body.actionId == req.actionId && plan.body.actionVersion == con.version
    && plan.body.contractHash == con.contractHash
    && plan.body.actorId == req.actorId && plan.body.actorType == req.actorType
    && plan.body.channel == req.channel && plan.body.scope == req.scope
    && plan.body.inputHash == InputDigest(req.input)
  }

  predicate PlanIntact(plan: Plan) {
    && plan.hash == PlanDigest(plan.body)
    && plan.body.fingerprint != "" && plan.body.impact.rows >= 0 && plan.body.createdAt < plan.body.expiresAt
  }

  /** Every check that loading a previewed plan makes before it may be used. */
  predicate Usable(plan: Plan, req: Request, con: Contract, now: int) {
    && PlanIntact(plan) && plan.hash == req.planHash && Binds(plan, req, con) && now < plan.body.expiresAt
  }

  predicate PlanPolicy(con: Contract, planHash: Digest) {
    && (con.preview == PreviewRequired ==> planHash != NoDigest)
    && (con.preview == PreviewNone ==> planHash == NoDigest)
  }

  // ---------- The idempotency table ----------

  type Rows = map<RowKey, Record>

  /** INSERT ... ON CONFLICT DO NOTHING. */
  function InsertRow(rows: Rows, rec: Record): Rows {
    if KeyOf(rec) in rows then rows else rows[KeyOf(rec) := rec]
  }

  /** The row that UPDATE and DELETE select: every bound column, and still running. */
  predicate Matches(row: Record, rec: Record) {
    row.status == Running && row.(status := rec.status, result := rec.result) == rec
  }

  predicate HasMatch(rows: Rows, rec: Record) {
    KeyOf(rec) in rows && Matches(rows[KeyOf(rec)], rec)
  }

  function CompleteRow(rows: Rows, rec: Record): Rows {
    if HasMatch(rows, rec) then rows[KeyOf(rec) := rec] else rows
  }

  function AbortRow(rows: Rows, rec: Record): Rows {
    if HasMatch(rows, rec) then rows - {KeyOf(rec)} else rows
  }

  class IdempotencyStore {
    var rows: Rows

    constructor ()
      ensures rows == map[]
    {
      rows := map[];
    }

    method Lookup(key: Record) returns (existing: Option<Record>)
      ensures existing == Find(rows, KeyOf(key))
    {
      existing := None;
      if KeyOf(key) in rows { existing := Some(rows[KeyOf(key)]); }
    }

    method Reserve(rec: Record) returns (existing: Option<Record>)
      modifies this
      ensures rows == InsertRow(old(rows), rec)
      ensures existing == Find(old(rows), KeyOf(rec))
      ensures existing.None? ==> Find(rows, KeyOf(rec)) == Some(rec)
    {
      existing := Find(rows, KeyOf(rec));
      if existing.None? { rows := rows[KeyOf(rec) := rec]; }
    }

    method Complete(rec: Record) returns (ok: bool)
      requires rec.status == Completed
      modifies this
      ensures ok == HasMatch(old(rows), rec)
      ensures rows == CompleteRow(old(rows), rec)
      ensures !ok ==> rows == old(rows)
    {
      ok := KeyOf(rec) in rows && Matches(rows[KeyOf(rec)], rec);
      if ok { rows := rows[KeyOf(rec) := rec]; }
    }

    method Abort(rec: Record)
      modifies this
      ensures rows == AbortRow(old(rows), rec)
    {
      if KeyOf(rec) in rows && Matches(rows[KeyOf(rec)], rec) { rows := rows - {KeyOf(rec)}; }
    }
  }

  /** A reservation that is aborted leaves no trace; a completed one cannot be
      aborted, completed again, or displaced by another reservation. */
  lemma ReservationLifecycle(rows: Rows, rec: Record, done: Record, other: Record, result: Result)
    requires rec.status == Running && KeyOf(rec) !in rows
    requires done == CompletedRecord(rec, result) && KeyOf(other) == KeyOf(rec)
    ensures AbortRow(InsertRow(rows, rec), rec) == rows
    ensures var after := CompleteRow(InsertRow(rows, rec), done);
            && after == rows[KeyOf(rec) := done]
            && AbortRow(after, other) == after && CompleteRow(after, other) == after && InsertRow(after, other) == after
  {
    assert AbortRow(InsertRow(rows, rec), rec) == rows;
  }

  // ---------- The plan table ----------

  type Plans = map<Digest, Plan>

  /** DELETE FROM plans WHERE expires <= before. */
  function DeleteExpired(plans: Plans, before: int): Plans {
    map h | h in plans && before < plans[h].body.expiresAt :: plans[h]
  }

  class PlanStore {
    var plans: Plans

    constructor ()
      ensures plans == map[]
    {
      plans := map[];
    }

    /** Inserts a plan; a hash that is already taken must hold the same plan. */
    method Save(plan: Plan) returns (ok: bool)
      modifies this
      ensures ok ==> Find(plans, plan.hash) == Some(plan)
      ensures ok <==> plan.hash in old(plans) ==> old(plans)[plan.hash] == plan
      ensures plans == if plan.hash in old(plans) then old(plans) else old(plans)[plan.hash := plan]
    {
      ok := true;
      if plan.hash in plans {
        ok := plans[plan.hash] == plan;
      } else {
        plans := plans[plan.hash := plan];
      }
    }

    method Get(hash: Digest) returns (plan: Option<Plan>)
      ensures plan == Find(plans, hash)
    {
      plan := Find(plans, hash);
    }

    method DeleteExpiredPlans(before: int) returns (deleted: nat)
      modifies this
      ensures plans == DeleteExpired(old(plans), before)
      ensures deleted == |old(plans)| - |plans|
    {
      var kept := DeleteExpired(plans, before);
      var gone := plans.Keys - kept.Keys;
      assert plans.Keys == kept.Keys + gone;
      deleted := |gone|;
      plans := kept;
    }
  }
}
