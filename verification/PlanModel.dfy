/** Plans, rows and their lifecycle status (internal/plan/plan.go, row.go). */
module PlanModel {
  import opened Text
  import opened Policy
  import opened Payload

  datatype Status =
    | Draft
    | CrossExamining
    | PendingApproval
    | Approved
    | ChangesRequested
    | Applying
    | Applied
    | Abandoned
    | Stale
    | PartiallyApplied
    | UnknownStatus(name: string)

  datatype Row = Row(
    op: Op, target: string, payload: string, lease: string,
    precondition: string, key: string, postcondition: string, costEstimate: string)

  datatype Credential = Credential(provider: string, kind: string)

  datatype Verdict = Pass | Fail | PassWithNotes

  datatype CrossExam = CrossExam(verdict: Verdict, reviewerModel: string, reasoning: string, at: Time)

  datatype Plan = Plan(
    id: string, sessionId: string, parentId: string, status: Status,
    summary: string, hash: string, expiresAt: Time, costCeiling: int64, scope: string,
    credentials: seq<Credential>, rows: seq<Row>,
    crossExam: Option<CrossExam>, reviewComment: string,
    appliedThrough: nat, checkpoint: string, createdAt: Time, updatedAt: Time)

  function PolicyEffect(r: Row, scope: string): Effect { Effect(r.op, scope, r.target) }

  function EffectsOf(rows: seq<Row>, scope: string): seq<Effect> {
    seq(|rows|, i requires 0 <= i < |rows| => PolicyEffect(rows[i], scope))
  }

  function KernelPlan(p: Plan): PolicyPlan { PolicyPlan(p.hash, EffectsOf(p.rows, p.scope)) }

  lemma RowsAreEffects(p: Plan, i: nat)
    requires i < |p.rows|
    ensures PolicyEffect(p.rows[i], p.scope) in KernelPlan(p).effects
  {
    assert EffectsOf(p.rows, p.scope)[i] == PolicyEffect(p.rows[i], p.scope);
  }
}
