/** The whole way of one plan: built, stored, examined, approved, applied. */
module Pipeline {
  import opened Text
  import opened Policy
  import opened Payload
  import opened PlanModel
  import opened PlanHash
  import opened Workspace
  import opened Applier
  import opened Leases
  import opened EndToEnd
  import B = Builder
  import L = Lifecycle
  import X = Exam

  /** One change to a stored plan. */
  lemma StepChanges(host: Host, s: L.System, a: L.Action, e: L.Entry)
    requires L.Change(host, s.plans, a) == Some(e)
    ensures e.id in L.Step(host, s, a).plans && L.Step(host, s, a).plans[e.id] == e.plan
  {
  }

  lemma RunThree(host: Host, s: L.System, a: L.Action, b: L.Action, c: L.Action)
    ensures L.Run(host, s, [a, b, c]) == L.Step(host, L.Step(host, L.Step(host, s, a), b), c)
  {
    hide L.Step;
    var s1 := L.Step(host, s, a);
    var s2 := L.Step(host, s1, b);
    assert [a, b, c][1..] == [b, c] && [b, c][1..] == [c] && [c][1..] == [];
    assert L.Run(host, s1, [b, c]) == L.Run(host, s2, [c]);
    assert L.Run(host, s2, [c]) == L.Run(host, L.Step(host, s2, c), []);
  }

  lemma DraftedHash(host: Host, d: B.Draft, clock: Time, rows: seq<Row>)
    ensures var p := B.PlanFrom(host, d, clock, rows); p.hash == HashOf(p, host.H) && p.status == Draft && p.crossExam.None? && L.Stored(p) == p
  {
    HashIgnoresLifecycle(B.PlanFrom(host, d, clock, rows), B.PlanFrom(host, d, clock, rows).(hash := ""), host.H);
    hide Encode;
  }

  lemma ExamStep(host: Host, plans: L.Plans, p: Plan, cfg: X.Config, exam: X.ExamPorts)
    requires p.id in plans && plans[p.id] == p && p.hash == HashOf(p, host.H) && p.hash != "" && L.Stored(p) == p
    requires X.ExamResult(p, cfg, exam).Some? && !X.ExamResult(p, cfg, exam).value.returned
    ensures var e := L.Change(host, plans, L.Examine(p.id, cfg, exam));
            && e.Some? && e.value.id == p.id && e.value.plan.status == PendingApproval && e.value.plan.crossExam.Some?
            && e.value.plan == p.(status := PendingApproval, crossExam := e.value.plan.crossExam,
                                  reviewComment := e.value.plan.reviewComment, updatedAt := e.value.plan.updatedAt)
  {
    hide HashOf, X.ExamFrom, X.ReviewsFrom, X.Acceptable;
  }

  lemma ApproveStep(host: Host, plans: L.Plans, p: Plan, now: Time, note: Option<string>)
    requires p.id in plans && plans[p.id] == p && p.hash == HashOf(p, host.H) && p.hash != "" && L.Stored(p) == p
    requires p.status == PendingApproval && p.crossExam.Some? && Before(now, p.expiresAt)
    ensures var e := L.Change(host, plans, L.Decide(p.id, now, note));
            && e.Some? && e.value.id == p.id && e.value.plan.status == Status.Approved
            && e.value.plan == p.(status := Status.Approved, reviewComment := e.value.plan.reviewComment, updatedAt := now)
  {
    hide HashOf;
  }

  /** Two plans that differ only in their lifecycle. */
  predicate SameButLifecycle(p: Plan, q: Plan) {
    q == p.(status := q.status, crossExam := q.crossExam, reviewComment := q.reviewComment, updatedAt := q.updatedAt)
  }

  lemma StillHashed(host: Host, p: Plan, q: Plan)
    requires p.hash == HashOf(p, host.H) && SameButLifecycle(p, q) && L.Stored(p) == p
    ensures q.hash == HashOf(q, host.H) && L.Stored(q) == q
  {
    HashIgnoresLifecycle(p, q, host.H);
    hide HashOf;
  }

  lemma StillSmooth(ports: Ports, p: Plan, q: Plan)
    requires Smooth(ports, p) && SameButLifecycle(p, q)
    ensures Smooth(ports, q)
  {
    assert forall id :: NewLease(p, id) == NewLease(q, id);
    assert LeasesFor(q, q.rows, ports.leases.value);
    forall i: nat | i < |q.rows| ensures SmoothRow(ports, q, i) {
      assert SmoothRow(ports, p, i);
    }
  }

  /** The three changes that take a draft to an approved plan. */
  lemma DraftToApproved(host: Host, p: Plan, cfg: X.Config, exam: X.ExamPorts, now: Time, note: Option<string>) returns (q: Plan)
    requires p.status == Draft && p.crossExam.None? && p.hash == HashOf(p, host.H) && p.hash != "" && L.Stored(p) == p
    requires X.ExamResult(p, cfg, exam).Some? && !X.ExamResult(p, cfg, exam).value.returned && Before(now, p.expiresAt)
    ensures var s := L.Run(host, L.EMPTY, [L.Create(p), L.Examine(p.id, cfg, exam), L.Decide(p.id, now, note)]);
            p.id in s.plans && s.plans[p.id] == q
    ensures q.status == Status.Approved && SameButLifecycle(p, q) && q.hash == HashOf(q, host.H)
  {
    var a, b, c := L.Create(p), L.Examine(p.id, cfg, exam), L.Decide(p.id, now, note);
    RunThree(host, L.EMPTY, a, b, c);
    var e1 := L.Entry(p.id, L.WasDrafted, p);
    assert L.Change(host, map[], a) == Some(e1);
    hide HashOf, L.Change, L.Step, L.Run, X.ExamResult;
    var s1 := L.Step(host, L.EMPTY, a);
    StepChanges(host, L.EMPTY, a, e1);
    ExamStep(host, s1.plans, p, cfg, exam);
    var e2 := L.Change(host, s1.plans, b).value;
    var s2 := L.Step(host, s1, b);
    StepChanges(host, s1, b, e2);
    StillHashed(host, p, e2.plan);
    ApproveStep(host, s2.plans, e2.plan, now, note);
    var e3 := L.Change(host, s2.plans, c).value;
    StepChanges(host, s2, c, e3);
    StillHashed(host, p, e3.plan);
    q := e3.plan;
  }

  /** Applying a stored plan without an error stores the result. */
  lemma ApplyStores(host: Host, s: L.System, q: Plan, ports: Ports, files: Files)
    requires q.id in s.plans && s.plans[q.id] == q && q.hash == HashOf(q, host.H) && q.hash != ""
    requires var o := L.ApplyStored(host, q, ports, files); o.error.None? && o.result.Some? && o.result.value.plan.status.Applied?
    ensures var s' := L.Step(host, s, L.Apply(q.id, ports, files, true));
            q.id in s'.plans && s'.plans[q.id].status == Status.Applied
  {
    hide HashOf, ApplyPlan;
  }

  /** A valid draft over the files it observed, examined without being sent back, approved
      before it expires and applied without a failure, ends with the plan stored as
      applied and exactly the drafted effects on the files. */
  lemma DraftToFiles(
      host: Host, checks: B.Checks, d: B.Draft, clock: Time, rows: seq<Row>, files: Files,
      cfg: X.Config, exam: X.ExamPorts, now: Time, note: Option<string>, ports: Ports)
    requires Injective(host.H) && NeverEmpty(host.H)
    requires B.ValidDraft(d) && B.Complete(host, checks, d, rows)
    requires Observes(host, d, files) && TargetsDistinct(rows) && CleanRows(host, rows)
    requires forall row <- rows :: row.op == OP_MODIFY ==> Current(files, row.target) != ""
    requires var p := B.PlanFrom(host, d, clock, rows);
             && X.ExamResult(p, cfg, exam).Some? && !X.ExamResult(p, cfg, exam).value.returned
             && Before(now, d.expiresAt) && Smooth(ports, p)
    ensures var p := B.PlanFrom(host, d, clock, rows);
            var s := L.Run(host, L.EMPTY, [L.Create(p), L.Examine(p.id, cfg, exam), L.Decide(p.id, now, note)]);
            && p.id in s.plans
            && DraftLands(host, d, files, L.ApplyStored(host, s.plans[p.id], ports, files).world.files)
            && var s' := L.Step(host, s, L.Apply(p.id, ports, files, true));
               p.id in s'.plans && s'.plans[p.id].status == Status.Applied
  {
    var p := B.PlanFrom(host, d, clock, rows);
    DraftedHash(host, d, clock, rows);
    assert p.hash != "" && p.id == d.id && p.expiresAt == d.expiresAt;
    hide HashOf, B.Complete, L.Step, L.Run, DraftLands, X.ExamResult, Observes, Smooth, TargetsDistinct, Injective, NeverEmpty, ApplyPlan;
    var q := DraftToApproved(host, p, cfg, exam, now, note);
    StillSmooth(ports, p, q);
    ApprovedIsWhatLands(host, checks, d, clock, rows, q, ports, files);
    var s := L.Run(host, L.EMPTY, [L.Create(p), L.Examine(p.id, cfg, exam), L.Decide(p.id, now, note)]);
    ApplyStores(host, s, q, ports, files);
  }
}
