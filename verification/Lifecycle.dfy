/** The life of a stored plan, from draft to applied, over whole runs
    (internal/plan/plan.go, internal/server/plan_actions.go). */
module Lifecycle {
  import opened Text
  import opened Policy
  import opened PlanModel
  import opened PlanHash
  import opened Workspace
  import opened Applier
  import opened ApplySafety
  import opened Leases
  import X = Exam

  type Plans = map<string, Plan>

  /** The store keeps every field but the two that only Apply's result carries. */
  function Stored(p: Plan): Plan { p.(appliedThrough := 0, checkpoint := "") }

  /** A stored plan is loaded only while its hash is that of its rows. */
  function Load(host: Host, plans: Plans, id: string): Option<Plan> {
    if id in plans && plans[id].hash != "" && plans[id].hash == HashOf(plans[id], host.H) then Some(plans[id]) else None
  }

  /** The operator's gate: an unexpired, untampered plan that a cross-exam passed on. */
  function Approve(host: Host, p: Plan, now: Time): Option<Plan> {
    if CheckBundle(p, now, host.H).Some? || p.crossExam.None? || p.status != PendingApproval then None
    else Some(p.(status := Status.Approved, updatedAt := now))
  }

  function WithComment(p: Plan, comment: Option<string>): Plan {
    if comment.Some? then p.(reviewComment := comment.value) else p
  }

  function BranchOf(p: Plan, id: string, note: Option<string>, now: Time): Plan {
    p.(id := id, parentId := p.id, status := Draft, crossExam := None,
       reviewComment := if note.Some? then note.value else "", createdAt := now, updatedAt := now)
  }

  datatype Action =
    | Create(plan: Plan)
    | Examine(id: string, cfg: X.Config, exam: X.ExamPorts)
    | Decide(id: string, now: Time, note: Option<string>)
    | RequestChanges(id: string, comment: string, now: Time)
    | Branch(id: string, newId: string, note: Option<string>, now: Time)
    | Apply(id: string, ports: Ports, files: Files, published: bool)

  datatype What =
    | WasDrafted
    | WasBranched
    | WasExamined(returned: bool)
    | WasApproved(at: Time)
    | WasSentBack
    | WasApplied

  /** One change of a stored plan, and the plan after it. */
  datatype Entry = Entry(id: string, what: What, plan: Plan)

  /** Every apply gets a world of its own over the files as they are. */
  function ApplyStored(host: Host, p: Plan, ports: Ports, files: Files): Applier.Outcome {
    ApplyPlan(host, ports, APPLY_PRINCIPAL, p, p.hash, State(files, map[], []))
  }

  /** The change an action makes, if any. */
  function Change(host: Host, plans: Plans, a: Action): Option<Entry> {
    match a
    case Create(p) =>
      if p.id !in plans && p.status == Draft && p.crossExam.None? && p.hash == HashOf(p, host.H) then Some(Entry(p.id, WasDrafted, Stored(p))) else None
    case Examine(id, cfg, ports) => (
      match Load(host, plans, id)
      case None => None
      case Some(p) =>
        match X.ExamResult(p, cfg, ports)
        case None => None
        case Some(o) => Some(Entry(id, WasExamined(o.returned), Stored(o.plan))))
    case Decide(id, now, comment) => (
      match Load(host, plans, id)
      case None => None
      case Some(p) =>
        match Approve(host, p, now)
        case None => None
        case Some(approved) => Some(Entry(id, WasApproved(now), Stored(WithComment(approved, comment)))))
    case RequestChanges(id, comment, now) => (
      match Load(host, plans, id)
      case None => None
      case Some(p) =>
        if comment == "" || !(p.status in {PendingApproval, Draft}) then None
        else Some(Entry(id, WasSentBack, p.(status := ChangesRequested, reviewComment := comment, updatedAt := now))))
    case Branch(id, newId, note, now) => (
      match Load(host, plans, id)
      case None => None
      case Some(p) => if newId in plans then None else Some(Entry(newId, WasBranched, BranchOf(p, newId, note, now))))
    case Apply(id, ports, files, published) => (
      match Load(host, plans, id)
      case None => None
      case Some(p) =>
        var o := ApplyStored(host, p, ports, files);
        if o.error.Some? || o.result.None? || !published then None
        else Some(Entry(id, WasApplied, Stored(o.result.value.plan))))
  }

  datatype System = System(plans: Plans, history: seq<Entry>)

  function Step(host: Host, s: System, a: Action): System {
    match Change(host, s.plans, a)
    case None => s
    case Some(e) => System(s.plans[e.id := e.plan], s.history + [e])
  }

  function Run(host: Host, s: System, actions: seq<Action>): System
    decreases |actions|
  {
    if actions == [] then s else Run(host, Step(host, s, actions[0]), actions[1..])
  }

  // ----- the rules each change keeps ---------------------------------------------------------

  /** What the operator reviews: everything the hash covers. */
  predicate SameContents(p: Plan, q: Plan) {
    && p.summary == q.summary && p.expiresAt == q.expiresAt && p.costCeiling == q.costCeiling
    && p.scope == q.scope && p.credentials == q.credentials && p.rows == q.rows && p.hash == q.hash
  }

  predicate Begins(e: Entry) {
    (e.what.WasDrafted? || e.what.WasBranched?) && e.plan.status == Draft && e.plan.crossExam.None?
  }

  /** One change after another. */
  predicate Follows(p: Plan, e: Entry) {
    && SameContents(p, e.plan)
    && match e.what
       case WasExamined(returned) =>
         X.Examinable(p) && e.plan.crossExam.Some? && e.plan.status == if returned then ChangesRequested else PendingApproval
       case WasApproved(at) =>
         p.status == PendingApproval && e.plan.status == Status.Approved && e.plan.crossExam == p.crossExam && Before(at, p.expiresAt)
       case WasSentBack => p.status in {PendingApproval, Draft} && e.plan.status == ChangesRequested
       case WasApplied => p.status in {Status.Approved, Status.Applying, Status.Applied} && e.plan.status == Status.Applied
       case _ => false
  }

  lemma ChangeFollows(host: Host, plans: Plans, a: Action)
    requires Change(host, plans, a).Some?
    ensures var e := Change(host, plans, a).value;
            if e.id in plans then Follows(plans[e.id], e) else Begins(e)
  {
    hide Encode, ApplyPlan;
    match a
    case Apply(id, ports, files, published) => AppliedFollows(host, plans[id], ports, files);
    case Examine(id, cfg, ports) => ExaminedFollows(plans[id], cfg, ports);
    case _ =>
  }

  lemma ExaminedFollows(p: Plan, cfg: X.Config, ports: X.ExamPorts)
    ensures var o := X.ExamResult(p, cfg, ports);
            o.Some? ==>
              && X.Examinable(p) && SameContents(p, o.value.plan) && o.value.plan.crossExam.Some?
              && o.value.plan.status == if o.value.returned then ChangesRequested else PendingApproval
  {
  }

  lemma AppliedFollows(host: Host, p: Plan, ports: Ports, files: Files)
    ensures var o := ApplyStored(host, p, ports, files);
            o.error.None? && o.result.Some? ==>
              && p.status in {Status.Approved, Status.Applying, Status.Applied}
              && o.result.value.plan.status == Status.Applied && SameContents(p, o.result.value.plan)
  {
    hide ObserveFrom, ClearFrom, RunFrom, Encode;
  }

  // ----- one plan's history --------------------------------------------------------------------

  function Trace(history: seq<Entry>, id: string): seq<Entry>
    decreases |history|
  {
    if history == [] then []
    else if history[|history| - 1].id == id then Trace(history[..|history| - 1], id) + [history[|history| - 1]]
    else Trace(history[..|history| - 1], id)
  }

  lemma TraceSnoc(history: seq<Entry>, e: Entry, id: string)
    ensures Trace(history + [e], id) == if e.id == id then Trace(history, id) + [e] else Trace(history, id)
  {
    assert (history + [e])[..|history|] == history;
  }

  predicate LawfulAt(t: seq<Entry>, k: nat)
    requires k < |t|
  {
    if k == 0 then Begins(t[0]) else Follows(t[k - 1].plan, t[k])
  }

  /** It begins as a draft, and each change follows from the one before. */
  predicate LawfulTrace(t: seq<Entry>) { forall k: nat :: k < |t| ==> LawfulAt(t, k) }

  lemma LawfulSnoc(t: seq<Entry>, e: Entry)
    requires LawfulTrace(t) && if t == [] then Begins(e) else Follows(t[|t| - 1].plan, e)
    ensures LawfulTrace(t + [e])
  {
    hide Begins, Follows;
    forall k: nat | k < |t + [e]| ensures LawfulAt(t + [e], k) {
      if k < |t| {
        assert LawfulAt(t, k);
      }
    }
  }

  /** Every stored plan is the last entry of its own lawful history. */
  ghost predicate PlanInv(s: System, id: string) {
    var t := Trace(s.history, id);
    && LawfulTrace(t)
    && (id in s.plans <==> t != [])
    && (id in s.plans ==> s.plans[id] == t[|t| - 1].plan)
  }

  ghost predicate Inv(s: System) { forall id :: PlanInv(s, id) }

  lemma EntryKeeps(s: System, e: Entry, id: string)
    requires PlanInv(s, id) && if e.id in s.plans then Follows(s.plans[e.id], e) else Begins(e)
    ensures PlanInv(System(s.plans[e.id := e.plan], s.history + [e]), id)
  {
    hide Follows, Begins, LawfulTrace;
    TraceSnoc(s.history, e, id);
    if e.id == id {
      LawfulSnoc(Trace(s.history, id), e);
    }
  }

  lemma StepKeeps(host: Host, s: System, a: Action)
    requires Inv(s)
    ensures Inv(Step(host, s, a))
  {
    if Change(host, s.plans, a).Some? {
      ChangeFollows(host, s.plans, a);
      hide Change, Follows, Begins, PlanInv;
      var e := Change(host, s.plans, a).value;
      var s' := System(s.plans[e.id := e.plan], s.history + [e]);
      forall id ensures PlanInv(s', id) {
        EntryKeeps(s, e, id);
      }
    }
  }

  const EMPTY: System := System(map[], [])

  lemma {:induction false} RunKeeps(host: Host, s: System, actions: seq<Action>)
    requires Inv(s)
    ensures Inv(Run(host, s, actions))
    decreases |actions|
  {
    hide Step, Inv;
    if actions != [] {
      StepKeeps(host, s, actions[0]);
      RunKeeps(host, Step(host, s, actions[0]), actions[1..]);
    }
  }

  // ----- what an approved plan has behind it ------------------------------------------------------

  lemma {:induction false} ContentsNeverChange(t: seq<Entry>, j: nat, k: nat)
    requires LawfulTrace(t) && j <= k < |t|
    ensures SameContents(t[j].plan, t[k].plan)
    decreases k
  {
    if j < k {
      ContentsNeverChange(t, j, k - 1);
      assert LawfulAt(t, k);
    }
  }

  lemma {:induction false} AppliedIsFinal(t: seq<Entry>, j: nat, k: nat)
    requires LawfulTrace(t) && j <= k < |t| && t[j].plan.status == Status.Applied
    ensures t[k].plan.status == Status.Applied
    decreases k
  {
    if j < k {
      AppliedIsFinal(t, j, k - 1);
      assert LawfulAt(t, k);
    }
  }

  /** Approved now: its last change was an approval before expiry, the one before it an
      exam that did not send it back, its contents are those that were examined and first
      drafted, and it was never applied. */
  ghost predicate Vetted(t: seq<Entry>) {
    var n := |t|;
    && 3 <= n
    && t[n - 1].what.WasApproved? && Before(t[n - 1].what.at, t[n - 1].plan.expiresAt)
    && t[n - 2].what == WasExamined(false) && t[n - 2].plan.crossExam.Some?
    && t[n - 1].plan.crossExam == t[n - 2].plan.crossExam
    && (forall e <- t :: SameContents(e.plan, t[n - 1].plan) && !e.what.WasApplied?)
  }

  lemma ApprovedIsVetted(t: seq<Entry>)
    requires LawfulTrace(t) && t != [] && t[|t| - 1].plan.status == Status.Approved
    ensures Vetted(t)
  {
    var n := |t|;
    assert LawfulAt(t, n - 1);
    assert LawfulAt(t, n - 2);
    forall e | e in t ensures SameContents(e.plan, t[n - 1].plan) && !e.what.WasApplied? {
      var k :| 0 <= k < n && t[k] == e;
      ContentsNeverChange(t, k, n - 1);
      assert LawfulAt(t, k);
      if t[k].plan.status == Status.Applied {
        AppliedIsFinal(t, k, n - 1);
      }
    }
  }

  lemma NeverApplying(t: seq<Entry>, k: nat)
    requires LawfulTrace(t) && k < |t|
    ensures t[k].plan.status in {Draft, ChangesRequested, PendingApproval, Status.Approved, Status.Applied}
  {
    assert LawfulAt(t, k);
  }

  /** Over every run: if an apply makes a row run, its plan is vetted, and the row is one
      that the operator saw, gated as EffectsAreGated says. */
  lemma OnlyVettedPlansRun(host: Host, actions: seq<Action>, id: string, ports: Ports, files: Files, k: nat)
    requires var s := Run(host, EMPTY, actions);
             && Load(host, s.plans, id).Some?
             && var journal := ApplyStored(host, s.plans[id], ports, files).journal;
                k < |journal| && (journal[k].Executed? || journal[k].Proposed?)
    ensures var s := Run(host, EMPTY, actions);
            && Vetted(Trace(s.history, id)) && s.plans[id].status == Status.Approved
            && s.plans[id].hash == HashOf(s.plans[id], host.H)
            && Before(ports.start, s.plans[id].expiresAt)
  {
    var s := Run(host, EMPTY, actions);
    EmptyInv();
    RunKeeps(host, EMPTY, actions);
    hide Run, Encode, ApplyPlan, SameContents;
    NothingBeforeTheGate(host, ports, APPLY_PRINCIPAL, s.plans[id], s.plans[id].hash, State(files, map[], []));
    assert PlanInv(s, id);
    var t := Trace(s.history, id);
    NeverApplying(t, |t| - 1);
    ApprovedIsVetted(t);
  }

  lemma EmptyInv()
    ensures Inv(EMPTY)
  {
  }

  // ----- every request, by the plan it finds ------------------------------------------------------

  /** A stored plan whose hash is that of its contents. */
  predicate Untampered(host: Host, plans: Plans, id: string) {
    id in plans && plans[id].hash != "" && plans[id].hash == HashOf(plans[id], host.H)
  }

  /** A new plan is stored when its id is free and it is an unexamined draft under its own hash. */
  lemma CreateIff(host: Host, plans: Plans, p: Plan)
    ensures var r := Change(host, plans, Create(p));
            && (r.Some? <==> p.id !in plans && p.status == Draft && p.crossExam == None && p.hash == HashOf(p, host.H))
            && (r.Some? ==> r.value == Entry(p.id, WasDrafted, p.(appliedThrough := 0, checkpoint := "")))
  {
    hide HashOf;
  }

  /** An approval succeeds exactly on an untampered plan that awaits it, was examined and has
      time left, and moves nothing but its lifecycle. */
  lemma ApproveIff(host: Host, plans: Plans, id: string, now: Time, note: Option<string>)
    ensures var r := Change(host, plans, Decide(id, now, note));
            && (r.Some? <==>
                  && Untampered(host, plans, id)
                  && var p := plans[id];
                     p.status == PendingApproval && p.crossExam.Some? && p.expiresAt.At? && (now.Zero? || now.nanos < p.expiresAt.nanos))
            && (r.Some? ==>
                  var p := plans[id];
                  r.value == Entry(id, WasApproved(now), p.(status := Status.Approved, updatedAt := now, appliedThrough := 0, checkpoint := "",
                                                            reviewComment := if note.Some? then note.value else p.reviewComment)))
  {
    hide HashOf;
  }

  /** Changes are requested with a comment, on a plan that awaits approval or is a draft. */
  lemma SendBackIff(host: Host, plans: Plans, id: string, comment: string, now: Time)
    ensures var r := Change(host, plans, RequestChanges(id, comment, now));
            && (r.Some? <==> comment != "" && Untampered(host, plans, id) && plans[id].status in {PendingApproval, Draft})
            && (r.Some? ==> r.value == Entry(id, WasSentBack, plans[id].(status := ChangesRequested, reviewComment := comment, updatedAt := now)))
  {
    hide HashOf;
  }

  /** A branch is a draft of its own with the contents of its parent, and without its exam. */
  lemma BranchIff(host: Host, plans: Plans, id: string, newId: string, note: Option<string>, now: Time)
    ensures var r := Change(host, plans, Branch(id, newId, note, now));
            && (r.Some? <==> newId !in plans && Untampered(host, plans, id))
            && (r.Some? ==>
                  var p, b := plans[id], r.value.plan;
                  && r.value.id == newId == b.id && b.parentId == p.id && SameContents(p, b) && b.sessionId == p.sessionId
                  && b.status == Draft && b.crossExam == None && b.createdAt == b.updatedAt == now
                  && b.reviewComment == if note.Some? then note.value else "")
  {
    hide HashOf;
  }

  /** An exam is stored when it completes. */
  lemma ExamineIff(host: Host, plans: Plans, id: string, cfg: X.Config, ports: X.ExamPorts)
    ensures var r := Change(host, plans, Examine(id, cfg, ports));
            && (r.Some? <==> Untampered(host, plans, id) && X.ExamResult(plans[id], cfg, ports).Some?)
            && (r.Some? ==>
                  var o := X.ExamResult(plans[id], cfg, ports).value;
                  r.value == Entry(id, WasExamined(o.returned), o.plan.(appliedThrough := 0, checkpoint := "")))
  {
    hide HashOf, X.ExamResult;
  }

  /** An apply is stored when it ends without an error and its branch is published. */
  lemma ApplyIff(host: Host, plans: Plans, id: string, ports: Ports, files: Files, published: bool)
    ensures var r := Change(host, plans, Apply(id, ports, files, published));
            && (r.Some? <==>
                  && published && Untampered(host, plans, id)
                  && var o := ApplyPlan(host, ports, "operator", plans[id], plans[id].hash, State(files, map[], []));
                     o.error == None && o.result.Some?)
            && (r.Some? ==>
                  var o := ApplyPlan(host, ports, "operator", plans[id], plans[id].hash, State(files, map[], []));
                  r.value == Entry(id, WasApplied, o.result.value.plan.(appliedThrough := 0, checkpoint := "")))
  {
    hide HashOf, ApplyPlan;
  }
}
