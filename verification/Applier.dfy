/** Apply: the fail-closed sequence that turns an approved plan into effects
    (internal/plan/apply.go). */
module Applier {
  import opened Text
  import opened Policy
  import opened Payload
  import opened PlanModel
  import opened PlanHash
  import opened SecretScan
  import opened Workspace

  datatype ApplyError =
    | NotReady
    | Cancelled
    | AlreadyPartial
    | AlreadyStale
    | NotApproved
    | HashMismatch
    | ApprovalMismatch
    | Expired
    | MemoryMissing(target: string)
    | ObserveFailed(target: string)
    | Drift(target: string)
    | CheckpointFailed
    | AcquireFailed
    | SecretFound(rule: string, path: string)
    | Denied(index: nat)
    | RowFailed(index: nat, error: RowError)
    | RowUnsigned(index: nat)
    | Halted(cause: ApplyError, signed: bool)
    | PlanUnsigned
    | ReleaseFailed

  /** Everything the ports, the clock and the context may answer during one call;
      per-row answers are indexed by the row's position. */
  datatype Ports = Ports(
    ready: bool, cancelled: bool, memory: bool,
    start: Time, clearing: nat -> Time, executing: nat -> Time,
    observing: nat -> Fault, checkpoint: Option<string>, leases: Option<seq<Lease>>,
    cancelledAt: nat -> bool, faults: nat -> Fault, propose: nat -> Option<string>,
    signsRow: nat -> bool, signsPlan: bool, releases: bool,
    describe: ApplyError -> string)

  /** What one call did, in order. */
  datatype Event =
    | Observed(index: nat)
    | Checkpointed
    | LeasesHeld
    | Cleared(index: nat, at: Time)
    | Granted(index: nat, at: Time)
    | Executed(index: nat)
    | Proposed(index: nat)
    | RowSigned(index: nat)
    | PlanSigned(status: Status)
    | LeasesReleased

  datatype AppliedRow = AppliedRow(key: string, index: nat, postcondition: string)

  datatype Result = Result(plan: Plan, through: nat, applied: seq<AppliedRow>, checkpoint: string)

  /** `result` is None where the source returns the zero Result. */
  datatype Outcome = Outcome(result: Option<Result>, error: Option<ApplyError>, world: State, journal: seq<Event>)

  /** A sweep over the rows that may stop with an error. */
  datatype Sweep = Sweep(events: seq<Event>, error: Option<ApplyError>)

  function Prepend(e: Event, rest: Sweep): Sweep { Sweep([e] + rest.events, rest.error) }

  function CheckBundle(p: Plan, now: Time, H: string -> string): Option<ApplyError> {
    if p.hash == "" || p.hash != HashOf(p, H) then Some(HashMismatch)
    else if p.expiresAt == Zero || !Before(now, p.expiresAt) then Some(Expired)
    else None
  }

  function LeaseById(leases: seq<Lease>, id: string): Option<Lease> {
    if leases == [] then None
    else if leases[0].id == id then Some(leases[0])
    else LeaseById(leases[1..], id)
  }

  /** authorizeRow: the row's named lease, and only that one, must grant its effect. */
  predicate MayRun(now: Time, principal: string, p: Plan, row: Row, leases: seq<Lease>) {
    var named := LeaseById(leases, row.lease);
    named.Some? && AuthorizePlan(now, principal, KernelPlan(p), PolicyEffect(row, p.scope), [named.value]).Allowed?
  }

  /** The copy of the plan that goes back with a refusal. */
  function Marked(p: Plan, e: ApplyError, ports: Ports): Plan {
    match e
    case ObserveFailed(_) => p.(status := Stale, reviewComment := ports.describe(e))
    case Drift(target) => p.(status := Stale, reviewComment := "precondition drift on " + target)
    case ApprovalMismatch => p.(reviewComment := "approval hash does not cover this plan")
    case SecretFound(rule, path) => p.(reviewComment := "secret " + rule + " in " + path)
    case Denied(_) => p.(reviewComment := ports.describe(e))
    case _ => p
  }

  // ----- the three sweeps over the rows ---------------------------------------------------

  /** Every row that has not landed must find its precondition. */
  function ObserveFrom(host: Host, ports: Ports, rows: seq<Row>, s: State, i: nat): Sweep
    requires i <= |rows|
    decreases |rows| - i
  {
    if i == |rows| then Sweep([], None)
    else
      var row := rows[i];
      if row.op == OP_MEMORY && !ports.memory then Sweep([], Some(MemoryMissing(row.target)))
      else if row.key in s.applied || row.op == OP_MEMORY then ObserveFrom(host, ports, rows, s, i + 1)
      else if !ports.observing(i).NoFault? then Sweep([], Some(ObserveFailed(row.target)))
      else if Digest(host, s.files, row.target) != row.precondition then Sweep([Observed(i)], Some(Drift(row.target)))
      else Prepend(Observed(i), ObserveFrom(host, ports, rows, s, i + 1))
  }

  /** Every row that has not landed must be free of secrets and authorised. */
  function ClearFrom(host: Host, ports: Ports, principal: string, p: Plan, leases: seq<Lease>, s: State, i: nat): Sweep
    requires i <= |p.rows|
    decreases |p.rows| - i
  {
    if i == |p.rows| then Sweep([], None)
    else
      var row := p.rows[i];
      if row.key in s.applied then ClearFrom(host, ports, principal, p, leases, s, i + 1)
      else
        var findings := ScanFrom(row.target, 1, row.payload, host.detectors);
        if findings != [] then Sweep([], Some(SecretFound(findings[0].rule, findings[0].path)))
        else if !MayRun(ports.clearing(i), principal, p, row, leases) then Sweep([], Some(Denied(i)))
        else Prepend(Cleared(i, ports.clearing(i)), ClearFrom(host, ports, principal, p, leases, s, i + 1))
  }

  /** executeRow: a memory row is only proposed, any other row goes to the world. */
  function Perform(host: Host, ports: Ports, s: State, row: Row, i: nat): (State, Landing) {
    if row.op == OP_MEMORY then
      if !ports.memory then (s, Failed(NoMemory))
      else
        match ports.propose(i)
        case None => (s, Failed(MemoryFails))
        case Some(post) => (s, if PostMatches(row, post) then Landed(post) else Failed(WrongPostcondition(row.target)))
    else
      var (s', landing) := ExecuteOn(host, s, row, ports.faults(i));
      (s', match landing
           case Failed(_) => landing
           case Landed(post) => if PostMatches(row, post) then landing else Failed(WrongPostcondition(row.target)))
  }

  function Done(row: Row, i: nat): Event { if row.op == OP_MEMORY then Proposed(i) else Executed(i) }

  datatype Run = Run(world: State, applied: seq<AppliedRow>, events: seq<Event>, error: Option<ApplyError>)

  function PrependRun(a: AppliedRow, events: seq<Event>, rest: Run): Run {
    Run(rest.world, [a] + rest.applied, events + rest.events, rest.error)
  }

  /** One turn of the row loop: it halts, or one more row is on record. */
  datatype Turn = Halt(run: Run) | Next(world: State, entry: AppliedRow, events: seq<Event>)

  function TakeTurn(host: Host, ports: Ports, principal: string, p: Plan, leases: seq<Lease>, s: State, i: nat): Turn
    requires i < |p.rows|
  {
    var row, now := p.rows[i], ports.executing(i);
    if ports.cancelledAt(i) then Halt(Run(s, [], [], Some(Cancelled)))
    else if row.key in s.applied then Next(s, AppliedRow(row.key, i, s.applied[row.key]), [])
    else if !MayRun(now, principal, p, row, leases) then Halt(Run(s, [], [], Some(Denied(i))))
    else
      var (s', landing) := Perform(host, ports, s, row, i);
      match landing
      case Failed(e) => Halt(Run(s', [], [Granted(i, now)], Some(RowFailed(i, e))))
      case Landed(post) =>
        if !ports.signsRow(i) then
          Halt(Run(s', [AppliedRow(row.key, i, post)], [Granted(i, now), Done(row, i)], Some(RowUnsigned(i))))
        else Next(s', AppliedRow(row.key, i, post), [Granted(i, now), Done(row, i), RowSigned(i)])
  }

  function RunFrom(host: Host, ports: Ports, principal: string, p: Plan, leases: seq<Lease>, s: State, i: nat): Run
    requires i <= |p.rows|
    decreases |p.rows| - i
  {
    if i == |p.rows| then Run(s, [], [], None)
    else
      match TakeTurn(host, ports, principal, p, leases, s, i)
      case Halt(run) => run
      case Next(s', entry, events) => PrependRun(entry, events, RunFrom(host, ports, principal, p, leases, s', i + 1))
  }

  // ----- the whole sequence ---------------------------------------------------------------

  function Finish(p: Plan, ck: string, ports: Ports, run: Run): Outcome {
    var n := |run.applied|;
    match run.error
    case None =>
      var done := p.(status := Status.Applied, appliedThrough := n, checkpoint := ck, reviewComment := "");
      Outcome(Some(Result(done, n, run.applied, ck)), if ports.signsPlan then None else Some(PlanUnsigned),
              run.world, run.events + if ports.signsPlan then [PlanSigned(Status.Applied)] else [])
    case Some(cause) =>
      if n == 0 then
        Outcome(Some(Result(p.(reviewComment := ports.describe(cause)), 0, run.applied, ck)), Some(cause), run.world, run.events)
      else
        var halted := p.(status := PartiallyApplied, appliedThrough := n, checkpoint := ck, reviewComment := ports.describe(cause));
        Outcome(Some(Result(halted, n, run.applied, ck)), Some(Halted(cause, ports.signsPlan)),
                run.world, run.events + if ports.signsPlan then [PlanSigned(PartiallyApplied)] else [])
  }

  /** Scan and authorise everything, run the rows, halt at the first that fails. */
  function WhileHeld(host: Host, ports: Ports, principal: string, p: Plan, leases: seq<Lease>, ck: string, s: State): Outcome {
    var cleared := ClearFrom(host, ports, principal, p, leases, s, 0);
    match cleared.error
    case Some(e) => Outcome(Some(Result(Marked(p, e, ports), 0, [], ck)), Some(e), s, cleared.events)
    case None =>
      var done := Finish(p, ck, ports, RunFrom(host, ports, principal, p, leases, s, 0));
      done.(journal := cleared.events + done.journal)
  }

  /** The deferred release: its failure shows only when nothing else failed. */
  function Release(ports: Ports, before: seq<Event>, o: Outcome): Outcome {
    o.(journal := before + o.journal + [LeasesReleased],
       error := if !ports.releases && o.error.None? then Some(ReleaseFailed) else o.error)
  }

  function Refuse(p: Plan, e: ApplyError, ports: Ports, ck: string, s: State, journal: seq<Event>): Outcome {
    Outcome(Some(Result(Marked(p, e, ports), 0, [], ck)), Some(e), s, journal)
  }

  function Sequence(host: Host, ports: Ports, principal: string, p: Plan, approval: string, s: State): Outcome {
    var digest := HashOf(p, host.H);
    if p.hash != digest then Refuse(p, HashMismatch, ports, "", s, [])
    else if approval != digest then Refuse(p, ApprovalMismatch, ports, "", s, [])
    else
      match CheckBundle(p, ports.start, host.H)
      case Some(e) => Refuse(p, e, ports, "", s, [])
      case None =>
        var observed := ObserveFrom(host, ports, p.rows, s, 0);
        match observed.error
        case Some(e) => Refuse(p, e, ports, "", s, observed.events)
        case None =>
          match ports.checkpoint
          case None => Refuse(p, CheckpointFailed, ports, "", s, observed.events)
          case Some(ck) =>
            var saved, before := p.(checkpoint := ck), observed.events + [Checkpointed];
            match ports.leases
            case None => Refuse(saved, AcquireFailed, ports, ck, s, before)
            case Some(leases) =>
              Release(ports, before + [LeasesHeld], WhileHeld(host, ports, principal, saved, leases, ck, s))
  }

  function ApplyPlan(host: Host, ports: Ports, principal: string, p: Plan, approval: string, s: State): Outcome {
    if !ports.ready then Outcome(None, Some(NotReady), s, [])
    else if ports.cancelled then Outcome(None, Some(Cancelled), s, [])
    else
      match p.status
      case Applied =>
        Outcome(Some(Result(p, if p.appliedThrough == 0 then |p.rows| else p.appliedThrough, [], p.checkpoint)), None, s, [])
      case PartiallyApplied => Outcome(Some(Result(p, p.appliedThrough, [], p.checkpoint)), Some(AlreadyPartial), s, [])
      case Stale => Refuse(p, AlreadyStale, ports, "", s, [])
      case Approved | Applying => Sequence(host, ports, principal, p, approval, s)
      case _ => Refuse(p, NotApproved, ports, "", s, [])
  }

  // ----- the sequence as the source runs it ---------------------------------------------------

  method FindLease(leases: seq<Lease>, id: string) returns (r: Option<Lease>)
    ensures r == LeaseById(leases, id)
  {
    assert leases[0..] == leases;
    for i := 0 to |leases|
      invariant LeaseById(leases, id) == LeaseById(leases[i..], id)
    {
      if leases[i].id == id {
        return Some(leases[i]);
      }
      assert leases[i..][1..] == leases[i + 1..];
    }
    return None;
  }

  method AuthorizeRow(now: Time, principal: string, p: Plan, row: Row, leases: seq<Lease>) returns (ok: bool)
    ensures ok == MayRun(now, principal, p, row, leases)
  {
    var named := FindLease(leases, row.lease);
    if named.None? {
      return false;
    }
    return AuthorizePlan(now, principal, KernelPlan(p), PolicyEffect(row, p.scope), [named.value]).Allowed?;
  }

  lemma MoreSweep(done: seq<Event>, e: Event, rest: Sweep)
    ensures Sweep(done + Prepend(e, rest).events, Prepend(e, rest).error) == Sweep(done + [e] + rest.events, rest.error)
    ensures [] + rest.events == rest.events && rest.events + [] == rest.events
  {
    assert done + ([e] + rest.events) == done + [e] + rest.events;
  }

  method ObserveRows(host: Host, ports: Ports, rows: seq<Row>, world: World) returns (sweep: Sweep)
    ensures sweep == ObserveFrom(host, ports, rows, world.Value(), 0)
  {
    var events: seq<Event> := [];
    ghost var want := ObserveFrom(host, ports, rows, world.Value(), 0);
    for i := 0 to |rows|
      invariant var rest := ObserveFrom(host, ports, rows, world.Value(), i); want == Sweep(events + rest.events, rest.error)
    {
      var row := rows[i];
      if row.op == OP_MEMORY && !ports.memory {
        return Sweep(events, Some(MemoryMissing(row.target)));
      }
      var post := world.Seen(row.key);
      if post.Some? || row.op == OP_MEMORY {
        continue;
      }
      var got := world.Observe(host, row.target, ports.observing(i));
      if got.None? {
        return Sweep(events, Some(ObserveFailed(row.target)));
      }
      MoreSweep(events, Observed(i), ObserveFrom(host, ports, rows, world.Value(), i + 1));
      events := events + [Observed(i)];
      if got.value != row.precondition {
        return Sweep(events, Some(Drift(row.target)));
      }
    }
    return Sweep(events, None);
  }

  method ClearRows(host: Host, ports: Ports, principal: string, p: Plan, leases: seq<Lease>, world: World) returns (sweep: Sweep)
    ensures sweep == ClearFrom(host, ports, principal, p, leases, world.Value(), 0)
  {
    hide MayRun, ScanFrom;
    var events: seq<Event> := [];
    ghost var want := ClearFrom(host, ports, principal, p, leases, world.Value(), 0);
    for i := 0 to |p.rows|
      invariant var rest := ClearFrom(host, ports, principal, p, leases, world.Value(), i); want == Sweep(events + rest.events, rest.error)
    {
      var row := p.rows[i];
      var post := world.Seen(row.key);
      if post.Some? {
        continue;
      }
      var findings := Scan(row.target, row.payload, host.detectors);
      if |findings| > 0 {
        return Sweep(events, Some(SecretFound(findings[0].rule, findings[0].path)));
      }
      var ok := AuthorizeRow(ports.clearing(i), principal, p, row, leases);
      if !ok {
        return Sweep(events, Some(Denied(i)));
      }
      MoreSweep(events, Cleared(i, ports.clearing(i)), ClearFrom(host, ports, principal, p, leases, world.Value(), i + 1));
      events := events + [Cleared(i, ports.clearing(i))];
    }
    return Sweep(events, None);
  }

  method ExecuteRow(host: Host, ports: Ports, row: Row, i: nat, world: World) returns (r: Landing)
    modifies world
    ensures (world.Value(), r) == Perform(host, ports, old(world.Value()), row, i)
  {
    if row.op == OP_MEMORY {
      if !ports.memory {
        return Failed(NoMemory);
      }
      if ports.propose(i).None? {
        return Failed(MemoryFails);
      }
      r := Landed(ports.propose(i).value);
    } else {
      r := world.Execute(host, row, ports.faults(i));
      if r.Failed? {
        return;
      }
    }
    if row.postcondition != "" && r.post != row.postcondition {
      return Failed(WrongPostcondition(row.target));
    }
  }

  lemma MoreRun(applied: seq<AppliedRow>, events: seq<Event>, a: AppliedRow, more: seq<Event>, rest: Run)
    ensures var all := PrependRun(a, more, rest);
            && applied + all.applied == applied + [a] + rest.applied
            && events + all.events == events + more + rest.events
    ensures [] + rest.events == rest.events && rest.events + [] == rest.events
    ensures [] + rest.applied == rest.applied && rest.applied + [] == rest.applied
  {
    assert applied + ([a] + rest.applied) == applied + [a] + rest.applied;
    assert events + (more + rest.events) == events + more + rest.events;
  }

  method RunRows(host: Host, ports: Ports, principal: string, p: Plan, leases: seq<Lease>, world: World)
    returns (applied: seq<AppliedRow>, events: seq<Event>, error: Option<ApplyError>)
    modifies world
    ensures Run(world.Value(), applied, events, error) == RunFrom(host, ports, principal, p, leases, old(world.Value()), 0)
  {
    hide MayRun, Perform;
    applied, events := [], [];
    ghost var want := RunFrom(host, ports, principal, p, leases, world.Value(), 0);
    for i := 0 to |p.rows|
      invariant var rest := RunFrom(host, ports, principal, p, leases, world.Value(), i);
                want == Run(rest.world, applied + rest.applied, events + rest.events, rest.error)
    {
      var row := p.rows[i];
      if ports.cancelledAt(i) {
        return applied, events, Some(Cancelled);
      }
      var post := world.Seen(row.key);
      if post.Some? {
        MoreRun(applied, events, AppliedRow(row.key, i, post.value), [], RunFrom(host, ports, principal, p, leases, world.Value(), i + 1));
        applied := applied + [AppliedRow(row.key, i, post.value)];
        assert events + [] == events;
        continue;
      }
      var ok := AuthorizeRow(ports.executing(i), principal, p, row, leases);
      if !ok {
        return applied, events, Some(Denied(i));
      }
      var landing := ExecuteRow(host, ports, row, i, world);
      if landing.Failed? {
        return applied, events + [Granted(i, ports.executing(i))], Some(RowFailed(i, landing.error));
      }
      var entry := AppliedRow(row.key, i, landing.post);
      if !ports.signsRow(i) {
        return applied + [entry], events + [Granted(i, ports.executing(i)), Done(row, i)], Some(RowUnsigned(i));
      }
      var more := [Granted(i, ports.executing(i)), Done(row, i), RowSigned(i)];
      MoreRun(applied, events, entry, more, RunFrom(host, ports, principal, p, leases, world.Value(), i + 1));
      applied := applied + [entry];
      events := events + more;
    }
    return applied, events, None;
  }

  method HaltPartial(p: Plan, applied: seq<AppliedRow>, ck: string, cause: ApplyError, ports: Ports, ghost run: Run)
    returns (r: Result, error: ApplyError, events: seq<Event>)
    requires run.applied == applied && run.error == Some(cause)
    ensures var o := Finish(p, ck, ports, run); o.result == Some(r) && o.error == Some(error) && o.journal == run.events + events
  {
    if |applied| == 0 {
      assert run.events + [] == run.events;
      return Result(p.(reviewComment := ports.describe(cause)), 0, applied, ck), cause, [];
    }
    var halted := p.(status := PartiallyApplied, appliedThrough := |applied|, checkpoint := ck, reviewComment := ports.describe(cause));
    r := Result(halted, |applied|, applied, ck);
    if !ports.signsPlan {
      return r, Halted(cause, false), [];
    }
    return r, Halted(cause, true), [PlanSigned(PartiallyApplied)];
  }

  /** From the first lease on; the caller releases. */
  method RunHeld(host: Host, ports: Ports, principal: string, p: Plan, leases: seq<Lease>, ck: string, world: World)
    returns (result: Option<Result>, error: Option<ApplyError>, journal: seq<Event>)
    modifies world
    ensures Outcome(result, error, world.Value(), journal) == WhileHeld(host, ports, principal, p, leases, ck, old(world.Value()))
  {
    hide ClearFrom, RunFrom;
    var cleared := ClearRows(host, ports, principal, p, leases, world);
    if cleared.error.Some? {
      return Some(Result(Marked(p, cleared.error.value, ports), 0, [], ck)), cleared.error, cleared.events;
    }
    var applied, events, failed := RunRows(host, ports, principal, p, leases, world);
    ghost var run := Run(world.Value(), applied, events, failed);
    if failed.Some? {
      var r, e, more := HaltPartial(p, applied, ck, failed.value, ports, run);
      assert cleared.events + (events + more) == cleared.events + events + more;
      return Some(r), Some(e), cleared.events + events + more;
    }
    var done := p.(status := Status.Applied, appliedThrough := |applied|, checkpoint := ck, reviewComment := "");
    var signed := if ports.signsPlan then [PlanSigned(Status.Applied)] else [];
    assert cleared.events + (events + signed) == cleared.events + events + signed;
    return Some(Result(done, |applied|, applied, ck)), if ports.signsPlan then None else Some(PlanUnsigned), cleared.events + events + signed;
  }

  method Apply(host: Host, ports: Ports, principal: string, p: Plan, approval: string, world: World)
    returns (result: Option<Result>, error: Option<ApplyError>, journal: seq<Event>)
    modifies world
    ensures Outcome(result, error, world.Value(), journal) == ApplyPlan(host, ports, principal, p, approval, old(world.Value()))
  {
    hide ObserveFrom, WhileHeld, Encode;
    journal := [];
    if !ports.ready {
      return None, Some(NotReady), [];
    }
    if ports.cancelled {
      return None, Some(Cancelled), [];
    }
    match p.status {
      case Applied =>
        var through := p.appliedThrough;
        if through == 0 {
          through := |p.rows|;
        }
        return Some(Result(p, through, [], p.checkpoint)), None, [];
      case PartiallyApplied =>
        return Some(Result(p, p.appliedThrough, [], p.checkpoint)), Some(AlreadyPartial), [];
      case Stale =>
        return Some(Result(p, 0, [], "")), Some(AlreadyStale), [];
      case Approved | Applying =>
      case _ =>
        return Some(Result(p, 0, [], "")), Some(NotApproved), [];
    }
    var digest := ComputeHash(p, host.H);
    if p.hash != digest {
      return Some(Result(p, 0, [], "")), Some(HashMismatch), [];
    }
    if approval != digest {
      return Some(Result(Marked(p, ApprovalMismatch, ports), 0, [], "")), Some(ApprovalMismatch), [];
    }
    var refused := CheckBundle(p, ports.start, host.H);
    if refused.Some? {
      return Some(Result(p, 0, [], "")), refused, [];
    }
    var observed := ObserveRows(host, ports, p.rows, world);
    if observed.error.Some? {
      return Some(Result(Marked(p, observed.error.value, ports), 0, [], "")), observed.error, observed.events;
    }
    if ports.checkpoint.None? {
      return Some(Result(p, 0, [], "")), Some(CheckpointFailed), observed.events;
    }
    var ck := ports.checkpoint.value;
    var saved := p.(checkpoint := ck);
    journal := observed.events + [Checkpointed];
    if ports.leases.None? {
      return Some(Result(saved, 0, [], ck)), Some(AcquireFailed), journal;
    }
    var r, e, rest := RunHeld(host, ports, principal, saved, ports.leases.value, ck, world);
    if !ports.releases && e.None? {
      e := Some(ReleaseFailed);
    }
    return r, e, journal + [LeasesHeld] + rest + [LeasesReleased];
  }
}
