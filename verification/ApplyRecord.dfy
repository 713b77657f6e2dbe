/** What a call of Apply hands back: the plan with the reason of a refusal, the files to
    publish, and the postconditions on record (internal/plan/apply.go). */
module ApplyRecord {
  import opened Text
  import opened Policy
  import opened Payload
  import opened PlanModel
  import opened PlanHash
  import opened SecretScan
  import opened Workspace
  import opened Applier
  import opened ApplySafety
  import opened ApplyOutcome

  // ----- what a refusal leaves on the plan --------------------------------------------------------------

  lemma {:induction false} ObserveErrors(host: Host, ports: Ports, rows: seq<Row>, s: State, i: nat)
    requires i <= |rows|
    ensures var e := ObserveFrom(host, ports, rows, s, i).error; e.Some? ==> e.value.MemoryMissing? || e.value.ObserveFailed? || e.value.Drift?
    decreases |rows| - i
  {
    hide Digest;
    if i < |rows| {
      ObserveErrors(host, ports, rows, s, i + 1);
    }
  }

  lemma {:induction false} ClearErrors(host: Host, ports: Ports, principal: string, p: Plan, leases: seq<Lease>, s: State, i: nat)
    requires i <= |p.rows|
    ensures var e := ClearFrom(host, ports, principal, p, leases, s, i).error; e.Some? ==> e.value.SecretFound? || e.value.Denied?
    decreases |p.rows| - i
  {
    hide MayRun, ScanFrom;
    if i < |p.rows| {
      ClearErrors(host, ports, principal, p, leases, s, i + 1);
    }
  }

  lemma {:induction false} RunErrors(host: Host, ports: Ports, principal: string, p: Plan, leases: seq<Lease>, s: State, i: nat)
    requires i <= |p.rows|
    ensures var run := RunFrom(host, ports, principal, p, leases, s, i);
            && (run.error.Some? ==> run.error.value.Cancelled? || run.error.value.Denied? || run.error.value.RowFailed? || run.error.value.RowUnsigned?)
            && (run.error.Some? && run.error.value.RowUnsigned? ==> run.applied != [])
    decreases |p.rows| - i
  {
    hide MayRun, Perform, Done;
    if i < |p.rows| {
      match TakeTurn(host, ports, principal, p, leases, s, i)
      case Halt(_) =>
      case Next(s', _, _) =>
        hide TakeTurn;
        RunErrors(host, ports, principal, p, leases, s', i + 1);
    }
  }

  /** The plan that goes back when nothing was applied: stale after drift or a failed
      observation, otherwise as it was, with the comment that says why. */
  function Returned(ports: Ports, p: Plan, e: ApplyError): Plan {
    var saved := if ports.checkpoint.Some? then p.(checkpoint := ports.checkpoint.value) else p;
    match e
    case Drift(target) => p.(status := Stale, reviewComment := "precondition drift on " + target)
    case ObserveFailed(_) => p.(status := Stale, reviewComment := ports.describe(e))
    case ApprovalMismatch => p.(reviewComment := "approval hash does not cover this plan")
    case SecretFound(rule, path) => saved.(reviewComment := "secret " + rule + " in " + path)
    case AcquireFailed => saved
    case Cancelled | Denied(_) | RowFailed(_, _) => saved.(reviewComment := ports.describe(e))
    case _ => p
  }

  lemma HeldReturns(host: Host, ports: Ports, principal: string, p: Plan, leases: seq<Lease>, ck: string, s: State)
    requires Runs(p) && ports.checkpoint == Some(ck)
    ensures var o := WhileHeld(host, ports, principal, p.(checkpoint := ck), leases, ck, s);
            && o.result.Some?
            && (o.result.value.through == 0 && o.result.value.plan.status != Status.Applied ==>
                  o.error.Some? && o.result.value.plan == Returned(ports, p, o.error.value))
  {
    var saved := p.(checkpoint := ck);
    ClearErrors(host, ports, principal, saved, leases, s, 0);
    RunErrors(host, ports, principal, saved, leases, s, 0);
    MarkedWhileHeld(ports, p, ck);
    hide ClearFrom, RunFrom, Returned, Marked;
    var run := RunFrom(host, ports, principal, saved, leases, s, 0);
    if run.error.Some? && run.applied == [] {
      FinishReturns(ports, p, ck, run);
    }
  }

  lemma FinishReturns(ports: Ports, p: Plan, ck: string, run: Run)
    requires ports.checkpoint == Some(ck) && run.applied == [] && run.error.Some?
    requires run.error.value.Cancelled? || run.error.value.Denied? || run.error.value.RowFailed?
    ensures var o := Finish(p.(checkpoint := ck), ck, ports, run);
            o.error == run.error && o.result.Some? && o.result.value.plan == Returned(ports, p, run.error.value)
  {
  }

  lemma MarkedWhileHeld(ports: Ports, p: Plan, ck: string)
    requires ports.checkpoint == Some(ck)
    ensures forall e: ApplyError :: e.SecretFound? || e.Denied? || e.AcquireFailed? ==> Marked(p.(checkpoint := ck), e, ports) == Returned(ports, p, e)
  {
  }

  lemma MarkedBefore(ports: Ports, p: Plan)
    ensures forall e: ApplyError ::
              !(e.SecretFound? || e.Denied? || e.AcquireFailed? || e.Cancelled? || e.RowFailed?) ==> Marked(p, e, ports) == Returned(ports, p, e)
  {
  }

  /** On every exit on which nothing was applied. */
  lemma RefusalsMarkThePlan(host: Host, ports: Ports, principal: string, p: Plan, approval: string, s: State)
    ensures var o := ApplyPlan(host, ports, principal, p, approval, s);
            Runs(p) && o.result.Some? && o.result.value.through == 0 && o.result.value.plan.status != Status.Applied ==>
              o.error.Some? && o.result.value.plan == Returned(ports, p, o.error.value)
    ensures var o := ApplyPlan(host, ports, principal, p, approval, s);
            !Runs(p) && o.result.Some? ==> o.result.value.plan == p
  {
    hide Sequence, Returned, Boundary;
    if Runs(p) {
      SequenceReturns(host, ports, principal, p, approval, s);
    }
  }

  predicate NothingDone(o: Outcome) { o.result.Some? && o.result.value.through == 0 && o.result.value.plan.status != Status.Applied }

  ghost predicate MarksPlan(ports: Ports, p: Plan, o: Outcome) {
    NothingDone(o) ==> o.error.Some? && o.result.value.plan == Returned(ports, p, o.error.value)
  }

  lemma RefusedReturns(ports: Ports, p: Plan, e: ApplyError, ck: string, s: State, journal: seq<Event>)
    requires Runs(p)
    requires !(e.SecretFound? || e.Denied? || e.AcquireFailed? || e.Cancelled? || e.RowFailed?)
    ensures MarksPlan(ports, p, Refuse(p, e, ports, ck, s, journal))
  {
    MarkedBefore(ports, p);
    hide Marked, Returned;
  }

  lemma AcquireReturns(ports: Ports, p: Plan, ck: string, s: State, journal: seq<Event>)
    requires ports.checkpoint == Some(ck)
    ensures MarksPlan(ports, p, Refuse(p.(checkpoint := ck), AcquireFailed, ports, ck, s, journal))
  {
    MarkedWhileHeld(ports, p, ck);
    hide Marked, Returned;
  }

  lemma ReleasedReturns(ports: Ports, p: Plan, before: seq<Event>, o: Outcome)
    requires MarksPlan(ports, p, o)
    ensures MarksPlan(ports, p, Release(ports, before, o))
  {
    hide Returned;
  }

  lemma SequenceReturns(host: Host, ports: Ports, principal: string, p: Plan, approval: string, s: State)
    requires Runs(p)
    ensures MarksPlan(ports, p, Sequence(host, ports, principal, p, approval, s))
  {
    ObserveErrors(host, ports, p.rows, s, 0);
    hide ObserveFrom, WhileHeld, HashOf, Refuse, Release, MarksPlan, Marked, Returned;
    var observed := ObserveFrom(host, ports, p.rows, s, 0);
    var refused := CheckBundle(p, ports.start, host.H);
    RefusedReturns(ports, p, HashMismatch, "", s, []);
    RefusedReturns(ports, p, ApprovalMismatch, "", s, []);
    RefusedReturns(ports, p, CheckpointFailed, "", s, observed.events);
    if refused.Some? {
      RefusedReturns(ports, p, refused.value, "", s, []);
    } else if observed.error.Some? {
      RefusedReturns(ports, p, observed.error.value, "", s, observed.events);
    } else if ports.checkpoint.Some? {
      hide CheckBundle;
      var ck := ports.checkpoint.value;
      var before := observed.events + [Checkpointed];
      AcquireReturns(ports, p, ck, s, before);
      if ports.leases.Some? {
        HeldMarks(host, ports, principal, p, ports.leases.value, ck, s);
        ReleasedReturns(ports, p, before + [LeasesHeld], WhileHeld(host, ports, principal, p.(checkpoint := ck), ports.leases.value, ck, s));
      }
    }
  }

  lemma HeldMarks(host: Host, ports: Ports, principal: string, p: Plan, leases: seq<Lease>, ck: string, s: State)
    requires Runs(p) && ports.checkpoint == Some(ck)
    ensures MarksPlan(ports, p, WhileHeld(host, ports, principal, p.(checkpoint := ck), leases, ck, s))
  {
    hide WhileHeld, Returned;
    HeldReturns(host, ports, principal, p, leases, ck, s);
  }

  // ----- what is published, and what is recorded ----------------------------------------------------

  /** The targets of the file rows that a journal says were executed, without the compiled
      files, in order. */
  function Published(host: Host, rows: seq<Row>, journal: seq<Event>): seq<string>
    decreases |journal|
  {
    if journal == [] then []
    else
      var e := journal[0];
      (if e.Executed? && e.index < |rows| && !host.compiled(rows[e.index].target) then [rows[e.index].target] else [])
      + Published(host, rows, journal[1..])
  }

  lemma {:induction false} PublishedConcat(host: Host, rows: seq<Row>, a: seq<Event>, b: seq<Event>)
    ensures Published(host, rows, a + b) == Published(host, rows, a) + Published(host, rows, b)
    decreases |a|
  {
    if a == [] {
      assert [] + b == b;
    } else {
      assert (a + b)[0] == a[0] && (a + b)[1..] == a[1..] + b;
      PublishedConcat(host, rows, a[1..], b);
    }
  }

  lemma {:induction false} NothingPublished(host: Host, rows: seq<Row>, journal: seq<Event>)
    requires NoExecuted(journal)
    ensures Published(host, rows, journal) == []
    decreases |journal|
  {
    if journal != [] {
      NothingPublished(host, rows, journal[1..]);
    }
  }

  lemma TurnPublished(host: Host, rows: seq<Row>, i: nat, at: Time)
    requires i < |rows|
    ensures var granted, done := Granted(i, at), Done(rows[i], i);
            var one := if rows[i].op == OP_MEMORY || host.compiled(rows[i].target) then [] else [rows[i].target];
            Published(host, rows, []) == Published(host, rows, [granted]) == []
            && Published(host, rows, [granted, done]) == Published(host, rows, [granted, done, RowSigned(i)]) == one
  {
    var granted, done, signed := Granted(i, at), Done(rows[i], i), RowSigned(i);
    PublishedOne(host, rows, granted);
    PublishedOne(host, rows, done);
    PublishedOne(host, rows, signed);
    NothingPublished(host, rows, []);
    hide Published;
    PublishedConcat(host, rows, [granted], [done]);
    PublishedConcat(host, rows, [granted, done], [signed]);
    assert [granted] + [done] == [granted, done] && [granted, done] + [signed] == [granted, done, signed];
  }

  lemma PublishedOne(host: Host, rows: seq<Row>, e: Event)
    ensures Published(host, rows, [e]) == if e.Executed? && e.index < |rows| && !host.compiled(rows[e.index].target) then [rows[e.index].target] else []
  {
    assert [e][1..] == [];
  }

  lemma PerformWrites(host: Host, ports: Ports, s: State, row: Row, i: nat)
    requires row.key !in s.applied
    ensures var (s', landing) := Perform(host, ports, s, row, i);
            s'.wrote == s.wrote + if landing.Failed? || row.op == OP_MEMORY || host.compiled(row.target) then [] else [row.target]
    ensures var (s', landing) := Perform(host, ports, s, row, i);
            landing.Landed? ==> if row.op == OP_MEMORY then s' == s && ports.propose(i) == Some(landing.post) else s'.applied == s.applied[row.key := landing.post]
  {
    hide Materialize;
    if row.op != OP_MEMORY && ApplyRow(host, s.files, row, ports.faults(i)).1.Landed? {
      LandingIsExact(host, s.files, row, ports.faults(i));
    }
  }

  lemma TurnWrites(host: Host, ports: Ports, principal: string, p: Plan, leases: seq<Lease>, s: State, i: nat)
    requires i < |p.rows|
    ensures var turn := TakeTurn(host, ports, principal, p, leases, s, i);
            && (turn.Halt? ==> turn.run.world.wrote == s.wrote + Published(host, p.rows, turn.run.events))
            && (turn.Next? ==> turn.world.wrote == s.wrote + Published(host, p.rows, turn.events))
  {
    TurnPublished(host, p.rows, i, ports.executing(i));
    hide MayRun, Perform, Published, Done;
    var row := p.rows[i];
    assert s.wrote + [] == s.wrote;
    if row.key !in s.applied {
      PerformWrites(host, ports, s, row, i);
    }
  }

  lemma {:induction false} RunWrites(host: Host, ports: Ports, principal: string, p: Plan, leases: seq<Lease>, s: State, i: nat)
    requires i <= |p.rows|
    ensures var run := RunFrom(host, ports, principal, p, leases, s, i); run.world.wrote == s.wrote + Published(host, p.rows, run.events)
    decreases |p.rows| - i
  {
    hide TakeTurn, Published;
    if i < |p.rows| {
      TurnWrites(host, ports, principal, p, leases, s, i);
      match TakeTurn(host, ports, principal, p, leases, s, i)
      case Halt(_) =>
      case Next(s', _, events) =>
        RunWrites(host, ports, principal, p, leases, s', i + 1);
        var rest := RunFrom(host, ports, principal, p, leases, s', i + 1);
        PublishedConcat(host, p.rows, events, rest.events);
    } else {
      NothingPublished(host, p.rows, []);
    }
  }

  lemma HeldWrites(host: Host, ports: Ports, principal: string, p: Plan, leases: seq<Lease>, ck: string, s: State)
    ensures var o := WhileHeld(host, ports, principal, p, leases, ck, s); o.world.wrote == s.wrote + Published(host, p.rows, o.journal)
  {
    ClearingExecutesNothing(host, ports, principal, p, leases, s, 0);
    RunWrites(host, ports, principal, p, leases, s, 0);
    hide ClearFrom, RunFrom, Finish, Published, NoExecuted;
    var cleared := ClearFrom(host, ports, principal, p, leases, s, 0);
    NothingPublished(host, p.rows, cleared.events);
    if cleared.error.None? {
      FinishPublishes(host, p, ck, ports, RunFrom(host, ports, principal, p, leases, s, 0), cleared.events);
    }
  }

  lemma FinishPublishes(host: Host, p: Plan, ck: string, ports: Ports, run: Run, cleared: seq<Event>)
    requires NoExecuted(cleared)
    ensures var o := Finish(p, ck, ports, run);
            o.world == run.world && Published(host, p.rows, cleared + o.journal) == Published(host, p.rows, run.events)
  {
    hide Finish, Published, NoExecuted;
    FinishAddsNothing(p, ck, ports, run);
    var signed :| NoExecuted(signed) && Finish(p, ck, ports, run).journal == run.events + signed;
    NothingPublished(host, p.rows, cleared);
    NothingPublished(host, p.rows, signed);
    PublishedConcat(host, p.rows, run.events, signed);
    PublishedConcat(host, p.rows, cleared, run.events + signed);
  }

  /** What a call hands on to be published is exactly the files it executed, in order, but
      for the compiled ones. */
  lemma CallPublishes(host: Host, ports: Ports, principal: string, p: Plan, approval: string, s: State)
    ensures var o := ApplyPlan(host, ports, principal, p, approval, s); o.world.wrote == s.wrote + Published(host, p.rows, o.journal)
  {
    if Runs(p) && ports.ready && !ports.cancelled && Holds(host, ports, p, approval, s) {
      IsHeld(host, ports, principal, p, approval, s);
      OpeningExecutesNothing(host, ports, p.rows, s);
      var before := ObserveFrom(host, ports, p.rows, s, 0).events + [Checkpointed] + [LeasesHeld];
      hide NoExecuted, ObserveFrom, WhileHeld, ApplyPlan, Published;
      HeldWrites(host, ports, principal, p.(checkpoint := ports.checkpoint.value), ports.leases.value, ports.checkpoint.value, s);
      var held := Held(host, ports, principal, p, s).journal;
      NothingPublished(host, p.rows, before);
      NothingPublished(host, p.rows, [LeasesReleased]);
      PublishedConcat(host, p.rows, before, held);
      PublishedConcat(host, p.rows, before + held, [LeasesReleased]);
    } else {
      NotHeld(host, ports, principal, p, approval, s);
      NothingPublished(host, p.rows, ApplyPlan(host, ports, principal, p, approval, s).journal);
    }
  }

  /** Every entry of the record states what its row left: the digest the world keeps for a
      key that landed, the queue's answer for a proposal. */
  ghost predicate PostsRecorded(ports: Ports, rows: seq<Row>, applied: seq<AppliedRow>, landed: map<string, string>) {
    forall a <- applied :: a.index < |rows| &&
      ((a.key in landed && a.postcondition == landed[a.key])
       || (rows[a.index].op == OP_MEMORY && ports.propose(a.index) == Some(a.postcondition)))
  }

  /** Nothing the world keeps is ever changed. */
  predicate Keeps(before: map<string, string>, later: map<string, string>) {
    forall key <- before :: key in later && later[key] == before[key]
  }

  lemma TurnPosts(host: Host, ports: Ports, principal: string, p: Plan, leases: seq<Lease>, s: State, i: nat)
    requires i < |p.rows|
    ensures var turn := TakeTurn(host, ports, principal, p, leases, s, i);
            && (turn.Halt? ==> Keeps(s.applied, turn.run.world.applied) && PostsRecorded(ports, p.rows, turn.run.applied, turn.run.world.applied))
            && (turn.Next? ==> Keeps(s.applied, turn.world.applied) && PostsRecorded(ports, p.rows, [turn.entry], turn.world.applied))
  {
    hide MayRun, Perform;
    var row, turn := p.rows[i], TakeTurn(host, ports, principal, p, leases, s, i);
    assert Keeps(s.applied, s.applied);
    if row.key in s.applied {
      assert turn.Halt? ==> turn.run.applied == [];
    } else {
      PerformWrites(host, ports, s, row, i);
      PerformKeeps(host, ports, s, row, i);
      assert Keeps(s.applied, Perform(host, ports, s, row, i).0.applied);
    }
  }

  lemma {:induction false} RunPosts(host: Host, ports: Ports, principal: string, p: Plan, leases: seq<Lease>, s: State, i: nat)
    requires i <= |p.rows|
    ensures var run := RunFrom(host, ports, principal, p, leases, s, i);
            Keeps(s.applied, run.world.applied) && PostsRecorded(ports, p.rows, run.applied, run.world.applied)
    decreases |p.rows| - i
  {
    hide TakeTurn;
    if i < |p.rows| {
      TurnPosts(host, ports, principal, p, leases, s, i);
      match TakeTurn(host, ports, principal, p, leases, s, i)
      case Halt(_) =>
      case Next(s', entry, _) =>
        RunPosts(host, ports, principal, p, leases, s', i + 1);
        var rest := RunFrom(host, ports, principal, p, leases, s', i + 1);
        assert entry in [entry];
        assert forall a :: a in [entry] + rest.applied <==> a == entry || a in rest.applied;
    }
  }

  lemma RecordIsTrue(host: Host, ports: Ports, principal: string, p: Plan, approval: string, s: State)
    requires Runs(p) && ApplyPlan(host, ports, principal, p, approval, s).result.Some?
    ensures var o := ApplyPlan(host, ports, principal, p, approval, s);
            Keeps(s.applied, o.world.applied) && PostsRecorded(ports, p.rows, o.result.value.applied, o.world.applied)
  {
    hide ApplyPlan, WhileHeld, GateOpen, ObserveFrom;
    TwoWays(host, ports, principal, p, approval, s);
    if ports.checkpoint.Some? && ports.leases.Some? {
      HeldPosts(host, ports, principal, p.(checkpoint := ports.checkpoint.value), ports.leases.value, ports.checkpoint.value, s);
    }
  }

  lemma HeldPosts(host: Host, ports: Ports, principal: string, p: Plan, leases: seq<Lease>, ck: string, s: State)
    ensures var o := WhileHeld(host, ports, principal, p, leases, ck, s);
            o.result.Some? && Keeps(s.applied, o.world.applied) && PostsRecorded(ports, p.rows, o.result.value.applied, o.world.applied)
  {
    hide ClearFrom, RunFrom;
    RunPosts(host, ports, principal, p, leases, s, 0);
  }
}
