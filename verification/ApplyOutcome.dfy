/** What a call of Apply leaves behind: the recorded boundary, the files, and which keys
    landed, in one call and over many calls that share one world. */
module ApplyOutcome {
  import opened Text
  import opened Policy
  import opened Payload
  import opened PlanModel
  import opened PlanHash
  import opened SecretScan
  import opened Workspace
  import opened Applier
  import opened ApplySafety

  // ----- drift ---------------------------------------------------------------------------

  /** Row i finds the world as it was when the plan was drafted. */
  predicate Undrifted(host: Host, ports: Ports, row: Row, s: State, i: nat) {
    if row.op == OP_MEMORY then ports.memory
    else row.key in s.applied || (ports.observing(i).NoFault? && Digest(host, s.files, row.target) == row.precondition)
  }

  /** Apply gets past its first sweep exactly when every row is undrifted. */
  lemma {:induction false} ObservesIff(host: Host, ports: Ports, rows: seq<Row>, s: State, i: nat)
    requires i <= |rows|
    ensures ObserveFrom(host, ports, rows, s, i).error.None? <==> forall j :: i <= j < |rows| ==> Undrifted(host, ports, rows[j], s, j)
    decreases |rows| - i
  {
    if i < |rows| {
      ObservesIff(host, ports, rows, s, i + 1);
      hide Digest;
      assert ObserveFrom(host, ports, rows, s, i).error.None?
        <==> Undrifted(host, ports, rows[i], s, i) && ObserveFrom(host, ports, rows, s, i + 1).error.None?;
    }
  }

  // ----- the recorded boundary --------------------------------------------------------------

  /** The record names rows i, i + 1, ... in order, each by its own key. */
  predicate Records(rows: seq<Row>, i: nat, applied: seq<AppliedRow>) {
    && i + |applied| <= |rows|
    && forall k :: 0 <= k < |applied| ==> applied[k].index == i + k && applied[k].key == rows[i + k].key
  }

  lemma RecordsCons(rows: seq<Row>, i: nat, first: AppliedRow, rest: seq<AppliedRow>)
    requires i < |rows| && first.index == i && first.key == rows[i].key && Records(rows, i + 1, rest)
    ensures Records(rows, i, [first] + rest)
  {
    assert forall k :: 1 <= k < |[first] + rest| ==> ([first] + rest)[k] == rest[k - 1];
  }

  lemma {:induction false} RunRecords(host: Host, ports: Ports, principal: string, p: Plan, leases: seq<Lease>, s: State, i: nat)
    requires i <= |p.rows|
    ensures var run := RunFrom(host, ports, principal, p, leases, s, i);
            && Records(p.rows, i, run.applied)
            && (run.error.None? ==> i + |run.applied| == |p.rows|)
    decreases |p.rows| - i
  {
    hide TakeTurn, Records;
    EmptyRecords(p.rows, i);
    if i < |p.rows| {
      TurnRecords(host, ports, principal, p, leases, s, i);
      match TakeTurn(host, ports, principal, p, leases, s, i)
      case Halt(_) =>
      case Next(s', entry, events) =>
        RunRecords(host, ports, principal, p, leases, s', i + 1);
        RecordsCons(p.rows, i, entry, RunFrom(host, ports, principal, p, leases, s', i + 1).applied);
    }
  }

  lemma TurnRecords(host: Host, ports: Ports, principal: string, p: Plan, leases: seq<Lease>, s: State, i: nat)
    requires i < |p.rows|
    ensures var turn := TakeTurn(host, ports, principal, p, leases, s, i);
            && (turn.Halt? ==> Records(p.rows, i, turn.run.applied) && turn.run.error.Some?)
            && (turn.Next? ==> turn.entry.index == i && turn.entry.key == p.rows[i].key)
  {
    hide MayRun, Perform;
  }

  lemma EmptyRecords(rows: seq<Row>, i: nat)
    requires i <= |rows|
    ensures Records(rows, i, [])
  {
  }

  /** The calls that run the sequence; a plan already applied or halted only reports. */
  predicate Runs(p: Plan) { p.status in {Status.Approved, Status.Applying} }

  predicate Boundary(p: Plan, r: Result) {
    && Records(p.rows, 0, r.applied) && r.through == |r.applied|
    && (match r.plan.status
        case Applied => r.through == |p.rows| && r.plan.appliedThrough == r.through && r.plan.checkpoint == r.checkpoint
        case PartiallyApplied => 0 < r.through && r.plan.appliedThrough == r.through && r.plan.checkpoint == r.checkpoint
        case _ => r.through == 0)
    && r.plan.(status := p.status, appliedThrough := p.appliedThrough, checkpoint := p.checkpoint, reviewComment := p.reviewComment) == p
  }

  /** The call gets as far as holding leases. */
  predicate Holds(host: Host, ports: Ports, p: Plan, approval: string, s: State) {
    && GateOpen(host, ports, p, approval) && ObserveFrom(host, ports, p.rows, s, 0).error.None?
    && ports.checkpoint.Some? && ports.leases.Some?
  }

  /** The part of a call between acquire and release. */
  function Held(host: Host, ports: Ports, principal: string, p: Plan, s: State): Outcome
    requires ports.checkpoint.Some? && ports.leases.Some?
  {
    WhileHeld(host, ports, principal, p.(checkpoint := ports.checkpoint.value), ports.leases.value, ports.checkpoint.value, s)
  }

  predicate NoneGranted(journal: seq<Event>) { forall e <- journal :: !e.Granted? }

  lemma {:induction false} ObservingGrantsNothing(host: Host, ports: Ports, rows: seq<Row>, s: State, i: nat)
    requires i <= |rows|
    ensures NoneGranted(ObserveFrom(host, ports, rows, s, i).events)
    decreases |rows| - i
  {
    if i < |rows| {
      hide Digest;
      ObservingGrantsNothing(host, ports, rows, s, i + 1);
    }
  }

  lemma NoneGrantedConcat(a: seq<Event>, b: seq<Event>, e: Event)
    requires NoneGranted(a) && !e.Granted?
    ensures NoneGranted(a + b) <==> NoneGranted(b)
    ensures NoneGranted(b + [e]) <==> NoneGranted(b)
    ensures NoneGranted(a + [e])
  {
    assert forall x :: x in a + b <==> x in a || x in b;
    assert forall x :: x in b + [e] <==> x in b || x == e;
  }

  /** A call either stops before the leases, having changed nothing, or holds them. */
  lemma TwoWays(host: Host, ports: Ports, principal: string, p: Plan, approval: string, s: State)
    requires Runs(p)
    ensures var o := ApplyPlan(host, ports, principal, p, approval, s);
            if Holds(host, ports, p, approval, s) && ports.ready && !ports.cancelled then
              var held := Held(host, ports, principal, p, s);
              && o.world == held.world && o.result == held.result
              && (NoneGranted(o.journal) <==> NoneGranted(held.journal))
            else
              && o.world == s && o.error.Some? && NoneGranted(o.journal)
              && (o.result.Some? ==> Boundary(p, o.result.value) && o.result.value.plan.status in {p.status, Stale})
  {
    hide ObserveFrom, WhileHeld, Encode, Marked, NoneGranted, Boundary, Records;
    ObservingGrantsNothing(host, ports, p.rows, s, 0);
    NothingGrantedYet();
    var observed := ObserveFrom(host, ports, p.rows, s, 0).events;
    NoneGrantedConcat(observed, [], Checkpointed);
    var before := observed + [Checkpointed];
    NoneGrantedConcat(before, [], LeasesHeld);
    if ports.checkpoint.Some? && ports.leases.Some? {
      var held := Held(host, ports, principal, p, s);
      NoneGrantedConcat(before + [LeasesHeld], held.journal, LeasesReleased);
      NoneGrantedConcat([], before + [LeasesHeld] + held.journal, LeasesReleased);
    }
    forall e: ApplyError ensures Boundary(p, Result(Marked(p, e, ports), 0, [], "")) && Marked(p, e, ports).status in {p.status, Stale}
    {
      RefusalBoundary(p, e, ports, p.checkpoint, "");
    }
    if ports.checkpoint.Some? {
      RefusalBoundary(p, AcquireFailed, ports, ports.checkpoint.value, ports.checkpoint.value);
    }
  }

  lemma NothingGrantedYet()
    ensures NoneGranted([])
  {
  }

  lemma RefusalBoundary(p: Plan, e: ApplyError, ports: Ports, saved: string, ck: string)
    requires Runs(p)
    ensures var back := Marked(p.(checkpoint := saved), e, ports); Boundary(p, Result(back, 0, [], ck)) && back.status in {p.status, Stale}
  {
  }

  lemma HeldBoundary(host: Host, ports: Ports, principal: string, p: Plan, leases: seq<Lease>, ck: string, s: State)
    requires Runs(p)
    ensures var o := WhileHeld(host, ports, principal, p.(checkpoint := ck), leases, ck, s);
            o.result.Some? && Boundary(p, o.result.value)
  {
    hide ClearFrom, RunFrom, Records;
    RunRecords(host, ports, principal, p.(checkpoint := ck), leases, s, 0);
    EmptyRecords(p.rows, 0);
    RecordsLength(p.rows, RunFrom(host, ports, principal, p.(checkpoint := ck), leases, s, 0).applied);
  }

  lemma RecordsLength(rows: seq<Row>, applied: seq<AppliedRow>)
    ensures Records(rows, 0, applied) ==> |applied| <= |rows|
  {
  }

  lemma RunsBoundary(host: Host, ports: Ports, principal: string, p: Plan, approval: string, s: State)
    requires Runs(p) && ApplyPlan(host, ports, principal, p, approval, s).result.Some?
    ensures Boundary(p, ApplyPlan(host, ports, principal, p, approval, s).result.value)
  {
    hide ApplyPlan, Boundary, WhileHeld, GateOpen, ObserveFrom;
    TwoWays(host, ports, principal, p, approval, s);
    if ports.checkpoint.Some? && ports.leases.Some? {
      HeldBoundary(host, ports, principal, p, ports.leases.value, ports.checkpoint.value, s);
    }
  }

  /** A plan that only gets its old outcome reported back, with an empty record. */
  predicate OnlyReported(p: Plan) {
    p.status.PartiallyApplied? || (p.status.Applied? && (p.rows != [] || p.appliedThrough != 0))
  }

  /** The record is a prefix of the plan and the boundary is its length; a plan marked
      applied has every row on record, one marked partially applied at least one, any other
      none; and nothing but the outcome fields of the plan changed. That is so on every
      exit, unless the plan was already applied or partially applied: then the old boundary
      comes back with an empty record. */
  lemma BoundaryIsTrueIff(host: Host, ports: Ports, principal: string, p: Plan, approval: string, s: State)
    requires ApplyPlan(host, ports, principal, p, approval, s).result.Some?
    ensures var o := ApplyPlan(host, ports, principal, p, approval, s);
            && (Boundary(p, o.result.value) <==> !OnlyReported(p))
            && (OnlyReported(p) ==>
                  && o.result.value.plan == p && o.result.value.applied == [] && o.journal == [] && o.world == s
                  && o.result.value.through == if p.status.Applied? && p.appliedThrough == 0 then |p.rows| else p.appliedThrough)
  {
    if Runs(p) {
      RunsBoundary(host, ports, principal, p, approval, s);
    } else {
      hide Sequence;
      EmptyRecords(p.rows, 0);
    }
  }

  // ----- the files --------------------------------------------------------------------------

  /** What an approved row is meant to do to the files. */
  function Intended(host: Host, files: Files, row: Row): Files {
    if row.op == OP_MEMORY then files
    else if row.op == OP_DESTROY then files - {row.target}
    else
      match Materialize(row.op, Current(files, row.target), row.payload, host.marker)
      case Bytes(text) => files[row.target := text]
      case Refused(_) => files
  }

  /** The files after the rows from i up to n. */
  function FilesBetween(host: Host, files: Files, rows: seq<Row>, i: nat, n: nat): Files
    requires n <= |rows|
    decreases n - i
  {
    if i >= n then files else FilesBetween(host, Intended(host, files, rows[i]), rows, i + 1, n)
  }

  /** A destroy that does not promise anything but absence. */
  predicate WellStated(host: Host, row: Row) { row.op == OP_DESTROY ==> PostMatches(row, host.H("")) }

  predicate KeysDistinct(rows: seq<Row>) {
    forall j, k :: 0 <= j < k < |rows| ==> rows[j].key != rows[k].key
  }

  lemma PerformFiles(host: Host, ports: Ports, s: State, row: Row, i: nat)
    requires WellStated(host, row) && row.key !in s.applied
    ensures var (s', landing) := Perform(host, ports, s, row, i);
            && (landing.Landed? ==> s'.files == Intended(host, s.files, row))
            && (landing.Failed? ==> s'.files == s.files)
            && s'.applied.Keys <= s.applied.Keys + {row.key}
  {
    hide Materialize;
    if row.op != OP_MEMORY {
      FailureLeavesFiles(host, s.files, row, ports.faults(i));
      if ApplyRow(host, s.files, row, ports.faults(i)).1.Landed? {
        LandingIsExact(host, s.files, row, ports.faults(i));
      }
    }
  }

  predicate NoneLanded(rows: seq<Row>, i: nat, s: State) {
    forall j :: i <= j < |rows| ==> rows[j].key !in s.applied
  }

  lemma StillNoneLanded(rows: seq<Row>, i: nat, s: State, s': State)
    requires i < |rows| && KeysDistinct(rows) && NoneLanded(rows, i, s) && s'.applied.Keys <= s.applied.Keys + {rows[i].key}
    ensures NoneLanded(rows, i + 1, s')
  {
  }

  /** What row i does when it lands: nothing if its key had landed before. */
  function NextFiles(host: Host, files: Files, row: Row, seen: set<string>): Files {
    if row.key in seen then files else Intended(host, files, row)
  }

  function NextSeen(row: Row, seen: set<string>): set<string> {
    if row.op == OP_MEMORY then seen else seen + {row.key}
  }

  function SeenThrough(rows: seq<Row>, seen: set<string>, i: nat, n: nat): set<string>
    requires n <= |rows|
    decreases n - i
  {
    if i >= n then seen else SeenThrough(rows, NextSeen(rows[i], seen), i + 1, n)
  }

  /** The files after the rows from i up to n, each key landing once. */
  function FilesThrough(host: Host, files: Files, rows: seq<Row>, seen: set<string>, i: nat, n: nat): Files
    requires n <= |rows|
    decreases n - i
  {
    if i >= n then files
    else FilesThrough(host, NextFiles(host, files, rows[i], seen), rows, NextSeen(rows[i], seen), i + 1, n)
  }

  /** Row n is tried: the row before it did not stop the run, and it may run. */
  predicate Tries(ports: Ports, principal: string, p: Plan, leases: seq<Lease>, seen: set<string>, i: nat, n: nat)
    requires i <= n < |p.rows|
  {
    && (i < n ==> ports.signsRow(n - 1) || p.rows[n - 1].key in SeenThrough(p.rows, seen, i, n - 1))
    && p.rows[n].key !in SeenThrough(p.rows, seen, i, n)
    && !ports.cancelledAt(n) && MayRun(ports.executing(n), principal, p, p.rows[n], leases)
  }

  /** Row n is tried, and is a misstated destroy of a file that the rows before it left. */
  predicate Loses(host: Host, ports: Ports, principal: string, p: Plan, leases: seq<Lease>, files: Files, seen: set<string>, i: nat, n: nat)
    requires i <= n <= |p.rows|
  {
    && n < |p.rows| && Tries(ports, principal, p, leases, seen, i, n)
    && MisstatedDestroy(host, FilesThrough(host, files, p.rows, seen, i, n), p.rows[n], ports.faults(n))
  }

  function FilesLeft(host: Host, ports: Ports, principal: string, p: Plan, leases: seq<Lease>, files: Files, seen: set<string>, i: nat, n: nat): Files
    requires i <= n <= |p.rows|
  {
    var landed := FilesThrough(host, files, p.rows, seen, i, n);
    if Loses(host, ports, principal, p, leases, files, seen, i, n) then landed - {p.rows[n].target} else landed
  }

  /** What the rows from i + 1 leave is what the rows from i leave, once row i went by. */
  lemma LeftAfter(host: Host, ports: Ports, principal: string, p: Plan, leases: seq<Lease>, files: Files, seen: set<string>, i: nat, n: nat)
    requires i < n <= |p.rows| && (ports.signsRow(i) || p.rows[i].key in seen)
    ensures FilesLeft(host, ports, principal, p, leases, files, seen, i, n)
            == FilesLeft(host, ports, principal, p, leases, NextFiles(host, files, p.rows[i], seen), NextSeen(p.rows[i], seen), i + 1, n)
  {
    hide MayRun, MisstatedDestroy, NextFiles, NextSeen;
  }

  /** Without a row that stops it, a run loses nothing on the way. */
  lemma LeftAtStop(host: Host, ports: Ports, principal: string, p: Plan, leases: seq<Lease>, files: Files, seen: set<string>, i: nat)
    requires i < |p.rows|
    ensures !ports.signsRow(i) && p.rows[i].key !in seen ==>
              FilesLeft(host, ports, principal, p, leases, files, seen, i, i + 1) == NextFiles(host, files, p.rows[i], seen)
    ensures FilesLeft(host, ports, principal, p, leases, files, seen, i, i)
            == if && p.rows[i].key !in seen && !ports.cancelledAt(i) && MayRun(ports.executing(i), principal, p, p.rows[i], leases)
                  && MisstatedDestroy(host, files, p.rows[i], ports.faults(i))
               then files - {p.rows[i].target} else files
  {
    hide MayRun, MisstatedDestroy, NextFiles, NextSeen;
    var next, more := NextFiles(host, files, p.rows[i], seen), NextSeen(p.rows[i], seen);
    assert FilesThrough(host, next, p.rows, more, i + 1, i + 1) == next;
  }

  lemma TurnLeaves(host: Host, ports: Ports, principal: string, p: Plan, leases: seq<Lease>, s: State, i: nat)
    requires i < |p.rows|
    ensures var turn, row, seen := TakeTurn(host, ports, principal, p, leases, s, i), p.rows[i], s.applied.Keys;
            && (turn.Halt? ==> |turn.run.applied| <= 1
                               && turn.run.world.files == FilesLeft(host, ports, principal, p, leases, s.files, seen, i, i + |turn.run.applied|))
            && (turn.Next? ==> (ports.signsRow(i) || row.key in seen)
                               && turn.world.files == NextFiles(host, s.files, row, seen) && turn.world.applied.Keys == NextSeen(row, seen))
  {
    var row, seen := p.rows[i], s.applied.Keys;
    LeftAtStop(host, ports, principal, p, leases, s.files, seen, i);
    hide MayRun, Perform, Intended, MisstatedDestroy, FilesLeft;
    if row.key !in seen {
      PerformUnfinished(host, ports, s, row, i);
      PerformLands(host, ports, s, row, i);
    } else {
      assert NextSeen(row, seen) == seen;
    }
  }

  lemma PerformLands(host: Host, ports: Ports, s: State, row: Row, i: nat)
    requires row.key !in s.applied
    ensures var (s', landing) := Perform(host, ports, s, row, i);
            landing.Landed? ==> s'.files == Intended(host, s.files, row) && s'.applied.Keys == NextSeen(row, s.applied.Keys)
  {
    hide Materialize;
    if ApplyRow(host, s.files, row, ports.faults(i)).1.Landed? {
      LandingIsExact(host, s.files, row, ports.faults(i));
    }
  }

  lemma {:induction false} RunLeaves(host: Host, ports: Ports, principal: string, p: Plan, leases: seq<Lease>, s: State, i: nat)
    requires i <= |p.rows|
    ensures var run := RunFrom(host, ports, principal, p, leases, s, i);
            && i + |run.applied| <= |p.rows|
            && run.world.files == FilesLeft(host, ports, principal, p, leases, s.files, s.applied.Keys, i, i + |run.applied|)
    decreases |p.rows| - i
  {
    hide TakeTurn, NextFiles, NextSeen, Tries, MisstatedDestroy;
    if i < |p.rows| {
      TurnLeaves(host, ports, principal, p, leases, s, i);
      hide FilesLeft;
      match TakeTurn(host, ports, principal, p, leases, s, i)
      case Halt(_) =>
      case Next(s', _, _) =>
        RunLeaves(host, ports, principal, p, leases, s', i + 1);
        LeftAfter(host, ports, principal, p, leases, s.files, s.applied.Keys, i, i + 1 + |RunFrom(host, ports, principal, p, leases, s', i + 1).applied|);
    }
  }

  /** The call gets as far as the row loop: every gate before it is open. */
  predicate StartsRows(host: Host, ports: Ports, principal: string, p: Plan, approval: string, s: State) {
    && Runs(p) && ports.ready && !ports.cancelled && Holds(host, ports, p, approval, s)
    && ClearFrom(host, ports, principal, p.(checkpoint := ports.checkpoint.value), ports.leases.value, s, 0).error.None?
  }

  /** The call reaches row n of the plan, runs it, and loses the file that it names. */
  predicate LosesAt(host: Host, ports: Ports, principal: string, p: Plan, approval: string, s: State, n: nat) {
    && StartsRows(host, ports, principal, p, approval, s) && n <= |p.rows|
    && Loses(host, ports, principal, p.(checkpoint := ports.checkpoint.value), ports.leases.value, s.files, s.applied.Keys, 0, n)
  }

  lemma HeldLeaves(host: Host, ports: Ports, principal: string, p: Plan, leases: seq<Lease>, ck: string, s: State)
    requires Runs(p)
    ensures var saved := p.(checkpoint := ck);
            var o := WhileHeld(host, ports, principal, saved, leases, ck, s);
            && o.result.Some? && o.result.value.through <= |p.rows|
            && o.world.files == if ClearFrom(host, ports, principal, saved, leases, s, 0).error.None?
                                then FilesLeft(host, ports, principal, saved, leases, s.files, s.applied.Keys, 0, o.result.value.through)
                                else FilesThrough(host, s.files, p.rows, s.applied.Keys, 0, o.result.value.through)
  {
    hide ClearFrom, RunFrom, FilesLeft;
    RunLeaves(host, ports, principal, p.(checkpoint := ck), leases, s, 0);
  }

  /** Whatever the ports do, whatever landed before and wherever the call stops, the files
      are the first `through` rows of the plan and nothing more, if and only if the row at
      the boundary was not run as a misstated destroy; if it was, exactly its file is gone. */
  lemma FilesMatchBoundaryIff(host: Host, ports: Ports, principal: string, p: Plan, approval: string, s: State)
    ensures var o := ApplyPlan(host, ports, principal, p, approval, s);
            if !Runs(p) || o.result.None? then o.world == s
            else
              var n := o.result.value.through;
              && n <= |p.rows|
              && var landed, lost := FilesThrough(host, s.files, p.rows, s.applied.Keys, 0, n), LosesAt(host, ports, principal, p, approval, s, n);
                 && (o.world.files == landed <==> !lost)
                 && (lost ==> p.rows[n].target in landed && o.world.files == landed - {p.rows[n].target})
  {
    if Runs(p) {
      hide ApplyPlan, WhileHeld, Tries, ClearFrom, Records, GateOpen, ObserveFrom;
      TwoWays(host, ports, principal, p, approval, s);
      if ports.checkpoint.Some? && ports.leases.Some? {
        HeldLeaves(host, ports, principal, p, ports.leases.value, ports.checkpoint.value, s);
      }
    } else {
      NotHeld(host, ports, principal, p, approval, s);
    }
  }

  lemma {:induction false} FreshFiles(host: Host, files: Files, rows: seq<Row>, seen: set<string>, i: nat, n: nat)
    requires i <= n <= |rows| && KeysDistinct(rows) && forall j :: i <= j < |rows| ==> rows[j].key !in seen
    ensures FilesThrough(host, files, rows, seen, i, n) == FilesBetween(host, files, rows, i, n)
    decreases n - i
  {
    hide Intended;
    if i < n {
      FreshFiles(host, Intended(host, files, rows[i]), rows, NextSeen(rows[i], seen), i + 1, n);
    }
  }

  /** In particular, on a fresh world and for a plan with distinct keys whose destroys state
      absence, the files always are the first `through` rows of the plan. */
  lemma FilesMatchBoundary(host: Host, ports: Ports, principal: string, p: Plan, approval: string, s: State)
    requires Runs(p) && KeysDistinct(p.rows) && s.applied == map[]
    requires forall row <- p.rows :: WellStated(host, row)
    ensures var o := ApplyPlan(host, ports, principal, p, approval, s);
            match o.result
            case None => o.world.files == s.files
            case Some(r) => r.through <= |p.rows| && o.world.files == FilesBetween(host, s.files, p.rows, 0, r.through)
  {
    hide ApplyPlan, LosesAt, FilesBetween, FilesThrough, WellStated, KeysDistinct;
    FilesMatchBoundaryIff(host, ports, principal, p, approval, s);
    var o := ApplyPlan(host, ports, principal, p, approval, s);
    if o.result.Some? {
      assert s.applied.Keys == {};
      FreshFiles(host, s.files, p.rows, {}, 0, o.result.value.through);
      WellStatedLosesNothing(host, ports, principal, p, approval, s, o.result.value.through);
    }
  }

  lemma WellStatedLosesNothing(host: Host, ports: Ports, principal: string, p: Plan, approval: string, s: State, n: nat)
    requires forall row <- p.rows :: WellStated(host, row)
    ensures !LosesAt(host, ports, principal, p, approval, s, n)
  {
    hide StartsRows, Tries;
    if n < |p.rows| {
      assert WellStated(host, p.rows[n]);
    }
  }

  // ----- nothing changes ungranted -----------------------------------------------------------

  lemma {:induction false} UngrantedRunChangesNothing(host: Host, ports: Ports, principal: string, p: Plan, leases: seq<Lease>, s: State, i: nat)
    requires i <= |p.rows| && NoneGranted(RunFrom(host, ports, principal, p, leases, s, i).events)
    ensures RunFrom(host, ports, principal, p, leases, s, i).world == s
    decreases |p.rows| - i
  {
    if i < |p.rows| {
      UngrantedTurn(host, ports, principal, p, leases, s, i);
      var turn := TakeTurn(host, ports, principal, p, leases, s, i);
      hide TakeTurn;
      if turn.Next? {
        var rest := RunFrom(host, ports, principal, p, leases, turn.world, i + 1).events;
        assert forall e :: e in turn.events || e in rest ==> e in turn.events + rest;
        UngrantedRunChangesNothing(host, ports, principal, p, leases, turn.world, i + 1);
      }
    }
  }

  lemma UngrantedTurn(host: Host, ports: Ports, principal: string, p: Plan, leases: seq<Lease>, s: State, i: nat)
    requires i < |p.rows|
    ensures var turn := TakeTurn(host, ports, principal, p, leases, s, i);
            && (turn.Halt? && NoneGranted(turn.run.events) ==> turn.run.world == s)
            && (turn.Next? && NoneGranted(turn.events) ==> turn.world == s)
  {
    hide MayRun, Perform;
    var turn := TakeTurn(host, ports, principal, p, leases, s, i);
    if turn.Halt? && turn.run.events != [] {
      assert turn.run.events[0] in turn.run.events;
    }
    if turn.Next? && turn.events != [] {
      assert turn.events[0] in turn.events;
    }
  }

  /** The world changes only in a call that let some row through; and whatever it lets
      through is gated. */
  lemma ChangesAreGranted(host: Host, ports: Ports, principal: string, p: Plan, approval: string, s: State)
    ensures var o := ApplyPlan(host, ports, principal, p, approval, s);
            o.world != s ==> exists k :: 0 <= k < |o.journal| && o.journal[k].Granted?
  {
    var o := ApplyPlan(host, ports, principal, p, approval, s);
    if !(Runs(p) && ports.ready && !ports.cancelled && Holds(host, ports, p, approval, s)) {
      NotHeld(host, ports, principal, p, approval, s);
    } else {
      TwoWays(host, ports, principal, p, approval, s);
      hide ApplyPlan, WhileHeld, ObserveFrom, GateOpen;
      if o.world != s {
        HeldChangesAreGranted(host, ports, principal, p.(checkpoint := ports.checkpoint.value), ports.leases.value, ports.checkpoint.value, s);
        var e :| e in o.journal && e.Granted?;
        var k :| 0 <= k < |o.journal| && o.journal[k] == e;
      }
    }
  }

  lemma HeldChangesAreGranted(host: Host, ports: Ports, principal: string, p: Plan, leases: seq<Lease>, ck: string, s: State)
    ensures var o := WhileHeld(host, ports, principal, p, leases, ck, s); o.world != s ==> !NoneGranted(o.journal)
  {
    hide ClearFrom, RunFrom;
    var run := RunFrom(host, ports, principal, p, leases, s, 0);
    if NoneGranted(run.events) {
      UngrantedRunChangesNothing(host, ports, principal, p, leases, s, 0);
    } else {
      var e :| e in run.events && e.Granted?;
      assert ClearFrom(host, ports, principal, p, leases, s, 0).error.None? ==> e in WhileHeld(host, ports, principal, p, leases, ck, s).journal;
    }
  }

  // ----- results that are neither applied nor partial ------------------------------------------

  predicate Unfinished(o: Outcome) {
    o.result.None? || !(o.result.value.plan.status.Applied? || o.result.value.plan.status.PartiallyApplied?)
  }

  /** Row 0 is a destroy of a present file that states something other than absence. */
  predicate FirstRowMisstated(host: Host, ports: Ports, p: Plan, s: State) {
    && p.rows != [] && p.rows[0].key !in s.applied
    && MisstatedDestroy(host, s.files, p.rows[0], ports.faults(0))
  }

  /** Row 0 is allowed to run. */
  predicate FirstRowMayRun(ports: Ports, principal: string, p: Plan, leases: seq<Lease>) {
    p.rows != [] && !ports.cancelledAt(0) && MayRun(ports.executing(0), principal, p, p.rows[0], leases)
  }

  /** A run that records nothing changed the files exactly when row 0 was allowed to run
      and is misstated; and such a run records nothing. */
  lemma RunUnfinished(host: Host, ports: Ports, principal: string, p: Plan, leases: seq<Lease>, s: State)
    ensures var run := RunFrom(host, ports, principal, p, leases, s, 0);
            && (run.applied == [] ==> run.world.applied == s.applied)
            && var lost := FirstRowMisstated(host, ports, p, s) && FirstRowMayRun(ports, principal, p, leases);
               && (run.applied == [] ==> run.world.files == if lost then s.files - {p.rows[0].target} else s.files)
               && (lost ==> run.error.Some? && run.applied == [])
  {
    if p.rows != [] {
      FirstTurnUnfinished(host, ports, principal, p, leases, s);
      var turn := TakeTurn(host, ports, principal, p, leases, s, 0);
      hide TakeTurn, FirstRowMisstated, FirstRowMayRun;
      if turn.Next? {
        var rest := RunFrom(host, ports, principal, p, leases, turn.world, 1);
        assert |PrependRun(turn.entry, turn.events, rest).applied| > 0;
      }
    }
  }

  lemma FirstTurnUnfinished(host: Host, ports: Ports, principal: string, p: Plan, leases: seq<Lease>, s: State)
    requires p.rows != []
    ensures var turn := TakeTurn(host, ports, principal, p, leases, s, 0);
            && (turn.Halt? && |turn.run.applied| == 0 ==> turn.run.world.applied == s.applied && turn.run.error.Some?)
            && var lost := FirstRowMisstated(host, ports, p, s) && FirstRowMayRun(ports, principal, p, leases);
               && (turn.Halt? && |turn.run.applied| == 0 ==> turn.run.world.files == if lost then s.files - {p.rows[0].target} else s.files)
               && (lost ==> turn.Halt? && |turn.run.applied| == 0)
  {
    hide MayRun, Perform, MisstatedDestroy;
    var row := p.rows[0];
    if row.key !in s.applied {
      PerformUnfinished(host, ports, s, row, 0);
      PerformKeeps(host, ports, s, row, 0);
      if ports.cancelledAt(0) || !MayRun(ports.executing(0), principal, p, row, leases) {
        assert TakeTurn(host, ports, principal, p, leases, s, 0).run.world == s;
      } else {
        var (s', landing) := Perform(host, ports, s, row, 0);
        var turn := TakeTurn(host, ports, principal, p, leases, s, 0);
        if landing.Failed? {
          assert turn == Halt(Run(s', [], [Granted(0, ports.executing(0))], Some(RowFailed(0, landing.error))));
        } else {
          assert turn.Halt? ==> |turn.run.applied| == 1;
        }
      }
    }
  }

  lemma PerformUnfinished(host: Host, ports: Ports, s: State, row: Row, i: nat)
    requires row.key !in s.applied
    ensures var (s', landing) := Perform(host, ports, s, row, i);
            var lost := MisstatedDestroy(host, s.files, row, ports.faults(i));
            && (landing.Failed? ==> s'.files == if lost then s.files - {row.target} else s.files)
            && (lost ==> landing.Failed?)
  {
    hide Materialize;
    FailureLeavesFiles(host, s.files, row, ports.faults(i));
    if ApplyRow(host, s.files, row, ports.faults(i)).1.Landed? {
      LandingIsExact(host, s.files, row, ports.faults(i));
    }
  }

  lemma HeldUnfinished(host: Host, ports: Ports, principal: string, p: Plan, leases: seq<Lease>, ck: string, s: State)
    requires Runs(p)
    ensures var o := WhileHeld(host, ports, principal, p, leases, ck, s);
            && (Unfinished(o) ==> o.world.applied == s.applied)
            && var lost := && FirstRowMisstated(host, ports, p, s) && FirstRowMayRun(ports, principal, p, leases)
                           && ClearFrom(host, ports, principal, p, leases, s, 0).error.None?;
               && (Unfinished(o) ==> o.world.files == if lost then s.files - {p.rows[0].target} else s.files)
               && (lost ==> Unfinished(o))
  {
    hide ClearFrom, RunFrom, FirstRowMisstated, FirstRowMayRun;
    if ClearFrom(host, ports, principal, p, leases, s, 0).error.None? {
      RunUnfinished(host, ports, principal, p, leases, s);
      var run := RunFrom(host, ports, principal, p, leases, s, 0);
      assert Unfinished(Finish(p, ck, ports, run)) <==> run.error.Some? && |run.applied| == 0;
    }
  }

  lemma SameFirstRow(host: Host, ports: Ports, p: Plan, ck: string, s: State)
    ensures FirstRowMisstated(host, ports, p, s) == FirstRowMisstated(host, ports, p.(checkpoint := ck), s)
  {
  }

  /** The call reaches row 0 and may run it: every gate before it is open. */
  predicate ReachesFirstRow(host: Host, ports: Ports, principal: string, p: Plan, approval: string, s: State) {
    && StartsRows(host, ports, principal, p, approval, s)
    && FirstRowMayRun(ports, principal, p.(checkpoint := ports.checkpoint.value), ports.leases.value)
  }

  /** A call that ends neither applied nor partial left every file alone, except exactly when
      its gates are open and its first row is a misstated destroy; then that file is gone. */
  lemma UnfinishedLeavesFiles(host: Host, ports: Ports, principal: string, p: Plan, approval: string, s: State)
    ensures var o := ApplyPlan(host, ports, principal, p, approval, s);
            && (Unfinished(o) ==> o.world.applied == s.applied)
            && var lost := ReachesFirstRow(host, ports, principal, p, approval, s) && FirstRowMisstated(host, ports, p, s);
               && (Unfinished(o) ==> o.world.files == if lost then s.files - {p.rows[0].target} else s.files)
               && (lost ==> Unfinished(o) && p.rows[0].target in s.files)
  {
    assert FirstRowMisstated(host, ports, p, s) ==> p.rows[0].target in s.files;
    hide ApplyPlan, WhileHeld, FirstRowMisstated, FirstRowMayRun, GateOpen, ObserveFrom, ClearFrom, Boundary;
    if !Runs(p) {
      NotHeld(host, ports, principal, p, approval, s);
    } else {
      TwoWays(host, ports, principal, p, approval, s);
      if ports.ready && !ports.cancelled && Holds(host, ports, p, approval, s) {
        HeldUnfinished(host, ports, principal, p.(checkpoint := ports.checkpoint.value), ports.leases.value, ports.checkpoint.value, s);
        SameFirstRow(host, ports, p, ports.checkpoint.value, s);
      }
    }
  }

  // ----- what a caller can check beforehand ----------------------------------------------------

  /** Some call may get through its gates on these files: nothing about the plan, the files
      or what landed before stands in the way. */
  predicate Applicable(host: Host, p: Plan, s: State) {
    && Runs(p) && p.hash == HashOf(p, host.H) && p.hash != "" && p.expiresAt != Zero
    && forall row <- p.rows :: row.key !in s.applied ==>
         && (row.op == OP_MEMORY || Digest(host, s.files, row.target) == row.precondition)
         && ScanFrom(row.target, 1, row.payload, host.detectors) == []
  }

  /** Row 0 has not landed and is a destroy of a present file that states something other
      than absence. */
  predicate MisstatedFirst(host: Host, p: Plan, s: State) {
    p.rows != [] && p.rows[0].key !in s.applied && MisstatedDestroy(host, s.files, p.rows[0], NoFault)
  }

  const OPERATOR: string := "operator"

  function AllKinds(rows: seq<Row>): set<string> { set row <- rows :: row.op }

  /** A lease for every row, good until the plan expires. */
  function LeasePerRow(p: Plan): seq<Lease> {
    seq(|p.rows|, i requires 0 <= i < |p.rows| => Lease(p.rows[i].lease, p.scope, OPERATOR, AllKinds(p.rows), p.expiresAt))
  }

  /** Ports that never fail, before any expiry. */
  function WellPorts(leases: seq<Lease>): Ports {
    Ports(true, false, true, Zero, (i: nat) => Zero, (i: nat) => Zero,
          (i: nat) => NoFault, Some("checkpoint"), Some(leases),
          (i: nat) => false, (i: nat) => NoFault, (i: nat) => Some(""), (i: nat) => true, true, true, (e: ApplyError) => "")
  }

  lemma {:induction false} FirstOfEqual(leases: seq<Lease>, id: string, l: Lease)
    requires l in leases && l.id == id && forall x <- leases :: x.id == id ==> x == l
    ensures LeaseById(leases, id) == Some(l)
  {
    if leases[0].id != id {
      FirstOfEqual(leases[1..], id, l);
    }
  }

  lemma EveryRowMayRun(p: Plan, saved: Plan, i: nat)
    requires i < |p.rows| && p.expiresAt != Zero && saved.rows == p.rows && saved.scope == p.scope && saved.expiresAt == p.expiresAt
    ensures MayRun(Zero, OPERATOR, saved, saved.rows[i], LeasePerRow(p))
  {
    var leases, row := LeasePerRow(p), p.rows[i];
    var l := leases[i];
    FirstOfEqual(leases, row.lease, l);
    RowsAreEffects(saved, i);
    assert row in p.rows;
    assert Grants(l, Zero, OPERATOR, PolicyEffect(row, p.scope)) && l in [l];
  }

  lemma {:induction false} ClearsEveryRow(host: Host, ports: Ports, p: Plan, saved: Plan, s: State, i: nat)
    requires Applicable(host, p, s) && saved == p.(checkpoint := "checkpoint") && ports == WellPorts(LeasePerRow(p)) && i <= |p.rows|
    ensures ClearFrom(host, ports, OPERATOR, saved, LeasePerRow(p), s, i).error.None?
    decreases |p.rows| - i
  {
    if i < |p.rows| {
      assert p.rows[i] in p.rows;
      EveryRowMayRun(p, saved, i);
      hide MayRun, ScanFrom, Digest, HashOf;
      ClearsEveryRow(host, ports, p, saved, s, i + 1);
    }
  }

  /** For an applicable plan there are ports with which the call reaches row 0. */
  lemma SomeCallReachesFirstRow(host: Host, p: Plan, s: State)
    requires Applicable(host, p, s) && p.rows != []
    ensures ReachesFirstRow(host, WellPorts(LeasePerRow(p)), OPERATOR, p, p.hash, s)
  {
    var ports, saved := WellPorts(LeasePerRow(p)), p.(checkpoint := "checkpoint");
    ObservesIff(host, ports, p.rows, s, 0);
    ClearsEveryRow(host, ports, p, saved, s, 0);
    EveryRowMayRun(p, saved, 0);
    hide ObserveFrom, ClearFrom, MayRun, ScanFrom, HashOf, Digest;
    forall j | 0 <= j < |p.rows| ensures Undrifted(host, ports, p.rows[j], s, j) {
      assert p.rows[j] in p.rows;
    }
  }

  /** No call on this plan and these files, whoever makes it and whatever the ports do,
      ends unfinished with a file changed. */
  ghost predicate FilesAreSafe(host: Host, p: Plan, s: State) {
    forall ports, principal, approval ::
      Unfinished(ApplyPlan(host, ports, principal, p, approval, s)) ==>
        ApplyPlan(host, ports, principal, p, approval, s).world.files == s.files
  }

  /** And that is so exactly when the plan is not applicable or its first row is no
      misstated destroy: both can be read off the plan and the files. */
  lemma FilesAreSafeIff(host: Host, p: Plan, s: State)
    ensures FilesAreSafe(host, p, s) <==> !(Applicable(host, p, s) && MisstatedFirst(host, p, s))
  {
    hide ApplyPlan, Unfinished, ReachesFirstRow, Applicable, MisstatedDestroy;
    if Applicable(host, p, s) && MisstatedFirst(host, p, s) {
      var ports := WellPorts(LeasePerRow(p));
      SomeCallReachesFirstRow(host, p, s);
      UnfinishedLeavesFiles(host, ports, OPERATOR, p, p.hash, s);
    } else {
      forall ports, principal, approval | Unfinished(ApplyPlan(host, ports, principal, p, approval, s))
        ensures ApplyPlan(host, ports, principal, p, approval, s).world.files == s.files
      {
        UnfinishedLeavesFiles(host, ports, principal, p, approval, s);
        if ReachesFirstRow(host, ports, principal, p, approval, s) && FirstRowMisstated(host, ports, p, s) {
          ReachedIsApplicable(host, ports, principal, p, approval, s);
          NoFaultToo(host, s.files, p.rows[0], ports.faults(0));
        }
      }
    }
  }

  lemma NoFaultToo(host: Host, files: Files, row: Row, fault: Fault)
    ensures MisstatedDestroy(host, files, row, fault) ==> MisstatedDestroy(host, files, row, NoFault)
  {
  }

  lemma {:induction false} ClearedAreClean(host: Host, ports: Ports, principal: string, p: Plan, leases: seq<Lease>, s: State, i: nat)
    requires i <= |p.rows| && ClearFrom(host, ports, principal, p, leases, s, i).error.None?
    ensures forall j :: i <= j < |p.rows| && p.rows[j].key !in s.applied ==> ScanFrom(p.rows[j].target, 1, p.rows[j].payload, host.detectors) == []
    decreases |p.rows| - i
  {
    hide MayRun, ScanFrom;
    if i < |p.rows| {
      ClearedAreClean(host, ports, principal, p, leases, s, i + 1);
    }
  }

  lemma ReachedIsApplicable(host: Host, ports: Ports, principal: string, p: Plan, approval: string, s: State)
    requires ReachesFirstRow(host, ports, principal, p, approval, s)
    ensures Applicable(host, p, s)
  {
    hide ClearFrom, ObserveFrom, MayRun, ScanFrom, HashOf, Digest;
    ObservesIff(host, ports, p.rows, s, 0);
    var saved := p.(checkpoint := ports.checkpoint.value);
    ClearedAreClean(host, ports, principal, saved, ports.leases.value, s, 0);
    forall row | row in p.rows && row.key !in s.applied
      ensures (row.op == OP_MEMORY || Digest(host, s.files, row.target) == row.precondition) && ScanFrom(row.target, 1, row.payload, host.detectors) == []
    {
      var j :| 0 <= j < |p.rows| && p.rows[j] == row;
      assert Undrifted(host, ports, p.rows[j], s, j) && saved.rows[j] == row;
    }
  }

  /** A one-row plan whose destroy states the postcondition "kept". */
  function MisstatedPlan(host: Host): Plan {
    var row := Row(OP_DESTROY, "f", "gone", "lease", host.H("data"), "key", "kept", "");
    var p := Plan("p", "s", "", Status.Approved, "summary", "", At(2), 0, "scope", [], [row], None, "", 0, "", At(0), At(0));
    p.(hash := HashOf(p, host.H))
  }

  /** The case is real, whatever the detectors are, unless one of them hits the word
      "gone": with every port in order the plan ends neither applied nor partial, and its
      file is gone. */
  lemma MisstatedDestroyLosesFile(host: Host)
    requires ScanFrom("f", 1, "gone", host.detectors) == [] && host.H("") != "kept" && MisstatedPlan(host).hash != ""
    ensures var p, s := MisstatedPlan(host), State(map["f" := "data"], map[], []);
            var o := ApplyPlan(host, WellPorts(LeasePerRow(p)), OPERATOR, p, p.hash, s);
            Unfinished(o) && "f" !in o.world.files
    ensures !FilesAreSafe(host, MisstatedPlan(host), State(map["f" := "data"], map[], []))
  {
    var p, s := MisstatedPlan(host), State(map["f" := "data"], map[], []);
    HashIgnoresLifecycle(p, p.(hash := ""), host.H);
    hide Encode, ApplyPlan, ScanFrom, ReachesFirstRow, FilesAreSafe;
    assert Applicable(host, p, s) && MisstatedFirst(host, p, s);
    SomeCallReachesFirstRow(host, p, s);
    UnfinishedLeavesFiles(host, WellPorts(LeasePerRow(p)), OPERATOR, p, p.hash, s);
    FilesAreSafeIff(host, p, s);
  }

  // ----- at most one landing per key -------------------------------------------------------------

  /** The keys of the file rows that a journal says were executed. */
  function LandedKeys(rows: seq<Row>, journal: seq<Event>): seq<string>
    decreases |journal|
  {
    if journal == [] then []
    else if journal[0].Executed? && journal[0].index < |rows| then [rows[journal[0].index].key] + LandedKeys(rows, journal[1..])
    else LandedKeys(rows, journal[1..])
  }

  lemma {:induction false} LandedConcat(rows: seq<Row>, a: seq<Event>, b: seq<Event>)
    ensures LandedKeys(rows, a + b) == LandedKeys(rows, a) + LandedKeys(rows, b)
    decreases |a|
  {
    if a == [] {
      assert [] + b == b;
    } else {
      assert (a + b)[0] == a[0] && (a + b)[1..] == a[1..] + b;
      LandedConcat(rows, a[1..], b);
    }
  }

  predicate NoExecuted(journal: seq<Event>) { forall e <- journal :: !e.Executed? }

  lemma {:induction false} NothingLanded(rows: seq<Row>, journal: seq<Event>)
    requires NoExecuted(journal)
    ensures LandedKeys(rows, journal) == []
    decreases |journal|
  {
    if journal != [] {
      NothingLanded(rows, journal[1..]);
    }
  }

  /** The keys landed once each, none of them before, and nothing else became seen. */
  ghost predicate LandedOnce(keys: seq<string>, before: set<string>, later: set<string>) {
    && (forall j, k :: 0 <= j < k < |keys| ==> keys[j] != keys[k])
    && (forall key <- keys :: key !in before)
    && later == before + (set key <- keys)
  }

  lemma LandedInTurn(first: seq<string>, rest: seq<string>, a: set<string>, b: set<string>, c: set<string>)
    requires LandedOnce(first, a, b) && LandedOnce(rest, b, c)
    ensures LandedOnce(first + rest, a, c)
  {
    var keys := first + rest;
    forall j, k | 0 <= j < k < |keys| ensures keys[j] != keys[k] {
      if j < |first| <= k {
        assert keys[j] in first && keys[k] in rest;
      }
    }
    assert forall key :: key in keys <==> key in first || key in rest;
  }

  lemma NoneLandedOnce(a: set<string>)
    ensures LandedOnce([], a, a)
  {
  }

  lemma TurnLands(host: Host, ports: Ports, principal: string, p: Plan, leases: seq<Lease>, s: State, i: nat)
    requires i < |p.rows|
    ensures var turn := TakeTurn(host, ports, principal, p, leases, s, i);
            && (turn.Halt? ==> LandedOnce(LandedKeys(p.rows, turn.run.events), s.applied.Keys, turn.run.world.applied.Keys))
            && (turn.Next? ==> LandedOnce(LandedKeys(p.rows, turn.events), s.applied.Keys, turn.world.applied.Keys))
  {
    hide MayRun, Perform;
    var row := p.rows[i];
    NoneLandedOnce(s.applied.Keys);
    NothingLanded(p.rows, []);
    if row.key !in s.applied {
      PerformKeeps(host, ports, s, row, i);
      TurnEvents(p.rows, i, ports.executing(i));
      OneLandedOnce(row.key, s.applied.Keys);
      hide LandedOnce, LandedKeys;
      var turn := TakeTurn(host, ports, principal, p, leases, s, i);
      if ports.cancelledAt(i) || !MayRun(ports.executing(i), principal, p, row, leases) {
        assert turn == Halt(Run(s, [], [], turn.run.error));
      } else {
        var (s', landing) := Perform(host, ports, s, row, i);
        if landing.Failed? {
          assert turn == Halt(Run(s', [], [Granted(i, ports.executing(i))], turn.run.error));
        } else if !ports.signsRow(i) {
          assert turn.run.world == s';
        }
      }
    }
  }

  lemma OneLandedOnce(key: string, a: set<string>)
    requires key !in a
    ensures LandedOnce([key], a, a + {key})
  {
  }

  lemma TurnEvents(rows: seq<Row>, i: nat, at: Time)
    requires i < |rows|
    ensures var granted, done := Granted(i, at), Done(rows[i], i);
            && LandedKeys(rows, [granted]) == []
            && LandedKeys(rows, [granted, done]) == LandedKeys(rows, [granted, done, RowSigned(i)])
               == if rows[i].op == OP_MEMORY then [] else [rows[i].key]
  {
    var granted, done, signed := Granted(i, at), Done(rows[i], i), RowSigned(i);
    LandedOne(rows, granted);
    LandedOne(rows, done);
    LandedOne(rows, signed);
    hide LandedKeys;
    LandedConcat(rows, [granted], [done]);
    LandedConcat(rows, [granted, done], [signed]);
    assert [granted] + [done] == [granted, done] && [granted, done] + [signed] == [granted, done, signed];
  }

  lemma LandedOne(rows: seq<Row>, e: Event)
    ensures LandedKeys(rows, [e]) == if e.Executed? && e.index < |rows| then [rows[e.index].key] else []
  {
    assert [e][1..] == [];
  }

  lemma {:induction false} RunLands(host: Host, ports: Ports, principal: string, p: Plan, leases: seq<Lease>, s: State, i: nat)
    requires i <= |p.rows|
    ensures var run := RunFrom(host, ports, principal, p, leases, s, i);
            LandedOnce(LandedKeys(p.rows, run.events), s.applied.Keys, run.world.applied.Keys)
    decreases |p.rows| - i
  {
    hide TakeTurn, LandedOnce, LandedKeys;
    if i < |p.rows| {
      TurnLands(host, ports, principal, p, leases, s, i);
      match TakeTurn(host, ports, principal, p, leases, s, i)
      case Halt(_) =>
      case Next(s', _, events) =>
        RunLands(host, ports, principal, p, leases, s', i + 1);
        var rest := RunFrom(host, ports, principal, p, leases, s', i + 1);
        LandedConcat(p.rows, events, rest.events);
        LandedInTurn(LandedKeys(p.rows, events), LandedKeys(p.rows, rest.events), s.applied.Keys, s'.applied.Keys, rest.world.applied.Keys);
    } else {
      NothingLanded(p.rows, []);
      NoneLandedOnce(s.applied.Keys);
    }
  }

  lemma {:induction false} ObservingExecutesNothing(host: Host, ports: Ports, rows: seq<Row>, s: State, i: nat)
    requires i <= |rows|
    ensures NoExecuted(ObserveFrom(host, ports, rows, s, i).events)
    decreases |rows| - i
  {
    if i < |rows| {
      hide Digest;
      ObservingExecutesNothing(host, ports, rows, s, i + 1);
    }
  }

  lemma {:induction false} ClearingExecutesNothing(host: Host, ports: Ports, principal: string, p: Plan, leases: seq<Lease>, s: State, i: nat)
    requires i <= |p.rows|
    ensures NoExecuted(ClearFrom(host, ports, principal, p, leases, s, i).events)
    decreases |p.rows| - i
  {
    if i < |p.rows| {
      hide MayRun, ScanFrom;
      ClearingExecutesNothing(host, ports, principal, p, leases, s, i + 1);
    }
  }

  lemma OpeningExecutesNothing(host: Host, ports: Ports, rows: seq<Row>, s: State)
    ensures var observed := ObserveFrom(host, ports, rows, s, 0).events;
            && NoExecuted([]) && NoExecuted(observed) && NoExecuted(observed + [Checkpointed])
            && NoExecuted(observed + [Checkpointed] + [LeasesHeld]) && NoExecuted([LeasesReleased])
  {
    ObservingExecutesNothing(host, ports, rows, s, 0);
    hide ObserveFrom;
  }

  /** Events around the run land nothing. */
  lemma LandedInside(rows: seq<Row>, before: seq<Event>, events: seq<Event>, later: seq<Event>)
    requires NoExecuted(before) && NoExecuted(later)
    ensures LandedKeys(rows, before + events + later) == LandedKeys(rows, events)
  {
    NothingLanded(rows, before);
    NothingLanded(rows, later);
    hide LandedKeys;
    LandedConcat(rows, before, events);
    LandedConcat(rows, before + events, later);
  }

  lemma FinishAddsNothing(p: Plan, ck: string, ports: Ports, run: Run)
    ensures var o := Finish(p, ck, ports, run);
            o.world == run.world && exists signed :: NoExecuted(signed) && o.journal == run.events + signed
  {
    var o := Finish(p, ck, ports, run);
    var signed := o.journal[|run.events|..];
    assert NoExecuted(signed) && o.journal == run.events + signed;
  }

  lemma HeldLands(host: Host, ports: Ports, principal: string, p: Plan, leases: seq<Lease>, ck: string, s: State)
    ensures var o := WhileHeld(host, ports, principal, p, leases, ck, s);
            LandedOnce(LandedKeys(p.rows, o.journal), s.applied.Keys, o.world.applied.Keys)
  {
    ClearingExecutesNothing(host, ports, principal, p, leases, s, 0);
    hide ClearFrom, RunFrom, Finish, LandedOnce, LandedKeys, NoExecuted;
    var cleared := ClearFrom(host, ports, principal, p, leases, s, 0);
    if cleared.error.Some? {
      NothingLanded(p.rows, cleared.events);
      NoneLandedOnce(s.applied.Keys);
    } else {
      RunLands(host, ports, principal, p, leases, s, 0);
      FinishLands(p, ck, ports, RunFrom(host, ports, principal, p, leases, s, 0), cleared.events);
    }
  }

  lemma FinishLands(p: Plan, ck: string, ports: Ports, run: Run, cleared: seq<Event>)
    requires NoExecuted(cleared)
    ensures LandedKeys(p.rows, cleared + Finish(p, ck, ports, run).journal) == LandedKeys(p.rows, run.events)
  {
    hide Finish, LandedKeys, NoExecuted;
    FinishAddsNothing(p, ck, ports, run);
    var signed :| NoExecuted(signed) && Finish(p, ck, ports, run).journal == run.events + signed;
    LandedInside(p.rows, cleared, run.events, signed);
    assert cleared + (run.events + signed) == cleared + run.events + signed;
  }

  /** A call that never holds leases changes nothing and executes nothing. */
  lemma NotHeld(host: Host, ports: Ports, principal: string, p: Plan, approval: string, s: State)
    requires !(Runs(p) && ports.ready && !ports.cancelled && Holds(host, ports, p, approval, s))
    ensures var o := ApplyPlan(host, ports, principal, p, approval, s); o.world == s && NoExecuted(o.journal)
  {
    OpeningExecutesNothing(host, ports, p.rows, s);
    hide ObserveFrom, WhileHeld, Encode, Marked, NoExecuted;
  }

  lemma IsHeld(host: Host, ports: Ports, principal: string, p: Plan, approval: string, s: State)
    requires Runs(p) && ports.ready && !ports.cancelled && Holds(host, ports, p, approval, s)
    ensures var o, held := ApplyPlan(host, ports, principal, p, approval, s), Held(host, ports, principal, p, s);
            && o.world == held.world
            && o.journal == ObserveFrom(host, ports, p.rows, s, 0).events + [Checkpointed] + [LeasesHeld] + held.journal + [LeasesReleased]
  {
    hide ObserveFrom, WhileHeld, Encode, Marked;
  }

  /** In one call, whatever happens, no key lands twice and none that had landed lands again. */
  lemma CallLandsOnce(host: Host, ports: Ports, principal: string, p: Plan, approval: string, s: State)
    ensures var o := ApplyPlan(host, ports, principal, p, approval, s);
            LandedOnce(LandedKeys(p.rows, o.journal), s.applied.Keys, o.world.applied.Keys)
  {
    if Runs(p) && ports.ready && !ports.cancelled && Holds(host, ports, p, approval, s) {
      IsHeld(host, ports, principal, p, approval, s);
      OpeningExecutesNothing(host, ports, p.rows, s);
      var observed := ObserveFrom(host, ports, p.rows, s, 0).events;
      hide NoExecuted, ObserveFrom, WhileHeld, ApplyPlan, LandedOnce, LandedKeys;
      HeldLands(host, ports, principal, p.(checkpoint := ports.checkpoint.value), ports.leases.value, ports.checkpoint.value, s);
      LandedInside(p.rows, observed + [Checkpointed] + [LeasesHeld], Held(host, ports, principal, p, s).journal, [LeasesReleased]);
    } else {
      NotHeld(host, ports, principal, p, approval, s);
      NothingLanded(p.rows, ApplyPlan(host, ports, principal, p, approval, s).journal);
      NoneLandedOnce(s.applied.Keys);
    }
  }

  // ----- many calls that share one world ------------------------------------------------------------

  datatype Request = Request(ports: Ports, principal: string, plan: Plan, approval: string)

  /** The requests in order on one world, and the keys that landed, in order. */
  function ApplyAll(host: Host, requests: seq<Request>, s: State): (State, seq<string>) {
    if requests == [] then (s, [])
    else
      var r := requests[0];
      var o := ApplyPlan(host, r.ports, r.principal, r.plan, r.approval, s);
      var (s', keys) := ApplyAll(host, requests[1..], o.world);
      (s', LandedKeys(r.plan.rows, o.journal) + keys)
  }

  /** Over any number of calls no file row's key lands twice. */
  lemma {:induction false} NoKeyLandsTwice(host: Host, requests: seq<Request>, s: State)
    ensures var (s', keys) := ApplyAll(host, requests, s); LandedOnce(keys, s.applied.Keys, s'.applied.Keys)
  {
    hide ApplyPlan, LandedOnce, LandedKeys;
    if requests == [] {
      NoneLandedOnce(s.applied.Keys);
    } else {
      var r := requests[0];
      var o := ApplyPlan(host, r.ports, r.principal, r.plan, r.approval, s);
      CallLandsOnce(host, r.ports, r.principal, r.plan, r.approval, s);
      NoKeyLandsTwice(host, requests[1..], o.world);
      var (s', keys) := ApplyAll(host, requests[1..], o.world);
      LandedInTurn(LandedKeys(r.plan.rows, o.journal), keys, s.applied.Keys, o.world.applied.Keys, s'.applied.Keys);
    }
  }

  // ----- memory proposals ---------------------------------------------------------------------------

  lemma {:induction false} LandedAreFiles(c: Call, ph: Phase, journal: seq<Event>)
    requires Replay(c, ph, journal).Some?
    ensures forall key <- LandedKeys(c.plan.rows, journal) :: exists row <- c.plan.rows :: row.key == key && row.op != OP_MEMORY
    decreases |journal|
  {
    if journal != [] {
      var e := journal[0];
      LandedAreFiles(c, Advance(ph, e), journal[1..]);
      if e.Executed? {
        assert c.plan.rows[e.index] in c.plan.rows;
      }
    }
  }

  /** No row with this key is a file row. */
  predicate MemoryKey(rows: seq<Row>, key: string) { forall row <- rows :: row.key == key ==> row.op == OP_MEMORY }

  /** Memory rows bypass the world: over any number of calls their keys never become
      seen, so nothing here keeps a second call from proposing again. */
  lemma {:induction false} MemoryStaysUnseen(host: Host, requests: seq<Request>, s: State, key: string)
    requires key !in s.applied && forall r <- requests :: MemoryKey(r.plan.rows, key)
    ensures key !in ApplyAll(host, requests, s).0.applied
  {
    if requests != [] {
      hide ApplyPlan, LandedKeys, Replay;
      var r := requests[0];
      var o := ApplyPlan(host, r.ports, r.principal, r.plan, r.approval, s);
      CallLandsOnce(host, r.ports, r.principal, r.plan, r.approval, s);
      JournalIsLawful(host, r.ports, r.principal, r.plan, r.approval, s);
      LandedAreFiles(CallOf(host, r.ports, r.principal, r.plan, s), START, o.journal);
      assert MemoryKey(r.plan.rows, key);
      MemoryStaysUnseen(host, requests[1..], o.world, key);
    }
  }

  /** A plan of one memory row can be applied on these files. */
  predicate OneProposal(host: Host, p: Plan, s: State) {
    Applicable(host, p, s) && |p.rows| == 1 && p.rows[0].op == OP_MEMORY && p.rows[0].key !in s.applied
  }

  /** Ports in order, with a queue that answers as the row expects. */
  function QueuePorts(p: Plan): Ports
    requires p.rows != []
  {
    WellPorts(LeasePerRow(p)).(propose := (i: nat) => Some(p.rows[0].postcondition))
  }

  lemma ProposalRuns(host: Host, p: Plan, saved: Plan, s: State)
    requires OneProposal(host, p, s) && saved == p.(checkpoint := "checkpoint")
    ensures RunFrom(host, QueuePorts(p), OPERATOR, saved, LeasePerRow(p), s, 0)
            == Run(s, [AppliedRow(p.rows[0].key, 0, p.rows[0].postcondition)], [Granted(0, Zero), Proposed(0), RowSigned(0)], None)
  {
    var ports, leases := QueuePorts(p), LeasePerRow(p);
    var row := p.rows[0];
    EveryRowMayRun(p, saved, 0);
    hide MayRun, LeasePerRow, Applicable;
    assert Perform(host, ports, s, row, 0) == (s, Landed(row.postcondition));
    var entry, events := AppliedRow(row.key, 0, row.postcondition), [Granted(0, Zero), Proposed(0), RowSigned(0)];
    assert TakeTurn(host, ports, OPERATOR, saved, leases, s, 0) == Next(s, entry, events);
    assert RunFrom(host, ports, OPERATOR, saved, leases, s, 1) == Run(s, [], [], None);
    assert [entry] + [] == [entry] && events + [] == events;
  }

  /** One call proposes the row and leaves the world as it was. */
  lemma ProposesAndForgets(host: Host, p: Plan, s: State)
    requires OneProposal(host, p, s)
    ensures var o := ApplyPlan(host, QueuePorts(p), OPERATOR, p, p.hash, s);
            Proposed(0) in o.journal && o.world == s
  {
    var ports, saved := QueuePorts(p), p.(checkpoint := "checkpoint");
    ObservesIff(host, ports, p.rows, s, 0);
    ObservedAll(host, ports, p, s);
    ProposalClears(host, p, saved, s);
    ProposalRuns(host, p, saved, s);
    assert Holds(host, ports, p, p.hash, s);
    hide ObserveFrom, ClearFrom, RunFrom, HashOf, GateOpen, ApplyPlan, QueuePorts, Applicable, LeasePerRow, WellPorts;
    IsHeld(host, ports, OPERATOR, p, p.hash, s);
    HeldProposes(host, ports, saved, LeasePerRow(p), s);
  }

  lemma HeldProposes(host: Host, ports: Ports, p: Plan, leases: seq<Lease>, s: State)
    requires ClearFrom(host, ports, OPERATOR, p, leases, s, 0).error.None?
    requires var run := RunFrom(host, ports, OPERATOR, p, leases, s, 0); run.world == s && Proposed(0) in run.events
    ensures var o := WhileHeld(host, ports, OPERATOR, p, leases, "checkpoint", s); o.world == s && Proposed(0) in o.journal
  {
    hide ClearFrom, RunFrom;
  }

  lemma ObservedAll(host: Host, ports: Ports, p: Plan, s: State)
    requires Applicable(host, p, s) && ports.memory && forall i: nat :: ports.observing(i).NoFault?
    ensures forall j :: 0 <= j < |p.rows| ==> Undrifted(host, ports, p.rows[j], s, j)
  {
    hide Digest, ScanFrom, HashOf;
    forall j | 0 <= j < |p.rows| ensures Undrifted(host, ports, p.rows[j], s, j) {
      assert p.rows[j] in p.rows;
    }
  }

  lemma ProposalClears(host: Host, p: Plan, saved: Plan, s: State)
    requires OneProposal(host, p, s) && saved == p.(checkpoint := "checkpoint")
    ensures ClearFrom(host, QueuePorts(p), OPERATOR, saved, LeasePerRow(p), s, 0).error.None?
  {
    assert p.rows[0] in p.rows;
    EveryRowMayRun(p, saved, 0);
    hide MayRun, ScanFrom, Digest, HashOf, LeasePerRow;
    assert ClearFrom(host, QueuePorts(p), OPERATOR, saved, LeasePerRow(p), s, 1) == Sweep([], None);
  }

  /** Two calls in a row on one world propose the same memory row twice. */
  lemma ProposedAgain(host: Host, p: Plan, s: State)
    requires OneProposal(host, p, s)
    ensures var first := ApplyPlan(host, QueuePorts(p), OPERATOR, p, p.hash, s);
            var second := ApplyPlan(host, QueuePorts(p), OPERATOR, p, p.hash, first.world);
            Proposed(0) in first.journal && Proposed(0) in second.journal
  {
    hide ApplyPlan, OneProposal;
    ProposesAndForgets(host, p, s);
  }
}
