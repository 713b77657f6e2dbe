/** From draft to files: what was approved is exactly what lands. */
module EndToEnd {
  import opened Text
  import opened Policy
  import opened Payload
  import opened PlanModel
  import opened PlanHash
  import opened SecretScan
  import opened Workspace
  import opened Applier
  import opened ApplySafety
  import opened ApplyOutcome
  import opened Leases
  import B = Builder
  import R = BuiltRows
  import M = ModifyRules

  // ----- what Build promises about its rows -----------------------------------------------

  /** The draft saw these files: the hash and the contents of every target it names. */
  ghost predicate Observes(host: Host, d: B.Draft, files: Files) {
    forall e <- d.effects :: var t := B.NormalizeTarget(e.path);
      B.Lookup(d.observed, t, "") == Digest(host, files, t) && B.Lookup(d.bodies, t, "") == Current(files, t)
  }

  /** The row's precondition and postcondition are those of running it on these files. */
  predicate TrueTo(host: Host, files: Files, row: Row) {
    if row.op == OP_MEMORY then row.postcondition == host.H(row.payload)
    else
      && row.precondition == Digest(host, files, row.target)
      && (row.op == OP_DESTROY ==> row.postcondition == host.H(""))
      && (row.op != OP_DESTROY ==>
            && row.op in {OP_CREATE, OP_MODIFY}
            && var body := Materialize(row.op, Current(files, row.target), row.payload, host.marker);
               body.Bytes? && row.postcondition == host.H(body.text))
  }

  /** Digests are never empty. */
  ghost predicate NeverEmpty(H: string -> string) { forall x :: H(x) != "" }

  lemma MadeRowIsTrue(host: Host, checks: B.Checks, d: B.Draft, files: Files, e: B.Proposed)
    requires NeverEmpty(host.H) && B.RowFrom(host, checks, d, e).Made?
    requires var t := B.NormalizeTarget(e.path);
             B.Lookup(d.observed, t, "") == Digest(host, files, t) && B.Lookup(d.bodies, t, "") == Current(files, t)
    requires e.kind == OP_MODIFY ==> Current(files, B.NormalizeTarget(e.path)) != ""
    ensures TrueTo(host, files, B.RowFrom(host, checks, d, e).value)
  {
    hide ApplyModify, B.ValidTarget, B.NormalizeTarget, TrimSpace;
  }

  /** Within one plan the idempotency keys differ. */
  lemma KeysDiffer(host: Host, checks: B.Checks, d: B.Draft, rows: seq<Row>)
    requires Injective(host.H) && B.Complete(host, checks, d, rows)
    ensures KeysDistinct(rows)
  {
    hide B.EffectKey;
    forall i | 0 <= i < |rows| ensures rows[i].key == host.H(d.sessionId + "\n" + B.RowKey(rows[i])) {
      MadeRowKey(host, checks, d, i);
    }
    forall j, k | 0 <= j < k < |rows| ensures rows[j].key != rows[k].key {
      SameTail(d.sessionId + "\n", B.RowKey(rows[j]), B.RowKey(rows[k]));
    }
  }

  lemma MadeRowKey(host: Host, checks: B.Checks, d: B.Draft, i: nat)
    requires i < |d.effects| && B.MadeRow(host, checks, d, i).Made?
    ensures var row := B.MadeRow(host, checks, d, i).value;
            row.key == host.H(d.sessionId + "\n" + B.RowKey(row)) && row.target == B.NormalizeTarget(d.effects[i].path) && row.op == d.effects[i].kind
  {
    hide B.EffectKey, B.NormalizeTarget, B.Precondition, B.Postcondition, B.ValidTarget, TrimSpace;
  }

  lemma SameTail(prefix: string, a: string, b: string)
    ensures prefix + a == prefix + b ==> a == b
  {
    assert a == (prefix + a)[|prefix|..] && b == (prefix + b)[|prefix|..];
  }

  /** Every destroy that Build makes states absence. */
  lemma BuiltIsWellStated(host: Host, checks: B.Checks, d: B.Draft, rows: seq<Row>)
    requires B.Complete(host, checks, d, rows)
    ensures forall row <- rows :: WellStated(host, row)
  {
    forall i | 0 <= i < |rows| ensures WellStated(host, rows[i]) {
      MadeIsWellStated(host, checks, d, i);
      assert B.MadeRow(host, checks, d, i) == B.Made(rows[i]);
    }
  }

  lemma MadeIsWellStated(host: Host, checks: B.Checks, d: B.Draft, i: nat)
    requires i < |d.effects| && B.MadeRow(host, checks, d, i).Made?
    ensures WellStated(host, B.MadeRow(host, checks, d, i).value)
  {
    hide B.EffectKey, B.NormalizeTarget, B.Precondition, B.ValidTarget, TrimSpace, Materialize;
  }

  lemma {:induction false} NothingToFind(name: string, line: nat, data: string)
    ensures ScanFrom(name, line, data, []) == []
    decreases |data|
  {
    if data != "" {
      var (head, rest, more) := Cut(data, '\n');
      if more {
        NothingToFind(name, line + 1, rest);
      }
    }
  }

  /** So for a plan that Build made, no call that ends neither applied nor partial ever
      changed a file. */
  lemma BuiltPlanLeavesFiles(host: Host, checks: B.Checks, d: B.Draft, q: Plan, s: State)
    requires B.Complete(host, checks, d, q.rows)
    ensures FilesAreSafe(host, q, s)
  {
    hide B.Complete, FilesAreSafe, Applicable;
    BuiltIsWellStated(host, checks, d, q.rows);
    FilesAreSafeIff(host, q, s);
    if q.rows != [] {
      assert WellStated(host, q.rows[0]);
    }
  }

  // ----- a run with nothing in its way --------------------------------------------------------

  predicate TargetsDistinct(rows: seq<Row>) {
    forall j, k :: 0 <= j < k < |rows| ==> rows[j].target != rows[k].target
  }

  /** No port fails, every clock reading is before expiry, and the leases are those the
      plan asks for. */
  ghost predicate Smooth(ports: Ports, p: Plan) {
    && ports.ready && !ports.cancelled && ports.memory && ports.releases && ports.signsPlan
    && Before(ports.start, p.expiresAt)
    && ports.checkpoint.Some? && ports.leases.Some? && LeasesFor(p, p.rows, ports.leases.value)
    && forall i: nat :: i < |p.rows| ==> SmoothRow(ports, p, i)
  }

  predicate SmoothRow(ports: Ports, p: Plan, i: nat)
    requires i < |p.rows|
  {
    && Before(ports.clearing(i), p.expiresAt) && Before(ports.executing(i), p.expiresAt)
    && ports.observing(i).NoFault? && ports.faults(i).NoFault? && !ports.cancelledAt(i) && ports.signsRow(i)
    && ports.propose(i).Some? && PostMatches(p.rows[i], ports.propose(i).value)
  }

  lemma {:induction false} LeaseByIdComplete(leases: seq<Lease>, id: string)
    requires exists l <- leases :: l.id == id
    ensures var named := LeaseById(leases, id); named.Some? && named.value in leases && named.value.id == id
  {
    if leases[0].id != id {
      var l :| l in leases && l.id == id;
      assert l in leases[1..];
      LeaseByIdComplete(leases[1..], id);
    }
  }

  /** The acquired leases authorise every row of the plan until it expires. */
  lemma AcquiredAuthorises(p: Plan, leases: seq<Lease>, i: nat, at: Time)
    requires i < |p.rows| && LeasesFor(p, p.rows, leases) && Before(at, p.expiresAt)
    ensures MayRun(at, APPLY_PRINCIPAL, p, p.rows[i], leases)
  {
    var row := p.rows[i];
    LeaseByIdComplete(leases, row.lease);
    var l := LeaseById(leases, row.lease).value;
    RowsAreEffects(p, i);
    assert Grants(l, at, APPLY_PRINCIPAL, PolicyEffect(row, p.scope));
    assert l in [l];
  }

  /** Row i still finds the files it was drafted on. */
  predicate Untouched(files: Files, now: Files, rows: seq<Row>, i: nat) {
    forall j :: i <= j < |rows| ==>
      && (rows[j].target in now <==> rows[j].target in files)
      && (rows[j].target in files ==> now[rows[j].target] == files[rows[j].target])
  }

  lemma PerformLands(host: Host, ports: Ports, p: Plan, files: Files, s: State, i: nat)
    requires i < |p.rows| && SmoothRow(ports, p, i) && ports.memory && p.rows[i].key !in s.applied
    requires TrueTo(host, files, p.rows[i]) && Untouched(files, s.files, p.rows, i)
    ensures Perform(host, ports, s, p.rows[i], i).1.Landed?
  {
    var row := p.rows[i];
    hide Materialize;
    assert Current(files, row.target) == Current(s.files, row.target);
  }

  lemma StillUntouched(host: Host, files: Files, now: Files, rows: seq<Row>, i: nat)
    requires i < |rows| && TargetsDistinct(rows) && Untouched(files, now, rows, i)
    ensures Untouched(files, Intended(host, now, rows[i]), rows, i + 1)
  {
    hide Materialize;
  }

  lemma {:induction false} RunsThrough(host: Host, ports: Ports, p: Plan, leases: seq<Lease>, files: Files, s: State, i: nat)
    requires i <= |p.rows| && ports.memory && LeasesFor(p, p.rows, leases)
    requires forall j: nat :: j < |p.rows| ==> SmoothRow(ports, p, j)
    requires forall row <- p.rows :: TrueTo(host, files, row)
    requires KeysDistinct(p.rows) && TargetsDistinct(p.rows)
    requires NoneLanded(p.rows, i, s) && Untouched(files, s.files, p.rows, i)
    ensures RunFrom(host, ports, APPLY_PRINCIPAL, p, leases, s, i).error.None?
    decreases |p.rows| - i
  {
    hide TakeTurn, LeasesFor, TrueTo, SmoothRow, Intended, KeysDistinct, TargetsDistinct, Untouched, NoneLanded;
    if i < |p.rows| {
      assert SmoothRow(ports, p, i) && TrueTo(host, files, p.rows[i]);
      SmoothTurn(host, ports, p, leases, files, s, i);
      NextTurn(host, ports, p, leases, s, i);
      hide RunFrom;
      RunsThrough(host, ports, p, leases, files, TakeTurn(host, ports, APPLY_PRINCIPAL, p, leases, s, i).world, i + 1);
    }
  }

  lemma NextTurn(host: Host, ports: Ports, p: Plan, leases: seq<Lease>, s: State, i: nat)
    requires i < |p.rows| && TakeTurn(host, ports, APPLY_PRINCIPAL, p, leases, s, i).Next?
    ensures var turn := TakeTurn(host, ports, APPLY_PRINCIPAL, p, leases, s, i);
            RunFrom(host, ports, APPLY_PRINCIPAL, p, leases, s, i).error == RunFrom(host, ports, APPLY_PRINCIPAL, p, leases, turn.world, i + 1).error
  {
    hide TakeTurn;
  }

  lemma SmoothTurn(host: Host, ports: Ports, p: Plan, leases: seq<Lease>, files: Files, s: State, i: nat)
    requires i < |p.rows| && ports.memory && LeasesFor(p, p.rows, leases)
    requires SmoothRow(ports, p, i) && TrueTo(host, files, p.rows[i])
    requires KeysDistinct(p.rows) && TargetsDistinct(p.rows)
    requires NoneLanded(p.rows, i, s) && Untouched(files, s.files, p.rows, i)
    ensures var turn := TakeTurn(host, ports, APPLY_PRINCIPAL, p, leases, s, i);
            turn.Next? && NoneLanded(p.rows, i + 1, turn.world) && Untouched(files, turn.world.files, p.rows, i + 1)
  {
    assert p.rows[i].key !in s.applied && !ports.cancelledAt(i) && ports.signsRow(i);
    PerformLands(host, ports, p, files, s, i);
    AcquiredAuthorises(p, leases, i, ports.executing(i));
    RowIsWellStated(host, files, p.rows[i]);
    hide MayRun, Perform, LeasesFor, TrueTo, Intended, KeysDistinct, TargetsDistinct, Untouched, NoneLanded, SmoothRow;
    PerformFiles(host, ports, s, p.rows[i], i);
    var s' := Perform(host, ports, s, p.rows[i], i).0;
    StillUntouched(host, files, s.files, p.rows, i);
    StillNoneLanded(p.rows, i, s, s');
  }

  lemma RowIsWellStated(host: Host, files: Files, row: Row)
    requires TrueTo(host, files, row)
    ensures WellStated(host, row)
  {
  }

  // ----- what the files are in the end ---------------------------------------------------------

  /** Create leaves the payload, modify the payload applied to the original, destroy
      nothing. */
  predicate Lands(host: Host, files: Files, row: Row, later: Files) {
    if row.op == OP_MEMORY then true
    else if row.op == OP_DESTROY then row.target !in later
    else if row.op == OP_CREATE then row.target in later && later[row.target] == row.payload
    else row.target in later && ApplyModify(Current(files, row.target), row.payload, host.marker) == Bytes(later[row.target])
  }

  predicate FileTarget(rows: seq<Row>, t: string) { exists row <- rows :: row.op != OP_MEMORY && row.target == t }

  /** Every row landed, and nothing but the rows' targets changed. */
  ghost predicate ExactlyLanded(host: Host, files: Files, rows: seq<Row>, later: Files) {
    && (forall row <- rows :: Lands(host, files, row, later))
    && (forall t :: !FileTarget(rows, t) ==> (t in later <==> t in files) && (t in files ==> later[t] == files[t]))
  }

  lemma {:induction false} OthersKeep(host: Host, now: Files, rows: seq<Row>, i: nat, t: string)
    requires i <= |rows| && forall j :: i <= j < |rows| ==> rows[j].op == OP_MEMORY || rows[j].target != t
    ensures var later := FilesBetween(host, now, rows, i, |rows|); (t in later <==> t in now) && (t in now ==> later[t] == now[t])
    decreases |rows| - i
  {
    if i < |rows| {
      hide Materialize;
      OthersKeep(host, Intended(host, now, rows[i]), rows, i + 1, t);
    }
  }

  lemma {:induction false} AllLand(host: Host, files: Files, now: Files, rows: seq<Row>, i: nat)
    requires i <= |rows| && TargetsDistinct(rows) && Untouched(files, now, rows, i)
    requires forall row <- rows :: TrueTo(host, files, row)
    ensures forall j :: i <= j < |rows| ==> Lands(host, files, rows[j], FilesBetween(host, now, rows, i, |rows|))
    decreases |rows| - i
  {
    if i < |rows| {
      var row, next := rows[i], Intended(host, now, rows[i]);
      assert TrueTo(host, files, row);
      StillUntouched(host, files, now, rows, i);
      AllLand(host, files, next, rows, i + 1);
      OthersKeep(host, next, rows, i + 1, row.target);
      LandsNow(host, files, now, row);
      hide Intended, TrueTo, Untouched, Lands;
      LandsLater(host, files, row, next, FilesBetween(host, next, rows, i + 1, |rows|));
    }
  }

  lemma LandsNow(host: Host, files: Files, now: Files, row: Row)
    requires TrueTo(host, files, row) && Current(now, row.target) == Current(files, row.target)
    ensures Lands(host, files, row, Intended(host, now, row))
  {
    hide ApplyModify;
  }

  lemma LandsLater(host: Host, files: Files, row: Row, now: Files, later: Files)
    requires Lands(host, files, row, now)
    requires (row.target in later <==> row.target in now) && (row.target in now ==> later[row.target] == now[row.target])
    ensures Lands(host, files, row, later)
  {
    hide ApplyModify;
  }

  // ----- the same, said of the draft ----------------------------------------------------------------

  /** A modify by a whole text leaves that text, one by a diff the patched original. */
  ghost predicate ModifyLeaves(host: Host, original: string, diff: string, out: string) {
    && (M.Shrunk(original, out) ==> M.IsDiff(diff) && M.DeletesSome(diff))
    && if M.IsDiff(diff) then !M.HasPlaceholder(diff, host.marker) && ApplyPatch(original, diff) == Patch.Ok(out) else out == diff
  }

  ghost predicate EffectLands(host: Host, e: B.Proposed, target: string, files: Files, later: Files) {
    match e.kind
    case "memory_proposal" => true
    case "destroy" => target !in later
    case "create" => target in later && later[target] == e.diff
    case _ => e.kind == "modify" && target in later && ModifyLeaves(host, Current(files, target), e.diff, later[target])
  }

  ghost predicate NamedBy(d: B.Draft, t: string) {
    exists e <- d.effects :: e.kind != "memory_proposal" && R.TargetOf(e.path, t)
  }

  /** Every effect of the draft landed at the target of its path, and no other file changed. */
  ghost predicate DraftLands(host: Host, d: B.Draft, files: Files, later: Files) {
    && (forall e, t :: e in d.effects && R.TargetOf(e.path, t) ==> EffectLands(host, e, t, files, later))
    && (forall t :: !NamedBy(d, t) ==> (t in later <==> t in files) && (t in files ==> later[t] == files[t]))
  }

  lemma RowLandsAsDrafted(host: Host, checks: B.Checks, d: B.Draft, e: B.Proposed, row: Row, files: Files, later: Files)
    requires R.RowOf(host, checks, d, e, row) && Lands(host, files, row, later)
    ensures EffectLands(host, e, row.target, files, later)
  {
    hide R.TargetOf, R.GoodTarget, R.Finds, R.Leaves, ApplyPatch, M.IsDiff, M.DeletesSome, M.HasPlaceholder, ApplyModify;
    if row.op == OP_MODIFY {
      ModifyIsDrafted(host, Current(files, row.target), e.diff, later[row.target]);
    }
  }

  lemma ModifyIsDrafted(host: Host, original: string, diff: string, out: string)
    requires ApplyModify(original, diff, host.marker) == Bytes(out)
    ensures ModifyLeaves(host, original, diff, out)
  {
    hide M.IsDiff, M.DeletesSome, M.HasPlaceholder, ApplyModify, ApplyPatch;
    assert Materialize(OP_MODIFY, original, diff, host.marker) == Bytes(out);
    if M.IsDiff(diff) {
      M.DiffPatchesOrRefuses(original, diff, host.marker);
    } else {
      M.WholeTextReplaces(original, diff, host.marker);
    }
  }

  /** Row i of the plan is the row of effect i. */
  ghost predicate RowsFor(host: Host, checks: B.Checks, d: B.Draft, rows: seq<Row>) {
    |rows| == |d.effects| && forall i :: 0 <= i < |rows| ==> R.RowOf(host, checks, d, d.effects[i], rows[i])
  }

  lemma EffectLandsInRow(host: Host, checks: B.Checks, d: B.Draft, rows: seq<Row>, files: Files, later: Files, i: nat, t: string)
    requires RowsFor(host, checks, d, rows) && ExactlyLanded(host, files, rows, later)
    requires i < |d.effects| && R.TargetOf(d.effects[i].path, t)
    ensures EffectLands(host, d.effects[i], t, files, later)
  {
    hide EffectLands, Lands, R.RowOf, R.TargetOf;
    assert R.RowOf(host, checks, d, d.effects[i], rows[i]) && Lands(host, files, rows[i], later);
    RowLandsAsDrafted(host, checks, d, d.effects[i], rows[i], files, later);
    RowTarget(host, checks, d, d.effects[i], rows[i]);
    SameTarget(d.effects[i].path, t, rows[i].target);
  }

  lemma RowTarget(host: Host, checks: B.Checks, d: B.Draft, e: B.Proposed, row: Row)
    requires R.RowOf(host, checks, d, e, row)
    ensures R.TargetOf(e.path, row.target) && row.op == e.kind
  {
    hide R.TargetOf, R.GoodTarget, R.Finds, R.Leaves;
  }

  lemma FileIsNamed(host: Host, checks: B.Checks, d: B.Draft, rows: seq<Row>, t: string)
    requires RowsFor(host, checks, d, rows) && FileTarget(rows, t)
    ensures NamedBy(d, t)
  {
    hide R.RowOf, R.TargetOf;
    var row :| row in rows && row.op != OP_MEMORY && row.target == t;
    var i :| 0 <= i < |rows| && rows[i] == row;
    assert R.RowOf(host, checks, d, d.effects[i], rows[i]) && d.effects[i] in d.effects;
    RowTarget(host, checks, d, d.effects[i], rows[i]);
  }

  lemma LandsAsDrafted(host: Host, checks: B.Checks, d: B.Draft, rows: seq<Row>, files: Files, later: Files)
    requires B.Complete(host, checks, d, rows) && ExactlyLanded(host, files, rows, later)
    ensures DraftLands(host, d, files, later)
  {
    R.RowsOfEffects(host, checks, d, rows);
    assert RowsFor(host, checks, d, rows);
    hide B.Complete, R.TargetOf, EffectLands, Lands, RowsFor, FileTarget, NamedBy;
    forall e, t | e in d.effects && R.TargetOf(e.path, t) ensures EffectLands(host, e, t, files, later) {
      var i :| 0 <= i < |d.effects| && d.effects[i] == e;
      EffectLandsInRow(host, checks, d, rows, files, later, i, t);
    }
    forall t | !NamedBy(d, t) ensures !FileTarget(rows, t) {
      if FileTarget(rows, t) {
        FileIsNamed(host, checks, d, rows, t);
      }
    }
  }

  lemma SameTarget(path: string, t: string, u: string)
    requires R.TargetOf(path, t) && R.TargetOf(path, u)
    ensures t == u
  {
    R.TargetIff(path, t);
    R.TargetIff(path, u);
  }

  // ----- the theorem -----------------------------------------------------------------------------

  predicate CleanRows(host: Host, rows: seq<Row>) {
    forall row <- rows :: ScanFrom(row.target, 1, row.payload, host.detectors) == []
  }

  /** q is p after its review: only the lifecycle fields moved. */
  predicate ApprovedCopy(p: Plan, q: Plan) {
    && q.status == Status.Approved
    && q == p.(status := q.status, crossExam := q.crossExam, reviewComment := q.reviewComment, updatedAt := q.updatedAt)
  }

  lemma BuiltRowsAreTrue(host: Host, checks: B.Checks, d: B.Draft, files: Files, rows: seq<Row>)
    requires NeverEmpty(host.H) && B.Complete(host, checks, d, rows) && Observes(host, d, files)
    requires forall row <- rows :: row.op == OP_MODIFY ==> Current(files, row.target) != ""
    ensures forall row <- rows :: TrueTo(host, files, row)
  {
    hide TrueTo;
    forall i | 0 <= i < |rows| ensures TrueTo(host, files, rows[i]) {
      MadeRowKey(host, checks, d, i);
      assert d.effects[i] in d.effects && rows[i] in rows;
      hide B.RowFrom, B.NormalizeTarget;
      assert B.RowFrom(host, checks, d, d.effects[i]) == B.Made(rows[i]);
      MadeRowIsTrue(host, checks, d, files, d.effects[i]);
    }
  }

  lemma RowClears(host: Host, ports: Ports, p: Plan, leases: seq<Lease>, files: Files, s: State, i: nat)
    requires i < |p.rows| && ports.memory && LeasesFor(p, p.rows, leases) && s.files == files
    requires SmoothRow(ports, p, i) && TrueTo(host, files, p.rows[i]) && CleanRows(host, p.rows)
    ensures Undrifted(host, ports, p.rows[i], s, i)
    ensures ScanFrom(p.rows[i].target, 1, p.rows[i].payload, host.detectors) == []
    ensures MayRun(ports.clearing(i), APPLY_PRINCIPAL, p, p.rows[i], leases)
  {
    hide Materialize, ScanFrom, LeasesFor, MayRun, Digest;
    AcquiredAuthorises(p, leases, i, ports.clearing(i));
    assert p.rows[i] in p.rows;
  }

  lemma {:induction false} ClearsThrough(host: Host, ports: Ports, p: Plan, leases: seq<Lease>, files: Files, s: State, i: nat)
    requires i <= |p.rows| && ports.memory && LeasesFor(p, p.rows, leases) && s.files == files
    requires forall j: nat :: j < |p.rows| ==> SmoothRow(ports, p, j)
    requires (forall row <- p.rows :: TrueTo(host, files, row)) && CleanRows(host, p.rows)
    ensures ClearFrom(host, ports, APPLY_PRINCIPAL, p, leases, s, i).error.None?
    decreases |p.rows| - i
  {
    hide MayRun, LeasesFor, ScanFrom, SmoothRow, TrueTo, CleanRows, Undrifted;
    if i < |p.rows| {
      assert SmoothRow(ports, p, i) && TrueTo(host, files, p.rows[i]);
      RowClears(host, ports, p, leases, files, s, i);
      ClearsThrough(host, ports, p, leases, files, s, i + 1);
    }
  }

  lemma SweepsClear(host: Host, ports: Ports, p: Plan, leases: seq<Lease>, files: Files, s: State)
    requires ports.memory && LeasesFor(p, p.rows, leases) && s.files == files
    requires forall j: nat :: j < |p.rows| ==> SmoothRow(ports, p, j)
    requires (forall row <- p.rows :: TrueTo(host, files, row)) && CleanRows(host, p.rows)
    ensures ObserveFrom(host, ports, p.rows, s, 0).error.None?
    ensures ClearFrom(host, ports, APPLY_PRINCIPAL, p, leases, s, 0).error.None?
  {
    hide MayRun, LeasesFor, ScanFrom, SmoothRow, TrueTo, CleanRows, Undrifted, ObserveFrom, ClearFrom;
    ClearsThrough(host, ports, p, leases, files, s, 0);
    ObservesIff(host, ports, p.rows, s, 0);
    forall j | 0 <= j < |p.rows| ensures Undrifted(host, ports, p.rows[j], s, j) {
      assert SmoothRow(ports, p, j) && TrueTo(host, files, p.rows[j]);
      RowClears(host, ports, p, leases, files, s, j);
    }
  }

  lemma HeldCompletes(host: Host, ports: Ports, principal: string, p: Plan, leases: seq<Lease>, ck: string, s: State)
    requires ClearFrom(host, ports, principal, p, leases, s, 0).error.None? && ports.signsPlan
    requires RunFrom(host, ports, principal, p, leases, s, 0).error.None?
    ensures var o := WhileHeld(host, ports, principal, p, leases, ck, s);
            o.error.None? && o.result.Some? && o.result.value.plan.status.Applied?
  {
    hide ClearFrom, RunFrom;
  }

  lemma LeasesSurvive(p: Plan, ck: string, leases: seq<Lease>)
    requires LeasesFor(p, p.rows, leases)
    ensures LeasesFor(p.(checkpoint := ck), p.rows, leases)
  {
    assert forall id :: NewLease(p.(checkpoint := ck), id) == NewLease(p, id);
  }

  lemma SmoothLater(ports: Ports, p: Plan, ck: string)
    requires forall j: nat :: j < |p.rows| ==> SmoothRow(ports, p, j)
    ensures var q := p.(checkpoint := ck); forall j: nat :: j < |q.rows| ==> SmoothRow(ports, q, j)
  {
    var q := p.(checkpoint := ck);
    forall j: nat | j < |q.rows| ensures SmoothRow(ports, q, j) {
      assert SmoothRow(ports, p, j);
    }
  }

  /** A plan whose rows are true to the files completes, and what lands is exactly what its
      rows say. */
  lemma TruePlanLands(host: Host, ports: Ports, q: Plan, files: Files)
    requires q.status == Status.Approved && GateOpen(host, ports, q, q.hash) && Smooth(ports, q)
    requires KeysDistinct(q.rows) && TargetsDistinct(q.rows) && CleanRows(host, q.rows)
    requires forall row <- q.rows :: TrueTo(host, files, row)
    ensures var o := ApplyPlan(host, ports, APPLY_PRINCIPAL, q, q.hash, State(files, map[], []));
            && o.error.None? && o.result.Some? && o.result.value.plan.status.Applied?
            && o.result.value.through == |q.rows| && ExactlyLanded(host, files, q.rows, o.world.files)
  {
    var s, ck, leases := State(files, map[], []), ports.checkpoint.value, ports.leases.value;
    var saved := q.(checkpoint := ck);
    LeasesSurvive(q, ck, leases);
    SmoothLater(ports, q, ck);
    forall row | row in q.rows ensures WellStated(host, row) { RowIsWellStated(host, files, row); }
    hide ApplyPlan, ObserveFrom, ClearFrom, RunFrom, WhileHeld, GateOpen, LeasesFor, TrueTo, WellStated, SmoothRow, KeysDistinct, TargetsDistinct, Records, CleanRows, NoneGranted, Intended, Lands, FileTarget;
    SweepsClear(host, ports, saved, leases, files, s);
    RunsThrough(host, ports, saved, leases, files, s, 0);
    HeldCompletes(host, ports, APPLY_PRINCIPAL, saved, leases, ck, s);
    HeldRelease(host, ports, q, s);
    RunsBoundary(host, ports, APPLY_PRINCIPAL, q, q.hash, s);
    FilesMatchBoundary(host, ports, APPLY_PRINCIPAL, q, q.hash, s);
    AllLanded(host, files, q.rows);
  }

  lemma HeldRelease(host: Host, ports: Ports, q: Plan, s: State)
    requires q.status == Status.Approved && ports.ready && !ports.cancelled && ports.releases && Holds(host, ports, q, q.hash, s)
    ensures var o, held := ApplyPlan(host, ports, APPLY_PRINCIPAL, q, q.hash, s), Held(host, ports, APPLY_PRINCIPAL, q, s);
            o.error == held.error && o.result == held.result
  {
    hide ObserveFrom, WhileHeld, Encode, Marked;
  }

  lemma AllLanded(host: Host, files: Files, rows: seq<Row>)
    requires TargetsDistinct(rows) && forall row <- rows :: TrueTo(host, files, row)
    ensures ExactlyLanded(host, files, rows, FilesBetween(host, files, rows, 0, |rows|))
  {
    AllLand(host, files, files, rows, 0);
    var later := FilesBetween(host, files, rows, 0, |rows|);
    hide TrueTo, Lands;
    forall t | !FileTarget(rows, t) ensures (t in later <==> t in files) && (t in files ==> later[t] == files[t]) {
      assert forall j :: 0 <= j < |rows| ==> rows[j] in rows;
      OthersKeep(host, files, rows, 0, t);
    }
  }

  /** End to end. Build a draft over the files it observed, with distinct targets and
      non-empty modified files; approve it; apply it to those files before it expires,
      with no port failure and no secret. Then Apply reports the whole plan applied, and
      the files are exactly: creates hold the drafted text, modifies the drafted text or the
      original patched with it, destroys are absent, everything else is untouched. */
  lemma ApprovedIsWhatLands(host: Host, checks: B.Checks, d: B.Draft, clock: Time, rows: seq<Row>, q: Plan, ports: Ports, files: Files)
    requires Injective(host.H) && NeverEmpty(host.H)
    requires B.ValidDraft(d) && B.Complete(host, checks, d, rows) && ApprovedCopy(B.PlanFrom(host, d, clock, rows), q)
    requires Observes(host, d, files) && TargetsDistinct(rows)
    requires forall row <- rows :: row.op == OP_MODIFY ==> Current(files, row.target) != ""
    requires Smooth(ports, q) && CleanRows(host, rows)
    ensures var o := ApplyPlan(host, ports, APPLY_PRINCIPAL, q, q.hash, State(files, map[], []));
            && o.error.None? && o.result.Some? && o.result.value.plan.status.Applied?
            && o.result.value.through == |d.effects| && DraftLands(host, d, files, o.world.files)
  {
    var p := B.PlanFrom(host, d, clock, rows);
    HashIgnoresLifecycle(q, p.(hash := ""), host.H);
    KeysDiffer(host, checks, d, rows);
    BuiltRowsAreTrue(host, checks, d, files, rows);
    assert |rows| == |d.effects|;
    hide Encode, ApplyPlan, TrueTo, B.Complete, KeysDistinct, TargetsDistinct, ExactlyLanded, DraftLands;
    TruePlanLands(host, ports, q, files);
    LandsAsDrafted(host, checks, d, rows, files, ApplyPlan(host, ports, APPLY_PRINCIPAL, q, q.hash, State(files, map[], [])).world.files);
  }

  // ----- one run from end to end ---------------------------------------------------------------------

  const HOST: Host := Host((x: string) => "h" + x, (line: string) => false, (target: string) => false, [])

  const CHECKS: B.Checks := B.Checks((target: string) => false, (bytes: string) => true)

  const DRAFT: B.Draft :=
    B.Draft("p", "s", "", "x", [B.Proposed(OP_CREATE, "f", "t")], map[], map[], "l", map[], At(2), 0, "w", [], At(0))

  const ROW: Row := Row(OP_CREATE, "f", "t", "l", "", B.IdempotencyKey(HOST, "s", OP_CREATE, "f", "t"), "ht", "")

  const PORTS: Ports :=
    WellPorts([Lease("l", "w", APPLY_PRINCIPAL, {OP_CREATE}, At(2))]).(propose := (i: nat) => Some("ht"))

  lemma ShortNames()
    ensures B.NormalizeTarget("f") == "f" && TrimSpace("t") == "t" && TrimSpace("x") == "x"
    ensures B.MadeRow(HOST, CHECKS, DRAFT, 0) == B.Made(ROW)
  {
    assert TrimLeft("f") == "f" && TrimRight("f") == "f" && B.Slashed("") == "" && B.Slashed("f") == "f";
    assert TrimLeft("t") == "t" && TrimRight("t") == "t";
    assert TrimLeft("x") == "x" && TrimRight("x") == "x";
    assert B.NormalizeTarget("f") == "f" && B.ValidTarget(CHECKS, "f", OP_CREATE);
    assert HOST.H("t") == "ht";
    hide B.NormalizeTarget, B.ValidTarget, TrimSpace, B.IdempotencyKey, TrimLeft, TrimRight;
    assert B.Precondition(OP_CREATE, "") == B.Made("") && B.Postcondition(HOST, OP_CREATE, "t", "") == B.Made("ht");
    hide B.Precondition, B.Postcondition;
    assert DRAFT.effects[0] == B.Proposed(OP_CREATE, "f", "t");
    assert B.RowFrom(HOST, CHECKS, DRAFT, DRAFT.effects[0]) == B.Made(ROW);
  }

  lemma HostDigests()
    ensures Injective(HOST.H) && NeverEmpty(HOST.H)
  {
    forall x, y | HOST.H(x) == HOST.H(y) ensures x == y {
      SameTail("h", x, y);
    }
  }

  lemma PortsAreSmooth(q: Plan)
    requires q.rows == [ROW] && q.scope == "w" && q.expiresAt == At(2)
    ensures Smooth(PORTS, q)
  {
    var l := PORTS.leases.value[0];
    assert ROW in q.rows && Kinds(q.rows) == {OP_CREATE} && l == NewLease(q, "l");
    assert LeasesFor(q, q.rows, PORTS.leases.value);
  }

  /** The hypotheses of the theorem can all hold: a draft of one new file, built, approved
      and applied to an empty workspace, leaves exactly that file. */
  lemma OneFileLands(q: Plan)
    requires ApprovedCopy(B.PlanFrom(HOST, DRAFT, Zero, [ROW]), q)
    ensures ApplyPlan(HOST, PORTS, APPLY_PRINCIPAL, q, q.hash, State(map[], map[], [])).world.files == map["f" := "t"]
  {
    ShortNames();
    hide Encode, ApplyPlan, B.RowFrom, TrimSpace, B.NormalizeTarget, DraftLands;
    assert B.Complete(HOST, CHECKS, DRAFT, [ROW]);
    HostDigests();
    PortsAreSmooth(q);
    hide Smooth, Injective, NeverEmpty;
    NothingToFind("f", 1, "t");
    ApprovedIsWhatLands(HOST, CHECKS, DRAFT, Zero, [ROW], q, PORTS, map[]);
    OneFile(ApplyPlan(HOST, PORTS, APPLY_PRINCIPAL, q, q.hash, State(map[], map[], [])).world.files);
  }

  lemma OneFile(later: Files)
    requires DraftLands(HOST, DRAFT, map[], later)
    ensures later == map["f" := "t"]
  {
    R.PlainPathIsKept("f");
    R.TargetIff("f", "f");
    hide B.NormalizeTarget, R.TargetOf;
    assert DRAFT.effects[0] in DRAFT.effects && EffectLands(HOST, DRAFT.effects[0], "f", map[], later);
    forall t | t != "f" ensures t !in later {
      if R.TargetOf("f", t) {
        SameTarget("f", t, "f");
      }
      assert !NamedBy(DRAFT, t);
    }
  }
}
