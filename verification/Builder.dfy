/** Build: proposed effects become typed rows, or the draft is refused
    (internal/plan/builder.go). */
module Builder {
  import opened Text
  import opened Policy
  import opened Payload
  import opened PlanModel
  import opened PlanHash
  import opened Workspace

  datatype Proposed = Proposed(kind: string, path: string, diff: string)

  datatype Draft = Draft(
    id: string, sessionId: string, parentId: string, summary: string, effects: seq<Proposed>,
    observed: map<string, string>, bodies: map<string, string>, lease: string, leases: map<string, string>,
    expiresAt: Time, costCeiling: int64, scope: string, credentials: seq<Credential>, now: Time)

  /** path.Clean leads outside the workspace or to its root; the bytes are UTF-8. */
  datatype Checks = Checks(escapes: string -> bool, utf8: string -> bool)

  datatype Reason =
    | UnknownType
    | MissingTarget
    | BadTarget
    | MissingPayload
    | NotUtf8
    | Unleased
    | CreateOverExisting
    | NothingObserved
    | BodyMismatch
    | Unmaterialized(error: PayloadError)
    | DuplicateOf(index: nat)

  datatype BuildError = InvalidDraft | Unexpressible(index: nat, reason: Reason)

  datatype Built<T> = Made(value: T) | Rejected(reason: Reason)

  datatype Outcome = Planned(plan: Plan) | Unbuilt(error: BuildError)

  predicate KnownOp(kind: string) { kind in {OP_CREATE, OP_MODIFY, OP_DESTROY, OP_MEMORY} }

  function Slashed(s: string): string {
    if s == "" then "" else [if s[0] == '\\' then '/' else s[0]] + Slashed(s[1..])
  }

  function NormalizeTarget(path: string): string { TrimPrefix(TrimSpace(Slashed(path)), "./") }

  predicate ValidTarget(checks: Checks, target: string, op: Op) {
    && target != "" && '\0' !in target
    && if op == OP_MEMORY then !Contains(target, "..") else !HasPrefix(target, "/") && !checks.escapes(target)
  }

  /** What the row must find: nothing for a create, the observed hash otherwise. */
  function Precondition(op: Op, observed: string): Built<string> {
    if op == OP_CREATE then (if observed != "" then Rejected(CreateOverExisting) else Made(""))
    else if op == OP_MODIFY || op == OP_DESTROY then (if observed == "" then Rejected(NothingObserved) else Made(observed))
    else Made(observed)
  }

  /** What the row must leave. An empty original that the payload does not fit falls
      back to the digest of the payload. */
  function Postcondition(host: Host, op: Op, payload: string, original: string): Built<string> {
    if op == OP_DESTROY then Made(host.H(""))
    else if op == OP_MEMORY then Made(host.H(payload))
    else
      match Materialize(op, original, payload, host.marker)
      case Bytes(text) => Made(host.H(text))
      case Refused(e) => if original == "" then Made(host.H(payload)) else Rejected(Unmaterialized(e))
  }

  /** What makes two effects of one draft the same. */
  function EffectKey(op: Op, target: string, payload: string): string { op + "\n" + target + "\n" + payload }

  function RowKey(row: Row): string { EffectKey(row.op, row.target, row.payload) }

  function IdempotencyKey(host: Host, session: string, op: Op, target: string, payload: string): string {
    host.H(session + "\n" + EffectKey(op, target, payload))
  }

  function Lookup(m: map<string, string>, key: string, default: string): string {
    if key in m then m[key] else default
  }

  function RowFrom(host: Host, checks: Checks, d: Draft, e: Proposed): Built<Row> {
    var op, target, payload := e.kind, NormalizeTarget(e.path), e.diff;
    var lease, observed, original := Lookup(d.leases, target, d.lease), Lookup(d.observed, target, ""), Lookup(d.bodies, target, "");
    if !KnownOp(op) then Rejected(UnknownType)
    else if target == "" then Rejected(MissingTarget)
    else if !ValidTarget(checks, target, op) then Rejected(BadTarget)
    else if TrimSpace(payload) == "" then Rejected(MissingPayload)
    else if !checks.utf8(payload) then Rejected(NotUtf8)
    else if lease == "" then Rejected(Unleased)
    else
      match Precondition(op, observed)
      case Rejected(r) => Rejected(r)
      case Made(pre) =>
        if observed != "" && original != "" && host.H(original) != observed then Rejected(BodyMismatch)
        else
          match Postcondition(host, op, payload, original)
          case Rejected(r) => Rejected(r)
          case Made(post) =>
            Made(Row(op, target, payload, lease, pre, IdempotencyKey(host, d.sessionId, op, target, payload), post, ""))
  }

  predicate ValidDraft(d: Draft) {
    && d.id != "" && d.sessionId != "" && TrimSpace(d.summary) != "" && d.expiresAt != Zero && d.scope != "" && d.effects != []
    && forall c <- d.credentials :: TrimSpace(c.provider) != "" && TrimSpace(c.kind) != ""
  }

  function PlanFrom(host: Host, d: Draft, clock: Time, rows: seq<Row>): Plan {
    var now := if d.now == Zero then clock else d.now;
    var p := Plan(d.id, d.sessionId, d.parentId, Status.Draft, d.summary, "", d.expiresAt, d.costCeiling, d.scope,
                  d.credentials, rows, None, "", 0, "", now, now);
    p.(hash := HashOf(p, host.H))
  }

  /** The row of effect i. */
  function MadeRow(host: Host, checks: Checks, d: Draft, i: nat): Built<Row>
    requires i < |d.effects|
  {
    RowFrom(host, checks, d, d.effects[i])
  }

  ghost predicate AllMade(host: Host, checks: Checks, d: Draft, rows: seq<Row>) {
    && |rows| <= |d.effects|
    && forall i :: 0 <= i < |rows| ==> MadeRow(host, checks, d, i) == Made(rows[i])
  }

  ghost predicate NoDuplicates(rows: seq<Row>) {
    forall i, j :: 0 <= i < j < |rows| ==> RowKey(rows[i]) != RowKey(rows[j])
  }

  /** The first effect that cannot be a row, and why. */
  ghost predicate FirstFault(host: Host, checks: Checks, d: Draft, i: nat, reason: Reason) {
    i < |d.effects| && exists rows :: |rows| == i && FaultAfter(host, checks, d, rows, reason)
  }

  /** The next effect after these rows is no row, or the same as one of them. */
  ghost predicate FaultAfter(host: Host, checks: Checks, d: Draft, rows: seq<Row>, reason: Reason) {
    && |rows| < |d.effects| && AllMade(host, checks, d, rows) && NoDuplicates(rows)
    && match MadeRow(host, checks, d, |rows|)
       case Rejected(r) => reason == r
       case Made(row) => reason.DuplicateOf? && reason.index < |rows| && RowKey(rows[reason.index]) == RowKey(row)
  }

  /** One row for every effect, all of them expressible, no two the same. */
  ghost predicate Complete(host: Host, checks: Checks, d: Draft, rows: seq<Row>) {
    |rows| == |d.effects| && AllMade(host, checks, d, rows) && NoDuplicates(rows)
  }

  /** `seen` is the index of every row by its key. */
  ghost predicate Indexed(rows: seq<Row>, seen: map<string, nat>) {
    && (forall j :: 0 <= j < |rows| ==> RowKey(rows[j]) in seen)
    && (forall key <- seen :: seen[key] < |rows| && RowKey(rows[seen[key]]) == key)
  }

  lemma IndexOneMore(rows: seq<Row>, seen: map<string, nat>, row: Row)
    requires Indexed(rows, seen) && NoDuplicates(rows) && RowKey(row) !in seen
    ensures Indexed(rows + [row], seen[RowKey(row) := |rows|]) && NoDuplicates(rows + [row])
  {
    hide RowKey;
  }

  method BuildRows(host: Host, checks: Checks, d: Draft) returns (rows: seq<Row>, fault: Option<BuildError>)
    ensures fault.None? ==> Complete(host, checks, d, rows)
    ensures fault.Some? ==> fault.value.Unexpressible? && FirstFault(host, checks, d, fault.value.index, fault.value.reason)
  {
    hide RowFrom, RowKey, NoDuplicates, Indexed;
    rows := [];
    var seen: map<string, nat> := map[];
    NothingIndexed();
    for i := 0 to |d.effects|
      invariant |rows| == i && AllMade(host, checks, d, rows) && NoDuplicates(rows) && Indexed(rows, seen)
    {
      var row := RowFrom(host, checks, d, d.effects[i]);
      if row.Rejected? {
        assert FaultAfter(host, checks, d, rows, row.reason);
        return rows, Some(Unexpressible(i, row.reason));
      }
      var key := RowKey(row.value);
      if key in seen {
        DuplicateFound(host, checks, d, rows, seen, row.value);
        return rows, Some(Unexpressible(i, DuplicateOf(seen[key])));
      }
      IndexOneMore(rows, seen, row.value);
      seen := seen[key := i];
      rows := rows + [row.value];
    }
    return rows, None;
  }

  lemma NothingIndexed()
    ensures Indexed([], map[]) && NoDuplicates([])
  {
  }

  lemma DuplicateFound(host: Host, checks: Checks, d: Draft, rows: seq<Row>, seen: map<string, nat>, row: Row)
    requires |rows| < |d.effects| && MadeRow(host, checks, d, |rows|) == Made(row)
    requires AllMade(host, checks, d, rows) && NoDuplicates(rows) && Indexed(rows, seen) && RowKey(row) in seen
    ensures FaultAfter(host, checks, d, rows, DuplicateOf(seen[RowKey(row)]))
  {
    hide RowFrom, RowKey;
  }

  method CheckDraft(d: Draft) returns (ok: bool)
    ensures ok == ValidDraft(d)
  {
    if d.id == "" || d.sessionId == "" || TrimSpace(d.summary) == "" || d.expiresAt == Zero || d.scope == "" || |d.effects| == 0 {
      return false;
    }
    for i := 0 to |d.credentials|
      invariant forall c <- d.credentials[..i] :: TrimSpace(c.provider) != "" && TrimSpace(c.kind) != ""
    {
      if TrimSpace(d.credentials[i].provider) == "" || TrimSpace(d.credentials[i].kind) == "" {
        return false;
      }
    }
    assert d.credentials[..|d.credentials|] == d.credentials;
    return true;
  }

  /** Build succeeds with one row per effect, in order and without duplicates, or names
      the first effect at fault; it succeeds whenever that is possible. */
  method Build(host: Host, checks: Checks, d: Draft, clock: Time) returns (o: Outcome)
    ensures o.Planned? <==> ValidDraft(d) && exists rows :: Complete(host, checks, d, rows)
    ensures o.Planned? ==> Complete(host, checks, d, o.plan.rows) && o.plan == PlanFrom(host, d, clock, o.plan.rows)
    ensures o.Unbuilt? && ValidDraft(d) ==> o.error.Unexpressible? && FirstFault(host, checks, d, o.error.index, o.error.reason)
    ensures o.Unbuilt? && !ValidDraft(d) ==> o.error.InvalidDraft?
  {
    hide Complete, FirstFault, Encode;
    var ok := CheckDraft(d);
    if !ok {
      return Unbuilt(InvalidDraft);
    }
    var rows, fault := BuildRows(host, checks, d);
    if fault.Some? {
      FaultIsFinal(host, checks, d, fault.value.index, fault.value.reason);
      return Unbuilt(fault.value);
    }
    var now := if d.now == Zero then clock else d.now;
    var p := Plan(d.id, d.sessionId, d.parentId, Status.Draft, d.summary, "", d.expiresAt, d.costCeiling, d.scope,
                  d.credentials, rows, None, "", 0, "", now, now);
    var digest := ComputeHash(p, host.H);
    return Planned(p.(hash := digest));
  }

  lemma FaultClashes(host: Host, checks: Checks, d: Draft, mine: seq<Row>, reason: Reason, rows: seq<Row>)
    requires FaultAfter(host, checks, d, mine, reason)
    requires |rows| == |d.effects| && AllMade(host, checks, d, rows)
    ensures !NoDuplicates(rows)
  {
    hide RowKey, MadeRow;
    assert MadeRow(host, checks, d, |mine|) == Made(rows[|mine|]);
    assert MadeRow(host, checks, d, reason.index) == Made(rows[reason.index]) && mine[reason.index] == rows[reason.index];
  }

  lemma FaultIsFinal(host: Host, checks: Checks, d: Draft, i: nat, reason: Reason)
    requires FirstFault(host, checks, d, i, reason)
    ensures !exists rows :: Complete(host, checks, d, rows)
  {
    var mine :| |mine| == i && FaultAfter(host, checks, d, mine, reason);
    forall rows ensures !Complete(host, checks, d, rows) {
      if |rows| == |d.effects| && AllMade(host, checks, d, rows) {
        FaultClashes(host, checks, d, mine, reason, rows);
      }
    }
  }
}
