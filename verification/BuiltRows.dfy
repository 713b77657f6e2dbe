/** What a built row carries of its effect, and which effects become rows
    (internal/plan/builder.go). */
module BuiltRows {
  import opened Text
  import opened Strings
  import opened Payload
  import opened PlanModel
  import opened Workspace
  import opened Builder

  // ----- targets ---------------------------------------------------------------------------

  /** t is s with slashes for backslashes. */
  predicate SlashesFor(s: string, t: string) {
    |s| == |t| && forall i :: 0 <= i < |s| ==> t[i] == if s[i] == '\\' then '/' else s[i]
  }

  /** The target of a path: slashed, without white space around it and without "./" in front. */
  ghost predicate TargetOf(path: string, target: string) {
    exists slashed, pre, mid, post :: SlashesFor(path, slashed) && Around(slashed, pre, mid, post) && Undotted(mid, target)
  }

  predicate Undotted(mid: string, target: string) { if HasPrefix(mid, "./") then mid == "./" + target else mid == target }

  lemma {:induction false} SlashedMeans(s: string)
    ensures SlashesFor(s, Slashed(s))
  {
    if s != "" {
      SlashedMeans(s[1..]);
      forall i | 0 < i < |s| ensures Slashed(s)[i] == if s[i] == '\\' then '/' else s[i] {
        assert Slashed(s)[i] == Slashed(s[1..])[i - 1] && s[1..][i - 1] == s[i];
      }
    }
  }

  lemma TargetIff(path: string, target: string)
    ensures NormalizeTarget(path) == target <==> TargetOf(path, target)
  {
    SlashedMeans(path);
    hide Slashed, TrimSpace;
    var slashed := Slashed(path);
    var pre, post := TrimSpaceMeans(slashed);
    var mid := TrimSpace(slashed);
    assert Around(slashed, pre, mid, post);
    assert NormalizeTarget(path) == target <==> Undotted(mid, target);
    if TargetOf(path, target) {
      var s', pre', mid', post' :| SlashesFor(path, s') && Around(s', pre', mid', post') && Undotted(mid', target);
      assert s' == slashed;
      TrimSpaceOf(pre', mid', post');
    }
  }

  /** A plain relative path is its own target. */
  lemma PlainPathIsKept(path: string)
    requires '\\' !in path && Tight(path) && !HasPrefix(path, "./")
    ensures NormalizeTarget(path) == path
  {
    assert SlashesFor(path, path);
    assert path == "" + path + "";
    assert Around(path, "", path, "") && Undotted(path, path);
    TargetIff(path, path);
  }

  /** A target inside the workspace; a memory entry only must not climb. */
  ghost predicate GoodTarget(checks: Checks, op: Op, target: string) {
    && target != "" && '\0' !in target
    && if op == "memory_proposal" then !(exists i :: 0 <= i <= |target| && ".." <= target[i..])
       else target[0] != '/' && !checks.escapes(target)
  }

  lemma GoodTargetIff(checks: Checks, target: string, op: Op)
    ensures ValidTarget(checks, target, op) <==> GoodTarget(checks, op, target)
  {
    hide Contains;
    ContainsMeans(target, "..");
  }

  // ----- rows ----------------------------------------------------------------------------------

  function Given(m: map<string, string>, target: string, otherwise: string): string {
    if target in m then m[target] else otherwise
  }

  /** The precondition of an effect: absence for a create, what was observed otherwise. */
  predicate Finds(op: Op, observed: string, pre: string) {
    if op == "create" then observed == "" && pre == ""
    else pre == observed && (op == "memory_proposal" || observed != "")
  }

  /** The postcondition: the digest of what the effect leaves. A modify of an empty file that
      it does not fit leaves its payload's digest. */
  predicate Leaves(host: Host, op: Op, payload: string, original: string, post: string) {
    if op == "destroy" then post == host.H("")
    else if op == "modify" then
      match Materialize(OP_MODIFY, original, payload, host.marker)
      case Bytes(text) => post == host.H(text)
      case Refused(_) => original == "" && post == host.H(payload)
    else post == host.H(payload)
  }

  /** The row that the effect e of the draft d becomes. */
  ghost predicate RowOf(host: Host, checks: Checks, d: Draft, e: Proposed, row: Row) {
    var observed, original := Given(d.observed, row.target, ""), Given(d.bodies, row.target, "");
    && row.op == e.kind && e.kind in {"create", "modify", "destroy", "memory_proposal"}
    && TargetOf(e.path, row.target) && GoodTarget(checks, e.kind, row.target)
    && row.payload == e.diff && !Blank(e.diff) && checks.utf8(e.diff)
    && row.lease == Given(d.leases, row.target, d.lease) && row.lease != ""
    && Finds(e.kind, observed, row.precondition)
    && (observed != "" && original != "" ==> host.H(original) == observed)
    && Leaves(host, e.kind, e.diff, original, row.postcondition)
    && row.key == host.H(d.sessionId + "\n" + e.kind + "\n" + row.target + "\n" + e.diff)
    && row.costEstimate == ""
  }

  lemma PostconditionIff(host: Host, op: Op, payload: string, original: string, post: string)
    requires KnownOp(op)
    ensures Postcondition(host, op, payload, original) == Made(post) <==> Leaves(host, op, payload, original, post)
  {
    hide ApplyModify;
  }

  lemma KeyIs(host: Host, session: string, op: Op, target: string, payload: string)
    ensures IdempotencyKey(host, session, op, target, payload) == host.H(session + "\n" + op + "\n" + target + "\n" + payload)
  {
    assert session + "\n" + EffectKey(op, target, payload) == session + "\n" + op + "\n" + target + "\n" + payload;
  }

  /** An effect becomes a row exactly when it is of a known kind, its path leads to a target
      in the workspace, its text is neither blank nor broken, and the lease, the observation
      and the original fit; and then its row carries just that. */
  lemma RowIff(host: Host, checks: Checks, d: Draft, e: Proposed, row: Row)
    ensures RowFrom(host, checks, d, e) == Made(row) <==> RowOf(host, checks, d, e, row)
  {
    var target := NormalizeTarget(e.path);
    TargetIff(e.path, target);
    TargetIff(e.path, row.target);
    GoodTargetIff(checks, target, e.kind);
    BlankIff(e.diff);
    KeyIs(host, d.sessionId, e.kind, target, e.diff);
    var observed, original := Lookup(d.observed, target, ""), Lookup(d.bodies, target, "");
    if KnownOp(e.kind) {
      PostconditionIff(host, e.kind, e.diff, original, row.postcondition);
      var post := Postcondition(host, e.kind, e.diff, original);
      if post.Made? {
        PostconditionIff(host, e.kind, e.diff, original, post.value);
      }
    }
    hide TrimSpace, TargetOf, NormalizeTarget, GoodTarget, ValidTarget, Blank, Postcondition, Leaves, IdempotencyKey;
  }

  /** A refusal gives a reason that is true of the effect. */
  ghost predicate ReasonHolds(host: Host, checks: Checks, d: Draft, e: Proposed, reason: Reason) {
    var target := NormalizeTarget(e.path);
    var observed, original := Given(d.observed, target, ""), Given(d.bodies, target, "");
    match reason
    case UnknownType => e.kind !in {"create", "modify", "destroy", "memory_proposal"}
    case MissingTarget => TargetOf(e.path, "")
    case BadTarget => target != "" && !GoodTarget(checks, e.kind, target)
    case MissingPayload => Blank(e.diff)
    case NotUtf8 => !checks.utf8(e.diff)
    case Unleased => Given(d.leases, target, d.lease) == ""
    case CreateOverExisting => e.kind == "create" && observed != ""
    case NothingObserved => e.kind in {"modify", "destroy"} && observed == ""
    case BodyMismatch => observed != "" && original != "" && host.H(original) != observed
    case Unmaterialized(error) => e.kind == "modify" && original != "" && Materialize(OP_MODIFY, original, e.diff, host.marker) == Refused(error)
    case DuplicateOf(_) => false
  }

  lemma RefusalIsTrue(host: Host, checks: Checks, d: Draft, e: Proposed)
    requires RowFrom(host, checks, d, e).Rejected?
    ensures ReasonHolds(host, checks, d, e, RowFrom(host, checks, d, e).reason)
  {
    var target := NormalizeTarget(e.path);
    TargetIff(e.path, target);
    GoodTargetIff(checks, target, e.kind);
    BlankIff(e.diff);
    hide TrimSpace, TargetOf, NormalizeTarget, GoodTarget, ValidTarget, Blank, ApplyModify, IdempotencyKey;
  }

  /** In particular a path that is absolute or leads out of the workspace is refused. */
  lemma OutsideIsRefused(host: Host, checks: Checks, d: Draft, e: Proposed)
    requires e.kind in {"create", "modify", "destroy"} && '\\' !in e.path && Tight(e.path) && e.path != "" && !HasPrefix(e.path, "./")
    requires HasPrefix(e.path, "/") || checks.escapes(e.path)
    ensures RowFrom(host, checks, d, e) == Rejected(BadTarget)
  {
    PlainPathIsKept(e.path);
    hide NormalizeTarget;
  }

  /** Row i of a plan is the row of effect i. */
  lemma RowsOfEffects(host: Host, checks: Checks, d: Draft, rows: seq<Row>)
    requires Complete(host, checks, d, rows)
    ensures |rows| == |d.effects| && forall i :: 0 <= i < |rows| ==> RowOf(host, checks, d, d.effects[i], rows[i])
  {
    hide RowFrom, RowOf, NoDuplicates;
    forall i | 0 <= i < |rows| ensures RowOf(host, checks, d, d.effects[i], rows[i]) {
      assert MadeRow(host, checks, d, i) == Made(rows[i]);
      RowIff(host, checks, d, d.effects[i], rows[i]);
    }
  }
}
