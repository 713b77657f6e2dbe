/** The bytes that are hashed and signed, field by field
    (internal/plan/hash.go, internal/audit/record.go). */
module HashLayout {
  import opened Text
  import opened Sorting
  import opened PlanModel
  import opened PlanHash
  import opened AuditChain

  // ----- numbers and strings -----------------------------------------------------------------

  function Byte(n: nat): char { (n % 256) as char }

  /** Four bytes, most significant first. */
  lemma U32Layout(n: nat)
    requires n < 0x1_0000_0000
    ensures WriteU32(n) == [Byte(n / 0x100_0000), Byte(n / 0x1_0000), Byte(n / 0x100), Byte(n)]
  {
    var b := BigEndian(n / 256 / 256 / 256, 1);
    assert BigEndian(n / 256 / 256 / 256 / 256, 0) == "";
    assert b == [Byte(n / 256 / 256 / 256)];
    assert BigEndian(n / 256 / 256, 2) == b + [Byte(n / 256 / 256)];
    assert BigEndian(n / 256, 3) == BigEndian(n / 256 / 256, 2) + [Byte(n / 256)];
    assert BigEndian(n, 4) == BigEndian(n / 256, 3) + [Byte(n)];
    assert n / 256 / 256 == n / 0x1_0000 && n / 256 / 256 / 256 == n / 0x100_0000;
  }

  /** Eight bytes of two's complement, the high half first. */
  lemma I64Layout(n: int64)
    ensures var v: nat := if n < 0 then 0x1_0000_0000_0000_0000 + n else n;
            WriteI64(n) == WriteU32(v / 0x1_0000_0000) + WriteU32(v % 0x1_0000_0000)
  {
    var m: int := n;
    var v: nat := if m < 0 then U64 + m else m;
    hide BigEndian;
    assert m % U64 == v;
    BigEndianHalves(v);
    SmallRemainder(v / U32);
    SmallRemainder(v % U32);
  }

  lemma SmallRemainder(n: nat)
    ensures n < U32 ==> n % U32 == n
  {
  }

  lemma BigEndianHalves(v: nat)
    requires v < U64
    ensures BigEndian(v, 8) == BigEndian(v / U32, 4) + BigEndian(v % U32, 4)
    ensures v / U32 < U32
  {
    BigEndianSplit(v / U32, v % U32, 4);
    assert Pow256(4) == U32 by { Pow256Values(); }
    assert v / U32 * U32 + v % U32 == v;
  }

  /** The low bytes depend only on the low part. */
  lemma {:induction false} BigEndianSplit(high: nat, low: nat, width: nat)
    requires low < Pow256(width)
    ensures BigEndian(high * Pow256(width) + low, width + 4) == BigEndian(high, 4) + BigEndian(low, width)
  {
    if width == 0 {
      assert BigEndian(high, 4) + "" == BigEndian(high, 4);
    } else {
      var n, rest := high * Pow256(width) + low, Pow256(width - 1);
      assert n == 256 * (high * rest) + low;
      assert n / 256 == high * rest + low / 256 && n % 256 == low % 256;
      BigEndianSplit(high, low / 256, width - 1);
      assert BigEndian(n, width + 4) == BigEndian(n / 256, width + 3) + [(n % 256) as char];
      assert BigEndian(low, width) == BigEndian(low / 256, width - 1) + [(low % 256) as char];
    }
  }

  /** A string is its length, modulo 2^32, and its bytes. */
  lemma StrLayout(s: string)
    ensures WriteStr(s) == WriteU32(|s| % 0x1_0000_0000) + s
  {
  }

  // ----- rows and credentials -------------------------------------------------------------------

  lemma RowLayout(r: Row)
    ensures WriteStrs(RowFields(r)) ==
            WriteStr(r.op) + WriteStr(r.target) + WriteStr(r.payload) + WriteStr(r.lease)
            + WriteStr(r.precondition) + WriteStr(r.key) + WriteStr(r.postcondition) + WriteStr(r.costEstimate)
  {
    hide WriteStr;
    var f := RowFields(r);
    StrsOf(f[4..], [], "");
    StrsOf(f[..4], f[4..], WriteStrs(f[4..]));
    assert f == f[..4] + f[4..] && f[4..] + [] == f[4..];
  }

  /** Four strings and what follows them. */
  lemma StrsOf(f: seq<string>, rest: seq<string>, tail: string)
    requires |f| == 4 && tail == WriteStrs(rest)
    ensures WriteStrs(f + rest) == WriteStr(f[0]) + WriteStr(f[1]) + WriteStr(f[2]) + WriteStr(f[3]) + tail
  {
    hide WriteStr;
    var all := f + rest;
    var r1 := all[1..];
    var r2 := r1[1..];
    var r3 := r2[1..];
    assert r3[1..] == rest && r1[0] == f[1] && r2[0] == f[2] && r3[0] == f[3];
    assert WriteStrs(r2) == WriteStr(f[2]) + (WriteStr(f[3]) + tail);
    assert WriteStrs(all) == WriteStr(f[0]) + (WriteStr(f[1]) + (WriteStr(f[2]) + (WriteStr(f[3]) + tail)));
  }

  function RowsBytes(rows: seq<Row>): string {
    if rows == [] then "" else WriteStrs(RowFields(rows[0])) + RowsBytes(rows[1..])
  }

  function CredsBytes(creds: seq<Credential>): string {
    if creds == [] then "" else WriteStr(creds[0].provider) + WriteStr(creds[0].kind) + CredsBytes(creds[1..])
  }

  lemma {:induction false} RowsLayout(rows: seq<Row>)
    ensures WriteStrs(AllRowFields(rows)) == RowsBytes(rows)
  {
    hide WriteStrs, RowFields;
    NothingWritten();
    if rows != [] {
      StrsConcat(RowFields(rows[0]), AllRowFields(rows[1..]));
      RowsLayout(rows[1..]);
    }
  }

  lemma NothingWritten()
    ensures WriteStrs([]) == ""
  {
  }

  lemma {:induction false} CredsLayout(creds: seq<Credential>)
    ensures WriteStrs(AllCredFields(creds)) == CredsBytes(creds)
  {
    hide WriteStr;
    if creds != [] {
      var pair := [creds[0].provider, creds[0].kind];
      CredsLayout(creds[1..]);
      StrsConcat(pair, AllCredFields(creds[1..]));
      assert pair[1..] == [creds[0].kind] && [creds[0].kind][1..] == [];
      assert WriteStr(creds[0].kind) + "" == WriteStr(creds[0].kind);
    }
  }

  /** The rows in the order of their targets; rows of one target in plan order. */
  ghost predicate CanonicalOrder(rows: seq<Row>, sorted: seq<Row>) {
    && (forall i, j :: 0 <= i < j < |sorted| ==> !Less(sorted[j].target, sorted[i].target))
    && (forall t :: OfTarget(sorted, t) == OfTarget(rows, t))
  }

  ghost predicate CredentialOrder(creds: seq<Credential>, sorted: seq<Credential>) {
    && multiset(sorted) == multiset(creds)
    && forall i, j :: 0 <= i < j < |sorted| ==>
         !Less(sorted[j].provider, sorted[i].provider)
         && (sorted[i].provider == sorted[j].provider ==> !Less(sorted[j].kind, sorted[i].kind))
  }

  lemma CanonicalRowsMean(rows: seq<Row>)
    ensures CanonicalOrder(rows, CanonicalRows(rows))
  {
    RowOrder();
    SortSorts(rows, RowLess);
    hide Sort;
    forall t ensures OfTarget(CanonicalRows(rows), t) == OfTarget(rows, t) {
      CanonicalKeepsTargets(rows, t);
    }
  }

  lemma CanonicalCredsMean(creds: seq<Credential>)
    ensures CredentialOrder(creds, CanonicalCreds(creds))
  {
    CredOrder();
    SortSorts(creds, CredLess);
    SortMultiset(creds, CredLess);
    hide Sort;
    var sorted := CanonicalCreds(creds);
    forall i, j | 0 <= i < j < |sorted|
      ensures !Less(sorted[j].provider, sorted[i].provider) && (sorted[i].provider == sorted[j].provider ==> !Less(sorted[j].kind, sorted[i].kind))
    {
      assert !CredLess(sorted[j], sorted[i]);
      LessTotal(sorted[i].provider, sorted[j].provider);
    }
  }

  // ----- the two encodings -----------------------------------------------------------------------

  /** What is hashed of a plan: a version, its constraints, its credentials and its rows. */
  lemma PlanLayout(p: Plan) returns (creds: seq<Credential>, rows: seq<Row>)
    ensures CredentialOrder(p.credentials, creds) && |creds| == |p.credentials|
    ensures CanonicalOrder(p.rows, rows) && |rows| == |p.rows|
    ensures Encode(p) ==
            "" + WriteStr("zeroth-plan-v1") + WriteStr(p.summary) + WriteI64(if p.expiresAt.Zero? then 0 else p.expiresAt.nanos)
            + WriteI64(p.costCeiling) + WriteStr(p.scope)
            + WriteU32(|p.credentials|) + CredsBytes(creds) + WriteU32(|p.rows|) + RowsBytes(rows)
  {
    creds, rows := CanonicalCreds(p.credentials), CanonicalRows(p.rows);
    CanonicalRowsMean(p.rows);
    CanonicalCredsMean(p.credentials);
    RowsLayout(rows);
    CredsLayout(creds);
    hide CanonicalOrder, CredentialOrder, WriteStr, WriteU32, WriteI64, WriteStrs, AllCredFields, AllRowFields, RowsBytes, CredsBytes;
    EncodeAssociates(p, creds, rows);
  }

  /** What is signed of an audit record: a version, its nine fields and its instant. */
  lemma PayloadLayout(p: AuditChain.Payload)
    ensures Canonical(p) ==
            WriteStr("zeroth-audit-v1") + WriteStr(p.action) + WriteStr(p.target) + WriteStr(p.planHash)
            + (WriteStr(p.precondition) + WriteStr(p.postcondition) + WriteStr(p.leaseId) + WriteStr(p.approver)
               + (WriteStr(p.agentPubKey) + WriteStr(p.prevHash)))
            + WriteI64(if p.timestamp.Zero? then 0 else p.timestamp.nanos)
  {
    hide WriteStr, WriteI64;
    var f := PayloadFields(p);
    assert f[8..] == [p.agentPubKey, p.prevHash] && f[8..][1..] == [p.prevHash] && [p.prevHash][1..] == [];
    assert WriteStrs(f[8..]) == WriteStr(p.agentPubKey) + WriteStr(p.prevHash) by {
      assert WriteStrs([p.prevHash]) == WriteStr(p.prevHash) + "";
    }
    hide WriteStrs;
    StrsOf(f[4..8], f[8..], WriteStrs(f[8..]));
    assert f[4..] == f[4..8] + f[8..];
    StrsOf(f[..4], f[4..], WriteStrs(f[4..]));
    assert f == f[..4] + f[4..];
  }
}
