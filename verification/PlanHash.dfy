/** The canonical plan hash (internal/plan/hash.go): length-prefixed fields, rows
    sorted stably by target, credentials sorted. */
module PlanHash {
  import opened Text
  import opened Sorting
  import opened Policy
  import opened PlanModel

  // ----- length-prefixed encoding ----------------------------------------------------

  const U32: nat := 0x1_0000_0000
  const U64: nat := 0x1_0000_0000_0000_0000

  /** n mod 256^width, most significant byte first. */
  function BigEndian(n: nat, width: nat): (s: string)
    ensures |s| == width
  {
    if width == 0 then "" else BigEndian(n / 256, width - 1) + [(n % 256) as char]
  }

  function WriteU32(n: nat): string { BigEndian(n % U32, 4) }

  /** Two's complement in 64 bits. */
  function WriteI64(n: int64): string { BigEndian((n as int) % U64, 8) }

  /** The length is truncated to 32 bits. */
  function WriteStr(s: string): string { WriteU32(|s|) + s }

  function WriteStrs(fields: seq<string>): string {
    if fields == [] then "" else WriteStr(fields[0]) + WriteStrs(fields[1..])
  }

  function Pow256(width: nat): nat { if width == 0 then 1 else 256 * Pow256(width - 1) }

  lemma {:induction false} BigEndianInjective(n: nat, m: nat, width: nat)
    requires n < Pow256(width) && m < Pow256(width)
    requires BigEndian(n, width) == BigEndian(m, width)
    ensures n == m
  {
    if width > 0 {
      var x, y := BigEndian(n, width), BigEndian(m, width);
      assert x[..width - 1] == BigEndian(n / 256, width - 1);
      assert y[..width - 1] == BigEndian(m / 256, width - 1);
      assert x[width - 1] == (n % 256) as char && y[width - 1] == (m % 256) as char;
      BigEndianInjective(n / 256, m / 256, width - 1);
    }
  }

  lemma Pow256Values()
    ensures Pow256(4) == U32 && Pow256(8) == U64
  {
    assert Pow256(2) == 65536;
    assert Pow256(4) == 256 * (256 * Pow256(2));
    assert Pow256(6) == 256 * (256 * Pow256(4));
    assert Pow256(8) == 256 * (256 * Pow256(6));
  }

  lemma SplitAt(a: string, x: string, b: string, y: string)
    requires |a| == |b| && a + x == b + y
    ensures a == b && x == y
  {
    assert a == (a + x)[..|a|] && b == (b + y)[..|b|];
    assert x == (a + x)[|a|..] && y == (b + y)[|b|..];
  }

  lemma U32Injective(n: nat, m: nat, x: string, y: string)
    requires n < U32 && m < U32 && WriteU32(n) + x == WriteU32(m) + y
    ensures n == m && x == y
  {
    hide BigEndian;
    SplitAt(WriteU32(n), x, WriteU32(m), y);
    Pow256Values();
    BigEndianInjective(n, m, 4);
  }

  lemma I64Injective(n: int64, m: int64, x: string, y: string)
    requires WriteI64(n) + x == WriteI64(m) + y
    ensures n == m && x == y
  {
    hide BigEndian;
    SplitAt(WriteI64(n), x, WriteI64(m), y);
    Pow256Values();
    BigEndianInjective((n as int) % U64, (m as int) % U64, 8);
  }

  lemma StrInjective(a: string, b: string, x: string, y: string)
    requires |a| < U32 && |b| < U32 && WriteStr(a) + x == WriteStr(b) + y
    ensures a == b && x == y
  {
    hide WriteU32;
    assert WriteStr(a) + x == WriteU32(|a|) + (a + x);
    assert WriteStr(b) + y == WriteU32(|b|) + (b + y);
    U32Injective(|a|, |b|, a + x, b + y);
    SplitAt(a, x, b, y);
  }

  lemma Associate(u: string, v: string, x: string)
    ensures u + v + x == u + (v + x)
  {
  }

  predicate Short(fields: seq<string>) { forall s <- fields :: |s| < U32 }

  lemma {:induction false} StrsInjective(f: seq<string>, g: seq<string>, x: string, y: string)
    requires |f| == |g| && Short(f) && Short(g)
    requires WriteStrs(f) + x == WriteStrs(g) + y
    ensures f == g && x == y
  {
    if f == [] {
      assert "" + x == x && "" + y == y;
    } else {
      hide WriteStr;
      Associate(WriteStr(f[0]), WriteStrs(f[1..]), x);
      Associate(WriteStr(g[0]), WriteStrs(g[1..]), y);
      StrInjective(f[0], g[0], WriteStrs(f[1..]) + x, WriteStrs(g[1..]) + y);
      StrsInjective(f[1..], g[1..], x, y);
    }
  }

  /** Why lengths must stay below 2^32: longer strings make two different pairs of
      fields encode alike. */
  lemma LengthWrapCollides(b: string)
    requires |b| == U32 && b[U32 - 4..] == WriteU32(0)
    ensures var a := WriteU32(0) + b[..U32 - 4];
            ["", b] != [a, ""] && WriteStrs(["", b]) == WriteStrs([a, ""])
  {
    hide BigEndian;
    var a, zero := WriteU32(0) + b[..U32 - 4], WriteU32(0);
    assert |zero| == 4;
    assert WriteU32(|b|) == zero && WriteU32(|a|) == zero;
    assert ["", b][1..] == [b] && [b][1..] == [] && [a, ""][1..] == [""] && [""][1..] == [];
    assert WriteStrs([b]) == zero + b + "";
    assert WriteStrs([""]) == zero + "" + "";
    assert b == b[..U32 - 4] + zero;
    assert |a| == U32;
  }

  // ----- the canonical bundle ----------------------------------------------------------

  const HASH_VERSION: string := "zeroth-plan-v1"

  function RowFields(r: Row): (f: seq<string>)
    ensures |f| == 8
  {
    [r.op, r.target, r.payload, r.lease, r.precondition, r.key, r.postcondition, r.costEstimate]
  }

  function AllRowFields(rows: seq<Row>): (f: seq<string>)
    ensures |f| == 8 * |rows|
  {
    if rows == [] then [] else RowFields(rows[0]) + AllRowFields(rows[1..])
  }

  function AllCredFields(creds: seq<Credential>): (f: seq<string>)
    ensures |f| == 2 * |creds|
  {
    if creds == [] then [] else [creds[0].provider, creds[0].kind] + AllCredFields(creds[1..])
  }

  predicate RowLess(a: Row, b: Row) { Less(a.target, b.target) }

  predicate CredLess(a: Credential, b: Credential) {
    if a.provider != b.provider then Less(a.provider, b.provider) else Less(a.kind, b.kind)
  }

  function CanonicalRows(rows: seq<Row>): (r: seq<Row>)
    ensures |r| == |rows|
  {
    Sort(rows, RowLess)
  }

  function CanonicalCreds(creds: seq<Credential>): (r: seq<Credential>)
    ensures |r| == |creds|
  {
    Sort(creds, CredLess)
  }

  /** The bytes that are hashed. */
  function Encode(p: Plan): string {
    WriteStr(HASH_VERSION) + (WriteStr(p.summary) + (WriteI64(UnixNano(p.expiresAt)) + (WriteI64(p.costCeiling)
    + (WriteStr(p.scope) + (WriteU32(|p.credentials|) + (WriteStrs(AllCredFields(CanonicalCreds(p.credentials)))
    + (WriteU32(|p.rows|) + WriteStrs(AllRowFields(CanonicalRows(p.rows))))))))))
  }

  /** H stands for hex-encoded SHA-256. */
  function HashOf(p: Plan, H: string -> string): string { H(Encode(p)) }

  /** The buffer of the source, written field by field. */
  method ComputeHash(p: Plan, H: string -> string) returns (h: string)
    ensures h == HashOf(p, H)
  {
    var rows := SortedCopy(p.rows, RowLess);
    var creds := SortedCopy(p.credentials, CredLess);
    hide WriteStr, WriteU32, WriteI64, Sort;
    var buf := "";
    buf := buf + WriteStr(HASH_VERSION);
    buf := buf + WriteStr(p.summary);
    buf := buf + WriteI64(UnixNano(p.expiresAt));
    buf := buf + WriteI64(p.costCeiling);
    buf := buf + WriteStr(p.scope);
    buf := buf + WriteU32(|creds|);
    ghost var head := buf;
    for i := 0 to |creds|
      invariant buf + WriteStrs(AllCredFields(creds[i..])) == head + WriteStrs(AllCredFields(creds))
    {
      CredStep(buf, creds, i);
      buf := buf + WriteStr(creds[i].provider);
      buf := buf + WriteStr(creds[i].kind);
    }
    assert creds[|creds|..] == [] && buf + "" == buf;
    buf := buf + WriteU32(|rows|);
    ghost var mid := buf;
    for i := 0 to |rows|
      invariant buf + WriteStrs(AllRowFields(rows[i..])) == mid + WriteStrs(AllRowFields(rows))
    {
      buf := WriteRow(buf, rows, i);
    }
    assert rows[|rows|..] == [] && buf + "" == buf;
    EncodeAssociates(p, creds, rows);
    h := H(buf);
  }

  method WriteRow(before: string, rows: seq<Row>, i: nat) returns (buf: string)
    requires i < |rows|
    ensures buf + WriteStrs(AllRowFields(rows[i + 1..])) == before + WriteStrs(AllRowFields(rows[i..]))
  {
    hide WriteStr, WriteStrs, AllRowFields, RowFields;
    buf := before;
    var fields := RowFields(rows[i]);
    assert fields[0..] == fields;
    for k := 0 to 8
      invariant buf + WriteStrs(fields[k..]) == before + WriteStrs(fields)
    {
      NextField(buf, fields, k);
      buf := buf + WriteStr(fields[k]);
    }
    RowWritten(before, buf, rows, i);
  }

  lemma NextField(buf: string, fields: seq<string>, k: nat)
    requires k < |fields|
    ensures buf + WriteStr(fields[k]) + WriteStrs(fields[k + 1..]) == buf + WriteStrs(fields[k..])
  {
    hide WriteStr;
    assert fields[k..][1..] == fields[k + 1..];
    Associate(buf, WriteStr(fields[k]), WriteStrs(fields[k + 1..]));
  }

  lemma RowWritten(before: string, buf: string, rows: seq<Row>, i: nat)
    requires i < |rows| && buf + WriteStrs(RowFields(rows[i])[8..]) == before + WriteStrs(RowFields(rows[i]))
    ensures buf + WriteStrs(AllRowFields(rows[i + 1..])) == before + WriteStrs(AllRowFields(rows[i..]))
  {
    var fields, rest := RowFields(rows[i]), AllRowFields(rows[i + 1..]);
    assert fields[8..] == [] && WriteStrs([]) == "" && buf + "" == buf;
    hide WriteStr, WriteStrs, RowFields;
    assert rows[i..][1..] == rows[i + 1..];
    StrsConcat(fields, rest);
    Associate(before, WriteStrs(fields), WriteStrs(rest));
  }

  lemma {:induction false} StrsConcat(f: seq<string>, g: seq<string>)
    ensures WriteStrs(f + g) == WriteStrs(f) + WriteStrs(g)
  {
    hide WriteStr;
    if f == [] {
      assert f + g == g;
    } else {
      assert (f + g)[1..] == f[1..] + g;
      StrsConcat(f[1..], g);
    }
  }

  lemma CredStep(buf: string, creds: seq<Credential>, i: nat)
    requires i < |creds|
    ensures buf + WriteStrs(AllCredFields(creds[i..]))
            == buf + WriteStr(creds[i].provider) + WriteStr(creds[i].kind) + WriteStrs(AllCredFields(creds[i + 1..]))
  {
    hide WriteStr;
    assert creds[i..][1..] == creds[i + 1..];
    var pair := [creds[i].provider, creds[i].kind];
    StrsConcat(pair, AllCredFields(creds[i + 1..]));
    assert pair[1..] == [creds[i].kind] && [creds[i].kind][1..] == [];
  }

  lemma EncodeAssociates(p: Plan, creds: seq<Credential>, rows: seq<Row>)
    requires creds == CanonicalCreds(p.credentials) && rows == CanonicalRows(p.rows)
    ensures Encode(p) == "" + WriteStr(HASH_VERSION) + WriteStr(p.summary) + WriteI64(UnixNano(p.expiresAt)) + WriteI64(p.costCeiling)
                         + WriteStr(p.scope) + WriteU32(|creds|) + WriteStrs(AllCredFields(creds))
                         + WriteU32(|rows|) + WriteStrs(AllRowFields(rows))
  {
    hide WriteStr, WriteU32, WriteI64, WriteStrs, AllCredFields, AllRowFields;
    AssociateNine(WriteStr(HASH_VERSION), WriteStr(p.summary), WriteI64(UnixNano(p.expiresAt)), WriteI64(p.costCeiling), WriteStr(p.scope),
                  WriteU32(|creds|), WriteStrs(AllCredFields(creds)), WriteU32(|rows|), WriteStrs(AllRowFields(rows)));
  }

  lemma AssociateNine(a: string, b: string, c: string, d: string, e: string, f: string, g: string, h: string, i: string)
    ensures a + (b + (c + (d + (e + (f + (g + (h + i))))))) == "" + a + b + c + d + e + f + g + h + i
  {
    assert "" + a == a;
    Associate(a, b, c + (d + (e + (f + (g + (h + i))))));
    Associate(a + b, c, d + (e + (f + (g + (h + i)))));
    Associate(a + b + c, d, e + (f + (g + (h + i))));
    Associate(a + b + c + d, e, f + (g + (h + i)));
    Associate(a + b + c + d + e, f, g + (h + i));
    Associate(a + b + c + d + e + f, g, h + i);
    Associate(a + b + c + d + e + f + g, h, i);
  }

  // ----- what the hash identifies ------------------------------------------------------

  ghost predicate Injective(H: string -> string) {
    forall x, y :: H(x) == H(y) ==> x == y
  }

  /** The lengths the encoding can tell apart. */
  predicate Encodable(p: Plan) {
    && |p.summary| < U32 && |p.scope| < U32
    && |p.credentials| < U32 && |p.rows| < U32
    && (forall c <- p.credentials :: |c.provider| < U32 && |c.kind| < U32)
    && (forall r <- p.rows :: Short(RowFields(r)))
  }

  function TargetIs(target: string): Row -> bool { (r: Row) => r.target == target }

  function OfTarget(rows: seq<Row>, target: string): seq<Row> {
    Filter(rows, TargetIs(target))
  }

  /** Same bundle: constraints equal, credentials equal as multisets, and for every
      target the same rows in the same order. */
  ghost predicate SameBundle(p: Plan, q: Plan) {
    && p.summary == q.summary
    && UnixNano(p.expiresAt) == UnixNano(q.expiresAt)
    && p.costCeiling == q.costCeiling
    && p.scope == q.scope
    && multiset(p.credentials) == multiset(q.credentials)
    && forall t :: OfTarget(p.rows, t) == OfTarget(q.rows, t)
  }

  lemma RowOrder()
    ensures WeakOrder(RowLess)
  {
    forall x: Row, y: Row ensures RowLess(x, y) ==> !RowLess(y, x) {
      LessTotal(x.target, y.target);
    }
    forall x: Row, y: Row, z: Row | RowLess(x, y) && RowLess(y, z) ensures RowLess(x, z) {
      LessTransitive(x.target, y.target, z.target);
    }
    forall x: Row, y: Row, z: Row | RowLess(x, z) ensures RowLess(x, y) || RowLess(y, z) {
      LessTotal(x.target, y.target);
      if Less(y.target, x.target) {
        LessTransitive(y.target, x.target, z.target);
      }
    }
  }

  lemma CredOrder()
    ensures WeakOrder(CredLess)
    ensures forall x, y :: x == y || CredLess(x, y) || CredLess(y, x)
  {
    forall x: Credential, y: Credential
      ensures CredLess(x, y) ==> !CredLess(y, x)
      ensures x == y || CredLess(x, y) || CredLess(y, x)
    {
      LessTotal(x.provider, y.provider);
      LessTotal(x.kind, y.kind);
    }
    forall x: Credential, y: Credential, z: Credential | CredLess(x, y) && CredLess(y, z) ensures CredLess(x, z) {
      CredTransitive(x, y, z);
    }
    forall x: Credential, y: Credential, z: Credential | CredLess(x, z) ensures CredLess(x, y) || CredLess(y, z) {
      if CredLess(y, x) {
        CredTransitive(y, x, z);
      }
    }
  }

  lemma CredTransitive(x: Credential, y: Credential, z: Credential)
    requires CredLess(x, y) && CredLess(y, z)
    ensures CredLess(x, z)
  {
    LessTotal(x.provider, z.provider);
    LessTotal(x.provider, y.provider);
    LessTotal(y.provider, z.provider);
    if x.provider != y.provider && y.provider != z.provider {
      LessTransitive(x.provider, y.provider, z.provider);
    } else if x.provider == y.provider == z.provider {
      LessTransitive(x.kind, y.kind, z.kind);
    }
  }

  /** The canonical rows hold, for every target, that target's rows in draft order. */
  lemma CanonicalKeepsTargets(rows: seq<Row>, target: string)
    ensures OfTarget(CanonicalRows(rows), target) == OfTarget(rows, target)
  {
    forall x: Row, y: Row | TargetIs(target)(x) && TargetIs(target)(y) ensures !RowLess(x, y) {
      LessTotal(x.target, y.target);
    }
    SortIsStable(rows, RowLess, TargetIs(target));
  }

  lemma {:induction false} OfTargetMembers(rows: seq<Row>, target: string)
    ensures forall r :: r in OfTarget(rows, target) <==> r in rows && r.target == target
  {
    if rows != [] {
      OfTargetMembers(rows[1..], target);
      assert rows == [rows[0]] + rows[1..];
    }
  }

  /** The least target of a sorted list is its first. */
  lemma FirstIsLeast(a: seq<Row>, b: seq<Row>)
    requires Sorted(a, RowLess) && Sorted(b, RowLess) && a != [] && b != []
    requires forall t :: OfTarget(a, t) == OfTarget(b, t)
    ensures a[0].target == b[0].target
  {
    OfTargetMembers(a, b[0].target);
    OfTargetMembers(b, b[0].target);
    OfTargetMembers(a, a[0].target);
    OfTargetMembers(b, a[0].target);
    assert b[0] in OfTarget(a, b[0].target) && a[0] in OfTarget(b, a[0].target);
    LessTotal(a[0].target, b[0].target);
    var i :| 0 <= i < |a| && a[i] == b[0];
    var j :| 0 <= j < |b| && b[j] == a[0];
    assert i > 0 ==> !RowLess(a[i], a[0]);
    assert j > 0 ==> !RowLess(b[j], b[0]);
  }

  lemma BothEmpty(a: seq<Row>, b: seq<Row>)
    requires forall t :: OfTarget(a, t) == OfTarget(b, t)
    ensures b != [] ==> a != []
  {
    if b != [] {
      OfTargetMembers(a, b[0].target);
      OfTargetMembers(b, b[0].target);
      assert b[0] in OfTarget(b, b[0].target);
    }
  }

  /** A list sorted by target is determined by its per-target subsequences, so any
      stable sort would produce the same canonical rows. */
  lemma {:induction false} SortedByTargets(a: seq<Row>, b: seq<Row>)
    requires Sorted(a, RowLess) && Sorted(b, RowLess)
    requires forall t :: OfTarget(a, t) == OfTarget(b, t)
    ensures a == b
  {
    BothEmpty(a, b);
    BothEmpty(b, a);
    if a != [] {
      FirstIsLeast(a, b);
      var t0 := a[0].target;
      assert OfTarget(a, t0)[0] == a[0] && OfTarget(b, t0)[0] == b[0];
      forall t ensures OfTarget(a[1..], t) == OfTarget(b[1..], t) {
        assert OfTarget(a, t) == (if t == t0 then [a[0]] else []) + OfTarget(a[1..], t);
        assert OfTarget(b, t) == (if t == t0 then [b[0]] else []) + OfTarget(b[1..], t);
        if t == t0 {
          assert OfTarget(a, t)[1..] == OfTarget(a[1..], t);
          assert OfTarget(b, t)[1..] == OfTarget(b[1..], t);
        }
      }
      SortedByTargets(a[1..], b[1..]);
      assert a == [a[0]] + a[1..] && b == [b[0]] + b[1..];
    }
  }

  lemma FirstInMultiset(a: seq<Credential>, b: seq<Credential>)
    requires Sorted(a, CredLess) && Sorted(b, CredLess) && a != [] && b != []
    requires multiset(a) == multiset(b)
    ensures a[0] == b[0]
  {
    CredOrder();
    assert a[0] in multiset(b) && b[0] in multiset(a);
    var i :| 0 <= i < |a| && a[i] == b[0];
    var j :| 0 <= j < |b| && b[j] == a[0];
    assert i > 0 ==> !CredLess(a[i], a[0]);
    assert j > 0 ==> !CredLess(b[j], b[0]);
  }

  lemma {:induction false} SortedByMultiset(a: seq<Credential>, b: seq<Credential>)
    requires Sorted(a, CredLess) && Sorted(b, CredLess) && multiset(a) == multiset(b)
    ensures a == b
  {
    assert |multiset(a)| == |a| && |multiset(b)| == |b|;
    if a != [] {
      FirstInMultiset(a, b);
      assert a == [a[0]] + a[1..] && b == [b[0]] + b[1..];
      assert multiset(a[1..]) == multiset(a) - multiset{a[0]};
      assert multiset(b[1..]) == multiset(b) - multiset{b[0]};
      SortedByMultiset(a[1..], b[1..]);
    }
  }

  /** Equal bundles hash alike: permuting rows of different targets, or the
      credentials, is the same plan. */
  lemma SameBundleSameEncoding(p: Plan, q: Plan)
    requires SameBundle(p, q)
    ensures Encode(p) == Encode(q)
  {
    hide Sort, WriteStr, WriteU32, WriteI64, WriteStrs, AllRowFields, AllCredFields;
    RowOrder();
    CredOrder();
    SortSorts(p.rows, RowLess);
    SortSorts(q.rows, RowLess);
    SortSorts(p.credentials, CredLess);
    SortSorts(q.credentials, CredLess);
    SortMultiset(p.credentials, CredLess);
    SortMultiset(q.credentials, CredLess);
    forall t ensures OfTarget(CanonicalRows(p.rows), t) == OfTarget(CanonicalRows(q.rows), t) {
      CanonicalKeepsTargets(p.rows, t);
      CanonicalKeepsTargets(q.rows, t);
    }
    SortedByTargets(CanonicalRows(p.rows), CanonicalRows(q.rows));
    SortedByMultiset(CanonicalCreds(p.credentials), CanonicalCreds(q.credentials));
    assert |CanonicalRows(p.rows)| == |p.rows| && |CanonicalRows(q.rows)| == |q.rows|;
    assert |CanonicalCreds(p.credentials)| == |p.credentials| && |CanonicalCreds(q.credentials)| == |q.credentials|;
  }

  lemma {:induction false} RowFieldsInjective(a: seq<Row>, b: seq<Row>)
    requires |a| == |b| && AllRowFields(a) == AllRowFields(b)
    ensures a == b
  {
    if a != [] {
      var f, g := AllRowFields(a), AllRowFields(b);
      assert f[..8] == RowFields(a[0]) && g[..8] == RowFields(b[0]);
      assert f[8..] == AllRowFields(a[1..]) && g[8..] == AllRowFields(b[1..]);
      RowFieldsInjective(a[1..], b[1..]);
      assert RowFields(a[0]) == RowFields(b[0]);
      SameFieldsSameRow(a[0], b[0]);
      assert a == [a[0]] + a[1..] && b == [b[0]] + b[1..];
    }
  }

  lemma SameFieldsSameRow(r: Row, s: Row)
    requires RowFields(r) == RowFields(s)
    ensures r == s
  {
    var f, g := RowFields(r), RowFields(s);
    assert f[0] == g[0] && f[1] == g[1] && f[2] == g[2] && f[3] == g[3];
    assert f[4] == g[4] && f[5] == g[5] && f[6] == g[6] && f[7] == g[7];
  }

  lemma {:induction false} CredFieldsInjective(a: seq<Credential>, b: seq<Credential>)
    requires |a| == |b| && AllCredFields(a) == AllCredFields(b)
    ensures a == b
  {
    if a != [] {
      var f, g := AllCredFields(a), AllCredFields(b);
      assert f[0] == a[0].provider && f[1] == a[0].kind && g[0] == b[0].provider && g[1] == b[0].kind;
      assert f[2..] == AllCredFields(a[1..]) && g[2..] == AllCredFields(b[1..]);
      CredFieldsInjective(a[1..], b[1..]);
      assert a == [a[0]] + a[1..] && b == [b[0]] + b[1..];
    }
  }

  lemma {:induction false} RowFieldsShort(rows: seq<Row>)
    requires forall r <- rows :: Short(RowFields(r))
    ensures Short(AllRowFields(rows))
  {
    if rows != [] {
      hide RowFields;
      RowFieldsShort(rows[1..]);
      assert Short(RowFields(rows[0]));
    }
  }

  lemma {:induction false} CredFieldsShort(creds: seq<Credential>)
    requires forall c <- creds :: |c.provider| < U32 && |c.kind| < U32
    ensures Short(AllCredFields(creds))
  {
    if creds != [] {
      CredFieldsShort(creds[1..]);
      assert creds[0] in creds;
    }
  }

  lemma CanonicalShort(p: Plan)
    requires Encodable(p)
    ensures Short(AllRowFields(CanonicalRows(p.rows)))
    ensures Short(AllCredFields(CanonicalCreds(p.credentials)))
  {
    hide RowFields, Sort;
    SortMultiset(p.rows, RowLess);
    SortMultiset(p.credentials, CredLess);
    forall r | r in CanonicalRows(p.rows) ensures Short(RowFields(r)) {
      assert r in multiset(CanonicalRows(p.rows));
    }
    forall c | c in CanonicalCreds(p.credentials) ensures |c.provider| < U32 && |c.kind| < U32 {
      assert c in multiset(CanonicalCreds(p.credentials));
    }
    RowFieldsShort(CanonicalRows(p.rows));
    CredFieldsShort(CanonicalCreds(p.credentials));
  }

  /** The encoding determines every canonical field. */
  lemma EncodeInjective(p: Plan, q: Plan)
    requires Encodable(p) && Encodable(q) && Encode(p) == Encode(q)
    ensures p.summary == q.summary && UnixNano(p.expiresAt) == UnixNano(q.expiresAt)
    ensures p.costCeiling == q.costCeiling && p.scope == q.scope
    ensures CanonicalCreds(p.credentials) == CanonicalCreds(q.credentials)
    ensures CanonicalRows(p.rows) == CanonicalRows(q.rows)
  {
    hide Sort, WriteStr, WriteU32, WriteI64, WriteStrs, AllRowFields, AllCredFields, Short;
    var pc, qc := CanonicalCreds(p.credentials), CanonicalCreds(q.credentials);
    var pr, qr := CanonicalRows(p.rows), CanonicalRows(q.rows);
    var pt, qt := WriteStrs(AllRowFields(pr)), WriteStrs(AllRowFields(qr));
    var pu, qu := WriteU32(|p.rows|) + pt, WriteU32(|q.rows|) + qt;
    var pd, qd := WriteStrs(AllCredFields(pc)) + pu, WriteStrs(AllCredFields(qc)) + qu;
    var pe, qe := WriteU32(|p.credentials|) + pd, WriteU32(|q.credentials|) + qd;
    var pf, qf := WriteStr(p.scope) + pe, WriteStr(q.scope) + qe;
    var pg, qg := WriteI64(p.costCeiling) + pf, WriteI64(q.costCeiling) + qf;
    var ph, qh := WriteI64(UnixNano(p.expiresAt)) + pg, WriteI64(UnixNano(q.expiresAt)) + qg;
    StrInjective(HASH_VERSION, HASH_VERSION, WriteStr(p.summary) + ph, WriteStr(q.summary) + qh);
    StrInjective(p.summary, q.summary, ph, qh);
    I64Injective(UnixNano(p.expiresAt), UnixNano(q.expiresAt), pg, qg);
    I64Injective(p.costCeiling, q.costCeiling, pf, qf);
    StrInjective(p.scope, q.scope, pe, qe);
    U32Injective(|p.credentials|, |q.credentials|, pd, qd);
    CanonicalShort(p);
    CanonicalShort(q);
    StrsInjective(AllCredFields(pc), AllCredFields(qc), pu, qu);
    CredFieldsInjective(pc, qc);
    U32Injective(|p.rows|, |q.rows|, pt, qt);
    assert pt + "" == pt && qt + "" == qt;
    StrsInjective(AllRowFields(pr), AllRowFields(qr), "", "");
    RowFieldsInjective(pr, qr);
  }

  /** The canonical hash identifies exactly the bundle an operator approves. */
  lemma HashIdentifiesBundle(p: Plan, q: Plan, H: string -> string)
    requires Injective(H) && Encodable(p) && Encodable(q)
    ensures HashOf(p, H) == HashOf(q, H) <==> SameBundle(p, q)
  {
    hide Encode, Sort, OfTarget;
    if SameBundle(p, q) {
      SameBundleSameEncoding(p, q);
    }
    if HashOf(p, H) == HashOf(q, H) {
      EncodeInjective(p, q);
      forall t ensures OfTarget(p.rows, t) == OfTarget(q.rows, t) {
        CanonicalKeepsTargets(p.rows, t);
        CanonicalKeepsTargets(q.rows, t);
      }
      SortMultiset(p.credentials, CredLess);
      SortMultiset(q.credentials, CredLess);
    }
  }

  /** The fields the hash leaves out never change it. */
  lemma HashIgnoresLifecycle(p: Plan, q: Plan, H: string -> string)
    requires p.summary == q.summary && p.expiresAt == q.expiresAt && p.costCeiling == q.costCeiling
    requires p.scope == q.scope && p.credentials == q.credentials && p.rows == q.rows
    ensures HashOf(p, H) == HashOf(q, H)
  {
  }
}
