/** The audit chain: canonical payloads, chain hashes, and the verifier that names
    the broken record (internal/audit/record.go, verify.go). */
module AuditChain {
  import opened Text
  import opened Strings
  import opened Policy
  import opened PlanHash

  // ----- hexadecimal -------------------------------------------------------------------

  function HexValue(c: char): Option<nat> {
    if '0' <= c <= '9' then Some(c as nat - '0' as nat)
    else if 'a' <= c <= 'f' then Some(c as nat - 'a' as nat + 10)
    else if 'A' <= c <= 'F' then Some(c as nat - 'A' as nat + 10)
    else None
  }

  function HexDigit(n: nat): char
    requires n < 16
  {
    if n < 10 then ('0' as nat + n) as char else ('a' as nat + (n - 10)) as char
  }

  predicate IsBytes(s: string) { forall c <- s :: (c as nat) < 256 }

  /** hex.EncodeToString. */
  function EncodeHex(s: string): (r: string)
    requires IsBytes(s)
    ensures |r| == 2 * |s|
  {
    if s == "" then ""
    else
      assert s[0] in s && forall c <- s[1..] :: c in s;
      [HexDigit(s[0] as nat / 16), HexDigit(s[0] as nat % 16)] + EncodeHex(s[1..])
  }

  /** hex.DecodeString. */
  function DecodeHexString(s: string): Option<string> {
    if s == "" then Some("")
    else if |s| == 1 || HexValue(s[0]).None? || HexValue(s[1]).None? then None
    else
      match DecodeHexString(s[2..])
      case None => None
      case Some(rest) =>
        NibblesFit(s[0], s[1]);
        Some([(16 * HexValue(s[0]).value + HexValue(s[1]).value) as char] + rest)
  }

  lemma NibblesFit(a: char, b: char)
    requires HexValue(a).Some? && HexValue(b).Some?
    ensures 16 * HexValue(a).value + HexValue(b).value < 256
  {
  }

  /** The signer's decodeHex: trimmed, and of the wanted length. */
  function DecodeHex(raw: string, want: nat): Option<string> {
    var s := TrimSpace(raw);
    if s == "" then None
    else
      match DecodeHexString(s)
      case None => None
      case Some(b) => if |b| == want then Some(b) else None
  }

  lemma HexDigitValue(n: nat)
    requires n < 16
    ensures HexValue(HexDigit(n)) == Some(n) && !IsSpace(HexDigit(n))
  {
  }

  lemma DecodePair(a: char, b: char, hex: string, tail: string, n: nat)
    requires n < 256 && HexValue(a) == Some(n / 16) && HexValue(b) == Some(n % 16)
    requires DecodeHexString(hex) == Some(tail)
    ensures DecodeHexString([a, b] + hex) == Some([n as char] + tail)
  {
    hide HexValue;
    assert ([a, b] + hex)[2..] == hex;
  }

  lemma {:induction false} DecodeEncode(s: string)
    requires IsBytes(s)
    ensures DecodeHexString(EncodeHex(s)) == Some(s)
    ensures forall c <- EncodeHex(s) :: !IsSpace(c)
  {
    if s != "" {
      hide HexValue, HexDigit, IsSpace;
      assert s[0] in s && forall c <- s[1..] :: c in s;
      var n := s[0] as nat;
      HexDigitValue(n / 16);
      HexDigitValue(n % 16);
      DecodeEncode(s[1..]);
      DecodePair(HexDigit(n / 16), HexDigit(n % 16), EncodeHex(s[1..]), s[1..], n);
      assert s == [s[0]] + s[1..];
    }
  }

  /** Parsing what a key or signature prints gives it back. */
  lemma HexRoundTrip(s: string, want: nat)
    requires IsBytes(s) && |s| == want > 0
    ensures DecodeHex(EncodeHex(s), want) == Some(s)
  {
    DecodeEncode(s);
    var r := EncodeHex(s);
    assert r[0] in r && r[|r| - 1] in r;
    assert TrimSpace(r) == r;
  }

  // ----- payloads, keys, crypto ----------------------------------------------------------

  datatype Payload = Payload(
    action: string, target: string, planHash: string, precondition: string, postcondition: string,
    leaseId: string, approver: string, agentPubKey: string, prevHash: string, timestamp: Time)

  datatype Record = Record(id: string, payload: Payload, hash: string, signature: string, agentId: string)

  datatype Key = Key(agentId: string, pubKey: string)

  /** H: hex-encoded SHA-256. verify: a signature over a digest under a public key. */
  datatype Crypto = Crypto(H: string -> string, verify: (string, string, string) -> bool)

  const AUDIT_VERSION: string := "zeroth-audit-v1"
  const PUB_BYTES: nat := 32
  const SIG_BYTES: nat := 64

  function PayloadFields(p: Payload): (f: seq<string>)
    ensures |f| == 10
  {
    [AUDIT_VERSION, p.action, p.target, p.planHash, p.precondition, p.postcondition,
     p.leaseId, p.approver, p.agentPubKey, p.prevHash]
  }

  function Canonical(p: Payload): string {
    WriteStrs(PayloadFields(p)) + WriteI64(UnixNano(p.timestamp))
  }

  function ChainHash(p: Payload, sig: string, c: Crypto): string { c.H(Canonical(p) + sig) }

  // ----- verification ----------------------------------------------------------------------

  datatype Reason =
    | MissingKey | NotRegistered | BadPublicKey | BadSignature
    | SignatureInvalid | ContentMismatch
    | LeftoverPrev | PrevMismatch

  /** The record that failed, and the one before it when a link is broken. */
  datatype Failure = Failure(record: string, prev: string, reason: Reason)

  predicate RegisteredUnder(r: Record, k: Key) {
    k.pubKey == r.payload.agentPubKey && (r.agentId == "" || k.agentId == r.agentId)
  }

  function CheckRecord(r: Record, keys: seq<Key>, c: Crypto): Option<Reason> {
    if r.payload.agentPubKey == "" then Some(MissingKey)
    else if !exists k <- keys :: RegisteredUnder(r, k) then Some(NotRegistered)
    else
      match DecodeHex(r.payload.agentPubKey, PUB_BYTES)
      case None => Some(BadPublicKey)
      case Some(pub) =>
        match DecodeHex(r.signature, SIG_BYTES)
        case None => Some(BadSignature)
        case Some(sig) =>
          if !c.verify(pub, c.H(Canonical(r.payload)), sig) then Some(SignatureInvalid)
          else if r.hash != ChainHash(r.payload, sig, c) then Some(ContentMismatch)
          else None
  }

  /** records[i..] verify after a record with hash prev and id prevId. */
  function VerifyFrom(records: seq<Record>, i: nat, prev: string, prevId: string, keys: seq<Key>, c: Crypto): Option<Failure>
    requires i <= |records|
    decreases |records| - i
  {
    if i == |records| then None
    else
      var r := records[i];
      if r.payload.prevHash != prev then Some(Failure(r.id, prevId, if i == 0 then LeftoverPrev else PrevMismatch))
      else
        match CheckRecord(r, keys, c)
        case Some(reason) => Some(Failure(r.id, "", reason))
        case None => VerifyFrom(records, i + 1, r.hash, r.id, keys, c)
  }

  function Verify(records: seq<Record>, keys: seq<Key>, c: Crypto): Option<Failure> {
    VerifyFrom(records, 0, "", "", keys, c)
  }

  method VerifyChain(records: seq<Record>, keys: seq<Key>, c: Crypto) returns (failure: Option<Failure>)
    ensures failure == Verify(records, keys, c)
  {
    hide CheckRecord;
    var prev, prevId := "", "";
    for i := 0 to |records|
      invariant Verify(records, keys, c) == VerifyFrom(records, i, prev, prevId, keys, c)
    {
      var r := records[i];
      if r.payload.prevHash != prev {
        return Some(Failure(r.id, prevId, if i == 0 then LeftoverPrev else PrevMismatch));
      }
      var reason := CheckRecord(r, keys, c);
      if reason.Some? {
        return Some(Failure(r.id, "", reason.value));
      }
      prev := r.hash;
      prevId := r.id;
    }
    return None;
  }

  // ----- what verification means ---------------------------------------------------------

  function PrevHashAt(records: seq<Record>, i: nat): string
    requires i <= |records|
  {
    if i == 0 then "" else records[i - 1].hash
  }

  function PrevIdAt(records: seq<Record>, i: nat): string
    requires i <= |records|
  {
    if i == 0 then "" else records[i - 1].id
  }

  predicate Links(records: seq<Record>, i: nat)
    requires i < |records|
  {
    records[i].payload.prevHash == PrevHashAt(records, i)
  }

  predicate Good(records: seq<Record>, keys: seq<Key>, c: Crypto, i: nat)
    requires i < |records|
  {
    Links(records, i) && CheckRecord(records[i], keys, c) == None
  }

  function FailureAt(records: seq<Record>, keys: seq<Key>, c: Crypto, i: nat): Failure
    requires i < |records| && !Good(records, keys, c, i)
  {
    if !Links(records, i) then Failure(records[i].id, PrevIdAt(records, i), if i == 0 then LeftoverPrev else PrevMismatch)
    else Failure(records[i].id, "", CheckRecord(records[i], keys, c).value)
  }

  lemma {:induction false} VerifyFromMeans(records: seq<Record>, i: nat, keys: seq<Key>, c: Crypto) returns (k: nat)
    requires i <= |records|
    ensures i <= k <= |records| && forall j :: i <= j < k ==> Good(records, keys, c, j)
    ensures var r := VerifyFrom(records, i, PrevHashAt(records, i), PrevIdAt(records, i), keys, c);
            if k == |records| then r == None
            else !Good(records, keys, c, k) && r == Some(FailureAt(records, keys, c, k))
    decreases |records| - i
  {
    hide CheckRecord;
    if i == |records| || !Good(records, keys, c, i) {
      k := i;
    } else {
      k := VerifyFromMeans(records, i + 1, keys, c);
    }
  }

  /** A chain is accepted exactly when every record is good, and a refusal names the
      first record that is not, with its fault. */
  lemma VerifyNamesFirstFault(records: seq<Record>, keys: seq<Key>, c: Crypto) returns (k: nat)
    ensures k <= |records| && forall j :: 0 <= j < k ==> Good(records, keys, c, j)
    ensures Verify(records, keys, c) == None <==> k == |records|
    ensures k < |records| ==> !Good(records, keys, c, k) && Verify(records, keys, c) == Some(FailureAt(records, keys, c, k))
  {
    hide CheckRecord;
    k := VerifyFromMeans(records, 0, keys, c);
  }

  lemma VerifyFaultAt(records: seq<Record>, keys: seq<Key>, c: Crypto, k: nat)
    requires k < |records| && !Good(records, keys, c, k) && forall j :: 0 <= j < k ==> Good(records, keys, c, j)
    ensures Verify(records, keys, c) == Some(FailureAt(records, keys, c, k))
  {
    hide CheckRecord, Links;
    var k' := VerifyNamesFirstFault(records, keys, c);
    assert k' == k;
  }

  lemma VerifiedIff(records: seq<Record>, keys: seq<Key>, c: Crypto)
    ensures Verify(records, keys, c) == None <==> forall j :: 0 <= j < |records| ==> Good(records, keys, c, j)
  {
    hide CheckRecord, Links;
    var k := VerifyNamesFirstFault(records, keys, c);
  }

  // ----- binding ---------------------------------------------------------------------------

  /** An ideal hash: no two inputs collide, and it never prints as the empty string. */
  ghost predicate IdealHash(c: Crypto) {
    Injective(c.H) && forall x :: c.H(x) != ""
  }

  predicate ShortPayload(p: Payload) { Short(PayloadFields(p)) }

  /** Everything that is signed. */
  predicate SameSigned(p: Payload, q: Payload) {
    PayloadFields(p) == PayloadFields(q) && UnixNano(p.timestamp) == UnixNano(q.timestamp)
  }

  lemma SameSignedFields(p: Payload, q: Payload)
    requires SameSigned(p, q)
    ensures p.prevHash == q.prevHash && p.(timestamp := Zero) == q.(timestamp := Zero)
  {
    var f, g := PayloadFields(p), PayloadFields(q);
    assert f[1] == g[1] && f[2] == g[2] && f[3] == g[3] && f[4] == g[4] && f[5] == g[5];
    assert f[6] == g[6] && f[7] == g[7] && f[8] == g[8] && f[9] == g[9];
  }

  lemma CanonicalInjective(p: Payload, q: Payload, x: string, y: string)
    requires ShortPayload(p) && ShortPayload(q) && Canonical(p) + x == Canonical(q) + y
    ensures SameSigned(p, q) && x == y
  {
    hide WriteStrs, WriteI64, PayloadFields, Short;
    var f, g := PayloadFields(p), PayloadFields(q);
    Associate(WriteStrs(f), WriteI64(UnixNano(p.timestamp)), x);
    Associate(WriteStrs(g), WriteI64(UnixNano(q.timestamp)), y);
    StrsInjective(f, g, WriteI64(UnixNano(p.timestamp)) + x, WriteI64(UnixNano(q.timestamp)) + y);
    I64Injective(UnixNano(p.timestamp), UnixNano(q.timestamp), x, y);
  }

  function ParsedSignature(r: Record): Option<string> { DecodeHex(r.signature, SIG_BYTES) }

  /** A record's hash commits to its signed payload and its signature: tampering with
      either while keeping the hash is refused. */
  lemma HashBindsRecord(r: Record, s: Record, keys: seq<Key>, keys': seq<Key>, c: Crypto)
    requires IdealHash(c) && ShortPayload(r.payload) && ShortPayload(s.payload)
    requires CheckRecord(r, keys, c) == None && CheckRecord(s, keys', c) == None
    requires r.hash == s.hash
    ensures SameSigned(r.payload, s.payload) && ParsedSignature(r) == ParsedSignature(s)
  {
    hide Canonical, DecodeHex, Short;
    var x, y := ParsedSignature(r).value, ParsedSignature(s).value;
    CanonicalInjective(r.payload, s.payload, x, y);
  }

  lemma CheckedHashNotEmpty(r: Record, keys: seq<Key>, c: Crypto)
    requires IdealHash(c) && CheckRecord(r, keys, c) == None
    ensures r.hash != ""
  {
    hide Canonical, DecodeHex;
  }

  ghost predicate Verified(records: seq<Record>, keys: seq<Key>, c: Crypto) {
    && Verify(records, keys, c) == None
    && forall r <- records :: ShortPayload(r.payload)
  }

  lemma VerifiedPrefix(records: seq<Record>, n: nat, keys: seq<Key>, c: Crypto)
    requires Verified(records, keys, c) && n <= |records|
    ensures Verified(records[..n], keys, c)
  {
    hide CheckRecord, ShortPayload, Verify;
    VerifiedIff(records, keys, c);
    VerifiedIff(records[..n], keys, c);
    forall j | 0 <= j < n ensures Good(records[..n], keys, c, j) {
      assert Good(records, keys, c, j);
    }
  }

  /** The last hash of a verified chain commits to the whole chain. */
  lemma {:induction false} LastHashBindsChain(a: seq<Record>, b: seq<Record>, keysA: seq<Key>, keysB: seq<Key>, c: Crypto)
    requires IdealHash(c) && Verified(a, keysA, c) && Verified(b, keysB, c)
    requires a != [] && b != [] && a[|a| - 1].hash == b[|b| - 1].hash
    ensures |a| == |b|
    ensures forall i :: 0 <= i < |a| ==>
              SameSigned(a[i].payload, b[i].payload) && ParsedSignature(a[i]) == ParsedSignature(b[i]) && a[i].hash == b[i].hash
    decreases |a|
  {
    hide CheckRecord, ShortPayload, Verify, SameSigned, ParsedSignature;
    var n, m := |a| - 1, |b| - 1;
    VerifiedIff(a, keysA, c);
    VerifiedIff(b, keysB, c);
    assert Good(a, keysA, c, n) && Good(b, keysB, c, m);
    HashBindsRecord(a[n], b[m], keysA, keysB, c);
    SameSignedFields(a[n].payload, b[m].payload);
    if n > 0 {
      assert Good(a, keysA, c, n - 1);
      CheckedHashNotEmpty(a[n - 1], keysA, c);
    }
    if m > 0 {
      assert Good(b, keysB, c, m - 1);
      CheckedHashNotEmpty(b[m - 1], keysB, c);
    }
    if n > 0 && m > 0 {
      VerifiedPrefix(a, n, keysA, c);
      VerifiedPrefix(b, m, keysB, c);
      LastHashBindsChain(a[..n], b[..m], keysA, keysB, c);
      forall i | 0 <= i < |a|
        ensures SameSigned(a[i].payload, b[i].payload) && ParsedSignature(a[i]) == ParsedSignature(b[i]) && a[i].hash == b[i].hash
      {
        if i < n {
          assert a[..n][i] == a[i] && b[..m][i] == b[i];
        }
      }
    }
  }

  /** No hash occurs twice in a verified chain. */
  lemma HashesDistinct(a: seq<Record>, keys: seq<Key>, c: Crypto, i: nat, j: nat)
    requires IdealHash(c) && Verified(a, keys, c) && i < |a| && j < |a|
    ensures a[i].hash == a[j].hash ==> i == j
  {
    hide CheckRecord, ShortPayload, Verify, SameSigned, ParsedSignature, Verified;
    VerifiedPrefix(a, i + 1, keys, c);
    VerifiedPrefix(a, j + 1, keys, c);
    if a[i].hash == a[j].hash {
      LastHashBindsChain(a[..i + 1], a[..j + 1], keys, keys, c);
    }
  }

  lemma VerifiedGood(a: seq<Record>, keys: seq<Key>, c: Crypto, i: nat)
    requires Verified(a, keys, c) && i < |a|
    ensures Good(a, keys, c, i)
  {
    hide CheckRecord, ShortPayload, Verify, Good;
    VerifiedIff(a, keys, c);
  }

  /** Deleting records i..j goes unnoticed exactly when nothing is left after them;
      otherwise the verifier names the first record after the gap, and the record
      before the gap as its predecessor. */
  lemma DeletionIsLocated(a: seq<Record>, keys: seq<Key>, c: Crypto, i: nat, j: nat)
    requires IdealHash(c) && Verified(a, keys, c) && i < j <= |a|
    ensures Verify(a[..i] + a[j..], keys, c) ==
            if j == |a| then None
            else Some(Failure(a[j].id, PrevIdAt(a, i), if i == 0 then LeftoverPrev else PrevMismatch))
  {
    hide CheckRecord, ShortPayload, Verify, Verified;
    var cut := a[..i] + a[j..];
    forall k | 0 <= k < i ensures Good(cut, keys, c, k) {
      VerifiedGood(a, keys, c, k);
    }
    if j == |a| {
      VerifiedIff(cut, keys, c);
    } else {
      VerifiedGood(a, keys, c, j);
      VerifiedGood(a, keys, c, j - 1);
      CheckedHashNotEmpty(a[j - 1], keys, c);
      if i > 0 {
        HashesDistinct(a, keys, c, i - 1, j - 1);
      }
      assert cut[i] == a[j];
      assert !Links(cut, i);
      VerifyFaultAt(cut, keys, c, i);
    }
  }

  // ----- acceptance, said of the records alone --------------------------------------------------

  /** Some registered key of the record's agent made its signature, and the hash is that of
      what was signed together with the signature. */
  ghost predicate Endorsed(r: Record, keys: seq<Key>, c: Crypto) {
    && (exists k :: k in keys && k.pubKey == r.payload.agentPubKey && (r.agentId == "" || k.agentId == r.agentId))
    && exists pub, sig :: SignedBy(r, c, pub, sig)
  }

  predicate SignedBy(r: Record, c: Crypto, pub: string, sig: string) {
    && DecodeHex(r.payload.agentPubKey, 32) == Some(pub) && DecodeHex(r.signature, 64) == Some(sig)
    && c.verify(pub, c.H(Canonical(r.payload)), sig)
    && r.hash == c.H(Canonical(r.payload) + sig)
  }

  ghost predicate KeyKnown(r: Record, keys: seq<Key>) {
    r.payload.agentPubKey != "" && exists k :: k in keys && k.pubKey == r.payload.agentPubKey && (r.agentId == "" || k.agentId == r.agentId)
  }

  /** What is wrong with a record that is not endorsed. */
  ghost predicate FaultOf(r: Record, keys: seq<Key>, c: Crypto, reason: Reason) {
    var pub, sig := DecodeHex(r.payload.agentPubKey, 32), DecodeHex(r.signature, 64);
    match reason
    case MissingKey => r.payload.agentPubKey == ""
    case NotRegistered => r.payload.agentPubKey != "" && !KeyKnown(r, keys)
    case BadPublicKey => KeyKnown(r, keys) && pub == None
    case BadSignature => KeyKnown(r, keys) && pub.Some? && sig == None
    case SignatureInvalid =>
      KeyKnown(r, keys) && pub.Some? && sig.Some? && !c.verify(pub.value, c.H(Canonical(r.payload)), sig.value)
    case ContentMismatch =>
      && KeyKnown(r, keys) && pub.Some? && sig.Some? && c.verify(pub.value, c.H(Canonical(r.payload)), sig.value)
      && r.hash != c.H(Canonical(r.payload) + sig.value)
    case _ => false
  }

  lemma NoKeyInNothing(want: nat)
    ensures DecodeHex("", want) == None
  {
    assert TrimLeft("") == "" && TrimRight("") == "";
  }

  lemma CheckMeans(r: Record, keys: seq<Key>, c: Crypto)
    ensures CheckRecord(r, keys, c) == None <==> Endorsed(r, keys, c)
    ensures forall reason :: CheckRecord(r, keys, c) == Some(reason) <==> FaultOf(r, keys, c, reason)
  {
    hide Canonical, DecodeHex;
    NoKeyInNothing(32);
    assert (exists k <- keys :: RegisteredUnder(r, k)) <==>
      exists k :: k in keys && k.pubKey == r.payload.agentPubKey && (r.agentId == "" || k.agentId == r.agentId);
    if CheckRecord(r, keys, c) == None {
      assert SignedBy(r, c, DecodeHex(r.payload.agentPubKey, 32).value, DecodeHex(r.signature, 64).value);
    }
  }

  predicate FollowsOn(records: seq<Record>, i: nat)
    requires i < |records|
  {
    records[i].payload.prevHash == if i == 0 then "" else records[i - 1].hash
  }

  /** The verifier accepts exactly the chains in which every record is linked to the one
      before and carries a valid signature by a registered key of its agent. */
  lemma AcceptedIff(records: seq<Record>, keys: seq<Key>, c: Crypto)
    ensures Verify(records, keys, c) == None <==>
            forall i :: 0 <= i < |records| ==> FollowsOn(records, i) && Endorsed(records[i], keys, c)
  {
    VerifiedIff(records, keys, c);
    hide CheckRecord, Endorsed, Verify;
    forall i | 0 <= i < |records| ensures Good(records, keys, c, i) <==> FollowsOn(records, i) && Endorsed(records[i], keys, c) {
      CheckMeans(records[i], keys, c);
    }
  }

  /** Record k is the first that is not linked or not endorsed, and this is its fault. */
  ghost predicate FirstFaultAt(records: seq<Record>, keys: seq<Key>, c: Crypto, k: nat, f: Failure) {
    && k < |records| && f.record == records[k].id
    && (forall i :: 0 <= i < k ==> FollowsOn(records, i) && Endorsed(records[i], keys, c))
    && (if FollowsOn(records, k) then f.prev == "" && FaultOf(records[k], keys, c, f.reason)
        else if k == 0 then f.prev == "" && f.reason == LeftoverPrev
        else f.prev == records[k - 1].id && f.reason == PrevMismatch)
  }

  /** And a refusal names the first record at fault, with its fault. */
  lemma RefusedIff(records: seq<Record>, keys: seq<Key>, c: Crypto, f: Failure)
    ensures Verify(records, keys, c) == Some(f) <==> exists k: nat :: FirstFaultAt(records, keys, c, k, f)
  {
    hide CheckRecord, Endorsed, FaultOf, Verify;
    forall i: nat | i < |records| ensures Good(records, keys, c, i) <==> FollowsOn(records, i) && Endorsed(records[i], keys, c) {
      CheckMeans(records[i], keys, c);
    }
    forall k: nat | FirstFaultAt(records, keys, c, k, f) ensures Verify(records, keys, c) == Some(f) {
      CheckMeans(records[k], keys, c);
      assert !Good(records, keys, c, k);
      VerifyFaultAt(records, keys, c, k);
    }
    var k := VerifyNamesFirstFault(records, keys, c);
    if Verify(records, keys, c) == Some(f) {
      CheckMeans(records[k], keys, c);
      assert FirstFaultAt(records, keys, c, k, f);
    }
  }

  lemma ForgedFault(r: Record, keys: seq<Key>, c: Crypto, signature: string, sig: string)
    requires Endorsed(r, keys, c) && DecodeHex(signature, 64) == Some(sig)
    requires forall pub :: DecodeHex(r.payload.agentPubKey, 32) == Some(pub) ==> !c.verify(pub, c.H(Canonical(r.payload)), sig)
    ensures FaultOf(r.(signature := signature), keys, c, SignatureInvalid)
  {
    NoKeyInNothing(32);
    hide DecodeHex, Canonical;
  }

  /** A signature that does not verify is found where it stands. */
  lemma ForgedSignatureNamed(records: seq<Record>, keys: seq<Key>, c: Crypto, i: nat, signature: string, sig: string)
    requires Verify(records, keys, c) == None && i < |records| && DecodeHex(signature, 64) == Some(sig)
    requires forall pub :: DecodeHex(records[i].payload.agentPubKey, 32) == Some(pub) ==> !c.verify(pub, c.H(Canonical(records[i].payload)), sig)
    ensures Verify(records[i := records[i].(signature := signature)], keys, c) == Some(Failure(records[i].id, "", SignatureInvalid))
  {
    hide Verify, Endorsed, FaultOf, DecodeHex, Canonical;
    AcceptedIff(records, keys, c);
    assert FollowsOn(records, i) && Endorsed(records[i], keys, c);
    ForgedFault(records[i], keys, c, signature, sig);
    FaultNamed(records, keys, c, i, records[i].(signature := signature), SignatureInvalid);
  }

  lemma FaultNamed(records: seq<Record>, keys: seq<Key>, c: Crypto, i: nat, r: Record, reason: Reason)
    requires Verify(records, keys, c) == None && i < |records| && r.payload == records[i].payload && FaultOf(r, keys, c, reason)
    ensures Verify(records[i := r], keys, c) == Some(Failure(r.id, "", reason))
  {
    hide Verify, Endorsed, FaultOf;
    var changed, f := records[i := r], Failure(r.id, "", reason);
    AcceptedIff(records, keys, c);
    forall j | 0 <= j < i ensures FollowsOn(changed, j) && Endorsed(changed[j], keys, c) {
      assert FollowsOn(records, j) && Endorsed(records[j], keys, c);
    }
    assert FollowsOn(records, i);
    assert FirstFaultAt(changed, keys, c, i, f);
    RefusedIff(changed, keys, c, f);
  }

  /** So is a record whose signed contents were changed while its hash was kept. */
  lemma TamperedRecordNamed(records: seq<Record>, keys: seq<Key>, c: Crypto, i: nat, r: Record)
    requires IdealHash(c) && Verified(records, keys, c) && i < |records| && ShortPayload(r.payload)
    requires r.hash == records[i].hash && r.id == records[i].id && !SameSigned(r.payload, records[i].payload)
    ensures var f := Verify(records[i := r], keys, c); f.Some? && f.value.record == records[i].id
  {
    hide CheckRecord, ShortPayload, Verify, SameSigned;
    var changed := records[i := r];
    forall j | 0 <= j < i ensures Good(changed, keys, c, j) {
      VerifiedGood(records, keys, c, j);
    }
    VerifiedGood(records, keys, c, i);
    if Good(changed, keys, c, i) {
      HashBindsRecord(r, records[i], keys, keys, c);
    }
    VerifyFaultAt(changed, keys, c, i);
  }

  // ----- which strings are read as bytes ----------------------------------------------------------

  predicate Nibble(c: char, v: nat) { v < 16 && c in {"0123456789abcdef"[v], "0123456789ABCDEF"[v]} }

  /** Two hexadecimal digits a byte, high half first. */
  predicate HexOf(hex: string, bytes: string) {
    if hex == "" || bytes == "" then hex == bytes
    else
      && |hex| >= 2 && (bytes[0] as nat) < 256
      && Nibble(hex[0], bytes[0] as nat / 16) && Nibble(hex[1], bytes[0] as nat % 16)
      && HexOf(hex[2..], bytes[1..])
  }

  lemma NibbleIff(c: char, v: nat)
    ensures HexValue(c) == Some(v) <==> Nibble(c, v)
  {
  }

  lemma NibblePair(a: char, b: char, n: nat)
    requires n < 256
    ensures HexValue(a).Some? && HexValue(b).Some? && 16 * HexValue(a).value + HexValue(b).value == n <==> Nibble(a, n / 16) && Nibble(b, n % 16)
  {
    hide HexValue, Nibble;
    NibbleIff(a, n / 16);
    NibbleIff(b, n % 16);
    if HexValue(a).Some? && HexValue(b).Some? {
      NibbleIff(a, HexValue(a).value);
      NibbleIff(b, HexValue(b).value);
      NibbleRange(a, HexValue(a).value);
      NibbleRange(b, HexValue(b).value);
    }
  }

  lemma NibbleRange(c: char, v: nat)
    ensures Nibble(c, v) ==> v < 16
  {
  }

  lemma {:induction false} HexStringIff(hex: string, bytes: string)
    ensures DecodeHexString(hex) == Some(bytes) <==> HexOf(hex, bytes)
  {
    hide HexValue, Nibble;
    if |hex| >= 2 && bytes != "" {
      HexStringIff(hex[2..], bytes[1..]);
      assert bytes == [bytes[0]] + bytes[1..];
      if HexValue(hex[0]).Some? && HexValue(hex[1]).Some? {
        NibblesFit(hex[0], hex[1]);
      }
      if (bytes[0] as nat) < 256 {
        NibblePair(hex[0], hex[1], bytes[0] as nat);
      }
    }
  }

  /** A key or signature is read from hexadecimal digits in either case, `want` bytes of
      them, with white space around them, and from nothing else. */
  lemma DecodeHexIff(raw: string, want: nat, bytes: string)
    requires want > 0
    ensures DecodeHex(raw, want) == Some(bytes) <==>
            |bytes| == want && exists pre, hex, post :: raw == pre + hex + post && Blank(pre) && Blank(post) && HexOf(hex, bytes)
  {
    hide TrimSpace, HexOf, DecodeHexString, Blank;
    var pre, post := TrimSpaceMeans(raw);
    var s := TrimSpace(raw);
    HexStringIff(s, bytes);
    NoHex(bytes);
    forall pre', hex, post' | raw == pre' + hex + post' && Blank(pre') && Blank(post') && HexOf(hex, bytes) ensures hex == s {
      HexIsTight(hex, bytes);
      TrimSpaceOf(pre', hex, post');
    }
  }

  lemma NoHex(bytes: string)
    ensures HexOf("", bytes) <==> bytes == ""
  {
  }

  lemma NibbleIsVisible(c: char, v: nat)
    ensures Nibble(c, v) ==> !White(c)
  {
  }

  lemma {:induction false} HexIsTight(hex: string, bytes: string)
    requires HexOf(hex, bytes)
    ensures Tight(hex)
  {
    if hex != "" {
      NibbleIsVisible(hex[0], bytes[0] as nat / 16);
      NibbleIsVisible(hex[1], bytes[0] as nat % 16);
      HexIsTight(hex[2..], bytes[1..]);
    }
  }
}
