/** The writer of the audit chain: signing, linking, key rotation, on a store that
    reads records back by time and id (internal/audit/log.go, internal/store/sqlite/audit.go). */
module AuditLog {
  import opened Text
  import opened Sorting
  import opened Policy
  import opened AuditChain

  datatype Entry = Entry(
    action: string, target: string, planHash: string, precondition: string, postcondition: string,
    leaseId: string, approver: string, agentId: string, resourceType: string, resourceId: string)

  const APPROVER_OPERATOR: string := "operator"
  const ACTION_CREATE: string := "agent.create"
  const ACTION_ENROLL: string := "agent.enroll_key"
  const ACTION_ROTATE: string := "agent.rotate_key"

  /** The calls of the signer and the store that may fail. A key write fails before it
      changes anything (CreateKey, RotateKey), or in the file backend after the new key is
      in memory (FlushKeys). */
  datatype Port =
    | ListKeys
    | CreateKey
    | RecoverKey
    | RotateKey
    | FlushKeys
    | RegisterKey
    | LoadKey
    | ReadLast
    | SignDigest
    | StoreRecord

  /** What the clock, the random id and the key generator return in one call, and which
      ports fail during it. */
  datatype Draw = Draw(now: int64, id: string, newPub: string, fails: set<Port>)

  /** sign(pub, digest): the signature made with the secret behind pub. */
  datatype Signing = Signing(c: Crypto, sign: (string, string) -> string)

  /** The audit table in insertion order, the key registry, and each agent's current key. */
  datatype LogState = LogState(records: seq<Record>, registry: seq<Key>, current: map<string, string>)

  const EMPTY: LogState := LogState([], [], map[])

  function Nanos(r: Record): int64 { UnixNano(r.payload.timestamp) }

  /** ORDER BY created_at_unix_nano ASC, id ASC. */
  predicate RecLess(a: Record, b: Record) {
    Nanos(a) < Nanos(b) || (Nanos(a) == Nanos(b) && Less(a.id, b.id))
  }

  /** AuditChain: the whole table, oldest first. */
  function Chain(records: seq<Record>): (r: seq<Record>)
    ensures |r| == |records|
  {
    Sort(records, RecLess)
  }

  /** The hash of the newest record, or empty. */
  function LastHash(records: seq<Record>): string {
    if records == [] then "" else Chain(records)[|records| - 1].hash
  }

  /** The uniqueness the audit table enforces. */
  predicate Conflicts(records: seq<Record>, rec: Record) {
    exists r <- records :: r.id == rec.id || r.payload.prevHash == rec.payload.prevHash || r.hash == rec.hash
  }

  predicate ValidEntry(e: Entry) {
    e.action != "" && e.resourceType != "" && e.resourceId != "" && e.agentId != ""
  }

  /** A key the generator can return: never the zero key, which no signature verifies under. */
  ghost predicate ValidPub(pub: string) {
    IsBytes(pub) && |pub| == PUB_BYTES && exists b <- pub :: b != 0 as char
  }

  function PubHex(pub: string): string {
    if IsBytes(pub) then EncodeHex(pub) else ""
  }

  function SigHex(sig: string): string {
    if IsBytes(sig) then EncodeHex(sig) else ""
  }

  /** The record Append would insert. */
  function Draft(st: LogState, e: Entry, d: Draw, s: Signing): Record
    requires e.agentId in st.current
  {
    var pub := st.current[e.agentId];
    var p := Payload(
      e.action, if e.target == "" then e.resourceId else e.target, e.planHash, e.precondition, e.postcondition,
      e.leaseId, if e.approver == "" then APPROVER_OPERATOR else e.approver, PubHex(pub), LastHash(st.records), At(d.now));
    var sig := s.sign(pub, s.c.H(Canonical(p)));
    Record(d.id, p, ChainHash(p, sig, s.c), SigHex(sig), e.agentId)
  }

  predicate CanAppend(st: LogState, e: Entry, d: Draw, s: Signing) {
    && ValidEntry(e) && e.agentId in st.current && d.id != ""
    && d.fails !! {LoadKey, ReadLast, SignDigest, StoreRecord}
    && !Conflicts(st.records, Draft(st, e, d, s))
  }

  /** appendLocked: None when it returns an error, which leaves the store alone. */
  function Appended(st: LogState, e: Entry, d: Draw, s: Signing): (LogState, Option<Record>) {
    if CanAppend(st, e, d, s) then
      var rec := Draft(st, e, d, s);
      (st.(records := st.records + [rec]), Some(rec))
    else (st, None)
  }

  function KeyEntry(agentId: string, action: string): Entry {
    Entry(action, agentId, "", "", "", "", APPROVER_OPERATOR, agentId, "agent", agentId)
  }

  predicate HasKey(st: LogState, agentId: string) {
    exists k <- st.registry :: k.agentId == agentId
  }

  function AgentKey(agentId: string, pub: string): Key { Key(agentId, PubHex(pub)) }

  /** AppendAgentKey: the public key is the registry's primary key. */
  predicate CanRegister(registry: seq<Key>, k: Key, d: Draw) {
    RegisterKey !in d.fails && !exists x <- registry :: x.pubKey == k.pubKey
  }

  /** A key the signer holds for an agent from now on; `put` when it is new and has to be
      written. */
  datatype Offer = Offer(agentId: string, pub: string, put: bool)

  function KeyOf(o: Offer): Key { AgentKey(o.agentId, o.pub) }

  /** The key is written and reaches the registry. */
  predicate Reaches(registry: seq<Key>, o: Offer, d: Draw) {
    !(o.put && FlushKeys in d.fails) && CanRegister(registry, KeyOf(o), d)
  }

  /** The key of EnsureAgentKey: a new one, or the one that did not reach the registry
      before. */
  function MintedKey(st: LogState, agentId: string, d: Draw): Option<Offer> {
    if CreateKey in d.fails then None
    else if agentId !in st.current then Some(Offer(agentId, d.newPub, true))
    else if RecoverKey in d.fails then None
    else Some(Offer(agentId, st.current[agentId], false))
  }

  function Installed(st: LogState, o: Offer, d: Draw): LogState {
    st.(current := st.current[o.agentId := o.pub],
        registry := if Reaches(st.registry, o, d) then st.registry + [KeyOf(o)] else st.registry)
  }

  /** EnsureAgentKey; the flag says whether it returned without error. */
  function Ensured(st: LogState, agentId: string, created: bool, d: Draw, s: Signing): (LogState, bool) {
    if TrimSpace(agentId) == "" || ListKeys in d.fails then (st, false)
    else if HasKey(st, agentId) then (st, true)
    else
      match MintedKey(st, agentId, d)
      case None => (st, false)
      case Some(o) =>
        var st1 := Installed(st, o, d);
        if !Reaches(st.registry, o, d) then (st1, false)
        else
          var (st2, rec) := Appended(st1, KeyEntry(agentId, if created then ACTION_CREATE else ACTION_ENROLL), d, s);
          (st2, rec.Some?)
  }

  /** RotateAgentKey: the old key signs, then the new one takes over. None is an error,
      even when the record went in. */
  function Rotated(st: LogState, agentId: string, d: Draw, s: Signing): (LogState, Option<Record>) {
    if agentId == "" then (st, None)
    else
      var (st1, rec) := Appended(st, KeyEntry(agentId, ACTION_ROTATE), d, s);
      if rec.None? || RotateKey in d.fails then (st1, None)
      else
        var o := Offer(agentId, d.newPub, true);
        (Installed(st1, o, d), if Reaches(st1.registry, o, d) then rec else None)
  }

  /** One Log per process; its mutex makes each call atomic. */
  class Log {
    var records: seq<Record>
    var registry: seq<Key>
    var current: map<string, string>
    const s: Signing

    ghost function State(): LogState
      reads this
    {
      LogState(records, registry, current)
    }

    constructor (s: Signing)
      ensures State() == EMPTY && this.s == s
    {
      records, registry, current := [], [], map[];
      this.s := s;
    }

    method Append(e: Entry, d: Draw) returns (rec: Option<Record>)
      modifies this`records
      ensures (State(), rec) == Appended(old(State()), e, d, s)
    {
      var st := LogState(records, registry, current);
      if !ValidEntry(e) || e.agentId !in current || LoadKey in d.fails || ReadLast in d.fails {
        return None;
      }
      var r := Draft(st, e, d, s);
      if SignDigest in d.fails || d.id == "" {
        return None;
      }
      if StoreRecord in d.fails || Conflicts(records, r) {
        return None;
      }
      records := records + [r];
      return Some(r);
    }

    /** store.AppendAgentKey. */
    method AppendAgentKey(k: Key, d: Draw) returns (ok: bool)
      modifies this`registry
      ensures ok == CanRegister(old(registry), k, d)
      ensures registry == if ok then old(registry) + [k] else old(registry)
    {
      if RegisterKey in d.fails || exists x <- registry :: x.pubKey == k.pubKey {
        return false;
      }
      registry := registry + [k];
      return true;
    }

    method EnsureAgentKey(agentId: string, created: bool, d: Draw) returns (ok: bool)
      modifies this
      ensures (State(), ok) == Ensured(old(State()), agentId, created, d, s)
    {
      hide Draft, CanAppend, PubHex, TrimSpace, CanRegister;
      if TrimSpace(agentId) == "" || ListKeys in d.fails {
        return false;
      }
      if exists k <- registry :: k.agentId == agentId {
        return true;
      }
      var pub := d.newPub;
      if CreateKey in d.fails {
        return false;
      }
      if agentId in current {
        if RecoverKey in d.fails {
          return false;
        }
        pub := current[agentId];
        assert current == current[agentId := pub];
      } else {
        current := current[agentId := pub];
        if FlushKeys in d.fails {
          return false;
        }
      }
      var registered := AppendAgentKey(AgentKey(agentId, pub), d);
      if !registered {
        return false;
      }
      var rec := Append(KeyEntry(agentId, if created then ACTION_CREATE else ACTION_ENROLL), d);
      return rec.Some?;
    }

    method RotateAgentKey(agentId: string, d: Draw) returns (rec: Option<Record>)
      modifies this
      ensures (State(), rec) == Rotated(old(State()), agentId, d, s)
    {
      hide Draft, CanAppend, PubHex, CanRegister;
      if agentId == "" {
        return None;
      }
      rec := Append(KeyEntry(agentId, ACTION_ROTATE), d);
      if rec.None? || RotateKey in d.fails {
        return None;
      }
      current := current[agentId := d.newPub];
      if FlushKeys in d.fails {
        return None;
      }
      var registered := AppendAgentKey(AgentKey(agentId, d.newPub), d);
      if !registered {
        return None;
      }
    }
  }

  // ----- runs ------------------------------------------------------------------------------

  datatype Step =
    | DoAppend(e: Entry, d: Draw)
    | DoEnsure(agentId: string, created: bool, d: Draw)
    | DoRotate(agentId: string, d: Draw)

  function Exec(st: LogState, step: Step, s: Signing): LogState {
    match step
    case DoAppend(e, d) => Appended(st, e, d, s).0
    case DoEnsure(agentId, created, d) => Ensured(st, agentId, created, d, s).0
    case DoRotate(agentId, d) => Rotated(st, agentId, d, s).0
  }

  function Run(steps: seq<Step>, s: Signing): LogState {
    if steps == [] then EMPTY else Exec(Run(steps[..|steps| - 1], s), steps[|steps| - 1], s)
  }

  /** The key generator returns keys, and the signer signs with them. */
  ghost predicate SoundSigning(s: Signing) {
    forall pub, msg :: ValidPub(pub) ==>
      var sig := s.sign(pub, msg);
      IsBytes(sig) && |sig| == SIG_BYTES && s.c.verify(pub, msg, sig)
  }

  ghost predicate SoundDraws(steps: seq<Step>) {
    forall step <- steps :: ValidPub(step.d.newPub)
  }

  // ----- the invariant -----------------------------------------------------------------------

  ghost predicate Increasing(records: seq<Record>) {
    forall i, j :: 0 <= i < j < |records| ==> RecLess(records[i], records[j])
  }

  /** Either the table reads back in the order it was written, or exactly its last
      record went in behind the newest one, to which it is linked. */
  ghost predicate Shape(records: seq<Record>) {
    var n := |records|;
    || Increasing(records)
    || (n >= 2 && Increasing(records[..n - 1]) && RecLess(records[n - 1], records[n - 2]))
  }

  ghost predicate DistinctIds(records: seq<Record>) {
    forall i, j :: 0 <= i < j < |records| ==> records[i].id != records[j].id
  }

  ghost predicate CurrentKeys(st: LogState) {
    forall a <- st.current :: ValidPub(st.current[a])
  }

  ghost predicate AllLinked(records: seq<Record>) {
    forall i :: 0 <= i < |records| ==> Links(records, i)
  }

  /** The key a record was signed under. */
  function OwnKey(r: Record): Key { Key(r.agentId, r.payload.agentPubKey) }

  /** Everything about the record is in order, its registration aside. */
  predicate Sound(r: Record, c: Crypto) { r.agentId != "" && CheckRecord(r, [OwnKey(r)], c) == None }

  ghost predicate AllSound(records: seq<Record>, c: Crypto) {
    forall r <- records :: Sound(r, c)
  }

  ghost predicate Inv(st: LogState, c: Crypto) {
    && CurrentKeys(st) && AllLinked(st.records) && AllSound(st.records, c)
    && DistinctIds(st.records) && Shape(st.records)
  }

  lemma RecLessTotal(a: Record, b: Record)
    ensures !(RecLess(a, b) && RecLess(b, a))
    ensures a.id != b.id ==> RecLess(a, b) || RecLess(b, a)
  {
    LessTotal(a.id, b.id);
  }

  lemma RecLessTransitive(a: Record, b: Record, x: Record)
    requires RecLess(a, b) && RecLess(b, x)
    ensures RecLess(a, x)
  {
    if Less(a.id, b.id) && Less(b.id, x.id) {
      LessTransitive(a.id, b.id, x.id);
    }
  }

  lemma {:induction false} IncreasingIsSorted(records: seq<Record>)
    requires Increasing(records)
    ensures Chain(records) == records
  {
    if records != [] {
      var n := |records|;
      IncreasingIsSorted(records[..n - 1]);
      if n > 1 {
        assert RecLess(records[n - 2], records[n - 1]);
        RecLessTotal(records[n - 2], records[n - 1]);
      }
      assert records == records[..n - 1] + [records[n - 1]];
    }
  }

  /** In either shape, the record LastHash finds is the newest of the ordered part. */
  lemma NewestOfShape(records: seq<Record>)
    requires Shape(records) && records != []
    ensures Increasing(records) ==> LastHash(records) == records[|records| - 1].hash
    ensures !Increasing(records) ==> |records| >= 2 && LastHash(records) == records[|records| - 2].hash
  {
    var n := |records|;
    if Increasing(records) {
      IncreasingIsSorted(records);
    } else {
      var front := records[..n - 1];
      IncreasingIsSorted(front);
      assert Sort(records, RecLess) == Insert(front, records[n - 1], RecLess);
      assert Insert(front, records[n - 1], RecLess)[n - 1] == front[n - 2];
    }
  }

  lemma IncreasingSnoc(records: seq<Record>, rec: Record)
    requires Increasing(records)
    requires records != [] ==> RecLess(records[|records| - 1], rec)
    ensures Increasing(records + [rec])
  {
    var all := records + [rec];
    forall i, j | 0 <= i < j < |all| ensures RecLess(all[i], all[j]) {
      if j == |records| && i < j - 1 {
        RecLessTransitive(records[i], records[j - 1], rec);
      }
    }
  }

  /** Nothing can be linked behind a record that went in out of order. */
  lemma WedgedConflicts(records: seq<Record>, rec: Record)
    requires Shape(records) && AllLinked(records) && !Increasing(records)
    requires rec.payload.prevHash == LastHash(records)
    ensures Conflicts(records, rec)
  {
    NewestOfShape(records);
    var x := records[|records| - 1];
    assert Links(records, |records| - 1);
    assert x in records && x.payload.prevHash == rec.payload.prevHash;
  }

  lemma ShapeSnoc(records: seq<Record>, rec: Record)
    requires Shape(records) && AllLinked(records)
    requires rec.payload.prevHash == LastHash(records) && !Conflicts(records, rec)
    ensures Shape(records + [rec]) && AllLinked(records + [rec])
  {
    var all, n := records + [rec], |records|;
    if !Increasing(records) {
      WedgedConflicts(records, rec);
    }
    if n > 0 {
      NewestOfShape(records);
      assert records[n - 1] in records;
      RecLessTotal(records[n - 1], rec);
      assert all[..n] == records;
    }
    if n == 0 || RecLess(records[n - 1], rec) {
      IncreasingSnoc(records, rec);
    }
    forall i | 0 <= i < |all| ensures Links(all, i) {
      assert i < n ==> Links(records, i);
    }
  }

  /** A sound record is accepted exactly when its key is registered; so keys added later
      never make it bad: history survives rotation. */
  lemma SoundIffRegistered(r: Record, keys: seq<Key>, c: Crypto)
    requires Sound(r, c)
    ensures CheckRecord(r, keys, c) == None <==> OwnKey(r) in keys
  {
    hide DecodeHex, Canonical;
    var k :| k in [OwnKey(r)] && RegisteredUnder(r, k);
    if exists x <- keys :: RegisteredUnder(r, x) {
      var x :| x in keys && RegisteredUnder(r, x);
      assert x == OwnKey(r);
    }
  }

  lemma PubHexParses(pub: string)
    requires ValidPub(pub)
    ensures DecodeHex(PubHex(pub), PUB_BYTES) == Some(pub) && PubHex(pub) != ""
  {
    HexRoundTrip(pub, PUB_BYTES);
  }

  lemma SigHexParses(sig: string)
    requires IsBytes(sig) && |sig| == SIG_BYTES
    ensures DecodeHex(SigHex(sig), SIG_BYTES) == Some(sig)
  {
    HexRoundTrip(sig, SIG_BYTES);
  }

  lemma DraftIsSound(st: LogState, e: Entry, d: Draw, s: Signing)
    requires SoundSigning(s) && CurrentKeys(st) && e.agentId in st.current && e.agentId != ""
    ensures var rec := Draft(st, e, d, s);
            Sound(rec, s.c) && rec.payload.prevHash == LastHash(st.records) && OwnKey(rec) == AgentKey(e.agentId, st.current[e.agentId])
  {
    hide DecodeHex, Canonical, PubHex, SigHex, LastHash, ValidPub;
    var pub := st.current[e.agentId];
    var rec := Draft(st, e, d, s);
    PubHexParses(pub);
    SigHexParses(s.sign(pub, s.c.H(Canonical(rec.payload))));
    assert RegisteredUnder(rec, OwnKey(rec)) && OwnKey(rec) in [OwnKey(rec)];
  }

  lemma AppendedKeepsInv(st: LogState, e: Entry, d: Draw, s: Signing)
    requires Inv(st, s.c) && SoundSigning(s)
    ensures Inv(Appended(st, e, d, s).0, s.c)
  {
    hide Sound, Draft, ValidPub, LastHash, Shape, AllLinked;
    if CanAppend(st, e, d, s) {
      var rec := Draft(st, e, d, s);
      DraftIsSound(st, e, d, s);
      ShapeSnoc(st.records, rec);
    }
  }

  lemma InstalledKeepsInv(st: LogState, o: Offer, d: Draw, c: Crypto)
    requires Inv(st, c) && ValidPub(o.pub)
    ensures Inv(Installed(st, o, d), c)
  {
    hide Sound, ValidPub, Shape, AllLinked, DistinctIds, Reaches;
  }

  lemma MintedIsValid(st: LogState, agentId: string, d: Draw, c: Crypto)
    requires Inv(st, c) && ValidPub(d.newPub) && MintedKey(st, agentId, d).Some?
    ensures ValidPub(MintedKey(st, agentId, d).value.pub)
  {
    hide ValidPub;
  }

  lemma ExecKeepsInv(st: LogState, step: Step, s: Signing)
    requires Inv(st, s.c) && SoundSigning(s) && ValidPub(step.d.newPub)
    ensures Inv(Exec(st, step, s), s.c)
  {
    hide Appended, Installed, ValidPub, Inv, MintedKey;
    match step
    case DoAppend(e, d) =>
      AppendedKeepsInv(st, e, d, s);
    case DoEnsure(agentId, created, d) =>
      var minted := MintedKey(st, agentId, d);
      if minted.Some? {
        MintedIsValid(st, agentId, d, s.c);
        InstalledKeepsInv(st, minted.value, d, s.c);
        AppendedKeepsInv(Installed(st, minted.value, d), KeyEntry(agentId, if created then ACTION_CREATE else ACTION_ENROLL), d, s);
      }
    case DoRotate(agentId, d) =>
      AppendedKeepsInv(st, KeyEntry(agentId, ACTION_ROTATE), d, s);
      InstalledKeepsInv(Appended(st, KeyEntry(agentId, ACTION_ROTATE), d, s).0, Offer(agentId, d.newPub, true), d, s.c);
  }

  lemma EmptyInv(c: Crypto)
    ensures Inv(EMPTY, c)
  {
  }

  lemma {:induction false} RunKeepsInv(steps: seq<Step>, s: Signing)
    requires SoundSigning(s) && SoundDraws(steps)
    ensures Inv(Run(steps, s), s.c)
  {
    EmptyInv(s.c);
    if steps != [] {
      hide Inv, Exec, SoundSigning;
      var n := |steps|;
      RunKeepsInv(steps[..n - 1], s);
      assert steps[n - 1] in steps;
      ExecKeepsInv(Run(steps[..n - 1], s), steps[n - 1], s);
    }
  }
}
