/** What a reader of the audit table sees after any run of the writer: which logs verify,
    and the two ways in which one stops verifying (internal/audit/log.go,
    internal/audit/verify.go, internal/store/sqlite/audit.go). */
module AuditRuns {
  import opened Text
  import opened Sorting
  import opened Policy
  import opened PlanHash
  import opened AuditChain
  import opened AuditLog

  // ----- keys that did not reach the registry -------------------------------------------------------

  /** The key a step leaves the signer holding, meant for the registry, if it gets that far. */
  function Offered(st: LogState, step: Step, s: Signing): Option<Offer> {
    match step
    case DoAppend(_, _) => None
    case DoEnsure(agentId, _, d) =>
      if TrimSpace(agentId) == "" || ListKeys in d.fails || HasKey(st, agentId) then None
      else MintedKey(st, agentId, d)
    case DoRotate(agentId, d) =>
      if agentId == "" || Appended(st, KeyEntry(agentId, ACTION_ROTATE), d, s).1.None? || RotateKey in d.fails then None
      else Some(Offer(agentId, d.newPub, true))
  }

  /** Step i leaves the signer holding key k, which it did not get into the registry: the
      key could not be written, or its registration failed. */
  ghost predicate RegistrationFails(steps: seq<Step>, i: nat, k: Key, s: Signing) {
    i < |steps| &&
    var offered := Offered(Run(steps[..i], s), steps[i], s);
    offered.Some? && KeyOf(offered.value) == k && !Reaches(Run(steps[..i], s).registry, offered.value, steps[i].d)
  }

  /** Step j stores a record signed under k. */
  ghost predicate SignsUnder(steps: seq<Step>, j: nat, k: Key, s: Signing) {
    j < |steps| &&
    var before, after := Run(steps[..j], s).records, Run(steps[..j + 1], s).records;
    |after| == |before| + 1 && OwnKey(after[|before|]) == k
  }

  /** Some record was signed under a key that had not reached the registry and never did
      later. */
  ghost predicate Orphaned(steps: seq<Step>, s: Signing) {
    exists i: nat, j: nat, k ::
      i < j && RegistrationFails(steps, i, k, s) && SignsUnder(steps, j, k, s) && k !in Run(steps, s).registry
  }

  lemma ExecGrows(st: LogState, step: Step, s: Signing)
    ensures var st' := Exec(st, step, s);
            st.records <= st'.records && |st'.records| <= |st.records| + 1 && st.registry <= st'.registry
  {
    hide Draft, CanAppend, PubHex, Reaches, TrimSpace, HasKey;
  }

  lemma RunSnoc(steps: seq<Step>, n: nat, s: Signing)
    requires n < |steps|
    ensures Run(steps[..n + 1], s) == Exec(Run(steps[..n], s), steps[n], s)
  {
    assert steps[..n + 1][..n] == steps[..n];
  }

  lemma {:induction false} RunGrows(steps: seq<Step>, n: nat, m: nat, s: Signing)
    requires n <= m <= |steps|
    ensures Run(steps[..n], s).records <= Run(steps[..m], s).records
    ensures Run(steps[..n], s).registry <= Run(steps[..m], s).registry
    decreases m
  {
    hide Exec, Run;
    if n < m {
      RunGrows(steps, n, m - 1, s);
      RunSnoc(steps, m - 1, s);
      ExecGrows(Run(steps[..m - 1], s), steps[m - 1], s);
    }
  }

  /** Where keys come from: an agent keeps its key or gets the one offered; a record is
      signed under the agent's key, or under the one just registered. */
  lemma ExecKeys(st: LogState, step: Step, s: Signing)
    requires SoundSigning(s) && CurrentKeys(st) && ValidPub(step.d.newPub)
    ensures var st', offered := Exec(st, step, s), Offered(st, step, s);
            && (forall a <- st'.current ::
                  (a in st.current && st'.current[a] == st.current[a]) || (offered.Some? && KeyOf(offered.value) == AgentKey(a, st'.current[a])))
            && (offered.Some? && Reaches(st.registry, offered.value, step.d) ==> KeyOf(offered.value) in st'.registry)
            && (|st'.records| == |st.records| + 1 ==>
                  var k := OwnKey(st'.records[|st.records|]);
                  (exists a <- st.current :: k == AgentKey(a, st.current[a])) || k in st'.registry)
  {
    hide Draft, PubHex, Reaches, ValidPub, Sound, SoundSigning, LastHash, Conflicts, MintedKey;
    match step
    case DoAppend(e, d) =>
      if CanAppend(st, e, d, s) {
        DraftIsSound(st, e, d, s);
      }
    case DoEnsure(agentId, created, d) =>
      var minted := MintedKey(st, agentId, d);
      if minted.Some? {
        MintedKeyIsValid(st, agentId, d);
        var st1, e := Installed(st, minted.value, d), KeyEntry(agentId, if created then ACTION_CREATE else ACTION_ENROLL);
        if CanAppend(st1, e, d, s) {
          DraftIsSound(st1, e, d, s);
        }
      }
    case DoRotate(agentId, d) =>
      var e := KeyEntry(agentId, ACTION_ROTATE);
      if CanAppend(st, e, d, s) {
        DraftIsSound(st, e, d, s);
      }
  }

  lemma MintedKeyIsValid(st: LogState, agentId: string, d: Draw)
    requires CurrentKeys(st) && ValidPub(d.newPub) && MintedKey(st, agentId, d).Some?
    ensures ValidPub(MintedKey(st, agentId, d).value.pub)
  {
    hide ValidPub;
  }

  /** The key is registered after n steps, or did not reach the registry in one of them. */
  ghost predicate Accounted(steps: seq<Step>, n: nat, k: Key, s: Signing)
    requires n <= |steps|
  {
    k in Run(steps[..n], s).registry || exists i: nat :: i < n && RegistrationFails(steps, i, k, s)
  }

  /** Or a record was signed under it after that. */
  ghost predicate OrphanBy(steps: seq<Step>, n: nat, k: Key, s: Signing)
    requires n <= |steps|
  {
    exists i: nat, j: nat :: i < j < n && RegistrationFails(steps, i, k, s) && SignsUnder(steps, j, k, s)
  }

  lemma AccountedLater(steps: seq<Step>, n: nat, k: Key, s: Signing)
    requires n < |steps| && Accounted(steps, n, k, s)
    ensures Accounted(steps, n + 1, k, s)
  {
    hide RegistrationFails, Run;
    RunGrows(steps, n, n + 1, s);
  }

  lemma {:induction false} KeysAccounted(steps: seq<Step>, n: nat, s: Signing)
    requires SoundSigning(s) && SoundDraws(steps) && n <= |steps|
    ensures var st := Run(steps[..n], s);
            && (forall a <- st.current :: Accounted(steps, n, AgentKey(a, st.current[a]), s))
            && (forall r <- st.records :: OwnKey(r) in st.registry || OrphanBy(steps, n, OwnKey(r), s))
    decreases n
  {
    if n > 0 {
      var m := n - 1;
      KeysAccounted(steps, m, s);
      KeysStep(steps, m, s);
    }
  }

  lemma KeysStep(steps: seq<Step>, m: nat, s: Signing)
    requires SoundSigning(s) && SoundDraws(steps) && m < |steps|
    requires var st := Run(steps[..m], s);
             && (forall a <- st.current :: Accounted(steps, m, AgentKey(a, st.current[a]), s))
             && (forall r <- st.records :: OwnKey(r) in st.registry || OrphanBy(steps, m, OwnKey(r), s))
    ensures var st' := Run(steps[..m + 1], s);
            && (forall a <- st'.current :: Accounted(steps, m + 1, AgentKey(a, st'.current[a]), s))
            && (forall r <- st'.records :: OwnKey(r) in st'.registry || OrphanBy(steps, m + 1, OwnKey(r), s))
  {
    var st, st' := Run(steps[..m], s), Run(steps[..m + 1], s);
    RunSnoc(steps, m, s);
    PrefixKeepsInv(steps, m, s);
    ExecKeys(st, steps[m], s);
    ExecGrows(st, steps[m], s);
    hide Run, Exec, Offered, Inv, SoundSigning, SoundDraws, PubHex, Reaches;
    forall a | a in st'.current ensures Accounted(steps, m + 1, AgentKey(a, st'.current[a]), s) {
      var k := AgentKey(a, st'.current[a]);
      if a in st.current && st'.current[a] == st.current[a] {
        AccountedLater(steps, m, k, s);
      } else if k !in st'.registry {
        assert RegistrationFails(steps, m, k, s);
      }
    }
    forall r | r in st'.records ensures OwnKey(r) in st'.registry || OrphanBy(steps, m + 1, OwnKey(r), s) {
      RecordStep(steps, m, s, r);
    }
  }

  lemma RecordStep(steps: seq<Step>, m: nat, s: Signing, r: Record)
    requires m < |steps| && r in Run(steps[..m + 1], s).records
    requires var st, st' := Run(steps[..m], s), Run(steps[..m + 1], s);
             && st.records <= st'.records && |st'.records| <= |st.records| + 1 && st.registry <= st'.registry
             && (forall a <- st.current :: Accounted(steps, m, AgentKey(a, st.current[a]), s))
             && (forall x <- st.records :: OwnKey(x) in st.registry || OrphanBy(steps, m, OwnKey(x), s))
             && (|st'.records| == |st.records| + 1 ==>
                   var k := OwnKey(st'.records[|st.records|]);
                   (exists a <- st.current :: k == AgentKey(a, st.current[a])) || k in st'.registry)
    ensures var st' := Run(steps[..m + 1], s); OwnKey(r) in st'.registry || OrphanBy(steps, m + 1, OwnKey(r), s)
  {
    hide Run, RegistrationFails, PubHex;
    var st, st' := Run(steps[..m], s), Run(steps[..m + 1], s);
    if r !in st.records {
      assert r == st'.records[|st.records|];
      assert SignsUnder(steps, m, OwnKey(r), s);
    }
  }

  lemma PrefixKeepsInv(steps: seq<Step>, n: nat, s: Signing)
    requires SoundSigning(s) && SoundDraws(steps) && n <= |steps|
    ensures Inv(Run(steps[..n], s), s.c)
  {
    hide Inv, Run, SoundSigning;
    RunKeepsInv(steps[..n], s);
  }

  /** Every record's key is registered. */
  predicate AllRegistered(st: LogState) { forall r <- st.records :: OwnKey(r) in st.registry }

  lemma RegisteredIffNotOrphaned(steps: seq<Step>, s: Signing)
    requires SoundSigning(s) && SoundDraws(steps)
    ensures AllRegistered(Run(steps, s)) <==> !Orphaned(steps, s)
  {
    hide Run, SoundSigning, SoundDraws, RegistrationFails;
    var n := |steps|;
    assert steps[..n] == steps;
    KeysAccounted(steps, n, s);
    if Orphaned(steps, s) {
      var i: nat, j: nat, k :| i < j && RegistrationFails(steps, i, k, s) && SignsUnder(steps, j, k, s) && k !in Run(steps, s).registry;
      SignedStays(steps, j, k, s);
    }
  }

  lemma SignedStays(steps: seq<Step>, j: nat, k: Key, s: Signing)
    requires SignsUnder(steps, j, k, s)
    ensures exists r <- Run(steps, s).records :: OwnKey(r) == k
  {
    hide Run;
    assert steps[..|steps|] == steps;
    RunGrows(steps, j + 1, |steps|, s);
    var r := Run(steps[..j + 1], s).records[|Run(steps[..j], s).records|];
    assert r in Run(steps, s).records && OwnKey(r) == k;
  }

  /** No key is left unwritten, no registration fails, and no generated key comes twice. */
  ghost predicate RegistryHolds(steps: seq<Step>) {
    && (forall step <- steps :: step.d.fails !! {FlushKeys, RegisterKey})
    && (forall i, j :: 0 <= i < j < |steps| ==> steps[i].d.newPub != steps[j].d.newPub)
  }

  /** While registrations succeed, the registry holds every current key, and only keys
      that were generated. */
  ghost predicate RegistryInv(steps: seq<Step>, n: nat, s: Signing)
    requires n <= |steps|
  {
    var st := Run(steps[..n], s);
    && (forall a <- st.current :: AgentKey(a, st.current[a]) in st.registry)
    && (forall k <- st.registry :: exists i: nat :: i < n && k.pubKey == PubHex(steps[i].d.newPub))
  }

  lemma FreshKeyRegisters(steps: seq<Step>, n: nat, o: Offer, s: Signing)
    requires SoundDraws(steps) && RegistryHolds(steps) && n < |steps| && RegistryInv(steps, n, s)
    requires Offered(Run(steps[..n], s), steps[n], s) == Some(o)
    ensures Reaches(Run(steps[..n], s).registry, o, steps[n].d) && KeyOf(o).pubKey == PubHex(steps[n].d.newPub)
  {
    hide Run, PubHex, ValidPub, Appended, TrimSpace;
    var st, d, k := Run(steps[..n], s), steps[n].d, KeyOf(o);
    assert steps[n] in steps;
    assert k.pubKey == PubHex(d.newPub);
    PubHexParses(d.newPub);
    forall x | x in st.registry ensures x.pubKey != k.pubKey {
      var i: nat :| i < n && x.pubKey == PubHex(steps[i].d.newPub);
      assert steps[i] in steps;
      PubHexParses(steps[i].d.newPub);
    }
  }

  lemma RegistryStep(st: LogState, step: Step, s: Signing)
    ensures var st', offered := Exec(st, step, s), Offered(st, step, s);
            && (forall a <- st'.current ::
                  (a in st.current && st'.current[a] == st.current[a]) || (offered.Some? && KeyOf(offered.value) == AgentKey(a, st'.current[a])))
            && (if offered.Some? && Reaches(st.registry, offered.value, step.d) then st'.registry == st.registry + [KeyOf(offered.value)]
                else st'.registry == st.registry)
  {
    hide Draft, PubHex, Reaches, CanAppend, MintedKey, TrimSpace;
    match step
    case DoEnsure(agentId, _, d) => MintedFor(st, agentId, d);
    case _ =>
  }

  lemma MintedFor(st: LogState, agentId: string, d: Draw)
    ensures MintedKey(st, agentId, d).Some? ==> MintedKey(st, agentId, d).value.agentId == agentId
  {
  }

  lemma {:induction false} RegistryKept(steps: seq<Step>, n: nat, s: Signing)
    requires SoundDraws(steps) && RegistryHolds(steps) && n <= |steps|
    ensures RegistryInv(steps, n, s)
    decreases n
  {
    if n > 0 {
      RegistryKept(steps, n - 1, s);
      RegistryKeptStep(steps, n - 1, s);
    }
  }

  lemma RegistryKeptStep(steps: seq<Step>, m: nat, s: Signing)
    requires SoundDraws(steps) && RegistryHolds(steps) && m < |steps| && RegistryInv(steps, m, s)
    ensures RegistryInv(steps, m + 1, s)
  {
    RunSnoc(steps, m, s);
    var st, offered := Run(steps[..m], s), Offered(Run(steps[..m], s), steps[m], s);
    RegistryStep(st, steps[m], s);
    if offered.Some? {
      FreshKeyRegisters(steps, m, offered.value, s);
    }
    hide Run, Exec, Offered, PubHex, Reaches, RegistryHolds, SoundDraws;
    var st' := Run(steps[..m + 1], s);
    forall k | k in st'.registry ensures exists i: nat :: i < m + 1 && k.pubKey == PubHex(steps[i].d.newPub) {
      if k in st.registry {
        var i: nat :| i < m && k.pubKey == PubHex(steps[i].d.newPub);
      }
    }
  }

  /** Without a failed key write or registration nothing is orphaned. */
  lemma NoFailureNoOrphan(steps: seq<Step>, s: Signing)
    requires SoundDraws(steps) && RegistryHolds(steps)
    ensures !Orphaned(steps, s)
  {
    hide Run, SignsUnder, Offered, Reaches, SoundDraws, RegistryHolds, RegistryInv;
    forall i: nat, k ensures !RegistrationFails(steps, i, k, s) {
      if i < |steps| && Offered(Run(steps[..i], s), steps[i], s).Some? {
        RegistryKept(steps, i, s);
        FreshKeyRegisters(steps, i, Offered(Run(steps[..i], s), steps[i], s).value, s);
      }
    }
  }

  // ----- what a reader of the table sees ---------------------------------------------------

  lemma SoundChainVerifies(records: seq<Record>, keys: seq<Key>, c: Crypto)
    requires AllLinked(records) && AllSound(records, c)
    ensures Verify(records, keys, c) == None <==> forall r <- records :: OwnKey(r) in keys
  {
    hide Sound, CheckRecord, Verify, Links;
    VerifiedIff(records, keys, c);
    forall i | 0 <= i < |records| ensures Good(records, keys, c, i) <==> OwnKey(records[i]) in keys {
      assert records[i] in records && Links(records, i);
      SoundIffRegistered(records[i], keys, c);
    }
  }

  /** In the order they were written the records verify exactly when none was signed under
      a key that had not reached the registry and never did later, whatever else fails
      and whatever the clock does. */
  lemma WrittenOrderVerifiesIff(steps: seq<Step>, s: Signing)
    requires SoundSigning(s) && SoundDraws(steps)
    ensures var st := Run(steps, s); Verify(st.records, st.registry, s.c) == None <==> !Orphaned(steps, s)
  {
    hide Run, Verify, Orphaned, SoundSigning, SoundDraws, AllLinked, AllSound, Shape;
    RunKeepsInv(steps, s);
    RegisteredIffNotOrphaned(steps, s);
    SoundChainVerifies(Run(steps, s).records, Run(steps, s).registry, s.c);
  }

  /** A record written behind the newest one makes the chain unverifiable: it is
      linked to a record that now reads after it. */
  lemma OutOfOrderFails(st: LogState, c: Crypto)
    requires Inv(st, c) && IdealHash(c) && !Increasing(st.records)
    requires forall r <- st.records :: ShortPayload(r.payload)
    ensures Verify(Chain(st.records), st.registry, c) != None
  {
    hide CheckRecord, Verify, Shape, CurrentKeys, DistinctIds, Chain, Increasing, IdealHash, ShortPayload, RecLess;
    var records, n := st.records, |st.records|;
    var chain := Chain(records);
    var p := ReadsBefore(records);
    assert records[n - 2] in records && Sound(records[n - 2], c);
    CheckedHashNotEmpty(records[n - 2], [OwnKey(records[n - 2])], c);
    assert Links(records, n - 1);
    if Verify(chain, st.registry, c) == None {
      ChainVerified(records, st.registry, c);
      VerifiedGood(chain, st.registry, c, p);
      if p > 0 {
        HashesDistinct(chain, st.registry, c, p - 1, n - 1);
      }
    }
  }

  lemma ChainVerified(records: seq<Record>, keys: seq<Key>, c: Crypto)
    requires forall r <- records :: ShortPayload(r.payload)
    requires Verify(Chain(records), keys, c) == None
    ensures Verified(Chain(records), keys, c)
  {
    hide Verify, ShortPayload, RecLess;
    SortMultiset(records, RecLess);
    forall r | r in Chain(records) ensures ShortPayload(r.payload) {
      assert r in multiset(Chain(records));
    }
  }

  /** Where a misplaced record reads, and that the record it is linked to reads last. */
  lemma ReadsBefore(records: seq<Record>) returns (p: nat)
    requires Shape(records) && !Increasing(records)
    ensures |records| >= 2 && p < |records| && Chain(records)[p] == records[|records| - 1]
    ensures Chain(records)[|records| - 1] == records[|records| - 2]
  {
    var n := |records|;
    var front, x := records[..n - 1], records[n - 1];
    hide Increasing, Chain, RecLess;
    IncreasingIsSorted(front);
    SortUnfolds(records);
    assert front[n - 2] == records[n - 2];
    InsertBehindLast(front, x);
    p := Inserted(front, x);
  }

  lemma Inserted(front: seq<Record>, x: Record) returns (p: nat)
    ensures p < |Insert(front, x, RecLess)| && Insert(front, x, RecLess)[p] == x
  {
    hide Insert, RecLess;
    InsertMultiset(front, x, RecLess);
    assert x in multiset(Insert(front, x, RecLess));
    p :| 0 <= p < |Insert(front, x, RecLess)| && Insert(front, x, RecLess)[p] == x;
  }

  lemma SortUnfolds(records: seq<Record>)
    requires records != []
    ensures Chain(records) == Insert(Chain(records[..|records| - 1]), records[|records| - 1], RecLess)
  {
  }

  lemma InsertBehindLast(front: seq<Record>, x: Record)
    requires front != [] && RecLess(x, front[|front| - 1])
    ensures Insert(front, x, RecLess)[|front|] == front[|front| - 1]
  {
  }

  lemma OrphanFailsAnyOrder(records: seq<Record>, keys: seq<Key>, c: Crypto)
    requires AllSound(records, c) && !forall r <- records :: OwnKey(r) in keys
    ensures Verify(Chain(records), keys, c) != None
  {
    hide Sound, CheckRecord, Verify, RecLess;
    var r :| r in records && OwnKey(r) !in keys;
    SortMultiset(records, RecLess);
    assert r in multiset(Chain(records));
    var i :| 0 <= i < |Chain(records)| && Chain(records)[i] == r;
    SoundIffRegistered(r, keys, c);
    VerifiedIff(Chain(records), keys, c);
    assert !Good(Chain(records), keys, c, i);
  }

  /** Whatever the clock and the ports do, the chain as it is read back verifies exactly
      when every record was written after all earlier ones in (time, id) order and none
      was signed under a key that never reached the registry. */
  lemma ReadChainVerifiesIff(steps: seq<Step>, s: Signing)
    requires SoundSigning(s) && SoundDraws(steps) && IdealHash(s.c)
    requires forall r <- Run(steps, s).records :: ShortPayload(r.payload)
    ensures var st := Run(steps, s);
            Verify(Chain(st.records), st.registry, s.c) == None <==> Increasing(st.records) && !Orphaned(steps, s)
  {
    var st := Run(steps, s);
    RunKeepsInv(steps, s);
    RegisteredIffNotOrphaned(steps, s);
    hide Run, Verify, Increasing, Chain, SoundSigning, SoundDraws, IdealHash, ShortPayload, Orphaned, AllSound, AllLinked, Shape;
    if !Increasing(st.records) {
      OutOfOrderFails(st, s.c);
    } else if AllRegistered(st) {
      IncreasingIsSorted(st.records);
      SoundChainVerifies(st.records, st.registry, s.c);
    } else {
      OrphanFailsAnyOrder(st.records, st.registry, s.c);
    }
  }

  /** A clock that strictly increases from call to call. */
  ghost predicate ClockIncreases(steps: seq<Step>) {
    forall i, j :: 0 <= i < j < |steps| ==> steps[i].d.now < steps[j].d.now
  }

  lemma ExecAppendsOne(st: LogState, step: Step, s: Signing)
    ensures var before, after := st.records, Exec(st, step, s).records;
            after == before || (|after| == |before| + 1 && after == before + [after[|before|]] && Nanos(after[|before|]) == step.d.now)
  {
    hide LastHash, PubHex, SigHex, Canonical, ChainHash, Conflicts, TrimSpace;
  }

  lemma {:induction false} RecordTimes(steps: seq<Step>, s: Signing)
    requires ClockIncreases(steps)
    ensures Increasing(Run(steps, s).records)
    ensures forall r <- Run(steps, s).records :: exists step <- steps :: Nanos(r) == step.d.now
  {
    if steps != [] {
      hide Exec, Increasing;
      var n := |steps|;
      var front, last := steps[..n - 1], steps[n - 1];
      RecordTimes(front, s);
      var before, after := Run(front, s).records, Run(steps, s).records;
      assert last in steps;
      ExecAppendsOne(Run(front, s), last, s);
      if after != before {
        var rec := after[|after| - 1];
        if before != [] {
          var m := before[|before| - 1];
          assert m in before;
          var step :| step in front && Nanos(m) == step.d.now;
          var i :| 0 <= i < n - 1 && front[i] == step;
          assert steps[i].d.now < steps[n - 1].d.now;
        }
        IncreasingSnoc(before, rec);
      }
    }
  }

  /** With a clock that strictly increases the log the writer builds verifies, records
      under rotated-out keys included, exactly when no record is orphaned. */
  lemma EveryLogVerifiesIff(steps: seq<Step>, s: Signing)
    requires SoundSigning(s) && SoundDraws(steps) && ClockIncreases(steps)
    ensures var st := Run(steps, s); Verify(Chain(st.records), st.registry, s.c) == None <==> !Orphaned(steps, s)
  {
    hide Run, Verify, Chain, SoundSigning, Increasing, Orphaned;
    RecordTimes(steps, s);
    IncreasingIsSorted(Run(steps, s).records);
    WrittenOrderVerifiesIff(steps, s);
  }

  /** So every log verifies whose clock strictly increases and whose keys all reach the
      registry. */
  lemma EveryLogVerifies(steps: seq<Step>, s: Signing)
    requires SoundSigning(s) && SoundDraws(steps) && ClockIncreases(steps) && RegistryHolds(steps)
    ensures var st := Run(steps, s); Verify(Chain(st.records), st.registry, s.c) == None
  {
    hide Run, Verify, Chain, SoundSigning, Orphaned;
    NoFailureNoOrphan(steps, s);
    EveryLogVerifiesIff(steps, s);
  }

  /** On a log in order nothing but a port, a reused id or an unknown agent stops an append. */
  lemma InOrderLogAccepts(st: LogState, e: Entry, d: Draw, s: Signing)
    requires Inv(st, s.c) && SoundSigning(s) && IdealHash(s.c) && Increasing(st.records)
    requires ValidEntry(e) && e.agentId in st.current && d.fails !! {LoadKey, ReadLast, SignDigest, StoreRecord}
    requires d.id != "" && forall r <- st.records :: r.id != d.id
    requires ShortPayload(Draft(st, e, d, s).payload) && forall r <- st.records :: ShortPayload(r.payload)
    ensures CanAppend(st, e, d, s)
  {
    hide Draft, Sound, CheckRecord, Verify, Links, SoundSigning, IdealHash, ShortPayload, LastHash, PubHex, Increasing, ValidPub;
    var rec := Draft(st, e, d, s);
    DraftIsSound(st, e, d, s);
    DraftId(st, e, d, s);
    if st.records != [] {
      NewestOfShape(st.records);
    }
    NoConflict(st.records, rec, s.c);
  }

  lemma DraftId(st: LogState, e: Entry, d: Draw, s: Signing)
    requires e.agentId in st.current
    ensures Draft(st, e, d, s).id == d.id && (st.records == [] ==> LastHash(st.records) == "")
  {
    hide PubHex, SigHex, ChainHash, Canonical;
  }

  /** In a verified chain the last record shares neither its hash nor its link. */
  lemma LastStandsAlone(all: seq<Record>, keys: seq<Key>, c: Crypto, i: nat)
    requires IdealHash(c) && Verified(all, keys, c) && i < |all| - 1
    ensures all[i].hash != all[|all| - 1].hash && all[i].payload.prevHash != all[|all| - 1].payload.prevHash
  {
    hide CheckRecord, Verified, IdealHash;
    var n := |all| - 1;
    HashesDistinct(all, keys, c, i, n);
    VerifiedGood(all, keys, c, i);
    VerifiedGood(all, keys, c, n);
    VerifiedGood(all, keys, c, n - 1);
    CheckedHashNotEmpty(all[n - 1], keys, c);
    if i > 0 {
      HashesDistinct(all, keys, c, i - 1, n - 1);
    }
  }

  lemma NoConflict(records: seq<Record>, rec: Record, c: Crypto)
    requires IdealHash(c) && AllLinked(records) && AllSound(records, c) && Sound(rec, c)
    requires forall r <- records + [rec] :: ShortPayload(r.payload)
    requires rec.payload.prevHash == PrevHashAt(records, |records|) && forall r <- records :: r.id != rec.id
    ensures !Conflicts(records, rec)
  {
    hide Sound, CheckRecord, Verify, IdealHash, ShortPayload;
    var all, n := records + [rec], |records|;
    ChainOfOwnKeys(records, rec, c);
    var keys :| Verified(all, keys, c);
    hide AllLinked, AllSound, Verified;
    forall i | 0 <= i < n ensures records[i].payload.prevHash != rec.payload.prevHash && records[i].hash != rec.hash {
      LastStandsAlone(all, keys, c, i);
    }
  }

  lemma ChainOfOwnKeys(records: seq<Record>, rec: Record, c: Crypto)
    requires AllLinked(records) && AllSound(records, c) && Sound(rec, c)
    requires forall r <- records + [rec] :: ShortPayload(r.payload)
    requires rec.payload.prevHash == PrevHashAt(records, |records|)
    ensures exists keys :: Verified(records + [rec], keys, c)
  {
    hide Sound, CheckRecord, Verify, ShortPayload;
    var all, n := records + [rec], |records|;
    var keys := seq(n + 1, i requires 0 <= i < n + 1 => OwnKey(all[i]));
    forall r | r in all ensures OwnKey(r) in keys {
      var i :| 0 <= i <= n && all[i] == r;
      assert keys[i] == OwnKey(r);
    }
    forall i | 0 <= i < |all| ensures Links(all, i) {
      assert i < n ==> Links(records, i);
    }
    SoundChainVerifies(all, keys, c);
    assert Verified(all, keys, c);
  }

  /** After one record out of order the log is stuck: the newest record already has a
      successor, so the table's unique prev_hash refuses every later append. */
  lemma OutOfOrderWedgesLog(steps: seq<Step>, s: Signing, e: Entry, d: Draw)
    requires SoundSigning(s) && SoundDraws(steps)
    requires !Increasing(Run(steps, s).records)
    ensures Appended(Run(steps, s), e, d, s) == (Run(steps, s), None)
  {
    hide Run, SoundSigning, PubHex, SigHex, LastHash, Canonical, ChainHash, CheckRecord, Increasing, ValidPub, Conflicts;
    var st := Run(steps, s);
    RunKeepsInv(steps, s);
    if e.agentId in st.current {
      WedgedConflicts(st.records, Draft(st, e, d, s));
    }
  }

  // ----- runs that go wrong ------------------------------------------------------------------------

  /** A signer for which all hypotheses hold. */
  const EXAMPLE: Signing :=
    Signing(Crypto((x: string) => "h" + x, (pub: string, digest: string, sig: string) => true),
            (pub: string, digest: string) => seq(SIG_BYTES, i => 0 as char))

  const ONES: string := seq(PUB_BYTES, i => 1 as char)
  const TWOS: string := seq(PUB_BYTES, i => 2 as char)

  lemma ExampleIsIdeal()
    ensures SoundSigning(EXAMPLE) && IdealHash(EXAMPLE.c) && ValidPub(ONES) && ValidPub(TWOS)
  {
    forall x, y | EXAMPLE.c.H(x) == EXAMPLE.c.H(y) ensures x == y {
      assert x == ("h" + x)[1..] && y == ("h" + y)[1..];
    }
    assert ONES[0] in ONES && TWOS[0] in TWOS;
  }

  lemma RunOne(step: Step, s: Signing)
    ensures Run([step], s) == Exec(EMPTY, step, s)
  {
    assert [step][..0] == [];
  }

  lemma RunTwo(a: Step, b: Step, s: Signing)
    ensures Run([a, b], s) == Exec(Run([a], s), b, s)
  {
    hide Exec;
    assert [a, b][..1] == [a];
  }

  const ENTRY: Entry := Entry("plan.approve", "", "", "", "", "", "", "a", "plan", "p")

  /** A key is created, writing it or registering it fails, and the agent goes on: the next
      record is stored, and the verifier refuses it, in written order too. */
  lemma FailedRegistrationBreaksLog(s: Signing, pub: string, port: Port, now: int64, later: int64)
    requires SoundSigning(s) && ValidPub(pub) && port in {FlushKeys, RegisterKey}
    ensures var steps := [DoEnsure("a", true, Draw(now, "x", pub, {port})), DoAppend(ENTRY, Draw(later, "y", pub, {}))];
            && Run(steps, s).registry == [] && |Run(steps, s).records| == 1
            && Verify(Run(steps, s).records, [], s.c) == Some(Failure("y", "", NotRegistered))
  {
    var first, second := DoEnsure("a", true, Draw(now, "x", pub, {port})), DoAppend(ENTRY, Draw(later, "y", pub, {}));
    NotBlank();
    RunOne(first, s);
    RunTwo(first, second, s);
    var st := Run([first], s);
    assert st == LogState([], [], map["a" := pub]);
    hide Run, PubHex, SigHex, ChainHash, Canonical, TrimSpace, LastHash;
    var rec := Draft(st, ENTRY, second.d, s);
    PubHexParses(pub);
    assert Run([first, second], s) == LogState([rec], [], map["a" := pub]);
    EmptyChain();
  }

  lemma NotBlank()
    ensures TrimSpace("a") == "a"
  {
    assert TrimLeft("a") == "a" && TrimRight("a") == "a";
  }

  lemma EmptyChain()
    ensures LastHash([]) == ""
  {
  }

  lemma {:induction false} StrsLength(f: seq<string>, b: nat)
    requires forall x <- f :: |x| <= b
    ensures |WriteStrs(f)| <= |f| * (4 + b)
  {
    hide BigEndian, WriteU32;
    if f != [] {
      StrsLength(f[1..], b);
      StrLength(f[0]);
      OneMoreTimes(|f|, 4 + b);
    }
  }

  lemma StrLength(x: string)
    ensures |WriteStr(x)| == 4 + |x|
  {
    hide BigEndian;
  }

  lemma OneMoreTimes(n: nat, b: nat)
    requires n > 0
    ensures (n - 1) * b + b == n * b
  {
  }

  /** The first record of an example log, and how long its hash may be. */
  lemma FirstRecord(now: int64)
    ensures var st := Run([DoEnsure("a", true, Draw(now, "x", ONES, {}))], EXAMPLE);
            && |st.records| == 1 && st.records[0].id == "x" && Nanos(st.records[0]) == now
            && st.registry == [AgentKey("a", ONES)] && st.current == map["a" := ONES]
            && ShortPayload(st.records[0].payload) && |st.records[0].hash| <= 2000
  {
    var step := DoEnsure("a", true, Draw(now, "x", ONES, {}));
    NotBlank();
    RunOne(step, EXAMPLE);
    ExampleIsIdeal();
    var st1, e := LogState([], [AgentKey("a", ONES)], map["a" := ONES]), KeyEntry("a", ACTION_CREATE);
    hide PubHex, SigHex, Canonical, TrimSpace, LastHash;
    assert Installed(EMPTY, Offer("a", ONES, true), step.d) == st1;
    var rec := Draft(st1, e, step.d, EXAMPLE);
    assert Run([step], EXAMPLE) == LogState([rec], st1.registry, st1.current);
    EmptyChain();
    PubHexLength(ONES);
    PayloadLength(rec.payload, 100);
  }

  lemma PubHexLength(pub: string)
    requires ValidPub(pub)
    ensures |PubHex(pub)| == 2 * PUB_BYTES
  {
  }

  lemma PayloadLength(p: Payload, b: nat)
    requires forall x <- PayloadFields(p) :: |x| <= b
    ensures |Canonical(p)| <= 10 * (4 + b) + 8
    ensures b < U32 ==> ShortPayload(p)
  {
    StrsLength(PayloadFields(p), b);
    hide WriteStrs, PayloadFields;
    I64Length(UnixNano(p.timestamp));
  }

  lemma I64Length(n: int64)
    ensures |WriteI64(n)| == 8
  {
  }

  lemma SecondRecord(st: LogState, d: Draw)
    requires Inv(st, EXAMPLE.c) && st.current == map["a" := ONES]
    requires |st.records| == 1 && st.records[0].id != d.id && d.id != "" && d.fails == {}
    requires ShortPayload(st.records[0].payload) && |st.records[0].hash| <= 2000
    ensures var rec := Draft(st, ENTRY, d, EXAMPLE);
            CanAppend(st, ENTRY, d, EXAMPLE) && ShortPayload(rec.payload) && Nanos(rec) == d.now
  {
    ExampleIsIdeal();
    PubHexLength(ONES);
    OneIsIncreasing(st.records);
    hide PubHex, SigHex, Canonical, ChainHash, LastHash, Inv, SoundSigning, IdealHash, Increasing, ShortPayload, ValidPub;
    SecondIsShort(st, d);
    InOrderLogAccepts(st, ENTRY, d, EXAMPLE);
  }

  lemma SecondIsShort(st: LogState, d: Draw)
    requires st.current == map["a" := ONES] && |LastHash(st.records)| <= 2000 && |PubHex(ONES)| == 64
    ensures var rec := Draft(st, ENTRY, d, EXAMPLE); ShortPayload(rec.payload) && Nanos(rec) == d.now
  {
    hide PubHex, SigHex, Canonical, ChainHash, LastHash, ShortPayload;
    PayloadLength(Draft(st, ENTRY, d, EXAMPLE).payload, 2000);
  }

  /** The log after the clock stepped back from `now` to `earlier`. */
  lemma TwoRecords(now: int64, earlier: int64)
    ensures var steps := [DoEnsure("a", true, Draw(now, "x", ONES, {})), DoAppend(ENTRY, Draw(earlier, "y", TWOS, {}))];
            var st := Run(steps, EXAMPLE);
            && |st.records| == 2 && Nanos(st.records[0]) == now && Nanos(st.records[1]) == earlier
            && forall r <- st.records :: ShortPayload(r.payload)
  {
    var first, second := DoEnsure("a", true, Draw(now, "x", ONES, {})), DoAppend(ENTRY, Draw(earlier, "y", TWOS, {}));
    ExampleIsIdeal();
    assert SoundDraws([first]);
    RunTwo(first, second, EXAMPLE);
    hide Run, SoundSigning, IdealHash, PubHex, ValidPub, ShortPayload, Draft, Inv, SoundDraws, CanAppend, EXAMPLE, ONES, TWOS;
    FirstRecord(now);
    RunKeepsInv([first], EXAMPLE);
    SecondRecord(Run([first], EXAMPLE), second.d);
  }

  lemma NotInOrder(records: seq<Record>)
    requires |records| == 2 && Nanos(records[1]) < Nanos(records[0])
    ensures !Increasing(records)
  {
    assert !RecLess(records[0], records[1]);
  }

  /** The clock steps back once: the second record is stored, the chain no longer verifies
      as it is read, and nothing can ever be appended again. */
  lemma ClockStepBackWedgesLog(e: Entry, d: Draw)
    ensures var steps := [DoEnsure("a", true, Draw(5, "x", ONES, {})), DoAppend(ENTRY, Draw(3, "y", TWOS, {}))];
            var st := Run(steps, EXAMPLE);
            && |st.records| == 2 && !Orphaned(steps, EXAMPLE)
            && Verify(st.records, st.registry, EXAMPLE.c) == None
            && Verify(Chain(st.records), st.registry, EXAMPLE.c) != None
            && Appended(st, e, d, EXAMPLE) == (st, None)
  {
    var first, second := DoEnsure("a", true, Draw(5, "x", ONES, {})), DoAppend(ENTRY, Draw(3, "y", TWOS, {}));
    var steps := [first, second];
    ExampleIsIdeal();
    KeysDiffer();
    assert SoundDraws(steps) && RegistryHolds(steps);
    TwoRecords(5, 3);
    hide Run, SoundSigning, IdealHash, Verify, ValidPub, Chain, ShortPayload, Inv, Orphaned, SoundDraws, RegistryHolds, Increasing, Appended;
    NotInOrder(Run(steps, EXAMPLE).records);
    NoFailureNoOrphan(steps, EXAMPLE);
    WrittenOrderVerifiesIff(steps, EXAMPLE);
    ReadChainVerifiesIff(steps, EXAMPLE);
    OutOfOrderWedgesLog(steps, EXAMPLE, e, d);
  }

  lemma KeysDiffer()
    ensures ONES != TWOS
  {
    assert ONES[0] != TWOS[0];
  }

  lemma OneIsIncreasing(records: seq<Record>)
    requires |records| == 1
    ensures Increasing(records) && LastHash(records) == records[0].hash
  {
    IncreasingIsSorted(records);
  }
}
