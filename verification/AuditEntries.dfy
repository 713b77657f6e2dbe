/** What each call of the audit log writes, field by field (internal/audit/log.go). */
module AuditEntries {
  import opened Text
  import opened Sorting
  import opened Policy
  import opened AuditChain
  import opened AuditLog

  // ----- the newest record -------------------------------------------------------------------

  /** a was stored at an earlier instant than b, or at the same one under a smaller id. */
  predicate Older(a: Record, b: Record) {
    UnixNano(a.payload.timestamp) < UnixNano(b.payload.timestamp)
    || (UnixNano(a.payload.timestamp) == UnixNano(b.payload.timestamp) && Less(a.id, b.id))
  }

  /** The hash of a record that none is newer than, or nothing before the first. */
  ghost predicate NewestHash(records: seq<Record>, hash: string) {
    if records == [] then hash == "" else exists n :: n in records && n.hash == hash && forall r <- records :: !Older(n, r)
  }

  lemma RecordsWeaklyOrdered()
    ensures WeakOrder<Record>(RecLess)
  {
    forall a: Record, b: Record ensures !(Less(a.id, b.id) && Less(b.id, a.id)) && (a.id != b.id <==> Less(a.id, b.id) || Less(b.id, a.id)) {
      LessTotal(a.id, b.id);
    }
    forall a: Record, b: Record, c: Record | Less(a.id, b.id) && Less(b.id, c.id) ensures Less(a.id, c.id) {
      LessTransitive(a.id, b.id, c.id);
    }
  }

  lemma LastIsNewest(records: seq<Record>)
    ensures NewestHash(records, LastHash(records))
  {
    if records != [] {
      RecordsWeaklyOrdered();
      SortSorts(records, RecLess);
      SortMultiset(records, RecLess);
      var chain := Chain(records);
      var n := chain[|chain| - 1];
      assert n in multiset(chain);
      assert multiset(chain) == multiset(records);
      forall r | r in records ensures !Older(n, r) {
        assert r in multiset(records) && r in chain;
        var i :| 0 <= i < |chain| && chain[i] == r;
        LessTotal(n.id, n.id);
      }
    }
  }

  // ----- one entry ---------------------------------------------------------------------------------

  /** The record of an entry: its fields, the defaults for a missing target and approver, the
      link to the newest record, and the signature under the agent's current key. */
  ghost predicate Stores(st: LogState, e: Entry, d: Draw, s: Signing, r: Record) {
    var p, msg := r.payload, s.c.H(Canonical(r.payload));
    && r.id == d.id && r.agentId == e.agentId && p.timestamp == At(d.now)
    && p.action == e.action && p.planHash == e.planHash && p.leaseId == e.leaseId
    && p.precondition == e.precondition && p.postcondition == e.postcondition
    && p.target == (if e.target == "" then e.resourceId else e.target)
    && p.approver == (if e.approver == "" then "operator" else e.approver)
    && NewestHash(st.records, p.prevHash)
    && e.agentId in st.current
    && var key := st.current[e.agentId];
       && r.hash == s.c.H(Canonical(p) + s.sign(key, msg))
       && (ValidPub(key) ==> DecodeHex(p.agentPubKey, 32) == Some(key))
       && (IsBytes(s.sign(key, msg)) && |s.sign(key, msg)| == 64 ==> DecodeHex(r.signature, 64) == Some(s.sign(key, msg)))
  }

  /** What stops an append: a missing field, no key, a failing port, no id, or a clash with
      the id, the predecessor or the hash of a stored record. */
  ghost predicate Stopped(st: LogState, e: Entry, d: Draw, s: Signing) {
    || e.action == "" || e.resourceType == "" || e.resourceId == "" || e.agentId == "" || e.agentId !in st.current
    || d.id == "" || LoadKey in d.fails || ReadLast in d.fails || SignDigest in d.fails || StoreRecord in d.fails
    || var r := Draft(st, e, d, s);
       exists x <- st.records :: x.id == d.id || x.payload.prevHash == r.payload.prevHash || x.hash == r.hash
  }

  lemma DraftStores(st: LogState, e: Entry, d: Draw, s: Signing)
    requires e.agentId in st.current
    ensures Stores(st, e, d, s, Draft(st, e, d, s))
  {
    LastIsNewest(st.records);
    var key := st.current[e.agentId];
    if ValidPub(key) {
      HexRoundTrip(key, 32);
    }
    hide Canonical, EncodeHex, DecodeHex, LastHash, NewestHash, ValidPub;
    var sig := s.sign(key, s.c.H(Canonical(Draft(st, e, d, s).payload)));
    if IsBytes(sig) && |sig| == 64 {
      HexRoundTrip(sig, 64);
    }
  }

  /** An append stores exactly the record of its entry, or is stopped and changes nothing;
      keys and registry stay as they are. */
  lemma AppendedMeans(st: LogState, e: Entry, d: Draw, s: Signing)
    ensures var (st', rec) := Appended(st, e, d, s);
            && (rec.None? <==> Stopped(st, e, d, s))
            && (rec.None? ==> st' == st)
            && (rec.Some? ==> st' == st.(records := st.records + [rec.value]) && Stores(st, e, d, s, rec.value))
  {
    hide Draft, Stores;
    if e.agentId in st.current {
      DraftStores(st, e, d, s);
      DraftId(st, e, d, s);
    }
  }

  lemma DraftId(st: LogState, e: Entry, d: Draw, s: Signing)
    requires e.agentId in st.current
    ensures Draft(st, e, d, s).id == d.id
  {
  }

  // ----- keys ----------------------------------------------------------------------------------------

  /** The record of a key operation. */
  predicate KeyRecord(r: Record, agentId: string, action: string, pub: string) {
    && r.agentId == agentId && r.payload.action == action && r.payload.target == agentId
    && r.payload.approver == "operator" && r.payload.agentPubKey == PubHex(pub)
    && r.payload.planHash == r.payload.precondition == r.payload.postcondition == r.payload.leaseId == ""
  }

  lemma KeyEntryStored(st: LogState, agentId: string, action: string, d: Draw, s: Signing)
    ensures var (st', rec) := Appended(st, KeyEntry(agentId, action), d, s);
            rec.Some? ==> agentId in st.current && st' == st.(records := st.records + [rec.value]) && KeyRecord(rec.value, agentId, action, st.current[agentId])
  {
    hide Canonical, LastHash, PubHex, Conflicts;
  }

  /** Ensuring a key: nothing for an agent that has one; otherwise its key, new or recovered,
      is registered and signs the record of its own creation. */
  lemma EnsuredMeans(st: LogState, agentId: string, created: bool, d: Draw, s: Signing)
    ensures var (st', ok) := Ensured(st, agentId, created, d, s);
            ok ==>
              if exists k <- st.registry :: k.agentId == agentId then st' == st
              else
                var pub := if agentId in st.current then st.current[agentId] else d.newPub;
                && st'.registry == st.registry + [Key(agentId, PubHex(pub))]
                && st'.current == st.current[agentId := pub]
                && |st'.records| == |st.records| + 1 && st'.records[..|st.records|] == st.records
                && KeyRecord(st'.records[|st.records|], agentId, if created then "agent.create" else "agent.enroll_key", pub)
  {
    hide Appended, TrimSpace, PubHex, CanRegister;
    if !HasKey(st, agentId) && MintedKey(st, agentId, d).Some? {
      var o := MintedKey(st, agentId, d).value;
      KeyEntryStored(Installed(st, o, d), agentId, if created then ACTION_CREATE else ACTION_ENROLL, d, s);
    }
  }

  /** Rotating a key: the old key signs the record, then the new one signs and is registered. */
  lemma RotatedMeans(st: LogState, agentId: string, d: Draw, s: Signing)
    ensures var (st', rec) := Rotated(st, agentId, d, s);
            rec.Some? ==>
              && agentId in st.current && KeyRecord(rec.value, agentId, "agent.rotate_key", st.current[agentId])
              && st' == LogState(st.records + [rec.value], st.registry + [Key(agentId, PubHex(d.newPub))], st.current[agentId := d.newPub])
  {
    hide Appended, PubHex, CanRegister;
    KeyEntryStored(st, agentId, ACTION_ROTATE, d, s);
  }
}
