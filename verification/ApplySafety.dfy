/** What every call of Apply keeps: the order of its gates, the recorded boundary, the
    files, and at most one landing per key. */
module ApplySafety {
  import opened Text
  import opened Policy
  import opened Payload
  import opened PlanModel
  import opened PlanHash
  import opened SecretScan
  import opened Workspace
  import opened Applier

  // ----- the order of gates ---------------------------------------------------------------

  /** What the journal so far has established. `granted` is the row that may run next. */
  datatype Phase = Phase(saved: bool, held: bool, cleared: set<nat>, running: bool, granted: Option<nat>, closed: bool)

  const START: Phase := Phase(false, false, {}, false, None, false)

  /** The fixed facts of one call: the plan, who applies it, the leases acquired, and the
      keys that had landed before. */
  datatype Call = Call(host: Host, principal: string, plan: Plan, leases: seq<Lease>, landed: set<string>)

  predicate Clean(c: Call, i: nat)
    requires i < |c.plan.rows|
  {
    ScanFrom(c.plan.rows[i].target, 1, c.plan.rows[i].payload, c.host.detectors) == []
  }

  predicate AllCleared(c: Call, cleared: set<nat>) {
    forall j: nat :: j < |c.plan.rows| && c.plan.rows[j].key !in c.landed ==> j in cleared
  }

  /** The rules: nothing runs before the checkpoint and the leases; every row is scanned
      and authorised before the first one runs, and authorised again just before it
      runs; leases are released once, at the end. */
  predicate Permits(c: Call, ph: Phase, e: Event) {
    !ph.closed &&
    match e
    case Observed(_) => !ph.saved
    case Checkpointed => !ph.saved
    case LeasesHeld => ph.saved && !ph.held
    case Cleared(i, at) =>
      && ph.held && !ph.running && i < |c.plan.rows|
      && Clean(c, i) && MayRun(at, c.principal, c.plan, c.plan.rows[i], c.leases)
    case Granted(i, at) =>
      && ph.held && ph.granted.None? && i < |c.plan.rows|
      && i in ph.cleared && AllCleared(c, ph.cleared) && MayRun(at, c.principal, c.plan, c.plan.rows[i], c.leases)
    case Executed(i) => ph.granted == Some(i) && i < |c.plan.rows| && c.plan.rows[i].op != OP_MEMORY
    case Proposed(i) => ph.granted == Some(i) && i < |c.plan.rows| && c.plan.rows[i].op == OP_MEMORY
    case RowSigned(_) => ph.running && ph.granted.None?
    case PlanSigned(_) => ph.held
    case LeasesReleased => ph.held
  }

  function Advance(ph: Phase, e: Event): Phase {
    match e
    case Observed(_) => ph
    case Checkpointed => ph.(saved := true)
    case LeasesHeld => ph.(held := true)
    case Cleared(i, _) => ph.(cleared := ph.cleared + {i})
    case Granted(i, _) => ph.(running := true, granted := Some(i))
    case Executed(_) => ph.(granted := None)
    case Proposed(_) => ph.(granted := None)
    case RowSigned(_) => ph
    case PlanSigned(_) => ph.(granted := None)
    case LeasesReleased => ph.(granted := None, closed := true)
  }

  /** Where a journal leads, if every event in it was permitted. */
  function Replay(c: Call, ph: Phase, journal: seq<Event>): Option<Phase>
    decreases |journal|
  {
    if journal == [] then Some(ph)
    else if Permits(c, ph, journal[0]) then Replay(c, Advance(ph, journal[0]), journal[1..])
    else None
  }

  lemma {:induction false} ReplayConcat(c: Call, ph: Phase, a: seq<Event>, b: seq<Event>)
    ensures Replay(c, ph, a + b) ==
            match Replay(c, ph, a)
            case None => None
            case Some(mid) => Replay(c, mid, b)
    decreases |a|
  {
    if a == [] {
      assert [] + b == b;
    } else {
      assert (a + b)[0] == a[0] && (a + b)[1..] == a[1..] + b;
      if Permits(c, ph, a[0]) {
        ReplayConcat(c, Advance(ph, a[0]), a[1..], b);
      }
    }
  }

  lemma ReplayOne(c: Call, ph: Phase, e: Event)
    ensures Replay(c, ph, [e]) == if Permits(c, ph, e) then Some(Advance(ph, e)) else None
  {
    assert [e][1..] == [];
  }

  lemma {:induction false} ObserveLawful(c: Call, ports: Ports, s: State, i: nat, ph: Phase)
    requires i <= |c.plan.rows| && !ph.saved && !ph.closed
    ensures Replay(c, ph, ObserveFrom(c.host, ports, c.plan.rows, s, i).events) == Some(ph)
    decreases |c.plan.rows| - i
  {
    hide Digest;
    if i < |c.plan.rows| {
      ObserveLawful(c, ports, s, i + 1, ph);
      ReplayOne(c, ph, Observed(i));
      ReplayConcat(c, ph, [Observed(i)], ObserveFrom(c.host, ports, c.plan.rows, s, i + 1).events);
    }
  }

  /** The rows at or after i that had not landed are all in the set. */
  predicate ClearedFrom(c: Call, i: nat, cleared: set<nat>) {
    forall j: nat :: i <= j < |c.plan.rows| && c.plan.rows[j].key !in c.landed ==> j in cleared
  }

  lemma {:induction false} ClearLawful(c: Call, ports: Ports, s: State, i: nat, ph: Phase)
    requires i <= |c.plan.rows| && c.landed == s.applied.Keys && ph.held && !ph.running && !ph.closed
    ensures var sweep := ClearFrom(c.host, ports, c.principal, c.plan, c.leases, s, i);
            var to := Replay(c, ph, sweep.events);
            && to.Some? && to.value == ph.(cleared := to.value.cleared) && ph.cleared <= to.value.cleared
            && (sweep.error.None? ==> ClearedFrom(c, i, to.value.cleared))
    decreases |c.plan.rows| - i
  {
    hide MayRun, ScanFrom;
    if i < |c.plan.rows| {
      var row, at := c.plan.rows[i], ports.clearing(i);
      if row.key in s.applied {
        ClearLawful(c, ports, s, i + 1, ph);
      } else if Clean(c, i) && MayRun(at, c.principal, c.plan, row, c.leases) {
        var next := Advance(ph, Cleared(i, at));
        ClearLawful(c, ports, s, i + 1, next);
        ReplayOne(c, ph, Cleared(i, at));
        ReplayConcat(c, ph, [Cleared(i, at)], ClearFrom(c.host, ports, c.principal, c.plan, c.leases, s, i + 1).events);
      }
    }
  }

  lemma RowLawful(c: Call, i: nat, at: Time, ph: Phase)
    requires i < |c.plan.rows| && ph.held && !ph.closed && ph.granted.None?
    requires i in ph.cleared && AllCleared(c, ph.cleared) && MayRun(at, c.principal, c.plan, c.plan.rows[i], c.leases)
    ensures var on := ph.(running := true);
            && Replay(c, ph, [Granted(i, at)]) == Some(on.(granted := Some(i)))
            && Replay(c, ph, [Granted(i, at), Done(c.plan.rows[i], i)]) == Some(on)
            && Replay(c, ph, [Granted(i, at), Done(c.plan.rows[i], i), RowSigned(i)]) == Some(on)
  {
    hide MayRun, AllCleared;
    var row, on := c.plan.rows[i], ph.(running := true);
    var done := Done(row, i);
    ReplayOne(c, ph, Granted(i, at));
    ReplayOne(c, on.(granted := Some(i)), done);
    ReplayOne(c, on, RowSigned(i));
    assert [Granted(i, at), done] == [Granted(i, at)] + [done];
    assert [Granted(i, at), done, RowSigned(i)] == [Granted(i, at), done] + [RowSigned(i)];
    ReplayConcat(c, ph, [Granted(i, at)], [done]);
    ReplayConcat(c, ph, [Granted(i, at), done], [RowSigned(i)]);
  }

  lemma TurnLawful(c: Call, ports: Ports, s: State, i: nat, ph: Phase)
    requires i < |c.plan.rows| && c.landed <= s.applied.Keys
    requires ph.held && !ph.closed && ph.granted.None? && AllCleared(c, ph.cleared)
    ensures var turn := TakeTurn(c.host, ports, c.principal, c.plan, c.leases, s, i);
            var to := Replay(c, ph, if turn.Halt? then turn.run.events else turn.events);
            && to.Some? && to.value.held && !to.value.closed
            && (turn.Next? ==> c.landed <= turn.world.applied.Keys && to.value in {ph, ph.(running := true)})
  {
    hide Permits, Perform;
    var row, at := c.plan.rows[i], ports.executing(i);
    if row.key !in s.applied && MayRun(at, c.principal, c.plan, row, c.leases) {
      RowLawful(c, i, at, ph);
      PerformKeeps(c.host, ports, s, row, i);
    }
  }

  lemma {:induction false} RunLawful(c: Call, ports: Ports, s: State, i: nat, ph: Phase)
    requires i <= |c.plan.rows| && c.landed <= s.applied.Keys
    requires ph.held && !ph.closed && ph.granted.None? && AllCleared(c, ph.cleared)
    ensures var to := Replay(c, ph, RunFrom(c.host, ports, c.principal, c.plan, c.leases, s, i).events);
            to.Some? && to.value.held && !to.value.closed
    decreases |c.plan.rows| - i
  {
    hide TakeTurn, Permits, AllCleared;
    if i < |c.plan.rows| {
      TurnLawful(c, ports, s, i, ph);
      match TakeTurn(c.host, ports, c.principal, c.plan, c.leases, s, i)
      case Halt(_) =>
      case Next(s', entry, events) =>
        var next := Replay(c, ph, events).value;
        RunLawful(c, ports, s', i + 1, next);
        ReplayConcat(c, ph, events, RunFrom(c.host, ports, c.principal, c.plan, c.leases, s', i + 1).events);
    }
  }

  /** Performing a row that had not landed: what it records. */
  lemma PerformKeeps(host: Host, ports: Ports, s: State, row: Row, i: nat)
    ensures var (s', landing) := Perform(host, ports, s, row, i);
            && s.applied.Keys <= s'.applied.Keys
            && (landing.Failed? || row.op == OP_MEMORY ==> s'.applied == s.applied)
            && (landing.Landed? && row.op != OP_MEMORY ==> s'.applied.Keys == s.applied.Keys + {row.key})
  {
    hide Materialize;
    if row.op != OP_MEMORY && row.key !in s.applied {
      if ApplyRow(host, s.files, row, ports.faults(i)).1.Landed? {
        LandingIsExact(host, s.files, row, ports.faults(i));
      }
    }
  }

  /** The facts of a call. The plan the rows run under carries the new checkpoint. */
  function CallOf(host: Host, ports: Ports, principal: string, p: Plan, s: State): Call {
    Call(host, principal, if ports.checkpoint.Some? then p.(checkpoint := ports.checkpoint.value) else p,
         if ports.leases.Some? then ports.leases.value else [], s.applied.Keys)
  }

  lemma BodyLawful(c: Call, ports: Ports, ck: string, s: State, ph: Phase)
    requires c.landed == s.applied.Keys && ph == START.(saved := true, held := true)
    ensures var to := Replay(c, ph, WhileHeld(c.host, ports, c.principal, c.plan, c.leases, ck, s).journal + [LeasesReleased]);
            to.Some? && to.value.closed
  {
    var cleared := ClearFrom(c.host, ports, c.principal, c.plan, c.leases, s, 0);
    ClearLawful(c, ports, s, 0, ph);
    var mid := Replay(c, ph, cleared.events).value;
    if cleared.error.Some? {
      ReplayConcat(c, ph, cleared.events, [LeasesReleased]);
      ReplayOne(c, mid, LeasesReleased);
    } else {
      RunLawful(c, ports, s, 0, mid);
      var run := RunFrom(c.host, ports, c.principal, c.plan, c.leases, s, 0);
      FinishLawful(c, ports, ck, run, mid);
      var done := Finish(c.plan, ck, ports, run);
      hide RunFrom, ClearFrom, Finish;
      ReplayConcat(c, ph, cleared.events, done.journal + [LeasesReleased]);
      assert cleared.events + (done.journal + [LeasesReleased]) == cleared.events + done.journal + [LeasesReleased];
    }
  }

  lemma FinishLawful(c: Call, ports: Ports, ck: string, run: Run, ph: Phase)
    requires var to := Replay(c, ph, run.events); to.Some? && to.value.held && !to.value.closed
    ensures var to := Replay(c, ph, Finish(c.plan, ck, ports, run).journal + [LeasesReleased]);
            to.Some? && to.value.closed
  {
    var journal := Finish(c.plan, ck, ports, run).journal;
    var mid := Replay(c, ph, run.events).value;
    var signed := if journal == run.events then [] else journal[|run.events|..];
    assert journal == run.events + signed;
    assert signed == [] || (exists st :: signed == [PlanSigned(st)]);
    hide Finish;
    ReplayConcat(c, ph, run.events, signed + [LeasesReleased]);
    assert run.events + (signed + [LeasesReleased]) == journal + [LeasesReleased];
    SignedLawful(c, mid, signed);
  }

  lemma SignedLawful(c: Call, mid: Phase, signed: seq<Event>)
    requires mid.held && !mid.closed && (signed == [] || exists st :: signed == [PlanSigned(st)])
    ensures var to := Replay(c, mid, signed + [LeasesReleased]); to.Some? && to.value.closed
  {
    ReplayConcat(c, mid, signed, [LeasesReleased]);
    if signed != [] {
      ReplayOne(c, mid, signed[0]);
      ReplayOne(c, Advance(mid, signed[0]), LeasesReleased);
    } else {
      ReplayOne(c, mid, LeasesReleased);
    }
  }

  lemma OpeningMoves(c: Call)
    ensures Permits(c, START, Checkpointed) && Permits(c, START.(saved := true), LeasesHeld)
  {
  }

  /** One more event after a lawful journal. */
  lemma ReplaySnoc(c: Call, journal: seq<Event>, e: Event)
    requires Replay(c, START, journal).Some? && Permits(c, Replay(c, START, journal).value, e)
    ensures Replay(c, START, journal + [e]) == Some(Advance(Replay(c, START, journal).value, e))
  {
    ReplayConcat(c, START, journal, [e]);
    ReplayOne(c, Replay(c, START, journal).value, e);
  }

  lemma HeldLawful(c: Call, ports: Ports, ck: string, s: State, before: seq<Event>)
    requires c.landed == s.applied.Keys && Replay(c, START, before) == Some(START.(saved := true, held := true))
    ensures var o := Release(ports, before, WhileHeld(c.host, ports, c.principal, c.plan, c.leases, ck, s));
            var to := Replay(c, START, o.journal);
            to.Some? && to.value.closed
  {
    hide WhileHeld;
    BodyLawful(c, ports, ck, s, START.(saved := true, held := true));
    var rest := WhileHeld(c.host, ports, c.principal, c.plan, c.leases, ck, s).journal;
    ReplayConcat(c, START, before, rest + [LeasesReleased]);
    assert before + (rest + [LeasesReleased]) == before + rest + [LeasesReleased];
  }

  /** Every call, whatever the ports do, keeps the rules; and once the leases were
      acquired they are released, exactly once, as the last thing. */
  lemma JournalIsLawful(host: Host, ports: Ports, principal: string, p: Plan, approval: string, s: State)
    ensures var journal := ApplyPlan(host, ports, principal, p, approval, s).journal;
            var to := Replay(CallOf(host, ports, principal, p, s), START, journal);
            && to.Some? && (to.value.held ==> to.value.closed)
  {
    hide WhileHeld, Encode, Marked, ObserveFrom, Release, Permits;
    var c := CallOf(host, ports, principal, p, s);
    var observed := ObserveFrom(host, ports, p.rows, s, 0);
    ObserveLawful(c, ports, s, 0, START);
    if ports.checkpoint.Some? {
      OpeningMoves(c);
      ReplaySnoc(c, observed.events, Checkpointed);
      if ports.leases.Some? {
        ReplaySnoc(c, observed.events + [Checkpointed], LeasesHeld);
        HeldLawful(c, ports, ports.checkpoint.value, s, observed.events + [Checkpointed] + [LeasesHeld]);
      }
    }
  }

  // ----- what an effect rests on ----------------------------------------------------------

  /** A lease that lets this principal perform the row in the plan's scope at `at`. */
  predicate LeaseFor(c: Call, i: nat, at: Time, l: Lease)
    requires i < |c.plan.rows|
  {
    && l.id == c.plan.rows[i].lease && l.principal == c.principal && l.scope == c.plan.scope
    && Before(at, l.expiresAt) && c.plan.rows[i].op in l.kinds
  }

  lemma {:induction false} LeaseByIdFinds(leases: seq<Lease>, id: string)
    ensures var named := LeaseById(leases, id); named.Some? ==> named.value in leases && named.value.id == id
  {
    if leases != [] {
      LeaseByIdFinds(leases[1..], id);
    }
  }

  lemma MayRunMeans(c: Call, i: nat, at: Time)
    requires i < |c.plan.rows| && MayRun(at, c.principal, c.plan, c.plan.rows[i], c.leases)
    ensures exists l <- c.leases :: LeaseFor(c, i, at, l)
  {
    var row := c.plan.rows[i];
    LeaseByIdFinds(c.leases, row.lease);
    var l := LeaseById(c.leases, row.lease).value;
    var x :| x in [l] && Grants(x, at, c.principal, PolicyEffect(row, c.plan.scope));
    assert LeaseFor(c, i, at, l);
  }

  /** Some event of the journal cleared row i. */
  ghost predicate WasCleared(c: Call, journal: seq<Event>, i: nat) {
    exists at :: Cleared(i, at) in journal && i < |c.plan.rows| && Clean(c, i) && exists l <- c.leases :: LeaseFor(c, i, at, l)
  }

  ghost predicate LastGrants(c: Call, journal: seq<Event>, i: nat) {
    && journal != [] && journal[|journal| - 1].Granted? && journal[|journal| - 1].index == i && i < |c.plan.rows|
    && exists l <- c.leases :: LeaseFor(c, i, journal[|journal| - 1].at, l)
  }

  ghost predicate Means(c: Call, journal: seq<Event>, ph: Phase) {
    && (ph.saved ==> Checkpointed in journal)
    && (ph.held ==> LeasesHeld in journal && ph.saved)
    && (ph.running ==> ph.held && AllCleared(c, ph.cleared))
    && (ph.granted.Some? ==> ph.running && LastGrants(c, journal, ph.granted.value))
    && (forall i <- ph.cleared :: WasCleared(c, journal, i))
  }

  lemma StepMeans(c: Call, before: seq<Event>, ph: Phase, e: Event)
    requires Means(c, before, ph) && Permits(c, ph, e)
    ensures Means(c, before + [e], Advance(ph, e))
  {
    hide MayRun, Clean, LeaseFor, AllCleared;
    var journal, next := before + [e], Advance(ph, e);
    match e
    case Cleared(i, at) =>
      MayRunMeans(c, i, at);
      assert Cleared(i, at) in journal;
      assert WasCleared(c, journal, i);
    case Granted(i, at) =>
      MayRunMeans(c, i, at);
      assert journal[|journal| - 1] == e;
    case _ =>
    forall i | i in ph.cleared ensures WasCleared(c, journal, i) {
      var at :| Cleared(i, at) in before && i < |c.plan.rows| && Clean(c, i) && exists l <- c.leases :: LeaseFor(c, i, at, l);
      assert Cleared(i, at) in journal;
    }
  }

  lemma {:induction false} ReplayMeans(c: Call, before: seq<Event>, ph: Phase, journal: seq<Event>)
    requires Means(c, before, ph) && Replay(c, ph, journal).Some?
    ensures Means(c, before + journal, Replay(c, ph, journal).value)
    decreases |journal|
  {
    if journal == [] {
      assert before + [] == before;
    } else {
      StepMeans(c, before, ph, journal[0]);
      ReplayMeans(c, before + [journal[0]], Advance(ph, journal[0]), journal[1..]);
      assert before + [journal[0]] + journal[1..] == before + journal;
    }
  }

  /** The plan-level gate. */
  predicate GateOpen(host: Host, ports: Ports, p: Plan, approval: string) {
    && p.status in {Status.Approved, Status.Applying}
    && p.hash == approval == HashOf(p, host.H) && p.hash != ""
    && Before(ports.start, p.expiresAt)
  }

  lemma NothingBeforeTheGate(host: Host, ports: Ports, principal: string, p: Plan, approval: string, s: State)
    ensures ApplyPlan(host, ports, principal, p, approval, s).journal != [] ==> GateOpen(host, ports, p, approval)
  {
    hide ObserveFrom, WhileHeld, Release, Encode, Marked;
  }

  /** Row i is let through, as event k of the journal, only in an approved, unexpired,
      untampered plan whose approval names its hash; after the checkpoint and the leases;
      with every row that had not landed already scanned and authorised; and under a lease
      then valid for the same principal, scope and kind. */
  lemma GrantsAreGated(host: Host, ports: Ports, principal: string, p: Plan, approval: string, s: State, k: nat)
    requires var journal := ApplyPlan(host, ports, principal, p, approval, s).journal; k < |journal| && journal[k].Granted?
    ensures var journal, c := ApplyPlan(host, ports, principal, p, approval, s).journal, CallOf(host, ports, principal, p, s);
            && GateOpen(host, ports, p, approval)
            && Checkpointed in journal[..k] && LeasesHeld in journal[..k]
            && (journal[k].index < |p.rows| && exists l <- c.leases :: LeaseFor(c, journal[k].index, journal[k].at, l))
            && (forall j: nat :: j < |p.rows| && p.rows[j].key !in s.applied ==> WasCleared(c, journal[..k], j))
  {
    var c, journal := CallOf(host, ports, principal, p, s), ApplyPlan(host, ports, principal, p, approval, s).journal;
    NothingBeforeTheGate(host, ports, principal, p, approval, s);
    var ph := PhaseAt(host, ports, principal, p, approval, s, k);
    hide ApplyPlan, MayRun;
    MayRunMeans(c, journal[k].index, journal[k].at);
  }

  /** What the journal has established before event k, and that it permits the event. */
  lemma PhaseAt(host: Host, ports: Ports, principal: string, p: Plan, approval: string, s: State, k: nat) returns (ph: Phase)
    requires k < |ApplyPlan(host, ports, principal, p, approval, s).journal|
    ensures var journal, c := ApplyPlan(host, ports, principal, p, approval, s).journal, CallOf(host, ports, principal, p, s);
            Means(c, journal[..k], ph) && Permits(c, ph, journal[k])
  {
    var c, journal := CallOf(host, ports, principal, p, s), ApplyPlan(host, ports, principal, p, approval, s).journal;
    JournalIsLawful(host, ports, principal, p, approval, s);
    hide ApplyPlan;
    assert journal == journal[..k] + journal[k..];
    ReplayConcat(c, START, journal[..k], journal[k..]);
    ReplayMeans(c, [], START, journal[..k]);
    assert [] + journal[..k] == journal[..k];
    ph := Replay(c, START, journal[..k]).value;
    assert Permits(c, ph, journal[k..][0]);
  }

  /** A row that ran was let through by the event directly before. */
  lemma EffectsAreGated(host: Host, ports: Ports, principal: string, p: Plan, approval: string, s: State, k: nat)
    requires var journal := ApplyPlan(host, ports, principal, p, approval, s).journal;
             k < |journal| && (journal[k].Executed? || journal[k].Proposed?)
    ensures var journal, c := ApplyPlan(host, ports, principal, p, approval, s).journal, CallOf(host, ports, principal, p, s);
            && GateOpen(host, ports, p, approval)
            && Checkpointed in journal[..k] && LeasesHeld in journal[..k]
            && LastGrants(c, journal[..k], journal[k].index)
            && (forall j: nat :: j < |p.rows| && p.rows[j].key !in s.applied ==> WasCleared(c, journal[..k], j))
  {
    NothingBeforeTheGate(host, ports, principal, p, approval, s);
    var ph := PhaseAt(host, ports, principal, p, approval, s, k);
    hide ApplyPlan;
  }

  // ----- who may run a row, said of the leases ----------------------------------------------------

  /** The first lease of that name is k. */
  predicate FirstNamed(leases: seq<Lease>, id: string, k: int) {
    0 <= k < |leases| && leases[k].id == id && forall j :: 0 <= j < k ==> leases[j].id != id
  }

  lemma {:induction false} LeaseByIdIff(leases: seq<Lease>, id: string)
    ensures forall k :: FirstNamed(leases, id, k) ==> LeaseById(leases, id) == Some(leases[k])
    ensures LeaseById(leases, id).Some? ==> exists k :: FirstNamed(leases, id, k)
  {
    if leases != [] {
      LeaseByIdIff(leases[1..], id);
      forall k | FirstNamed(leases, id, k) ensures LeaseById(leases, id) == Some(leases[k]) {
        if k > 0 {
          assert forall j :: 0 <= j < k - 1 ==> leases[1..][j] == leases[j + 1];
          assert FirstNamed(leases[1..], id, k - 1);
        }
      }
      if leases[0].id == id {
        assert FirstNamed(leases, id, 0);
      } else if LeaseById(leases, id).Some? {
        var k :| FirstNamed(leases[1..], id, k);
        assert forall j :: 0 < j < k + 1 ==> leases[j] == leases[1..][j - 1];
        assert FirstNamed(leases, id, k + 1);
      }
    }
  }

  /** The instant comes before the expiry. */
  predicate InTime(now: Time, expiry: Time) { expiry.At? && (now.Zero? || now.nanos < expiry.nanos) }

  /** A row may run exactly when the first lease of its name belongs to the principal, covers
      the row's kind in the plan's scope and has not expired, and the plan has such an effect
      on that target. */
  lemma MayRunIff(now: Time, principal: string, p: Plan, row: Row, leases: seq<Lease>)
    ensures MayRun(now, principal, p, row, leases) <==>
            && (exists k :: FirstNamed(leases, row.lease, k) && leases[k].principal == principal && leases[k].scope == p.scope
                            && row.op in leases[k].kinds && InTime(now, leases[k].expiresAt))
            && (exists r <- p.rows :: r.op == row.op && r.target == row.target)
  {
    LeaseByIdIff(leases, row.lease);
    PlannedIff(p, row);
    hide LeaseById, FirstNamed, KernelPlan, PolicyEffect;
    var named := LeaseById(leases, row.lease);
    EffectFields(row, p.scope);
    if named.Some? {
      assert forall l <- [named.value] :: l == named.value;
      assert named.value in [named.value];
    }
  }

  lemma EffectFields(row: Row, scope: string)
    ensures var e := PolicyEffect(row, scope); e.kind == row.op && e.scope == scope
  {
  }

  lemma PlannedIff(p: Plan, row: Row)
    ensures PolicyEffect(row, p.scope) in KernelPlan(p).effects <==> exists r <- p.rows :: r.op == row.op && r.target == row.target
  {
    if r :| r in p.rows && r.op == row.op && r.target == row.target {
      var i :| 0 <= i < |p.rows| && p.rows[i] == r;
      RowsAreEffects(p, i);
      assert PolicyEffect(r, p.scope) == PolicyEffect(row, p.scope);
    }
    if PolicyEffect(row, p.scope) in KernelPlan(p).effects {
      var i :| 0 <= i < |p.rows| && EffectsOf(p.rows, p.scope)[i] == PolicyEffect(row, p.scope);
      assert p.rows[i] in p.rows;
    }
  }
}
