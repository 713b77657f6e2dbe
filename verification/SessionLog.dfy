/** The in-memory session log and the machine that records onto it
    (internal/session/log.go, internal/session/machine.go). */
module SessionLog {
  import opened Text
  import opened Session
  import opened Sorting

  // ----- a history and its views ----------------------------------------------------------

  /** The events of one session, in order. */
  function OfSession(history: seq<Event>, id: string): seq<Event> {
    if history == [] then []
    else
      var rest, e := OfSession(history[..|history| - 1], id), history[|history| - 1];
      if e.session == id then rest + [e] else rest
  }

  /** The session ids in order of first appearance. */
  function FirstSeen(history: seq<Event>): seq<string> {
    if history == [] then []
    else
      var rest, e := FirstSeen(history[..|history| - 1]), history[|history| - 1];
      if e.session in rest then rest else rest + [e.session]
  }

  function ById(history: seq<Event>): map<string, seq<Event>> {
    map id | id in FirstSeen(history) :: OfSession(history, id)
  }

  function MaxSeq(history: seq<Event>): int {
    if history == [] then 0
    else
      var rest, e := MaxSeq(history[..|history| - 1]), history[|history| - 1];
      if e.seqno > rest then e.seqno else rest
  }

  predicate Wellformed(e: Event) { e.session != "" && e.kind != Unknown("") }

  /** Sequence numbers are positive and strictly increasing. */
  ghost predicate Chronological(history: seq<Event>) {
    && (forall e <- history :: Wellformed(e) && e.seqno > 0)
    && (forall i, j :: 0 <= i < j < |history| ==> history[i].seqno < history[j].seqno)
  }

  lemma Grown(history: seq<Event>, e: Event)
    ensures var more := history + [e];
            && FirstSeen(more) == (if e.session in FirstSeen(history) then FirstSeen(history) else FirstSeen(history) + [e.session])
            && MaxSeq(more) == (if e.seqno > MaxSeq(history) then e.seqno else MaxSeq(history))
            && forall id :: OfSession(more, id) == if e.session == id then OfSession(history, id) + [e] else OfSession(history, id)
  {
    assert (history + [e])[..|history|] == history;
  }

  lemma {:induction false} SeenIff(history: seq<Event>, id: string)
    ensures id in FirstSeen(history) <==> OfSession(history, id) != []
    ensures forall j, k :: 0 <= j < k < |FirstSeen(history)| ==> FirstSeen(history)[j] != FirstSeen(history)[k]
  {
    if history != [] {
      SeenIff(history[..|history| - 1], id);
    }
  }

  /** What one more event does to the map of sessions. */
  lemma GrownById(history: seq<Event>, e: Event)
    ensures ById(history + [e]) == ById(history)[e.session := OfSession(history, e.session) + [e]]
  {
    Grown(history, e);
  }

  /** A session is in the map exactly when it has events. */
  lemma LookUp(history: seq<Event>, id: string)
    ensures id in ById(history) <==> id in FirstSeen(history)
    ensures id in ById(history) ==> ById(history)[id] == OfSession(history, id)
    ensures id !in ById(history) ==> OfSession(history, id) == []
  {
    SeenIff(history, id);
  }

  lemma {:induction false} MaxIsLast(history: seq<Event>)
    requires Chronological(history)
    ensures MaxSeq(history) == if history == [] then 0 else history[|history| - 1].seqno
  {
    if history != [] {
      var n := |history| - 1;
      MaxIsLast(history[..n]);
      assert history[n] in history;
    }
  }

  lemma ChronologicalSnoc(history: seq<Event>, e: Event)
    requires Chronological(history) && Wellformed(e) && e.seqno > MaxSeq(history)
    ensures Chronological(history + [e])
  {
    MaxIsLast(history);
    var more := history + [e];
    forall i, j | 0 <= i < j < |more| ensures more[i].seqno < more[j].seqno {
      if j == |history| && i < |history| - 1 {
        assert history[i].seqno < history[|history| - 1].seqno;
      }
    }
  }

  // ----- a snapshot is the history --------------------------------------------------------------

  /** The sessions one after another. */
  function Gather(history: seq<Event>, ids: seq<string>): seq<Event> {
    if ids == [] then [] else Gather(history, ids[..|ids| - 1]) + OfSession(history, ids[|ids| - 1])
  }

  function BySeq(): (Event, Event) -> bool { (a: Event, b: Event) => a.seqno < b.seqno }

  ghost predicate DistinctIds(ids: seq<string>) { forall j, k :: 0 <= j < k < |ids| ==> ids[j] != ids[k] }

  lemma {:induction false} GatherGrown(history: seq<Event>, e: Event, ids: seq<string>)
    requires DistinctIds(ids)
    ensures multiset(Gather(history + [e], ids)) == multiset(Gather(history, ids)) + if e.session in ids then multiset{e} else multiset{}
    decreases |ids|
  {
    if ids != [] {
      hide OfSession, FirstSeen;
      Grown(history, e);
      var shorter, last := ids[..|ids| - 1], ids[|ids| - 1];
      assert ids == shorter + [last];
      GatherGrown(history, e, shorter);
    }
  }

  lemma GatherSnoc(history: seq<Event>, ids: seq<string>, id: string)
    ensures Gather(history, ids + [id]) == Gather(history, ids) + OfSession(history, id)
  {
    assert (ids + [id])[..|ids|] == ids;
  }

  lemma {:induction false} GatherAll(history: seq<Event>)
    ensures multiset(Gather(history, FirstSeen(history))) == multiset(history)
    decreases |history|
  {
    if history != [] {
      var before, e := history[..|history| - 1], history[|history| - 1];
      assert history == before + [e];
      hide FirstSeen, OfSession, Gather;
      GatherAll(before);
      Grown(before, e);
      var ids := FirstSeen(history);
      SeenIff(before, e.session);
      SeenIff(history, e.session);
      GatherGrown(before, e, ids);
      assert e.session in ids;
      if e.session !in FirstSeen(before) {
        GatherSnoc(before, FirstSeen(before), e.session);
        assert Gather(before, FirstSeen(before)) + [] == Gather(before, FirstSeen(before));
      }
    } else {
      assert Gather(history, []) == [];
    }
  }

  lemma SeqOrder()
    ensures WeakOrder(BySeq())
  {
  }

  lemma HistorySorted(history: seq<Event>)
    requires Chronological(history)
    ensures Sorted(history, BySeq()) && Total(history, BySeq())
  {
    forall x, y | x in history && y in history ensures x == y || BySeq()(x, y) || BySeq()(y, x) {
      var i :| 0 <= i < |history| && history[i] == x;
      var j :| 0 <= j < |history| && history[j] == y;
    }
  }

  lemma SnapshotIsHistory(history: seq<Event>)
    requires Chronological(history)
    ensures Sort(Gather(history, FirstSeen(history)), BySeq()) == history
  {
    var all := Gather(history, FirstSeen(history));
    GatherAll(history);
    SeqOrder();
    SortMultiset(all, BySeq());
    SortSorts(all, BySeq());
    HistorySorted(history);
    SortedDetermined(history, Sort(all, BySeq()), BySeq());
  }

  // ----- the log ---------------------------------------------------------------------------------

  function After(events: seq<Event>, seqno: int): seq<Event> { Filter(events, (e: Event) => e.seqno > seqno) }

  function LastOf<T>(s: seq<T>, n: nat): seq<T> { if |s| <= n then s else s[|s| - n..] }

  class MemoryLog {
    var nextSeq: int
    var events: map<string, seq<Event>>
    var order: seq<string>
    /** Everything ever appended, in order. */
    ghost var history: seq<Event>

    /** The fields are views of these events. */
    ghost predicate Views(all: seq<Event>)
      reads this
    {
      events == ById(all) && order == FirstSeen(all) && nextSeq == MaxSeq(all)
    }

    ghost predicate Valid()
      reads this
    {
      Chronological(history) && Views(history)
    }

    constructor ()
      ensures Valid() && history == []
    {
      nextSeq, events, order, history := 0, map[], [], [];
    }

    /** A log from recorded events, keeping their numbers; null when one is malformed. */
    static method FromEvents(recorded: seq<Event>) returns (log: MemoryLog?)
      ensures log == null <==> exists e <- recorded :: !Wellformed(e)
      ensures log != null ==> fresh(log) && log.history == recorded && log.Views(recorded)
      ensures log != null && Chronological(recorded) ==> log.Valid()
    {
      log := new MemoryLog();
      var maxSeq := 0;
      for i := 0 to |recorded|
        invariant log != null && fresh(log)
        invariant forall e <- recorded[..i] :: Wellformed(e)
        invariant log.events == ById(recorded[..i]) && log.order == FirstSeen(recorded[..i]) && maxSeq == MaxSeq(recorded[..i])
      {
        var ev := recorded[i];
        if ev.session == "" || ev.kind == Unknown("") {
          assert !Wellformed(ev);
          return null;
        }
        assert recorded[..i + 1] == recorded[..i] + [ev];
        log.Insert(recorded[..i], ev);
        Grown(recorded[..i], ev);
        if ev.seqno > maxSeq {
          maxSeq := ev.seqno;
        }
      }
      assert recorded[..|recorded|] == recorded;
      log.nextSeq, log.history := maxSeq, recorded;
    }

    /** One event into the map and the order. */
    method Insert(ghost before: seq<Event>, ev: Event)
      requires events == ById(before) && order == FirstSeen(before)
      modifies this`events, this`order
      ensures events == ById(before + [ev]) && order == FirstSeen(before + [ev])
    {
      hide OfSession, FirstSeen, ById;
      Grown(before, ev);
      GrownById(before, ev);
      LookUp(before, ev.session);
      if ev.session !in events {
        order := order + [ev.session];
        events := events[ev.session := []];
      }
      assert events[ev.session] == OfSession(before, ev.session);
      events := events[ev.session := events[ev.session] + [ev]];
    }

    method Append(cancelled: bool, id: string, kind: Kind, payload: string) returns (r: Option<Event>)
      requires Valid()
      modifies this
      ensures Valid()
      ensures r.Some? <==> !cancelled && id != "" && kind != Unknown("")
      ensures r.Some? ==> r.value == Event(old(nextSeq) + 1, id, kind, payload) && history == old(history) + [r.value]
      ensures r.None? ==> history == old(history)
    {
      if cancelled || id == "" || kind == Unknown("") {
        return None;
      }
      var ev := Event(nextSeq + 1, id, kind, payload);
      MaxIsLast(history);
      NextIsPositive(history, ev);
      ChronologicalSnoc(history, ev);
      Grown(history, ev);
      Insert(history, ev);
      nextSeq := nextSeq + 1;
      history := history + [ev];
      return Some(ev);
    }

    /** The session's events numbered above seqno. */
    method EventsAfter(cancelled: bool, id: string, seqno: int) returns (r: Option<seq<Event>>)
      requires Valid()
      ensures r == if cancelled then None else Some(After(OfSession(history, id), seqno))
    {
      if cancelled {
        return None;
      }
      SeenIff(history, id);
      var src := if id in events then events[id] else [];
      var out: seq<Event> := [];
      for i := 0 to |src|
        invariant out == After(src[..i], seqno)
      {
        assert src[..i + 1] == src[..i] + [src[i]];
        FilterConcat(src[..i], [src[i]], (e: Event) => e.seqno > seqno);
        FilterOne(src[i], (e: Event) => e.seqno > seqno);
        if src[i].seqno > seqno {
          out := out + [src[i]];
        }
      }
      assert src[..|src|] == src;
      return Some(out);
    }

    /** The session's last n events, oldest first. */
    method ReplayLast(cancelled: bool, id: string, n: int) returns (r: Option<seq<Event>>)
      requires Valid()
      ensures r == if cancelled || n < 1 then None else Some(LastOf(OfSession(history, id), n))
    {
      if cancelled || n < 1 {
        return None;
      }
      SeenIff(history, id);
      var src := if id in events then events[id] else [];
      if |src| == 0 {
        return Some([]);
      }
      var start := if |src| - n < 0 then 0 else |src| - n;
      assert src[0..] == src;
      return Some(src[start..]);
    }

    /** Every event of every session by sequence number: the history itself. */
    method Snapshot() returns (out: seq<Event>)
      requires Valid()
      ensures out == history
    {
      hide OfSession, Chronological, Sort;
      var all: seq<Event> := [];
      for i := 0 to |order|
        invariant all == Gather(history, order[..i])
      {
        assert order[..i + 1] == order[..i] + [order[i]];
        GatherSnoc(history, order[..i], order[i]);
        all := all + events[order[i]];
      }
      assert order[..|order|] == order;
      out := SortedCopy(all, BySeq());
      SnapshotIsHistory(history);
    }

    /** A daemon restart: the log rebuilt from its snapshot is the same log. */
    method Restarted() returns (log: MemoryLog?)
      requires Valid()
      ensures log != null && fresh(log) && log.Valid()
      ensures log.events == events && log.order == order && log.nextSeq == nextSeq && log.history == history
    {
      var recorded := Snapshot();
      log := FromEvents(recorded);
    }
  }

  lemma NextIsPositive(history: seq<Event>, ev: Event)
    requires Chronological(history) && ev.seqno == MaxSeq(history) + 1
    ensures ev.seqno > 0
  {
    MaxIsLast(history);
  }

  // ----- the machine ----------------------------------------------------------------------------

  lemma OneSessionOnly(history: seq<Event>, id: string)
    ensures forall e <- OfSession(history, id) :: e.session == id && e in history
    decreases |history|
  {
    if history != [] {
      OneSessionOnly(history[..|history| - 1], id);
    }
  }

  // ----- what each call does to the history ----------------------------------------------------

  function NextEvent(history: seq<Event>, id: string, kind: Kind, payload: string): Event {
    Event(MaxSeq(history) + 1, id, kind, payload)
  }

  function CreatedOn(history: seq<Event>, id: string, cancelled: bool): seq<Event> {
    if id == "" || cancelled then history else history + [NextEvent(history, id, Created, "")]
  }

  predicate CanRecord(history: seq<Event>, id: string, kind: Kind, payload: string, cancelled: bool, json: string -> Option<Contract>) {
    && !cancelled && Replay(OfSession(history, id), json).Ok?
    && Session.Apply(Replay(OfSession(history, id), json).value, Event(0, id, kind, payload), json).Ok?
  }

  function Recorded(history: seq<Event>, id: string, kind: Kind, payload: string, cancelled: bool, json: string -> Option<Contract>): seq<Event> {
    if CanRecord(history, id, kind, payload, cancelled, json) then history + [NextEvent(history, id, kind, payload)] else history
  }

  function FailedWith(history: seq<Event>, id: string, msg: string, cancelled: bool, cancelledLater: bool, json: string -> Option<Contract>): seq<Event> {
    if msg != "" && !CanRecord(history, id, ErrorReported, msg, cancelled, json) then history
    else
      var noted := if msg == "" then history else Recorded(history, id, ErrorReported, msg, cancelled, json);
      Recorded(noted, id, Ended, FAILED, cancelledLater, json)
  }

  class Machine {
    const id: string
    const log: MemoryLog
    const json: string -> Option<Contract>

    constructor (id: string, log: MemoryLog, json: string -> Option<Contract>)
      ensures this.id == id && this.log == log && this.json == json
    {
      this.id, this.log, this.json := id, log, json;
    }

    /** A new session: appends Created. On an id the log already holds, that makes the
        session unreadable. */
    static method Create(id: string, log: MemoryLog, json: string -> Option<Contract>, cancelled: bool) returns (m: Machine?)
      requires log.Valid()
      modifies log
      ensures log.Valid()
      ensures m == null <==> id == "" || cancelled
      ensures m != null ==> fresh(m) && m.id == id && m.log == log && m.json == json
      ensures log.history == CreatedOn(old(log.history), id, cancelled)
      ensures m != null && OfSession(old(log.history), id) == [] ==> Replay(OfSession(log.history, id), json).Ok?
      ensures m != null && Replay(OfSession(old(log.history), id), json).Ok? ==> Replay(OfSession(log.history, id), json).Err?
    {
      hide Session.Apply, Chronological, Fold;
      var created := Event(log.nextSeq + 1, id, Created, "");
      if id == "" {
        return null;
      }
      Grown(log.history, created);
      AfterCreated(OfSession(log.history, id), created, json);
      var ev := log.Append(cancelled, id, Created, "");
      if ev.None? {
        return null;
      }
      m := new Machine(id, log, json);
    }

    /** The state is always the fold of the session's events. */
    method GetState(cancelled: bool) returns (r: Result<State>)
      requires log.Valid()
      ensures r == if cancelled then Err(Interrupted) else Replay(OfSession(log.history, id), json)
    {
      var evs := log.EventsAfter(cancelled, id, 0);
      if evs.None? {
        return Err(Interrupted);
      }
      OneSessionOnly(log.history, id);
      FilterAll(OfSession(log.history, id), (e: Event) => e.seqno > 0);
      r := ReplayEvents(evs.value, json);
    }

    /** Check, then append: an event that is not legal now is never written. */
    method Record(kind: Kind, payload: string, cancelled: bool) returns (ok: bool)
      requires log.Valid()
      modifies log
      ensures log.Valid()
      ensures ok <==> CanRecord(old(log.history), id, kind, payload, cancelled, json)
      ensures log.history == Recorded(old(log.history), id, kind, payload, cancelled, json)
      ensures ok ==> Replay(OfSession(log.history, id), json).Ok?
    {
      hide Session.Apply, Chronological;
      var st := GetState(cancelled);
      if st.Err? {
        return false;
      }
      var next := Session.Apply(st.value, Event(0, id, kind, payload), json);
      if next.Err? {
        return false;
      }
      NumberDoesNotMatter(st.value, Event(0, id, kind, payload), log.nextSeq + 1, json);
      Grown(log.history, Event(log.nextSeq + 1, id, kind, payload));
      FoldSnoc(OfSession(log.history, id), Event(log.nextSeq + 1, id, kind, payload), json);
      var ev := log.Append(cancelled, id, kind, payload);
      return ev.Some?;
    }

    /** The reason first, then the end. */
    method Fail(msg: string, cancelled: bool, cancelledLater: bool) returns (ok: bool)
      requires log.Valid()
      modifies log
      ensures log.Valid()
      ensures log.history == FailedWith(old(log.history), id, msg, cancelled, cancelledLater, json)
      ensures ok <==> Open(Replay(OfSession(old(log.history), id), json), id) && !(msg != "" && cancelled) && !cancelledLater
      ensures var n, noted := old(log.nextSeq), Event(old(log.nextSeq) + 1, id, ErrorReported, msg);
              if ok then log.history == old(log.history) + (if msg == "" then [Event(n + 1, id, Ended, FAILED)] else [noted, Event(n + 2, id, Ended, FAILED)])
              else log.history == old(log.history) || (msg != "" && cancelledLater && log.history == old(log.history) + [noted])
    {
      hide Session.Apply, Chronological, Fold;
      ReplayIsLive(log.history, id, json);
      var before := Replay(OfSession(log.history, id), json);
      if before.Ok? {
        ErrorsAndFailureAreLegal(before.value, 0, id, msg, json);
      }
      if msg != "" {
        var noted := Record(ErrorReported, msg, cancelled);
        if !noted {
          return false;
        }
        AfterNote(old(log.history), Event(old(log.nextSeq) + 1, id, ErrorReported, msg), json);
      }
      ok := Record(Ended, FAILED, cancelledLater);
    }
  }

  lemma AfterCreated(es: seq<Event>, created: Event, json: string -> Option<Contract>)
    requires created.kind == Created && created.session != ""
    ensures es == [] ==> Replay(es + [created], json).Ok?
    ensures Replay(es, json).Ok? ==> Replay(es + [created], json).Err?
  {
    if es == [] {
      assert Fold([], json) == Ok(Blank);
      FoldSnoc([], created, json);
    } else if Fold(es, json).Ok? {
      SecondCreatedCorrupts(es, created, json);
    }
  }

  lemma ReplayIsLive(history: seq<Event>, id: string, json: string -> Option<Contract>)
    ensures var r := Replay(OfSession(history, id), json); r.Ok? ==> r.value.Live? && r.value.id == id && id != ""
  {
    var es := OfSession(history, id);
    if Replay(es, json).Ok? {
      OneSessionOnly(history, id);
      var _ := FoldIsLatestMove(es, json);
      CreatedIsNamed(es, json);
      assert es[0].session == id;
    }
  }

  lemma CreatedIsNamed(es: seq<Event>, json: string -> Option<Contract>)
    requires es != [] && Fold(es, json).Ok?
    ensures es[0].session != ""
  {
    PrefixFolds(es, 0, json);
    assert es[..0] == [];
  }

  lemma AfterNote(history: seq<Event>, note: Event, json: string -> Option<Contract>)
    requires Open(Replay(OfSession(history, note.session), json), note.session) && note.kind == ErrorReported && note.payload != ""
    ensures Replay(OfSession(history + [note], note.session), json) == Replay(OfSession(history, note.session), json)
  {
    Grown(history, note);
    FoldSnoc(OfSession(history, note.session), note, json);
    ReplayIsLive(history, note.session, json);
    ErrorsAndFailureAreLegal(Replay(OfSession(history, note.session), json).value, note.seqno, note.session, note.payload, json);
  }

  lemma NumberDoesNotMatter(st: State, ev: Event, seqno: int, json: string -> Option<Contract>)
    ensures Session.Apply(st, ev.(seqno := seqno), json) == Session.Apply(st, ev, json)
    ensures Session.Apply(st, ev, json).Ok? ==> ev.kind != Unknown("") && ev.session != ""
  {
  }

  // ----- runs of many machines on one log ------------------------------------------------------------

  datatype Op =
    | DoCreate(id: string, cancelled: bool)
    | DoRecord(id: string, kind: Kind, payload: string, cancelled: bool)
    | DoFail(id: string, msg: string, cancelled: bool, cancelledLater: bool)

  function Done(history: seq<Event>, op: Op, json: string -> Option<Contract>): seq<Event> {
    match op
    case DoCreate(id, cancelled) => CreatedOn(history, id, cancelled)
    case DoRecord(id, kind, payload, cancelled) => Recorded(history, id, kind, payload, cancelled, json)
    case DoFail(id, msg, cancelled, later) => FailedWith(history, id, msg, cancelled, later, json)
  }

  /** The log after these calls on an empty one, on any sessions in any order. */
  function RunOps(ops: seq<Op>, json: string -> Option<Contract>): seq<Event> {
    if ops == [] then [] else Done(RunOps(ops[..|ops| - 1], json), ops[|ops| - 1], json)
  }

  /** A session without events, or one whose log replays. */
  predicate Readable(history: seq<Event>, id: string, json: string -> Option<Contract>) {
    OfSession(history, id) == [] || Fold(OfSession(history, id), json).Ok?
  }

  /** The call creates a session that the log already holds. */
  predicate Recreates(history: seq<Event>, op: Op) {
    op.DoCreate? && op.id != "" && !op.cancelled && OfSession(history, op.id) != []
  }

  ghost predicate FreshCreates(ops: seq<Op>, json: string -> Option<Contract>) {
    forall i :: 0 <= i < |ops| ==> !Recreates(RunOps(ops[..i], json), ops[i])
  }

  lemma RecordedReadable(history: seq<Event>, id: string, kind: Kind, payload: string, cancelled: bool, json: string -> Option<Contract>, other: string)
    ensures Readable(history, other, json) <==> Readable(Recorded(history, id, kind, payload, cancelled, json), other, json)
  {
    hide Session.Apply, Fold;
    if CanRecord(history, id, kind, payload, cancelled, json) {
      var ev := NextEvent(history, id, kind, payload);
      Grown(history, ev);
      if other == id {
        var st := Replay(OfSession(history, id), json).value;
        NumberDoesNotMatter(st, Event(0, id, kind, payload), ev.seqno, json);
        FoldSnoc(OfSession(history, id), ev, json);
      }
    }
  }

  lemma CreatedReadable(history: seq<Event>, id: string, cancelled: bool, json: string -> Option<Contract>, other: string)
    ensures Readable(CreatedOn(history, id, cancelled), other, json) <==>
            Readable(history, other, json) && !(other == id && Recreates(history, DoCreate(id, cancelled)))
  {
    hide Session.Apply, Fold;
    if id != "" && !cancelled {
      var ev := NextEvent(history, id, Created, "");
      Grown(history, ev);
      if other == id {
        AfterCreated(OfSession(history, id), ev, json);
        BrokenStays(OfSession(history, id), ev, json);
      }
    }
  }

  lemma BrokenStays(es: seq<Event>, ev: Event, json: string -> Option<Contract>)
    ensures Fold(es, json).Err? ==> Fold(es + [ev], json).Err?
  {
    hide Session.Apply;
    assert (es + [ev])[..|es|] == es;
  }

  lemma DoneReadable(history: seq<Event>, op: Op, json: string -> Option<Contract>, other: string)
    ensures Readable(Done(history, op, json), other, json) <==>
            Readable(history, other, json) && !(Recreates(history, op) && other == op.id)
  {
    hide Readable, Recorded, CreatedOn;
    match op
    case DoCreate(id, cancelled) => CreatedReadable(history, id, cancelled, json, other);
    case DoRecord(id, kind, payload, cancelled) => RecordedReadable(history, id, kind, payload, cancelled, json, other);
    case DoFail(id, msg, cancelled, later) => FailedReadable(history, id, msg, cancelled, later, json, other);
  }

  lemma FailedReadable(history: seq<Event>, id: string, msg: string, cancelled: bool, later: bool, json: string -> Option<Contract>, other: string)
    ensures Readable(history, other, json) <==> Readable(FailedWith(history, id, msg, cancelled, later, json), other, json)
  {
    hide Readable, CanRecord, Recorded;
    var noted := Recorded(history, id, ErrorReported, msg, cancelled, json);
    RecordedReadable(history, id, ErrorReported, msg, cancelled, json, other);
    RecordedReadable(history, id, Ended, FAILED, later, json, other);
    RecordedReadable(noted, id, Ended, FAILED, later, json, other);
  }

  ghost predicate AllReadable(history: seq<Event>, json: string -> Option<Contract>) {
    forall id :: Readable(history, id, json)
  }

  lemma StepReadable(history: seq<Event>, op: Op, json: string -> Option<Contract>)
    ensures AllReadable(Done(history, op, json), json) <==> AllReadable(history, json) && !Recreates(history, op)
  {
    hide Readable, Done, Recreates;
    var later := Done(history, op, json);
    if AllReadable(later, json) {
      forall id ensures Readable(history, id, json) {
        DoneReadable(history, op, json, id);
        assert Readable(later, id, json);
      }
      if op.DoCreate? {
        DoneReadable(history, op, json, op.id);
        assert Readable(later, op.id, json);
      } else {
        OnlyCreatesRecreate(history, op);
      }
    }
    if AllReadable(history, json) && !Recreates(history, op) {
      forall id ensures Readable(later, id, json) {
        DoneReadable(history, op, json, id);
        assert Readable(history, id, json);
      }
    }
  }

  lemma OnlyCreatesRecreate(history: seq<Event>, op: Op)
    ensures Recreates(history, op) ==> op.DoCreate?
  {
  }

  /** Every session of the log replays exactly when no call created one the log already
      held: whatever else is called, on whatever sessions and however interrupted. */
  lemma {:induction false} EveryLogReplaysIff(ops: seq<Op>, json: string -> Option<Contract>)
    ensures AllReadable(RunOps(ops, json), json) <==> FreshCreates(ops, json)
  {
    hide AllReadable, Done, Recreates;
    if |ops| == 0 {
      EmptyReadable(json);
    } else {
      var n := |ops| - 1;
      EveryLogReplaysIff(ops[..n], json);
      StepReadable(RunOps(ops[..n], json), ops[n], json);
      FreshSnoc(ops, json);
    }
  }

  lemma EmptyReadable(json: string -> Option<Contract>)
    ensures AllReadable([], json)
  {
    hide Readable;
    forall id ensures Readable([], id, json) {
      NothingYet(id, json);
    }
  }

  lemma NothingYet(id: string, json: string -> Option<Contract>)
    ensures Readable([], id, json)
  {
  }

  lemma FreshSnoc(ops: seq<Op>, json: string -> Option<Contract>)
    requires ops != []
    ensures var n := |ops| - 1;
            FreshCreates(ops, json) <==> FreshCreates(ops[..n], json) && !Recreates(RunOps(ops[..n], json), ops[n])
  {
    hide RunOps, Recreates;
    var n := |ops| - 1;
    assert forall i :: 0 <= i < n ==> ops[..n][..i] == ops[..i] && ops[..n][i] == ops[i];
    if FreshCreates(ops, json) {
      assert !Recreates(RunOps(ops[..n], json), ops[n]);
      forall i | 0 <= i < n ensures !Recreates(RunOps(ops[..n][..i], json), ops[..n][i]) {
        assert !Recreates(RunOps(ops[..i], json), ops[i]);
      }
    }
    if FreshCreates(ops[..n], json) && !Recreates(RunOps(ops[..n], json), ops[n]) {
      forall i | 0 <= i < |ops| ensures !Recreates(RunOps(ops[..i], json), ops[i]) {
        if i < n {
          assert !Recreates(RunOps(ops[..n][..i], json), ops[..n][i]);
        }
      }
    }
  }
}
