/** Session events and the state they fold to (internal/session/event.go). */
module Session {
  import opened Text

  datatype Status = Pending | Running | AwaitingApproval | Applying | Succeeded | Failed

  predicate Terminal(s: Status) { s == Succeeded || s == Failed }

  datatype Attachment = Foreground | Background

  datatype Contract = Contract(finish: bool, commentOnIssue: bool, pingOnlyOnBlockers: bool)

  const NO_CONTRACT: Contract := Contract(false, false, false)
  const DEFAULT_CONTRACT: Contract := Contract(true, true, true)

  datatype Kind =
    | Created
    | Started
    | Token
    | ToolCall
    | PlanProposed
    | CrossExamined
    | ApprovalRequested
    | ChangesRequested
    | ApplyBegun
    | CheckpointTaken
    | ErrorReported
    | Steered
    | Backgrounded
    | Attached
    | Ended
    | Unknown(name: string)

  datatype Event = Event(seqno: int, session: string, kind: Kind, payload: string)

  const DONE: string := "done"
  const FAILED: string := "failed"

  /** Nothing yet, or a session. */
  datatype State = Blank | Live(id: string, status: Status, attachment: Attachment, contract: Contract)

  datatype EventError = Illegal | Malformed | NotFound | Interrupted

  datatype Result<T> = Ok(value: T) | Err(error: EventError)

  /** The JSON of a completion contract; an empty payload is the default one. */
  function ParseContract(json: string -> Option<Contract>, payload: string): Option<Contract> {
    if payload == "" then Some(DEFAULT_CONTRACT) else json(payload)
  }

  predicate PayloadOk(ev: Event, json: string -> Option<Contract>) {
    match ev.kind
    case Ended => ev.payload in {DONE, FAILED}
    case Steered | ToolCall | ErrorReported => ev.payload != ""
    case Backgrounded => ParseContract(json, ev.payload).Some?
    case _ => true
  }

  function When(ok: bool, st: State): Result<State> { if ok then Ok(st) else Err(Illegal) }

  /** The state after one event, or why there is none. */
  function Apply(st: State, ev: Event, json: string -> Option<Contract>): Result<State> {
    if st.Blank? then
      if ev.kind != Created then Err(Illegal)
      else if ev.session == "" then Err(Malformed)
      else Ok(Live(ev.session, Pending, Foreground, NO_CONTRACT))
    else if ev.session == "" || ev.session != st.id || !PayloadOk(ev, json) then Err(Malformed)
    else if Terminal(st.status) then Err(Illegal)
    else
      match ev.kind
      case Created => Err(Illegal)
      case Started => When(st.status == Pending, st.(status := Running))
      case ApprovalRequested => When(st.status == Running, st.(status := AwaitingApproval))
      case ChangesRequested => When(st.status == AwaitingApproval, st.(status := Running))
      case ApplyBegun => When(st.status == AwaitingApproval, st.(status := Applying))
      case Ended =>
        if ev.payload == DONE then When(st.status in {Running, Applying}, st.(status := Succeeded, contract := NO_CONTRACT))
        else Ok(st.(status := Failed, contract := NO_CONTRACT))
      case Token | ToolCall => When(st.status in {Running, Applying}, st)
      case PlanProposed | CrossExamined => When(st.status == Running, st)
      case CheckpointTaken | ErrorReported => Ok(st)
      case Steered => When(st.status != Pending, st)
      case Backgrounded => When(st.attachment == Foreground, st.(attachment := Background, contract := ParseContract(json, ev.payload).value))
      case Attached => When(st.attachment == Background, st.(attachment := Foreground, contract := NO_CONTRACT))
      case Unknown(_) => Err(Malformed)
  }

  /** The fold; one bad event fails the whole log. */
  function Fold(events: seq<Event>, json: string -> Option<Contract>): Result<State> {
    if events == [] then Ok(Blank)
    else
      match Fold(events[..|events| - 1], json)
      case Err(e) => Err(e)
      case Ok(st) => Apply(st, events[|events| - 1], json)
  }

  function Replay(events: seq<Event>, json: string -> Option<Contract>): Result<State> {
    if events == [] then Err(NotFound) else Fold(events, json)
  }

  method ReplayEvents(events: seq<Event>, json: string -> Option<Contract>) returns (r: Result<State>)
    ensures r == Replay(events, json)
  {
    if |events| == 0 {
      return Err(NotFound);
    }
    var st := Blank;
    assert events[..0] == [];
    for i := 0 to |events|
      invariant Fold(events[..i], json) == Ok(st)
    {
      assert events[..i + 1][..i] == events[..i];
      var next := Apply(st, events[i], json);
      if next.Err? {
        FoldFails(events, i + 1, json);
        return next;
      }
      st := next.value;
    }
    assert events[..|events|] == events;
    return Ok(st);
  }

  lemma {:induction false} FoldFails(events: seq<Event>, n: nat, json: string -> Option<Contract>)
    requires n <= |events| && Fold(events[..n], json).Err?
    ensures Fold(events, json) == Fold(events[..n], json)
    decreases |events|
  {
    if n == |events| {
      assert events[..n] == events;
    } else {
      var shorter := events[..|events| - 1];
      assert shorter[..n] == events[..n];
      FoldFails(shorter, n, json);
    }
  }

  lemma FoldSnoc(events: seq<Event>, ev: Event, json: string -> Option<Contract>)
    requires Fold(events, json).Ok?
    ensures Fold(events + [ev], json) == Apply(Fold(events, json).value, ev, json)
  {
    assert (events + [ev])[..|events|] == events;
  }

  // ----- what a log that replays looks like ----------------------------------------------------

  lemma {:induction false} PrefixFolds(events: seq<Event>, n: nat, json: string -> Option<Contract>)
    requires n <= |events| && Fold(events, json).Ok?
    ensures Fold(events[..n], json).Ok?
    ensures n < |events| ==> Apply(Fold(events[..n], json).value, events[n], json).Ok?
    ensures n < |events| ==> Fold(events[..n + 1], json) == Apply(Fold(events[..n], json).value, events[n], json)
    decreases |events|
  {
    hide Apply;
    if n == |events| {
      assert events[..n] == events;
    } else {
      var shorter := events[..|events| - 1];
      assert shorter[..n] == events[..n];
      PrefixFolds(shorter, n, json);
      assert events[..n + 1][..n] == events[..n];
      if n == |events| - 1 {
        assert events[..n + 1] == events;
      } else {
        assert shorter[..n + 1] == events[..n + 1] && shorter[n] == events[n];
      }
    }
  }

  predicate Moves(k: Kind) { k in {Created, Started, ApprovalRequested, ChangesRequested, ApplyBegun, Ended} }

  function StatusAfter(ev: Event): Status {
    match ev.kind
    case Started | ChangesRequested => Running
    case ApprovalRequested => AwaitingApproval
    case ApplyBegun => Applying
    case Ended => if ev.payload == DONE then Succeeded else Failed
    case _ => Pending
  }

  /** events[m] is the latest lifecycle move. */
  predicate LatestMove(events: seq<Event>, m: nat) {
    m < |events| && Moves(events[m].kind) && forall j :: m < j < |events| ==> !Moves(events[j].kind)
  }

  /** The contract is empty unless the session runs in the background. */
  predicate ContractFits(st: State) {
    st.Live? && (st.attachment == Foreground || Terminal(st.status)) ==> st.contract == NO_CONTRACT
  }

  lemma ApplyMoves(st: State, ev: Event, json: string -> Option<Contract>)
    requires Apply(st, ev, json).Ok?
    ensures var st' := Apply(st, ev, json).value;
            && st'.Live? && st'.id == ev.session
            && (if Moves(ev.kind) then st'.status == StatusAfter(ev) else st.Live? && st'.status == st.status)
            && (ev.kind == Created <==> st.Blank?)
            && (st.Live? ==> !Terminal(st.status))
            && (ContractFits(st) ==> ContractFits(st'))
            && (ev.kind == ApplyBegun ==> st.Live? && st.status == AwaitingApproval)
            && (st.Live? && st.status == Applying ==> st'.status in {Applying, Succeeded, Failed})
  {
  }

  /** The state is that of the latest move, and its contract fits. */
  lemma {:induction false} FoldIsLatestMove(events: seq<Event>, json: string -> Option<Contract>) returns (m: nat)
    requires events != [] && Fold(events, json).Ok?
    ensures LatestMove(events, m)
    ensures var st := Fold(events, json).value; st.Live? && st.status == StatusAfter(events[m]) && ContractFits(st)
    ensures forall j :: 0 <= j < |events| ==> events[j].session == Fold(events, json).value.id
    decreases |events|
  {
    var n := |events| - 1;
    var before := events[..n];
    ApplyMoves(Fold(before, json).value, events[n], json);
    hide Apply;
    if before == [] {
      m := 0;
    } else {
      m := FoldIsLatestMove(before, json);
      if Moves(events[n].kind) {
        m := n;
      } else {
        assert forall j :: m < j < n ==> before[j] == events[j];
      }
    }
    assert forall j :: 0 <= j < n ==> before[j] == events[j];
  }

  // ----- every step, by its event ---------------------------------------------------------------

  const OPEN: set<Status> := {Pending, Running, AwaitingApproval, Applying}

  /** The statuses in which an event may come. */
  function AllowedIn(ev: Event): set<Status> {
    match ev.kind
    case Started => {Pending}
    case ApprovalRequested | PlanProposed | CrossExamined => {Running}
    case ChangesRequested | ApplyBegun => {AwaitingApproval}
    case Token | ToolCall => {Running, Applying}
    case Ended => if ev.payload == "done" then {Running, Applying} else OPEN
    case Steered => {Running, AwaitingApproval, Applying}
    case CheckpointTaken | ErrorReported | Backgrounded | Attached => OPEN
    case Created | Unknown(_) => {}
  }

  /** A payload that its event does not take. */
  predicate BadPayload(ev: Event, json: string -> Option<Contract>) {
    match ev.kind
    case Ended => ev.payload != "done" && ev.payload != "failed"
    case Steered | ToolCall | ErrorReported => ev.payload == ""
    case Backgrounded => ev.payload != "" && json(ev.payload).None?
    case _ => false
  }

  function ContractOf(payload: string, json: string -> Option<Contract>): Contract {
    if payload == "" || json(payload).None? then Contract(true, true, true) else json(payload).value
  }

  /** One event on a live session: when it is legal, what it changes, and nothing else. */
  lemma ApplyIff(st: State, ev: Event, json: string -> Option<Contract>)
    requires st.Live? && st.id != ""
    ensures var r := Apply(st, ev, json);
            && (r.Ok? <==>
                  && ev.session == st.id && !BadPayload(ev, json) && st.status in AllowedIn(ev)
                  && (ev.kind == Backgrounded ==> st.attachment == Foreground) && (ev.kind == Attached ==> st.attachment == Background))
            && (r.Err? ==> r.error == if ev.session != st.id || BadPayload(ev, json) || (st.status in OPEN && ev.kind.Unknown?) then Malformed else Illegal)
            && (r.Ok? ==>
                  && r.value.Live? && r.value.id == st.id
                  && r.value.status == (if Moves(ev.kind) then StatusAfter(ev) else st.status)
                  && r.value.attachment == (if ev.kind == Backgrounded then Background else if ev.kind == Attached then Foreground else st.attachment)
                  && r.value.contract == (if ev.kind == Backgrounded then ContractOf(ev.payload, json)
                                          else if ev.kind in {Ended, Attached} then Contract(false, false, false) else st.contract))
  {
  }

  /** A session begins with Created, pending and in the foreground, and with nothing else. */
  lemma BeginIff(ev: Event, json: string -> Option<Contract>)
    ensures Apply(Blank, ev, json).Ok? <==> ev.kind == Created && ev.session != ""
    ensures ev.kind == Created && ev.session != "" ==>
              Apply(Blank, ev, json) == Ok(Live(ev.session, Pending, Foreground, Contract(false, false, false)))
  {
  }

  predicate Places(k: Kind) { k in {Created, Backgrounded, Attached} }

  lemma EndedIsTerminal(ev: Event)
    ensures Moves(ev.kind) ==> (Terminal(StatusAfter(ev)) <==> ev.kind == Ended)
    ensures Terminal(Succeeded) && Terminal(Failed) && forall s :: s in AllowedIn(ev) ==> !Terminal(s)
  {
  }

  /** The session is where the event put it, under the contract that came with it. */
  predicate PlacedBy(st: State, ev: Event, json: string -> Option<Contract>) {
    && st.Live? && st.id != "" && Places(ev.kind) && (st.attachment == Background <==> ev.kind == Backgrounded)
    && st.contract == if st.attachment == Background && !Terminal(st.status) then ContractOf(ev.payload, json) else Contract(false, false, false)
  }

  lemma PlaceKept(st: State, ev: Event, last: Event, json: string -> Option<Contract>)
    requires PlacedBy(st, last, json) && Apply(st, ev, json).Ok?
    ensures PlacedBy(Apply(st, ev, json).value, if Places(ev.kind) then ev else last, json)
  {
    ApplyIff(st, ev, json);
    EndedIsTerminal(ev);
    hide Apply, AllowedIn, BadPayload, StatusAfter, ContractOf, Terminal;
  }

  /** A session runs in the background exactly when the latest event that moved it there or
      back moved it there; its contract is the one that came with that event, until it ends. */
  lemma {:induction false} FoldIsLatestPlace(events: seq<Event>, json: string -> Option<Contract>) returns (m: nat)
    requires events != [] && Fold(events, json).Ok?
    ensures m < |events| && forall j :: m < j < |events| ==> !Places(events[j].kind)
    ensures PlacedBy(Fold(events, json).value, events[m], json)
    decreases |events|
  {
    hide Apply, PlacedBy;
    var n := |events| - 1;
    var before := events[..n];
    if before == [] {
      m := 0;
      PlacedFirst(events[n], json);
    } else {
      m := FoldIsLatestPlace(before, json);
      PlaceKept(Fold(before, json).value, events[n], before[m], json);
      if Places(events[n].kind) {
        m := n;
      } else {
        assert forall j :: m < j < n ==> before[j] == events[j];
      }
    }
  }

  lemma PlacedFirst(ev: Event, json: string -> Option<Contract>)
    requires Apply(Blank, ev, json).Ok?
    ensures PlacedBy(Apply(Blank, ev, json).value, ev, json)
  {
  }

  /** Created comes first and only there. */
  lemma CreatedFirstOnly(events: seq<Event>, json: string -> Option<Contract>, k: nat)
    requires k < |events| && Fold(events, json).Ok?
    ensures events[k].kind == Created <==> k == 0
  {
    PrefixFolds(events, k, json);
    ApplyMoves(Fold(events[..k], json).value, events[k], json);
    if k > 0 {
      var _ := FoldIsLatestMove(events[..k], json);
    }
  }

  /** Nothing follows a terminal event. */
  lemma NothingAfterTerminal(events: seq<Event>, json: string -> Option<Contract>, k: nat)
    requires k < |events| && Fold(events, json).Ok? && events[k].kind == Ended
    ensures k == |events| - 1
  {
    hide Apply, Fold;
    PrefixFolds(events, k, json);
    ApplyMoves(Fold(events[..k], json).value, events[k], json);
    if k + 1 < |events| {
      PrefixFolds(events, k + 1, json);
      ApplyMoves(Fold(events[..k + 1], json).value, events[k + 1], json);
    }
  }

  /** An apply begins only when the latest lifecycle move asked for approval. */
  lemma ApplyFollowsApproval(events: seq<Event>, json: string -> Option<Contract>, k: nat) returns (m: nat)
    requires k < |events| && Fold(events, json).Ok? && events[k].kind == ApplyBegun
    ensures m < k && events[m].kind == ApprovalRequested && LatestMove(events[..k], m)
  {
    PrefixFolds(events, k, json);
    ApplyMoves(Fold(events[..k], json).value, events[k], json);
    hide Apply;
    m := FoldIsLatestMove(events[..k], json);
  }

  lemma {:induction false} StaysApplying(events: seq<Event>, json: string -> Option<Contract>, j: nat, k: nat)
    requires j < k <= |events| && Fold(events, json).Ok? && events[j].kind == ApplyBegun
    ensures Fold(events[..k], json).Ok? && Fold(events[..k], json).value.Live?
    ensures Fold(events[..k], json).value.status in {Applying, Succeeded, Failed}
    decreases k
  {
    PrefixFolds(events, k - 1, json);
    ApplyMoves(Fold(events[..k - 1], json).value, events[k - 1], json);
    if j < k - 1 {
      StaysApplying(events, json, j, k - 1);
    }
  }

  /** A session applies at most once. */
  lemma AppliesOnce(events: seq<Event>, json: string -> Option<Contract>, j: nat, k: nat)
    requires j < |events| && k < |events| && Fold(events, json).Ok?
    requires events[j].kind == ApplyBegun && events[k].kind == ApplyBegun
    ensures j == k
  {
    var first, second := if j < k then j else k, if j < k then k else j;
    if first < second {
      StaysApplying(events, json, first, second);
      PrefixFolds(events, second, json);
      ApplyMoves(Fold(events[..second], json).value, events[second], json);
    }
  }

  /** A second Created makes the whole log unreadable. */
  lemma SecondCreatedCorrupts(events: seq<Event>, ev: Event, json: string -> Option<Contract>)
    requires events != [] && Fold(events, json).Ok? && ev.kind == Created
    ensures Fold(events + [ev], json).Err?
  {
    FoldSnoc(events, ev, json);
    var _ := FoldIsLatestMove(events, json);
  }

  /** A session that has not ended, and whose id the events carry. */
  predicate Open(r: Result<State>, id: string) { r.Ok? && r.value.Live? && r.value.id == id && !Terminal(r.value.status) }

  lemma ErrorsAndFailureAreLegal(st: State, seqno: int, id: string, msg: string, json: string -> Option<Contract>)
    requires st.Live? && st.id == id && id != ""
    ensures msg != "" ==> (Apply(st, Event(seqno, id, ErrorReported, msg), json).Ok? <==> !Terminal(st.status))
    ensures !Terminal(st.status) && msg != "" ==> Apply(st, Event(seqno, id, ErrorReported, msg), json) == Ok(st)
    ensures Apply(st, Event(seqno, id, Ended, FAILED), json).Ok? <==> !Terminal(st.status)
  {
  }
}
