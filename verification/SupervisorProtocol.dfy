/** The supervisor's hand-off of mutations to a session goroutine, as a transition system:
    callers of do, the loop, its terminal exit, and Close
    (internal/session/supervisor.go). */
module SupervisorProtocol {
  import opened Text

  /** Where a caller of do stands. `Inline` is about to run the mutation itself. */
  datatype Pc =
    | Begun
    | Offering
    | Awaiting
    | SawDone
    | Inline
    | Returned(result: int)
    | GaveUp

  /** One call of do: whether its context is done, what its reply channel (capacity one)
      holds, and the results of every run of its mutation so far. */
  datatype Caller = Caller(pc: Pc, cancelled: bool, reply: Option<int>, runs: seq<int>)

  /** The session goroutine. `Removing` is about to delete the map entry. */
  datatype Loop =
    | Idle
    | Received(c: nat)
    | Ran(c: nat, result: int)
    | Checking
    | Removing
    | Exiting
    | Exited

  /** `listed`: the run is in the supervisor's map; `closed`: Close cancelled the root. The
      done channel is closed when the loop has exited. */
  datatype System = System(callers: map<nat, Caller>, loop: Loop, listed: bool, closed: bool)

  datatype Step =
    | Call(c: nat)
    | LookUp(c: nat)
    | Cancel(c: nat)
    | OfferCancelled(c: nat)
    | OfferDone(c: nat)
    | HandOff(c: nat)
    | RunInline(c: nat, result: int)
    | TakeReply(c: nat)
    | NoticeDone(c: nat)
    | TakeReplyLate(c: nat)
    | NoReply(c: nat)
    | AwaitCancelled(c: nat)
    | LoopRun(result: int)
    | LoopReply
    | LoopCheck(terminal: bool)
    | LoopRemove
    | LoopClosed
    | LoopExit
    | Close

  const START: System := System(map[], Idle, true, false)

  /** A caller's own step, given the loop and the map. */
  function CallerStep(s: System, x: Caller, step: Step): Option<Caller> {
    match step
    case LookUp(_) => if x.pc.Begun? then Some(x.(pc := if s.listed then Offering else Inline)) else None
    case Cancel(_) => Some(x.(cancelled := true))
    case OfferCancelled(_) => if x.pc.Offering? && x.cancelled then Some(x.(pc := GaveUp)) else None
    case OfferDone(_) => if x.pc.Offering? && s.loop.Exited? then Some(x.(pc := Inline)) else None
    case RunInline(_, result) => if x.pc.Inline? then Some(x.(pc := Returned(result), runs := x.runs + [result])) else None
    case TakeReply(_) => if x.pc.Awaiting? && x.reply.Some? then Some(x.(pc := Returned(x.reply.value), reply := None)) else None
    case NoticeDone(_) => if x.pc.Awaiting? && s.loop.Exited? then Some(x.(pc := SawDone)) else None
    case TakeReplyLate(_) => if x.pc.SawDone? && x.reply.Some? then Some(x.(pc := Returned(x.reply.value), reply := None)) else None
    case NoReply(_) => if x.pc.SawDone? && x.reply.None? then Some(x.(pc := Inline)) else None
    case AwaitCancelled(_) => if x.pc.Awaiting? && x.cancelled then Some(x.(pc := GaveUp)) else None
    case _ => None
  }

  /** One atomic step; None when it is not enabled. */
  function Next(s: System, step: Step): Option<System> {
    match step
    case Call(c) => if c in s.callers then None else Some(s.(callers := s.callers[c := Caller(Begun, false, None, [])]))
    case HandOff(c) =>
      if c in s.callers && s.callers[c].pc.Offering? && s.loop.Idle? then
        Some(s.(loop := Received(c), callers := s.callers[c := s.callers[c].(pc := Awaiting)]))
      else None
    case LoopRun(result) =>
      if s.loop.Received? && s.loop.c in s.callers then
        var x := s.callers[s.loop.c];
        Some(s.(loop := Ran(s.loop.c, result), callers := s.callers[s.loop.c := x.(runs := x.runs + [result])]))
      else None
    case LoopReply =>
      if s.loop.Ran? && s.loop.c in s.callers && s.callers[s.loop.c].reply.None? then
        Some(s.(loop := Checking, callers := s.callers[s.loop.c := s.callers[s.loop.c].(reply := Some(s.loop.result))]))
      else None
    case LoopCheck(terminal) => if s.loop.Checking? then Some(s.(loop := if terminal then Removing else Idle)) else None
    case LoopRemove => if s.loop.Removing? then Some(s.(loop := Exiting, listed := false)) else None
    case LoopClosed => if s.loop.Idle? && s.closed then Some(s.(loop := Exiting)) else None
    case LoopExit => if s.loop.Exiting? then Some(s.(loop := Exited)) else None
    case Close => Some(s.(closed := true))
    case _ =>
      if step.c !in s.callers then None
      else
        match CallerStep(s, s.callers[step.c], step)
        case None => None
        case Some(x) => Some(s.(callers := s.callers[step.c := x]))
  }

  function Exec(s: System, steps: seq<Step>): Option<System>
    decreases |steps|
  {
    if steps == [] then Some(s)
    else
      match Next(s, steps[0])
      case None => None
      case Some(s') => Exec(s', steps[1..])
  }

  // ----- the invariant --------------------------------------------------------------------------

  /** The loop holds the command of caller c. */
  predicate Holds(l: Loop, c: nat) { (l.Received? || l.Ran?) && l.c == c }

  /** A command that was handed over is with the loop or has been answered. */
  predicate HandedOver(l: Loop, c: nat, x: Caller) {
    if x.reply.Some? then x.runs == [x.reply.value] && !Holds(l, c)
    else if l.Received? then l.c == c && x.runs == []
    else l.Ran? && l.c == c && x.runs == [l.result]
  }

  predicate CallerInv(l: Loop, c: nat, x: Caller) {
    match x.pc
    case Begun | Offering | Inline => x.runs == [] && x.reply.None? && !Holds(l, c)
    case Awaiting => HandedOver(l, c, x)
    case SawDone => x.reply.Some? && x.runs == [x.reply.value] && !Holds(l, c)
    case Returned(result) => x.runs == [result] && x.reply.None? && !Holds(l, c)
    case GaveUp => (x.runs == [] && x.reply.None? && !Holds(l, c)) || HandedOver(l, c, x)
  }

  ghost predicate Inv(s: System) {
    && (forall c <- s.callers :: CallerInv(s.loop, c, s.callers[c]))
    && (s.loop.Received? || s.loop.Ran? ==> s.loop.c in s.callers)
    && (!s.listed ==> s.loop.Exiting? || s.loop.Exited?)
  }

  lemma CallerStepKeeps(s: System, c: nat, x: Caller, step: Step)
    requires CallerInv(s.loop, c, x) && CallerStep(s, x, step).Some?
    ensures CallerInv(s.loop, c, CallerStep(s, x, step).value)
  {
  }

  lemma NextKeeps(s: System, step: Step)
    requires Inv(s) && Next(s, step).Some?
    ensures Inv(Next(s, step).value)
  {
    hide CallerStep;
    match step
    case Call(c) =>
    case HandOff(c) =>
    case LoopRun(_) =>
    case LoopReply =>
    case LoopCheck(_) =>
    case LoopRemove =>
    case LoopClosed =>
    case LoopExit =>
    case Close =>
    case _ => CallerStepKeeps(s, step.c, s.callers[step.c], step);
  }

  lemma {:induction false} ExecKeeps(s: System, steps: seq<Step>)
    requires Inv(s) && Exec(s, steps).Some?
    ensures Inv(Exec(s, steps).value)
    decreases |steps|
  {
    hide Next, Inv;
    if steps != [] {
      NextKeeps(s, steps[0]);
      ExecKeeps(Next(s, steps[0]).value, steps[1..]);
    }
  }

  // ----- the promises -----------------------------------------------------------------------------

  /** In every interleaving a mutation runs at most once; a call that returns a result ran
      it exactly once and returns that run's result; one that gave up on its context may
      have run it or may not. */
  lemma AtMostOnce(steps: seq<Step>, c: nat)
    requires Exec(START, steps).Some? && c in Exec(START, steps).value.callers
    ensures var x := Exec(START, steps).value.callers[c];
            && |x.runs| <= 1
            && (x.pc.Returned? ==> x.runs == [x.pc.result])
            && (x.pc.GaveUp? ==> x.cancelled)
  {
    ExecKeeps(START, steps);
    GaveUpOnlyCancelled(START, steps);
    var s := Exec(START, steps).value;
    assert CallerInv(s.loop, c, s.callers[c]);
  }

  ghost predicate Honest(s: System) { forall c <- s.callers :: s.callers[c].pc.GaveUp? ==> s.callers[c].cancelled }

  lemma NextHonest(s: System, step: Step)
    requires Honest(s) && Next(s, step).Some?
    ensures Honest(Next(s, step).value)
  {
  }

  lemma {:induction false} GaveUpOnlyCancelled(s: System, steps: seq<Step>)
    requires Honest(s) && Exec(s, steps).Some?
    ensures Honest(Exec(s, steps).value)
    decreases |steps|
  {
    hide Next, Honest;
    if steps != [] {
      NextHonest(s, steps[0]);
      GaveUpOnlyCancelled(Next(s, steps[0]).value, steps[1..]);
    }
  }

  /** The fallback for a command that was accepted and never answered is dead code: the
      loop answers before it exits. */
  lemma RepliedBeforeExit(steps: seq<Step>, c: nat)
    requires Exec(START, steps).Some? && c in Exec(START, steps).value.callers
    requires Exec(START, steps).value.callers[c].pc.SawDone?
    ensures Next(Exec(START, steps).value, NoReply(c)).None?
    ensures Next(Exec(START, steps).value, TakeReplyLate(c)).Some?
  {
    ExecKeeps(START, steps);
    var s := Exec(START, steps).value;
    assert CallerInv(s.loop, c, s.callers[c]);
  }

  /** The step that moves a waiting call on: the caller's own, or the loop's. */
  function Helps(s: System, c: nat): Step
    requires c in s.callers
  {
    var x := s.callers[c];
    match x.pc
    case Begun => LookUp(c)
    case Inline => RunInline(c, 0)
    case SawDone => TakeReplyLate(c)
    case Awaiting => if x.reply.Some? then TakeReply(c) else if s.loop.Received? then LoopRun(0) else LoopReply
    case _ =>
      match s.loop
      case Idle => HandOff(c)
      case Received(_) => LoopRun(0)
      case Ran(_, _) => LoopReply
      case Checking => LoopCheck(false)
      case Removing => LoopRemove
      case Exiting => LoopExit
      case Exited => OfferDone(c)
  }

  /** No call is ever stuck: until it returns, it or the loop can take a step for it, with
      no help from its context. */
  lemma NeverStuck(steps: seq<Step>, c: nat)
    requires Exec(START, steps).Some? && c in Exec(START, steps).value.callers
    requires var pc := Exec(START, steps).value.callers[c].pc; !pc.Returned? && !pc.GaveUp?
    ensures Next(Exec(START, steps).value, Helps(Exec(START, steps).value, c)).Some?
  {
    ExecKeeps(START, steps);
    var s := Exec(START, steps).value;
    assert CallerInv(s.loop, c, s.callers[c]);
    if s.loop.Ran? {
      assert CallerInv(s.loop, s.loop.c, s.callers[s.loop.c]);
    }
  }

  // ----- what can happen --------------------------------------------------------------------------

  /** A call whose context ends while it waits, for the loop or for its reply, can return. */
  lemma CancelledReturns(s: System, c: nat)
    requires c in s.callers && (s.callers[c].pc.Offering? || s.callers[c].pc.Awaiting?)
    ensures var step := if s.callers[c].pc.Offering? then OfferCancelled(c) else AwaitCancelled(c);
            Exec(s, [Cancel(c), step]) == Some(s.(callers := s.callers[c := s.callers[c].(cancelled := true, pc := GaveUp)]))
  {
    var step := if s.callers[c].pc.Offering? then OfferCancelled(c) else AwaitCancelled(c);
    var s1 := s.(callers := s.callers[c := s.callers[c].(cancelled := true)]);
    assert Next(s, Cancel(c)) == Some(s1);
    var s2 := s.(callers := s.callers[c := s.callers[c].(cancelled := true, pc := GaveUp)]);
    assert s1.callers[c := s1.callers[c].(pc := GaveUp)] == s2.callers;
    assert Next(s1, step) == Some(s2);
    ExecTwo(s, Cancel(c), step);
  }

  lemma ExecOne(s: System, a: Step)
    ensures Exec(s, [a]) == Next(s, a)
  {
    hide Next;
    assert [a][1..] == [];
  }

  lemma ExecTwo(s: System, a: Step, b: Step)
    requires Next(s, a).Some?
    ensures Exec(s, [a, b]) == Next(Next(s, a).value, b)
  {
    hide Next;
    assert [a, b][1..] == [b];
    ExecOne(Next(s, a).value, b);
  }

  lemma ExecStep(s: System, a: Step, rest: seq<Step>)
    requires Next(s, a).Some?
    ensures Exec(s, [a] + rest) == Exec(Next(s, a).value, rest)
  {
    hide Next;
    assert ([a] + rest)[1..] == rest;
  }

  /** When a command ends the session the run leaves the list and its loop exits. */
  lemma TerminalEndsRun(s: System)
    requires s.loop.Checking?
    ensures Exec(s, [LoopCheck(true)] + ([LoopRemove] + [LoopExit])) == Some(s.(loop := Exited, listed := false))
  {
    var s1 := s.(loop := Removing);
    var s2 := s.(loop := Exiting, listed := false);
    assert Next(s, LoopCheck(true)) == Some(s1) && Next(s1, LoopRemove) == Some(s2) && Next(s2, LoopExit) == Some(s.(loop := Exited, listed := false));
    hide Next, Exec;
    ExecStep(s, LoopCheck(true), [LoopRemove] + [LoopExit]);
    ExecStep(s1, LoopRemove, [LoopExit]);
    ExecOne(s2, LoopExit);
  }

  /** A call that finds no run, or a run that is over, does its work by itself. */
  lemma LateCallRunsInline(s: System, c: nat, result: int)
    requires c !in s.callers && (!s.listed || s.loop.Exited?)
    ensures var s' := Exec(s, [Call(c), LookUp(c)] + (if s.listed then [OfferDone(c)] else []) + [RunInline(c, result)]);
            s'.Some? && s'.value == s.(callers := s.callers[c := Caller(Returned(result), false, None, [result])])
  {
    var begun := s.(callers := s.callers[c := Caller(Begun, false, None, [])]);
    var looked := s.(callers := s.callers[c := Caller(if s.listed then Offering else Inline, false, None, [])]);
    var alone := s.(callers := s.callers[c := Caller(Inline, false, None, [])]);
    var done := s.(callers := s.callers[c := Caller(Returned(result), false, None, [result])]);
    assert Next(s, Call(c)) == Some(begun);
    assert begun.callers[c := looked.callers[c]] == looked.callers;
    assert Next(begun, LookUp(c)) == Some(looked);
    assert looked.callers[c := alone.callers[c]] == alone.callers;
    assert s.listed ==> Next(looked, OfferDone(c)) == Some(alone);
    assert [] + [result] == [result] && alone.callers[c := done.callers[c]] == done.callers;
    assert Next(alone, RunInline(c, result)) == Some(done);
    hide Next, Exec;
    ExecTwo(s, Call(c), LookUp(c));
    var two := [Call(c), LookUp(c)];
    ExecOne(alone, RunInline(c, result));
    if s.listed {
      ExecConcat(s, two, [OfferDone(c)]);
      ExecOne(looked, OfferDone(c));
      ExecConcat(s, two + [OfferDone(c)], [RunInline(c, result)]);
    } else {
      assert two + [] == two;
      ExecConcat(s, two, [RunInline(c, result)]);
    }
  }

  /** How far the loop is from its exit once the supervisor is closed. */
  function Left(l: Loop): nat {
    match l
    case Received(_) => 6
    case Ran(_, _) => 5
    case Checking => 4
    case Removing => 2
    case Idle => 2
    case Exiting => 1
    case Exited => 0
  }

  function LoopStep(l: Loop): Step {
    match l
    case Received(_) => LoopRun(0)
    case Ran(_, _) => LoopReply
    case Checking => LoopCheck(false)
    case Removing => LoopRemove
    case Idle => LoopClosed
    case _ => LoopExit
  }

  lemma LoopMoves(s: System)
    requires Inv(s) && s.closed && !s.loop.Exited?
    ensures Next(s, LoopStep(s.loop)).Some?
    ensures var s' := Next(s, LoopStep(s.loop)).value; s'.closed && Left(s'.loop) < Left(s.loop)
  {
    if s.loop.Ran? {
      assert CallerInv(s.loop, s.loop.c, s.callers[s.loop.c]);
    }
  }

  lemma {:induction false} LoopEnds(s: System) returns (steps: seq<Step>)
    requires Inv(s) && s.closed
    ensures Exec(s, steps).Some? && Exec(s, steps).value.loop.Exited?
    decreases Left(s.loop)
  {
    if s.loop.Exited? {
      steps := [];
    } else {
      LoopMoves(s);
      NextKeeps(s, LoopStep(s.loop));
      hide Next, Inv;
      var rest := LoopEnds(Next(s, LoopStep(s.loop)).value);
      ExecStep(s, LoopStep(s.loop), rest);
      steps := [LoopStep(s.loop)] + rest;
    }
  }

  lemma {:induction false} ExecConcat(s: System, a: seq<Step>, b: seq<Step>)
    requires Exec(s, a).Some?
    ensures Exec(s, a + b) == Exec(Exec(s, a).value, b)
    decreases |a|
  {
    hide Next;
    if a == [] {
      assert a + b == b;
    } else {
      assert (a + b)[0] == a[0] && (a + b)[1..] == a[1..] + b;
      ExecConcat(Next(s, a[0]).value, a[1..], b);
    }
  }

  /** Closing the supervisor ends the loop: from every moment of every run it can finish what
      it has begun and exit, with no further command. */
  lemma CloseEndsLoop(steps: seq<Step>) returns (more: seq<Step>)
    requires Exec(START, steps).Some?
    ensures Exec(START, steps + ([Close] + more)).Some? && Exec(START, steps + ([Close] + more)).value.loop.Exited?
  {
    ExecKeeps(START, steps);
    var s := Exec(START, steps).value;
    NextKeeps(s, Close);
    hide Inv, Exec;
    more := LoopEnds(Next(s, Close).value);
    ExecStep(s, Close, more);
    ExecConcat(START, steps, [Close] + more);
  }
}
