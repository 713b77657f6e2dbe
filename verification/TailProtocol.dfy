/** Tails that follow one session's log while others append to it: a transition system
    over the atomic steps of Append, broadcast, Subscribe and the reader goroutine
    (internal/session/log.go, internal/session/tail.go). */
module TailProtocol {
  import opened Text
  import opened Sorting
  import opened SessionLog

  /** Where a tail stands. `Sending` holds what the last After returned and is not out yet. */
  datatype Pc =
    | Subscribed
    | Reading
    | Sending(batch: seq<int>)
    | Waiting
    | Stopped

  /** One tail: its wakeup channel holds at most one token; `out` is the replay and then
      every event sent, and it began at position `start` of the log. */
  datatype Tail = Tail(pc: Pc, token: bool, last: nat, start: nat, seqno: int, out: seq<int>)

  /** The session's sequence numbers, the appenders between insert and broadcast, and the
      tails. */
  datatype System = System(log: seq<int>, pending: nat, tails: map<nat, Tail>)

  datatype Step =
    | Insert(gap: nat)
    | Broadcast
    | Subscribe(t: nat, last: nat)
    | Replay(t: nat)
    | Read(t: nat)
    | Send(t: nat)
    | Wake(t: nat)
    | Stop(t: nat)

  const EMPTY: System := System([], 0, map[])

  function LastSeq(log: seq<int>): int { if log == [] then 0 else log[|log| - 1] }

  /** What After returns, as numbers. */
  function Newer(log: seq<int>, seqno: int): seq<int> { Filter(log, (n: int) => n > seqno) }

  function Woken(tails: map<nat, Tail>): map<nat, Tail> {
    map t | t in tails :: if tails[t].pc.Stopped? then tails[t] else tails[t].(token := true)
  }

  /** What tail t does in its own step. */
  function TailStep(log: seq<int>, x: Tail, step: Step): Option<Tail> {
    match step
    case Replay(_) =>
      if !x.pc.Subscribed? then None
      else
        var replay := LastOf(log, x.last);
        Some(x.(pc := Reading, out := replay, start := |log| - |replay|, seqno := LastSeq(replay)))
    case Read(_) =>
      if !x.pc.Reading? then None
      else
        var more := Newer(log, x.seqno);
        Some(x.(pc := if more == [] then Waiting else Sending(more)))
    case Send(_) =>
      if !x.pc.Sending? || x.pc.batch == [] then None
      else
        var batch := x.pc.batch;
        Some(x.(out := x.out + [batch[0]], seqno := batch[0], pc := if |batch| == 1 then Reading else Sending(batch[1..])))
    case Wake(_) => if x.pc.Waiting? && x.token then Some(x.(pc := Reading, token := false)) else None
    case Stop(_) => if x.pc.Stopped? then None else Some(x.(pc := Stopped))
    case _ => None
  }

  /** One atomic step of the system; None when it is not enabled. */
  function Next(s: System, step: Step): Option<System> {
    match step
    case Insert(gap) => Some(s.(log := s.log + [LastSeq(s.log) + 1 + gap], pending := s.pending + 1))
    case Broadcast => if s.pending == 0 then None else Some(s.(pending := s.pending - 1, tails := Woken(s.tails)))
    case Subscribe(t, last) =>
      if t in s.tails || last < 1 then None else Some(s.(tails := s.tails[t := Tail(Subscribed, false, last, 0, 0, [])]))
    case _ =>
      if step.t !in s.tails then None
      else
        match TailStep(s.log, s.tails[step.t], step)
        case None => None
        case Some(x) => Some(s.(tails := s.tails[step.t := x]))
  }

  /** The system after a schedule, if every step of it was enabled. */
  function Exec(s: System, steps: seq<Step>): Option<System>
    decreases |steps|
  {
    if steps == [] then Some(s)
    else
      match Next(s, steps[0])
      case None => None
      case Some(s') => Exec(s', steps[1..])
  }

  // ----- the invariant -----------------------------------------------------------------------

  ghost predicate Increasing(log: seq<int>) {
    && (forall i :: 0 <= i < |log| ==> log[i] > 0)
    && (forall i, j :: 0 <= i < j < |log| ==> log[i] < log[j])
  }

  /** How far into the log the tail has come. */
  function Reached(x: Tail): nat { x.start + |x.out| }

  /** The output is a contiguous run of the log that ends at the tail's own number. */
  ghost predicate Contiguous(log: seq<int>, x: Tail) {
    && Reached(x) <= |log|
    && x.out == log[x.start..Reached(x)]
    && x.seqno == LastSeq(x.out)
    && (x.out == [] ==> x.start == 0)
    && (x.start > 0 ==> |x.out| >= x.last)
  }

  /** A batch continues where the output ends; a tail only waits with events it has not
      sent if a token or a broadcast is on its way. */
  ghost predicate TailInv(s: System, x: Tail) {
    match x.pc
    case Subscribed => x.last > 0 && x.out == [] && x.start == 0 && x.seqno == 0
    case Reading => Contiguous(s.log, x)
    case Sending(batch) =>
      Contiguous(s.log, x) && batch != [] && Reached(x) + |batch| <= |s.log| && batch == s.log[Reached(x)..Reached(x) + |batch|]
    case Waiting => Contiguous(s.log, x) && (Reached(x) == |s.log| || x.token || s.pending > 0)
    case Stopped => x.out == [] || Contiguous(s.log, x)
  }

  ghost predicate Inv(s: System) {
    Increasing(s.log) && forall t <- s.tails :: TailInv(s, s.tails[t])
  }

  lemma NewerIsRest(log: seq<int>, n: nat, seqno: int)
    requires Increasing(log) && n <= |log| && seqno == LastSeq(log[..n])
    ensures Newer(log, seqno) == log[n..]
  {
    assert log == log[..n] + log[n..];
    FilterConcat(log[..n], log[n..], (k: int) => k > seqno);
    FilterNone(log[..n], (k: int) => k > seqno);
    FilterAll(log[n..], (k: int) => k > seqno);
  }

  lemma ContiguousReads(log: seq<int>, x: Tail)
    requires Increasing(log) && Contiguous(log, x)
    ensures Newer(log, x.seqno) == log[Reached(x)..]
  {
    var n := Reached(x);
    if x.out != [] {
      assert log[..n][n - 1] == x.out[|x.out| - 1];
    }
    NewerIsRest(log, n, x.seqno);
  }

  lemma SendKeeps(s: System, x: Tail)
    requires TailInv(s, x) && x.pc.Sending?
    ensures var batch := x.pc.batch;
            TailInv(s, x.(out := x.out + [batch[0]], seqno := batch[0], pc := if |batch| == 1 then Reading else Sending(batch[1..])))
  {
    var batch, n := x.pc.batch, Reached(x);
    var out := x.out + [batch[0]];
    assert batch[0] == s.log[n];
    assert out == s.log[x.start..n + 1];
    assert batch[1..] == s.log[n + 1..n + |batch|];
    assert LastSeq(out) == batch[0];
  }

  lemma ReplayKeeps(s: System, x: Tail)
    requires x.pc.Subscribed? && x.last > 0
    ensures var replay := LastOf(s.log, x.last);
            TailInv(s, x.(pc := Reading, out := replay, start := |s.log| - |replay|, seqno := LastSeq(replay)))
  {
    var replay := LastOf(s.log, x.last);
    assert replay == s.log[|s.log| - |replay|..];
  }

  lemma TailStepKeeps(s: System, x: Tail, step: Step)
    requires Increasing(s.log) && TailInv(s, x) && TailStep(s.log, x, step).Some?
    ensures TailInv(s, TailStep(s.log, x, step).value)
  {
    hide Newer, Increasing, LastOf, TailInv;
    match step
    case Read(_) => ReadKeeps(s, x);
    case Send(_) => SendKeeps(s, x);
    case Replay(_) =>
      SubscribedLast(s, x);
      ReplayKeeps(s, x);
    case Wake(_) => WakeKeeps(s, x);
    case Stop(_) => StopKeeps(s, x);
    case _ =>
  }

  lemma SubscribedLast(s: System, x: Tail)
    requires TailInv(s, x) && x.pc.Subscribed?
    ensures x.last > 0
  {
  }

  lemma ReadKeeps(s: System, x: Tail)
    requires Increasing(s.log) && TailInv(s, x) && x.pc.Reading?
    ensures var more := Newer(s.log, x.seqno); TailInv(s, x.(pc := if more == [] then Waiting else Sending(more)))
  {
    hide Newer, Increasing;
    ContiguousReads(s.log, x);
  }

  lemma WakeKeeps(s: System, x: Tail)
    requires TailInv(s, x) && x.pc.Waiting?
    ensures TailInv(s, x.(pc := Reading, token := false))
  {
  }

  lemma StopKeeps(s: System, x: Tail)
    requires TailInv(s, x)
    ensures TailInv(s, x.(pc := Stopped))
  {
  }

  lemma LogGrows(s: System, e: int, x: Tail)
    requires TailInv(s, x)
    ensures TailInv(s.(log := s.log + [e], pending := s.pending + 1), x)
  {
    var log := s.log + [e];
    if x.pc.Reading? || x.pc.Waiting? || x.pc.Sending? || x.out != [] {
      assert log[x.start..Reached(x)] == s.log[x.start..Reached(x)];
    }
    if x.pc.Sending? {
      assert log[Reached(x)..Reached(x) + |x.pc.batch|] == x.pc.batch;
    }
  }

  lemma NextKeeps(s: System, step: Step)
    requires Inv(s) && Next(s, step).Some?
    ensures Inv(Next(s, step).value)
  {
    var s' := Next(s, step).value;
    hide TailInv;
    match step
    case Insert(gap) =>
      var e := LastSeq(s.log) + 1 + gap;
      forall t | t in s'.tails ensures TailInv(s', s'.tails[t]) {
        LogGrows(s, e, s.tails[t]);
      }
      IncreasingSnoc(s.log, e);
    case Broadcast =>
      forall t | t in s'.tails ensures TailInv(s', s'.tails[t]) {
        Notified(s, s.tails[t]);
      }
    case Subscribe(t, last) =>
      SubscribedInv(s', last);
      forall u | u in s'.tails ensures TailInv(s', s'.tails[u]) {
        if u != t {
          SameLog(s, s', s.tails[u]);
        }
      }
    case _ =>
      TailStepKeeps(s, s.tails[step.t], step);
      forall u | u in s'.tails ensures TailInv(s', s'.tails[u]) {
        SameLog(s, s', s'.tails[u]);
      }
  }

  lemma IncreasingSnoc(log: seq<int>, e: int)
    requires Increasing(log) && e > LastSeq(log)
    ensures Increasing(log + [e])
  {
    assert log != [] ==> log[|log| - 1] > 0;
  }

  /** A broadcast takes one appender off the list and leaves a token. */
  lemma Notified(s: System, x: Tail)
    requires TailInv(s, x) && s.pending > 0
    ensures TailInv(s.(pending := s.pending - 1, tails := Woken(s.tails)), if x.pc.Stopped? then x else x.(token := true))
  {
  }

  lemma SubscribedInv(s: System, last: nat)
    requires last > 0
    ensures TailInv(s, Tail(Subscribed, false, last, 0, 0, []))
  {
  }

  lemma SameLog(s: System, s': System, x: Tail)
    requires s.log == s'.log && s.pending == s'.pending && TailInv(s, x)
    ensures TailInv(s', x)
  {
  }

  lemma {:induction false} ExecKeeps(s: System, steps: seq<Step>)
    requires Inv(s) && Exec(s, steps).Some?
    ensures Inv(Exec(s, steps).value)
    decreases |steps|
  {
    hide Next, Inv;
    if steps != [] {
      NextKeeps(s, steps[0]);
      ExecKeeps(Next(s, steps[0]).value, steps[1..]);
    }
  }

  // ----- the promises --------------------------------------------------------------------------

  /** No gap and no duplicate: under every interleaving, what a tail has put out is a
      contiguous run of the session's log that ends at the tail's number. */
  lemma OutputIsContiguous(steps: seq<Step>, t: nat)
    requires Exec(EMPTY, steps).Some? && t in Exec(EMPTY, steps).value.tails
    ensures var s := Exec(EMPTY, steps).value;
            var x := s.tails[t];
            x.out == [] || Contiguous(s.log, x)
  {
    ExecKeeps(EMPTY, steps);
  }

  /** No lost wakeup: a tail parked on an empty channel while no appender is between its
      insert and its broadcast has put out everything. */
  lemma ParkedMeansCaughtUp(steps: seq<Step>, t: nat)
    requires Exec(EMPTY, steps).Some? && t in Exec(EMPTY, steps).value.tails
    requires var s := Exec(EMPTY, steps).value; s.tails[t].pc.Waiting? && !s.tails[t].token && s.pending == 0
    ensures var s := Exec(EMPTY, steps).value; Reached(s.tails[t]) == |s.log| && s.tails[t].out == s.log[s.tails[t].start..]
  {
    ExecKeeps(EMPTY, steps);
    var s := Exec(EMPTY, steps).value;
    assert TailInv(s, s.tails[t]);
  }

  /** Steps the tail can still take before it must park. */
  function Work(s: System, x: Tail): int {
    4 * (|s.log| - Reached(x)) + (if x.token then 2 else 0) + (if x.pc.Reading? then 1 else 0)
  }

  /** The one step a running tail takes next, other than stopping. */
  function OwnStep(t: nat, x: Tail): Step {
    match x.pc
    case Subscribed => Replay(t)
    case Reading => Read(t)
    case Sending(_) => Send(t)
    case _ => Wake(t)
  }

  /** A tail makes progress by itself: with no broadcast outstanding, it has put out the
      whole log and is parked, or its next step is enabled and leaves less to do. */
  lemma TailCatchesUp(steps: seq<Step>, t: nat)
    requires Exec(EMPTY, steps).Some? && t in Exec(EMPTY, steps).value.tails
    requires var x := Exec(EMPTY, steps).value.tails[t]; !x.pc.Stopped? && !x.pc.Subscribed?
    requires Exec(EMPTY, steps).value.pending == 0
    ensures var s := Exec(EMPTY, steps).value;
            var x := s.tails[t];
            var next := Next(s, OwnStep(t, x));
            && 0 <= Work(s, x)
            && if next.None? then x.pc.Waiting? && Reached(x) == |s.log| else Work(next.value, next.value.tails[t]) < Work(s, x)
  {
    ExecKeeps(EMPTY, steps);
    var s := Exec(EMPTY, steps).value;
    var x := s.tails[t];
    assert TailInv(s, x);
    hide Newer, Exec;
    if x.pc.Reading? {
      ContiguousReads(s.log, x);
    }
  }

  // ----- what can happen ------------------------------------------------------------------------

  /** A broadcast leaves a token with every tail that is still listening, and changes nothing
      else; it comes once for every insert. */
  lemma BroadcastReachesAll(s: System)
    ensures Next(s, Broadcast).Some? <==> s.pending > 0
    ensures Next(s, Broadcast).Some? ==>
              var s' := Next(s, Broadcast).value;
              && s'.log == s.log && s'.pending == s.pending - 1 && s'.tails.Keys == s.tails.Keys
              && forall t <- s.tails :: if s.tails[t].pc.Stopped? then s'.tails[t] == s.tails[t] else s'.tails[t] == s.tails[t].(token := true)
  {
  }

  /** A tail can be stopped at any moment, and keeps what it has put out. */
  lemma StopsAnytime(s: System, t: nat)
    ensures Next(s, Stop(t)).Some? <==> t in s.tails && !s.tails[t].pc.Stopped?
    ensures Next(s, Stop(t)).Some? ==> Next(s, Stop(t)).value == s.(tails := s.tails[t := s.tails[t].(pc := Stopped)])
  {
  }

  /** After that nothing ever reaches it. */
  lemma {:induction false} StoppedIsFinal(s: System, steps: seq<Step>, t: nat)
    requires t in s.tails && s.tails[t].pc.Stopped? && Exec(s, steps).Some?
    ensures t in Exec(s, steps).value.tails && Exec(s, steps).value.tails[t] == s.tails[t]
    decreases |steps|
  {
    if steps != [] {
      hide LastOf, Newer;
      StoppedIsFinal(Next(s, steps[0]).value, steps[1..], t);
    }
  }

  lemma {:induction false} ExecConcat(s: System, a: seq<Step>, b: seq<Step>)
    requires Exec(s, a).Some?
    ensures Exec(s, a + b) == Exec(Exec(s, a).value, b)
    decreases |a|
  {
    hide Next;
    if a == [] {
      assert a + b == b;
    } else {
      assert (a + b)[0] == a[0] && (a + b)[1..] == a[1..] + b;
      ExecConcat(Next(s, a[0]).value, a[1..], b);
    }
  }

  lemma ExecOne(s: System, step: Step)
    ensures Exec(s, [step]) == Next(s, step)
  {
    hide Next;
    assert [step][1..] == [];
  }

  /** Appenders can write any rising numbers. */
  lemma {:induction false} Inserts(s: System, more: seq<int>) returns (steps: seq<Step>)
    requires Increasing(s.log + more)
    ensures Exec(s, steps) == Some(s.(log := s.log + more, pending := s.pending + |more|))
    decreases |more|
  {
    if more == [] {
      steps := [];
      assert s.log + more == s.log;
    } else {
      var all, n := s.log + more, |s.log|;
      assert all[n] == more[0] && (n > 0 ==> all[n - 1] == s.log[n - 1]);
      var gap := more[0] - LastSeq(s.log) - 1;
      var s1 := s.(log := s.log + [more[0]], pending := s.pending + 1);
      assert Next(s, Insert(gap)) == Some(s1);
      assert s1.log + more[1..] == all;
      var rest := Inserts(s1, more[1..]);
      steps := [Insert(gap)] + rest;
      assert steps[1..] == rest;
    }
  }

  lemma {:induction false} Broadcasts(s: System) returns (steps: seq<Step>)
    ensures Exec(s, steps).Some?
    ensures var s' := Exec(s, steps).value;
            s'.log == s.log && s'.pending == 0 && s'.tails.Keys == s.tails.Keys && forall t <- s.tails :: s'.tails[t] in {s.tails[t], s.tails[t].(token := true)}
    decreases s.pending
  {
    if s.pending == 0 {
      steps := [];
    } else {
      BroadcastReachesAll(s);
      var s1 := Next(s, Broadcast).value;
      var rest := Broadcasts(s1);
      steps := [Broadcast] + rest;
      assert steps[1..] == rest;
    }
  }

  lemma OwnStepKeeps(s: System, t: nat)
    requires t in s.tails && !s.tails[t].pc.Subscribed? && Next(s, OwnStep(t, s.tails[t])).Some?
    ensures var s' := Next(s, OwnStep(t, s.tails[t])).value;
            s'.log == s.log && s'.pending == s.pending && t in s'.tails && s'.tails[t].start == s.tails[t].start && !s'.tails[t].pc.Subscribed? && !s'.tails[t].pc.Stopped?
  {
    hide Newer;
  }

  /** Left alone, a running tail reaches the end of the log and parks. */
  lemma {:induction false} RunsToTheEnd(steps: seq<Step>, t: nat) returns (more: seq<Step>)
    requires Exec(EMPTY, steps).Some? && t in Exec(EMPTY, steps).value.tails && Exec(EMPTY, steps).value.pending == 0
    requires var x := Exec(EMPTY, steps).value.tails[t]; !x.pc.Stopped? && !x.pc.Subscribed?
    ensures Exec(EMPTY, steps + more).Some?
    ensures var s, s' := Exec(EMPTY, steps).value, Exec(EMPTY, steps + more).value;
            && s'.log == s.log && t in s'.tails && s'.tails[t].start == s.tails[t].start
            && s'.tails[t].pc.Waiting? && Reached(s'.tails[t]) == |s.log|
    decreases Work(Exec(EMPTY, steps).value, Exec(EMPTY, steps).value.tails[t])
  {
    TailCatchesUp(steps, t);
    var s := Exec(EMPTY, steps).value;
    var step := OwnStep(t, s.tails[t]);
    hide Exec, Next, Work;
    if Next(s, step).None? {
      more := [];
      assert steps + [] == steps;
    } else {
      ExecConcat(EMPTY, steps, [step]);
      ExecOne(s, step);
      OwnStepKeeps(s, t);
      var rest := RunsToTheEnd(steps + [step], t);
      more := [step] + rest;
      assert steps + more == steps + [step] + rest;
    }
  }

  /** Every attach can happen: whatever was in the log, whatever comes later, and however
      many events are asked for, there is a run in which the tail puts out just the last of
      the old ones and all the new ones, and parks. */
  lemma EveryTailCanHappen(earlier: seq<int>, later: seq<int>, n: nat) returns (steps: seq<Step>)
    requires n >= 1 && Increasing(earlier + later)
    ensures Exec(EMPTY, steps).Some?
    ensures var s := Exec(EMPTY, steps).value;
            s.log == earlier + later && 0 in s.tails && s.tails[0].pc.Waiting? && s.tails[0].out == LastOf(earlier, n) + later
  {
    IncreasingPrefix(earlier, later);
    var first := Attach(earlier, n);
    var s1 := Exec(EMPTY, first).value;
    var written := Inserts(s1, later);
    ExecConcat(EMPTY, first, written);
    var s2 := Exec(EMPTY, first + written).value;
    var told := Broadcasts(s2);
    ExecConcat(EMPTY, first + written, told);
    var before := first + written + told;
    var x := Exec(EMPTY, before).value.tails[0];
    hide Exec, LastOf;
    var rest := RunsToTheEnd(before, 0);
    steps := before + rest;
    var s := Exec(EMPTY, steps).value;
    OutputIsContiguous(steps, 0);
    ParkedIsContiguous(steps, 0);
    TailOf(earlier, later, n);
    assert s.tails[0].out == s.log[s.tails[0].start..];
  }

  lemma ParkedIsContiguous(steps: seq<Step>, t: nat)
    requires Exec(EMPTY, steps).Some? && t in Exec(EMPTY, steps).value.tails && Exec(EMPTY, steps).value.tails[t].pc.Waiting?
    ensures Contiguous(Exec(EMPTY, steps).value.log, Exec(EMPTY, steps).value.tails[t])
  {
    ExecKeeps(EMPTY, steps);
    var s := Exec(EMPTY, steps).value;
    assert TailInv(s, s.tails[t]);
  }

  lemma IncreasingPrefix(a: seq<int>, b: seq<int>)
    requires Increasing(a + b)
    ensures Increasing(a) && a + b == [] + a + b
  {
    assert forall i :: 0 <= i < |a| ==> (a + b)[i] == a[i];
  }

  lemma TailOf(a: seq<int>, b: seq<int>, n: nat)
    ensures (a + b)[|a| - |LastOf(a, n)|..] == LastOf(a, n) + b
  {
  }

  lemma Attach(earlier: seq<int>, n: nat) returns (steps: seq<Step>)
    requires n >= 1 && Increasing(earlier)
    ensures Exec(EMPTY, steps).Some?
    ensures var s := Exec(EMPTY, steps).value;
            && s.log == earlier && 0 in s.tails && s.tails[0].pc == Reading
            && s.tails[0].start == |earlier| - |LastOf(earlier, n)|
  {
    assert EMPTY.log + earlier == earlier;
    var written := Inserts(EMPTY, earlier);
    var s1 := Exec(EMPTY, written).value;
    ExecConcat(EMPTY, written, [Subscribe(0, n)]);
    ExecOne(s1, Subscribe(0, n));
    var s2 := Next(s1, Subscribe(0, n)).value;
    var two := written + [Subscribe(0, n)];
    hide Exec;
    ExecConcat(EMPTY, two, [Replay(0)]);
    ExecOne(s2, Replay(0));
    steps := two + [Replay(0)];
  }
}
