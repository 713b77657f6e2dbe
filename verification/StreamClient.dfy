/** The attach client: it follows a run's events over connections that drop, and delivers
    each event once (cmd/zeroth/stream.go). */
module StreamClient {
  import opened Text
  import T = TailProtocol

  datatype Frame = Frame(id: string, terminal: bool)

  /** One connection: the frames that arrive, the frame whose emit fails, and what ends the
      frames: a context that is done, or an error that may say the run is gone. */
  datatype Conn = Conn(frames: seq<Frame>, failAt: Option<nat>, cancelled: bool, gone: bool)

  /** Event ids are decimal sequence numbers; any other id is only compared for equality. */
  predicate Retain(lastSeen: string, id: string) {
    if lastSeen == "" || id == "" then id != ""
    else
      var a, b := ParseInt(lastSeen), ParseInt(id);
      if a.None? || b.None? then id != lastSeen else b.value > a.value
  }

  datatype Ending = Finished | EmitFailed | Dropped

  datatype Sent = Sent(frames: seq<Frame>, lastSeen: string, ending: Ending)

  /** What one connection delivers from its k-th frame on. */
  function Deliver(c: Conn, k: nat, lastSeen: string): Sent
    requires k <= |c.frames|
    decreases |c.frames| - k
  {
    if k == |c.frames| then Sent([], lastSeen, Dropped)
    else
      var f := c.frames[k];
      if !Retain(lastSeen, f.id) then Deliver(c, k + 1, lastSeen)
      else if c.failAt == Some(k) then Sent([f], f.id, EmitFailed)
      else if f.terminal then Sent([f], f.id, Finished)
      else
        var rest := Deliver(c, k + 1, f.id);
        Sent([f] + rest.frames, rest.lastSeen, rest.ending)
  }

  /** Whether the client dials again. */
  predicate Redials(c: Conn, ending: Ending) { !ending.Finished? && !c.cancelled && !c.gone }

  /** Everything passed to emit over the connections. */
  function Follow(conns: seq<Conn>, lastSeen: string): seq<Frame> {
    if conns == [] then []
    else
      var sent := Deliver(conns[0], 0, lastSeen);
      sent.frames + if Redials(conns[0], sent.ending) then Follow(conns[1..], sent.lastSeen) else []
  }

  // ----- the client as the source runs it ------------------------------------------------------

  method FollowOnce(c: Conn, lastSeen: string) returns (out: seq<Frame>, seen: string, ending: Ending)
    ensures Sent(out, seen, ending) == Deliver(c, 0, lastSeen)
  {
    hide Retain;
    out, seen := [], lastSeen;
    ghost var want := Deliver(c, 0, lastSeen);
    assert [] + want.frames == want.frames;
    for k := 0 to |c.frames|
      invariant var rest := Deliver(c, k, seen); want == Sent(out + rest.frames, rest.lastSeen, rest.ending)
    {
      var f := c.frames[k];
      if !Retain(seen, f.id) {
        continue;
      }
      ghost var rest := Deliver(c, k + 1, f.id);
      assert out + ([f] + rest.frames) == out + [f] + rest.frames;
      seen := f.id;
      out := out + [f];
      if c.failAt == Some(k) {
        return out, seen, EmitFailed;
      }
      if f.terminal {
        return out, seen, Finished;
      }
    }
    assert out + [] == out;
    return out, seen, Dropped;
  }

  const RECONNECT_MIN: nat := 50
  const RECONNECT_MAX: nat := 2000

  /** The wait in milliseconds before the i-th redial: doubling up to the maximum. */
  function Backoff(i: nat): (ms: nat)
    ensures RECONNECT_MIN <= ms <= RECONNECT_MAX
  {
    if i == 0 then RECONNECT_MIN
    else if 2 * Backoff(i - 1) > RECONNECT_MAX then RECONNECT_MAX
    else 2 * Backoff(i - 1)
  }

  lemma {:induction false} BackoffGrows(i: nat, j: nat)
    requires i <= j
    ensures Backoff(i) <= Backoff(j)
    ensures j >= 6 ==> Backoff(j) == RECONNECT_MAX
    decreases j
  {
    if i < j {
      BackoffGrows(i, j - 1);
    }
    if j == 6 {
      assert Backoff(0) == 50 && Backoff(1) == 100 && Backoff(2) == 200 && Backoff(3) == 400;
      assert Backoff(4) == 800 && Backoff(5) == 1600;
    } else if j > 6 {
      BackoffGrows(j - 1, j - 1);
    }
  }

  method FollowRunEvents(conns: seq<Conn>, lastSeen: string) returns (out: seq<Frame>, waits: seq<nat>)
    ensures out == Follow(conns, lastSeen)
    ensures |waits| <= |conns| && forall i :: 0 <= i < |waits| ==> waits[i] == Backoff(i)
  {
    hide Deliver, Follow, Backoff;
    FirstBackoff();
    out, waits := [], [];
    var seen, backoff := lastSeen, RECONNECT_MIN;
    assert conns[0..] == conns;
    assert [] + Follow(conns, lastSeen) == Follow(conns, lastSeen);
    for i := 0 to |conns|
      invariant out + Follow(conns[i..], seen) == Follow(conns, lastSeen)
      invariant |waits| == i && backoff == Backoff(i) && forall j :: 0 <= j < i ==> waits[j] == Backoff(j)
    {
      var sent, last, ending := FollowOnce(conns[i], seen);
      NextConn(conns, i, seen, out);
      NextBackoff(i);
      out := out + sent;
      seen := last;
      if ending == Finished || conns[i].cancelled || conns[i].gone {
        return;
      }
      waits := waits + [backoff];
      if backoff < RECONNECT_MAX {
        backoff := backoff * 2;
        if backoff > RECONNECT_MAX {
          backoff := RECONNECT_MAX;
        }
      }
    }
    AfterLast(conns, seen);
    assert out + [] == out;
  }

  lemma FirstBackoff()
    ensures Backoff(0) == RECONNECT_MIN
  {
  }

  lemma NextBackoff(i: nat)
    ensures Backoff(i + 1) == if Backoff(i) < RECONNECT_MAX then (if 2 * Backoff(i) > RECONNECT_MAX then RECONNECT_MAX else 2 * Backoff(i)) else Backoff(i)
  {
  }

  lemma AfterLast(conns: seq<Conn>, seen: string)
    ensures Follow(conns[|conns|..], seen) == []
  {
  }

  lemma NextConn(conns: seq<Conn>, i: nat, seen: string, out: seq<Frame>)
    requires i < |conns|
    ensures var sent := Deliver(conns[i], 0, seen);
            out + Follow(conns[i..], seen) ==
            out + sent.frames + if Redials(conns[i], sent.ending) then Follow(conns[i + 1..], sent.lastSeen) else []
  {
    hide Deliver;
    assert conns[i..][0] == conns[i] && conns[i..][1..] == conns[i + 1..];
  }

  // ----- nothing twice ----------------------------------------------------------------------------

  predicate Numeric(id: string) { ParseInt(id).Some? }

  function Num(id: string): int
    requires Numeric(id)
  {
    ParseInt(id).value
  }

  predicate NumericFrames(frames: seq<Frame>) { forall f <- frames :: Numeric(f.id) }

  /** Frames without an id are never delivered. */
  predicate NumericOrBlank(frames: seq<Frame>) { forall f <- frames :: f.id == "" || Numeric(f.id) }

  predicate Above(lastSeen: string, id: string)
    requires lastSeen == "" || Numeric(lastSeen)
    requires Numeric(id)
  {
    lastSeen == "" || Num(lastSeen) < Num(id)
  }

  /** Numbers strictly increase along the frames, from above lastSeen. */
  predicate Rising(lastSeen: string, frames: seq<Frame>)
    requires lastSeen == "" || Numeric(lastSeen)
    requires NumericFrames(frames)
  {
    && (forall f <- frames :: Above(lastSeen, f.id))
    && (forall i, j :: 0 <= i < j < |frames| ==> Num(frames[i].id) < Num(frames[j].id))
  }

  lemma RetainMeansAbove(lastSeen: string, id: string)
    requires (lastSeen == "" || Numeric(lastSeen)) && Numeric(id)
    ensures Retain(lastSeen, id) <==> Above(lastSeen, id)
  {
  }

  lemma RisingCons(lastSeen: string, f: Frame, rest: seq<Frame>)
    requires (lastSeen == "" || Numeric(lastSeen)) && Numeric(f.id) && NumericFrames(rest)
    requires Above(lastSeen, f.id) && Rising(f.id, rest)
    ensures NumericFrames([f] + rest) && Rising(lastSeen, [f] + rest)
  {
    hide ParseInt;
    EmptyId();
    var all := [f] + rest;
    assert f.id != "";
    forall i, j | 0 <= i < j < |all| ensures Num(all[i].id) < Num(all[j].id) {
      assert all[j] == rest[j - 1] && rest[j - 1] in rest && Above(f.id, rest[j - 1].id);
      if i > 0 {
        assert all[i] == rest[i - 1];
      }
    }
    forall g | g in all ensures Above(lastSeen, g.id) {
      if g in rest {
        assert Above(f.id, g.id);
      }
    }
  }

  lemma {:induction false} DeliverRises(c: Conn, k: nat, lastSeen: string)
    requires k <= |c.frames| && NumericOrBlank(c.frames) && (lastSeen == "" || Numeric(lastSeen))
    ensures var sent := Deliver(c, k, lastSeen);
            && NumericFrames(sent.frames) && Rising(lastSeen, sent.frames)
            && (sent.lastSeen == "" || Numeric(sent.lastSeen))
            && sent.lastSeen == (if sent.frames == [] then lastSeen else sent.frames[|sent.frames| - 1].id)
    decreases |c.frames| - k
  {
    hide Retain, Rising, Numeric, Num, NumericFrames;
    NothingRises(lastSeen);
    if k < |c.frames| {
      var f := c.frames[k];
      RetainNamed(lastSeen, f.id);
      if !Retain(lastSeen, f.id) {
        DeliverRises(c, k + 1, lastSeen);
      } else {
        FrameIsNumeric(c.frames, k);
        RetainMeansAbove(lastSeen, f.id);
        DeliverRises(c, k + 1, f.id);
        NothingRises(f.id);
        RisingCons(lastSeen, f, []);
        assert [f] + [] == [f];
        RisingCons(lastSeen, f, Deliver(c, k + 1, f.id).frames);
      }
    }
  }

  lemma FrameIsNumeric(frames: seq<Frame>, k: nat)
    requires NumericOrBlank(frames) && k < |frames| && frames[k].id != ""
    ensures Numeric(frames[k].id)
  {
    assert frames[k] in frames;
  }

  lemma RetainNamed(lastSeen: string, id: string)
    ensures Retain(lastSeen, id) ==> id != ""
    ensures !Retain(id, id) || id == ""
  {
  }

  lemma NothingRises(lastSeen: string)
    requires lastSeen == "" || Numeric(lastSeen)
    ensures NumericFrames([]) && Rising(lastSeen, [])
  {
  }

  lemma EmptyId()
    ensures !Numeric("")
  {
  }

  lemma RisingConcat(lastSeen: string, a: seq<Frame>, middle: string, b: seq<Frame>)
    requires (lastSeen == "" || Numeric(lastSeen)) && (middle == "" || Numeric(middle)) && NumericFrames(a) && NumericFrames(b)
    requires middle == (if a == [] then lastSeen else a[|a| - 1].id)
    requires Rising(lastSeen, a) && Rising(middle, b)
    ensures NumericFrames(a + b) && Rising(lastSeen, a + b)
  {
    hide ParseInt;
    EmptyId();
    var all := a + b;
    forall i, j | 0 <= i < j < |all| ensures Num(all[i].id) < Num(all[j].id) {
      if i < |a| <= j {
        assert b[j - |a|] in b && Num(a[|a| - 1].id) < Num(b[j - |a|].id);
        assert i < |a| - 1 ==> Num(a[i].id) < Num(a[|a| - 1].id);
      }
    }
    forall f | f in all ensures Above(lastSeen, f.id) {
      if f in b && a != [] {
        assert a[|a| - 1] in a;
      }
    }
  }

  /** Over any number of connections, whatever numbers the server sends on each and in
      whatever order, no event is delivered twice: the delivered numbers strictly increase. */
  lemma {:induction false} NothingTwice(conns: seq<Conn>, lastSeen: string)
    requires (forall c <- conns :: NumericOrBlank(c.frames)) && (lastSeen == "" || Numeric(lastSeen))
    ensures NumericFrames(Follow(conns, lastSeen)) && Rising(lastSeen, Follow(conns, lastSeen))
    decreases |conns|
  {
    hide Deliver, Rising, ParseInt;
    NothingRises(lastSeen);
    if conns != [] {
      DeliverRises(conns[0], 0, lastSeen);
      var sent := Deliver(conns[0], 0, lastSeen);
      NothingRises(sent.lastSeen);
      NothingTwice(conns[1..], sent.lastSeen);
      RisingConcat(lastSeen, sent.frames, sent.lastSeen, Follow(conns[1..], sent.lastSeen));
      RisingConcat(lastSeen, sent.frames, sent.lastSeen, []);
    }
  }

  // ----- ids that are no numbers ------------------------------------------------------------------

  predicate DistinctIds(frames: seq<Frame>) {
    forall i, j :: 0 <= i < j < |frames| ==> frames[i].id != frames[j].id
  }

  predicate IdsFrom(ids: set<string>, c: Conn) { forall f <- c.frames :: f.id in ids }

  /** With these ids a fresh client never delivers one twice, whatever connections it gets. */
  ghost predicate NoneTwice(ids: set<string>) {
    forall conns: seq<Conn> :: (forall c <- conns :: IdsFrom(ids, c)) ==> DistinctIds(Follow(conns, ""))
  }

  predicate AllNumbers(ids: set<string>) { forall id <- ids :: id == "" || Numeric(id) }

  predicate OnlyId(ids: set<string>, x: string) { forall id <- ids :: id == "" || id == x }

  lemma {:induction false} DeliverOne(c: Conn, k: nat, lastSeen: string, x: string)
    requires k <= |c.frames| && (forall f <- c.frames :: f.id == "" || f.id == x) && lastSeen in {"", x}
    ensures var sent := Deliver(c, k, lastSeen);
            && sent.lastSeen in {"", x}
            && (if lastSeen == "" then |sent.frames| <= 1 && (sent.lastSeen == "" ==> sent.frames == []) else sent.frames == [] && sent.lastSeen == x)
    decreases |c.frames| - k
  {
    hide Retain;
    if k < |c.frames| {
      var f := c.frames[k];
      assert f in c.frames;
      RetainNamed(lastSeen, f.id);
      DeliverOne(c, k + 1, lastSeen, x);
      DeliverOne(c, k + 1, if f.id == "" then "" else x, x);
    }
  }

  lemma {:induction false} FollowOne(conns: seq<Conn>, lastSeen: string, x: string)
    requires (forall c <- conns, f <- c.frames :: f.id == "" || f.id == x) && lastSeen in {"", x}
    ensures |Follow(conns, lastSeen)| <= if lastSeen == "" then 1 else 0
    decreases |conns|
  {
    hide Deliver;
    if conns != [] {
      assert conns[0] in conns;
      DeliverOne(conns[0], 0, lastSeen, x);
      FollowOne(conns[1..], Deliver(conns[0], 0, lastSeen).lastSeen, x);
    }
  }

  /** The answer to an id that does not parse: it is only told apart from the last one. */
  lemma OtherIdRepeats(y: string, z: string)
    requires y != "" && !Numeric(y) && z != "" && z != y
    ensures var frames := [Frame(z, false), Frame(y, false), Frame(z, false)];
            Follow([Conn(frames, None, false, false)], "") == frames
  {
    var z0, y0 := Frame(z, false), Frame(y, false);
    var c := Conn([z0, y0, z0], None, false, false);
    assert Deliver(c, 3, z) == Sent([], z, Dropped);
    assert Deliver(c, 2, y) == Sent([z0], z, Dropped);
    assert Deliver(c, 1, z) == Sent([y0, z0], z, Dropped);
    assert Deliver(c, 0, "").frames == [z0, y0, z0];
    hide Deliver;
    assert [c][1..] == [];
  }

  /** No event is delivered twice exactly when all ids are numbers, or there is only one. */
  lemma NoneTwiceIff(ids: set<string>)
    ensures NoneTwice(ids) <==> AllNumbers(ids) || exists x :: OnlyId(ids, x)
  {
    hide Follow, Numeric;
    if AllNumbers(ids) {
      forall conns: seq<Conn> | forall c <- conns :: IdsFrom(ids, c) ensures DistinctIds(Follow(conns, "")) {
        forall c | c in conns ensures NumericOrBlank(c.frames) {
          assert IdsFrom(ids, c);
        }
        NothingTwice(conns, "");
        RisingIsDistinct(Follow(conns, ""));
      }
    } else if exists x :: OnlyId(ids, x) {
      var x :| OnlyId(ids, x);
      forall conns: seq<Conn> | forall c <- conns :: IdsFrom(ids, c) ensures DistinctIds(Follow(conns, "")) {
        forall c, f | c in conns && f in c.frames ensures f.id == "" || f.id == x {
          assert IdsFrom(ids, c);
        }
        FollowOne(conns, "", x);
      }
    } else {
      var y :| y in ids && y != "" && !Numeric(y);
      assert !OnlyId(ids, y);
      var z :| z in ids && z != "" && z != y;
      OtherIdRepeats(y, z);
      var frames := [Frame(z, false), Frame(y, false), Frame(z, false)];
      var conns := [Conn(frames, None, false, false)];
      assert forall c <- conns :: IdsFrom(ids, c);
      assert frames[0].id == frames[2].id;
    }
  }

  lemma RisingIsDistinct(frames: seq<Frame>)
    requires NumericFrames(frames) && Rising("", frames)
    ensures DistinctIds(frames)
  {
    hide ParseInt;
  }

  // ----- frames whose emit fails --------------------------------------------------------------------

  /** What the caller accepted of one connection: all but the frame whose emit failed. */
  function AcceptedOf(sent: Sent): seq<Frame> {
    if sent.ending.EmitFailed? && sent.frames != [] then sent.frames[..|sent.frames| - 1] else sent.frames
  }

  function FollowAccepted(conns: seq<Conn>, lastSeen: string): seq<Frame> {
    if conns == [] then []
    else
      var sent := Deliver(conns[0], 0, lastSeen);
      AcceptedOf(sent) + if Redials(conns[0], sent.ending) then FollowAccepted(conns[1..], sent.lastSeen) else []
  }

  /** How many connections ended in a failed emit. */
  function FailedEmits(conns: seq<Conn>, lastSeen: string): nat {
    if conns == [] then 0
    else
      var sent := Deliver(conns[0], 0, lastSeen);
      (if sent.ending.EmitFailed? then 1 else 0)
      + if Redials(conns[0], sent.ending) then FailedEmits(conns[1..], sent.lastSeen) else 0
  }

  lemma {:induction false} FailureHasFrame(c: Conn, k: nat, lastSeen: string)
    requires k <= |c.frames|
    ensures var sent := Deliver(c, k, lastSeen);
            sent.ending.EmitFailed? ==> sent.frames != [] && sent.lastSeen == sent.frames[|sent.frames| - 1].id
    decreases |c.frames| - k
  {
    hide Retain;
    if k < |c.frames| {
      FailureHasFrame(c, k + 1, lastSeen);
      FailureHasFrame(c, k + 1, c.frames[k].id);
    }
  }

  /** Each failed emit costs exactly the frame it was for; so all that was delivered is
      accepted exactly when no emit fails. */
  lemma {:induction false} EachFailureCostsOne(conns: seq<Conn>, lastSeen: string)
    ensures |Follow(conns, lastSeen)| == |FollowAccepted(conns, lastSeen)| + FailedEmits(conns, lastSeen)
    ensures FollowAccepted(conns, lastSeen) == Follow(conns, lastSeen) <==> FailedEmits(conns, lastSeen) == 0
    decreases |conns|
  {
    hide Deliver;
    if conns != [] {
      FailureHasFrame(conns[0], 0, lastSeen);
      EachFailureCostsOne(conns[1..], Deliver(conns[0], 0, lastSeen).lastSeen);
    }
  }

  /** And a frame whose emit failed never comes again: everything after it is newer. */
  lemma FailedEmitIsLost(conns: seq<Conn>, lastSeen: string)
    requires conns != [] && (forall c <- conns :: NumericOrBlank(c.frames)) && (lastSeen == "" || Numeric(lastSeen))
    requires Deliver(conns[0], 0, lastSeen).ending.EmitFailed?
    ensures var sent := Deliver(conns[0], 0, lastSeen);
            && sent.frames != [] && Numeric(sent.frames[|sent.frames| - 1].id)
            && forall f <- Follow(conns[1..], sent.lastSeen) :: Numeric(f.id) && Num(sent.frames[|sent.frames| - 1].id) < Num(f.id)
  {
    hide Deliver, ParseInt, Follow;
    FailureHasFrame(conns[0], 0, lastSeen);
    assert conns[0] in conns;
    DeliverRises(conns[0], 0, lastSeen);
    EmptyId();
    var sent := Deliver(conns[0], 0, lastSeen);
    assert sent.frames[|sent.frames| - 1] in sent.frames;
    NothingTwice(conns[1..], sent.lastSeen);
  }

  // ----- nothing lost ------------------------------------------------------------------------------

  /** The run's log as it will be in the end; each connection shows a window of it. */
  ghost predicate Ascending(log: seq<int64>) { forall i, j :: 0 <= i < j < |log| ==> log[i] < log[j] }

  /** A connection dialled when the log had n events, dropped after event `end`. */
  datatype Window = Window(n: nat, end: nat)

  /** Where the replay of the last events begins. */
  function First(w: Window, last: nat): nat { if w.n < last then 0 else w.n - last }

  /** What the server sends is the tail's output: events First..end of the log. */
  ghost predicate Serves(c: Conn, log: seq<int64>, w: Window, last: nat) {
    && First(w, last) <= w.end <= |log| && w.n <= |log|
    && |c.frames| == w.end - First(w, last)
    && forall i :: 0 <= i < |c.frames| ==> c.frames[i].id == FormatInt(log[First(w, last) + i])
  }

  /** A connection that carries the first outputs of a tail shows a window of the log. */
  lemma TailServes(log: seq<int64>, x: T.Tail, c: Conn)
    requires T.Contiguous(log, x) && |c.frames| <= |x.out|
    requires forall i :: 0 <= i < |c.frames| ==> c.frames[i].id == FormatInt(x.out[i])
    ensures Serves(c, log, Window(if x.start == 0 then 0 else x.start + x.last, x.start + |c.frames|), x.last)
  {
    hide FormatInt;
    assert forall i :: 0 <= i < |x.out| ==> x.out[i] == log[x.start + i];
  }

  /** Everything before position p has been delivered. */
  predicate At(log: seq<int64>, lastSeen: string, p: nat) {
    1 <= p <= |log| && lastSeen == FormatInt(log[p - 1])
  }

  /** The frames are events p, p + 1, ... of the log. */
  predicate IsRun(log: seq<int64>, p: nat, frames: seq<Frame>) {
    p + |frames| <= |log| && forall i :: 0 <= i < |frames| ==> frames[i].id == FormatInt(log[p + i])
  }

  lemma RetainIsLater(log: seq<int64>, lastSeen: string, p: nat, j: nat)
    requires Ascending(log) && At(log, lastSeen, p) && j < |log|
    ensures Retain(lastSeen, FormatInt(log[j])) <==> p <= j
  {
    ParseFormatInt(log[p - 1]);
    ParseFormatInt(log[j]);
    hide FormatInt, ParseInt;
    if j < p - 1 {
      assert log[j] < log[p - 1];
    } else if p - 1 < j {
      assert log[p - 1] < log[j];
    }
  }

  lemma RunCons(log: seq<int64>, p: nat, f: Frame, rest: seq<Frame>)
    requires p < |log| && f.id == FormatInt(log[p]) && IsRun(log, p + 1, rest)
    ensures IsRun(log, p, [f] + rest)
  {
    hide FormatInt;
    var all := [f] + rest;
    forall i | 0 <= i < |all| ensures all[i].id == FormatInt(log[p + i]) {
      assert i > 0 ==> all[i] == rest[i - 1];
    }
  }

  /** A window that begins at or before the position goes on from it. */
  lemma {:induction false} DeliverGoesOn(c: Conn, log: seq<int64>, w: Window, last: nat, k: nat, lastSeen: string, p: nat)
    requires Ascending(log) && Serves(c, log, w, last) && At(log, lastSeen, p)
    requires k <= |c.frames| && First(w, last) + k <= p
    ensures var sent := Deliver(c, k, lastSeen);
            IsRun(log, p, sent.frames) && At(log, sent.lastSeen, p + |sent.frames|)
    decreases |c.frames| - k
  {
    hide Retain, FormatInt, IsRun, At, Serves, Ascending, First;
    NoRun(log, lastSeen, p);
    if k < |c.frames| {
      var f, j := c.frames[k], First(w, last) + k;
      FrameAt(c, log, w, last, k);
      RetainIsLater(log, lastSeen, p, j);
      if j < p {
        DeliverGoesOn(c, log, w, last, k + 1, lastSeen, p);
      } else {
        assert j == p;
        OneRun(log, p, f);
        DeliverGoesOn(c, log, w, last, k + 1, f.id, p + 1);
        RunCons(log, p, f, Deliver(c, k + 1, f.id).frames);
      }
    }
  }

  lemma FrameAt(c: Conn, log: seq<int64>, w: Window, last: nat, k: nat)
    requires Serves(c, log, w, last) && k < |c.frames|
    ensures First(w, last) + k < |log| && c.frames[k].id == FormatInt(log[First(w, last) + k])
  {
    hide FormatInt;
  }

  lemma OneRun(log: seq<int64>, p: nat, f: Frame)
    requires p < |log| && f.id == FormatInt(log[p])
    ensures IsRun(log, p, [f]) && At(log, f.id, p + 1)
  {
    hide FormatInt;
  }

  /** At every redial no more than `last` events are newer than the last one delivered. */
  ghost predicate KeepsUp(conns: seq<Conn>, log: seq<int64>, windows: seq<Window>, last: nat, lastSeen: string, p: nat)
    requires |windows| == |conns|
    decreases |conns|
  {
    conns == [] ||
    (&& Serves(conns[0], log, windows[0], last) && windows[0].n - p <= last
     && var sent := Deliver(conns[0], 0, lastSeen);
        Redials(conns[0], sent.ending) ==> KeepsUp(conns[1..], log, windows[1..], last, sent.lastSeen, p + |sent.frames|))
  }

  lemma RunConcat(log: seq<int64>, p: nat, a: seq<Frame>, b: seq<Frame>)
    requires IsRun(log, p, a) && IsRun(log, p + |a|, b)
    ensures IsRun(log, p, a + b)
  {
    hide FormatInt;
    var all := a + b;
    forall i | 0 <= i < |all| ensures all[i].id == FormatInt(log[p + i]) {
      assert i >= |a| ==> all[i] == b[i - |a|];
    }
  }

  /** Over any number of dropped connections the delivered events are a contiguous run of
      the log, right after the last one already seen. */
  lemma {:induction false} NothingLost(conns: seq<Conn>, log: seq<int64>, windows: seq<Window>, last: nat, lastSeen: string, p: nat)
    requires Ascending(log) && |windows| == |conns| && At(log, lastSeen, p) && KeepsUp(conns, log, windows, last, lastSeen, p)
    ensures IsRun(log, p, Follow(conns, lastSeen))
    decreases |conns|
  {
    hide IsRun, At, Deliver, Ascending;
    if conns != [] {
      DeliverGoesOn(conns[0], log, windows[0], last, 0, lastSeen, p);
      var sent := Deliver(conns[0], 0, lastSeen);
      if Redials(conns[0], sent.ending) {
        NothingLost(conns[1..], log, windows[1..], last, sent.lastSeen, p + |sent.frames|);
        RunConcat(log, p, sent.frames, Follow(conns[1..], sent.lastSeen));
      } else {
        assert sent.frames + [] == sent.frames;
      }
    } else {
      NoRun(log, lastSeen, p);
    }
  }

  lemma NoRun(log: seq<int64>, lastSeen: string, p: nat)
    requires At(log, lastSeen, p)
    ensures IsRun(log, p, [])
  {
  }

  /** The first frame of a fresh attach fixes the position; from there it is as above. */
  lemma FreshAttach(c: Conn, log: seq<int64>, w: Window, last: nat)
    requires Ascending(log) && Serves(c, log, w, last)
    ensures var sent := Deliver(c, 0, "");
            && IsRun(log, First(w, last), sent.frames)
            && (if |c.frames| == 0 then sent.lastSeen == "" && sent.frames == [] else At(log, sent.lastSeen, First(w, last) + |sent.frames|))
  {
    hide Retain, FormatInt, ParseInt, IsRun, At, Serves, Ascending, First;
    if |c.frames| > 0 {
      var f, p := c.frames[0], First(w, last);
      FrameAt(c, log, w, last, 0);
      ParseFormatInt(log[p]);
      RetainAny(f.id);
      OneRun(log, p, f);
      DeliverGoesOn(c, log, w, last, 1, f.id, p + 1);
      RunCons(log, p, f, Deliver(c, 1, f.id).frames);
    } else {
      EmptyRun(c, log, w, last);
    }
  }

  lemma RetainAny(id: string)
    ensures Retain("", id) <==> id != ""
  {
  }

  lemma EmptyRun(c: Conn, log: seq<int64>, w: Window, last: nat)
    requires Serves(c, log, w, last)
    ensures IsRun(log, First(w, last), [])
  {
  }

  /** A fresh client: any window will do until something is delivered. */
  ghost predicate KeepsUpFresh(conns: seq<Conn>, log: seq<int64>, windows: seq<Window>, last: nat)
    requires |windows| == |conns|
    decreases |conns|
  {
    conns == [] ||
    (&& Serves(conns[0], log, windows[0], last)
     && var sent := Deliver(conns[0], 0, "");
        Redials(conns[0], sent.ending) ==>
          if sent.frames == [] then KeepsUpFresh(conns[1..], log, windows[1..], last)
          else KeepsUp(conns[1..], log, windows[1..], last, sent.lastSeen, First(windows[0], last) + |sent.frames|))
  }

  /** The whole attach: from its first event on, over any number of dropped connections, a
      client that keeps up is delivered a contiguous run of the log. */
  lemma {:induction false} AttachLosesNothing(conns: seq<Conn>, log: seq<int64>, windows: seq<Window>, last: nat) returns (p: nat)
    requires Ascending(log) && |windows| == |conns| && KeepsUpFresh(conns, log, windows, last)
    ensures p <= |log| && IsRun(log, p, Follow(conns, ""))
    decreases |conns|
  {
    hide IsRun, At, Deliver, Ascending, Serves;
    if conns == [] {
      p := 0;
      RunOfNone(log, 0);
    } else {
      FreshAttach(conns[0], log, windows[0], last);
      WindowInLog(conns[0], log, windows[0], last);
      var sent := Deliver(conns[0], 0, "");
      p := First(windows[0], last);
      if !Redials(conns[0], sent.ending) {
        assert sent.frames + [] == sent.frames;
      } else if sent.frames == [] {
        NothingSeen(conns[0]);
        p := AttachLosesNothing(conns[1..], log, windows[1..], last);
        assert [] + Follow(conns[1..], "") == Follow(conns[1..], "");
      } else {
        SomethingSent(conns[0]);
        NothingLost(conns[1..], log, windows[1..], last, sent.lastSeen, p + |sent.frames|);
        RunConcat(log, p, sent.frames, Follow(conns[1..], sent.lastSeen));
      }
    }
  }

  lemma RunOfNone(log: seq<int64>, p: nat)
    requires p <= |log|
    ensures IsRun(log, p, [])
  {
  }

  lemma WindowInLog(c: Conn, log: seq<int64>, w: Window, last: nat)
    requires Serves(c, log, w, last)
    ensures First(w, last) <= |log|
  {
  }

  lemma {:induction false} DeliveredOrSame(c: Conn, k: nat, lastSeen: string)
    requires k <= |c.frames|
    ensures Deliver(c, k, lastSeen).frames == [] ==> Deliver(c, k, lastSeen).lastSeen == lastSeen
    decreases |c.frames| - k
  {
    hide Retain;
    if k < |c.frames| {
      DeliveredOrSame(c, k + 1, lastSeen);
    }
  }

  lemma NothingSeen(c: Conn)
    ensures Deliver(c, 0, "").frames == [] ==> Deliver(c, 0, "").lastSeen == ""
  {
    hide Deliver;
    DeliveredOrSame(c, 0, "");
  }

  lemma SomethingSent(c: Conn)
    ensures Deliver(c, 0, "").frames != [] ==> c.frames != []
  {
  }
}
