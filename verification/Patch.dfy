/** The line-level patch engine: placing hunks, splicing them in, and what that
    means for the lines of the source (internal/plan/payload.go). */
module Patch {
  import opened Sequences
  import opened Text

  datatype HunkKind = Context | Add | Delete

  datatype HunkLine = HunkLine(kind: HunkKind, text: string)

  datatype Hunk = Hunk(oldStart: int, unspecified: bool, lines: seq<HunkLine>)

  /** Hunks are numbered from one, as in the messages of the source. */
  datatype PatchError =
    | InsertOutOfRange(hunk: nat, oldStart: int)
    | Conflict(hunk: nat, want: string, got: Option<string>)
    | BadHeader(line: string)
    | UnexpectedLine(line: string)
    | NoHunks

  datatype Result<+T> = Ok(value: T) | Err(error: PatchError)

  // ----- the two sides of a hunk --------------------------------------------

  function OldSide(lines: seq<HunkLine>): seq<string> {
    if lines == [] then []
    else (if lines[0].kind.Add? then [] else [lines[0].text]) + OldSide(lines[1..])
  }

  function NewSide(lines: seq<HunkLine>): seq<string> {
    if lines == [] then []
    else (if lines[0].kind.Delete? then [] else [lines[0].text]) + NewSide(lines[1..])
  }

  method OldTexts(h: Hunk) returns (out: seq<string>)
    ensures out == OldSide(h.lines)
  {
    out := [];
    for i := 0 to |h.lines|
      invariant out + OldSide(h.lines[i..]) == OldSide(h.lines)
    {
      var line := h.lines[i];
      assert h.lines[i..][1..] == h.lines[i + 1..];
      if line.kind.Context? || line.kind.Delete? {
        out := out + [line.text];
      }
    }
  }

  method NewTexts(h: Hunk) returns (out: seq<string>)
    ensures out == NewSide(h.lines)
  {
    out := [];
    for i := 0 to |h.lines|
      invariant out + NewSide(h.lines[i..]) == NewSide(h.lines)
    {
      var line := h.lines[i];
      assert h.lines[i..][1..] == h.lines[i + 1..];
      if line.kind.Context? || line.kind.Add? {
        out := out + [line.text];
      }
    }
  }

  // ----- finding a hunk ------------------------------------------------------

  predicate Matches(src: seq<string>, at: int, want: seq<string>) {
    0 <= at && at + |want| <= |src| && src[at..at + |want|] == want
  }

  method MatchAt(src: seq<string>, at: int, want: seq<string>) returns (found: bool)
    ensures found == Matches(src, at, want)
  {
    if at < 0 || at + |want| > |src| {
      return false;
    }
    for i := 0 to |want|
      invariant forall k :: 0 <= k < i ==> src[at + k] == want[k]
    {
      if src[at + i] != want[i] {
        assert src[at..at + |want|][i] != want[i];
        return false;
      }
    }
    return true;
  }

  /** Nothing matches in [from, to). */
  ghost predicate NoMatchIn(src: seq<string>, want: seq<string>, from: int, to: int) {
    forall at :: from <= at < to ==> !Matches(src, at, want)
  }

  method IndexOf(src: seq<string>, want: seq<string>, from: nat) returns (at: int)
    requires want != []
    ensures at >= 0 ==> from <= at && Matches(src, at, want) && NoMatchIn(src, want, from, at)
    ensures at < 0 ==> at == -1 && NoMatchIn(src, want, from, |src| + 1)
    ensures at == FirstMatch(src, want, from)
  {
    var i := from;
    while i + |want| <= |src|
      invariant from <= i
      invariant NoMatchIn(src, want, from, i)
      invariant FirstMatch(src, want, from) == FirstMatch(src, want, i)
    {
      var found := MatchAt(src, i, want);
      if found {
        return i;
      }
      i := i + 1;
    }
    return -1;
  }

  /** The least position from `from` on at which old matches, or -1. */
  function FirstMatch(src: seq<string>, want: seq<string>, from: nat): (at: int)
    ensures at >= 0 ==> from <= at && Matches(src, at, want) && NoMatchIn(src, want, from, at)
    ensures at < 0 ==> at == -1 && NoMatchIn(src, want, from, |src| + 1)
    decreases |src| - from
  {
    if from + |want| > |src| then -1
    else if Matches(src, from, want) then from
    else FirstMatch(src, want, from + 1)
  }

  predicate HasPosition(h: Hunk) { !h.unspecified && h.oldStart > 0 }

  /** Where h goes when everything before `cursor` is already consumed; -1 when nowhere. */
  function Position(src: seq<string>, h: Hunk, cursor: nat): (at: int)
    requires cursor <= |src|
    ensures at >= 0 ==> cursor <= at && at + |OldSide(h.lines)| <= |src| && Matches(src, at, OldSide(h.lines))
  {
    var want := OldSide(h.lines);
    if want == [] then
      if !HasPosition(h) then |src|
      else if cursor <= h.oldStart - 1 <= |src| then h.oldStart - 1
      else -1
    else if HasPosition(h) && h.oldStart - 1 >= cursor && Matches(src, h.oldStart - 1, want) then h.oldStart - 1
    else FirstMatch(src, want, cursor)
  }

  function PlacementError(src: seq<string>, h: Hunk, cursor: nat, index: nat): PatchError {
    var want := OldSide(h.lines);
    if want == [] then InsertOutOfRange(index + 1, h.oldStart)
    else Conflict(index + 1, want[0], if cursor < |src| then Some(src[cursor]) else None)
  }

  /** The output of applyHunks for the hunks still to come, the first of which is
      number `index`, with src[..cursor] consumed. */
  function ApplyFrom(src: seq<string>, hunks: seq<Hunk>, index: nat, cursor: nat): Result<seq<string>>
    requires cursor <= |src|
    decreases |hunks|
  {
    if hunks == [] then Ok(src[cursor..])
    else
      var h := hunks[0];
      var at := Position(src, h, cursor);
      if at < 0 then Err(PlacementError(src, h, cursor, index))
      else Prepend(src[cursor..at] + NewSide(h.lines), ApplyFrom(src, hunks[1..], index + 1, at + |OldSide(h.lines)|))
  }

  function ApplyLines(src: seq<string>, hunks: seq<Hunk>): Result<seq<string>> {
    ApplyFrom(src, hunks, 0, 0)
  }

  function Prepend(out: seq<string>, r: Result<seq<string>>): Result<seq<string>> {
    match r case Err(e) => Err(e) case Ok(rest) => Ok(out + rest)
  }

  /** Where applyHunks finds a hunk that has old lines, or -1. */
  method Locate(src: seq<string>, h: Hunk, want: seq<string>, cursor: nat) returns (start: int)
    requires want == OldSide(h.lines) && want != [] && cursor <= |src|
    ensures start == Position(src, h, cursor)
  {
    start := -1;
    if !h.unspecified && h.oldStart > 0 {
      var cand := h.oldStart - 1;
      if cand >= cursor {
        var fits := MatchAt(src, cand, want);
        if fits {
          start := cand;
        }
      }
    }
    if start < 0 {
      start := IndexOf(src, want, cursor);
    }
  }

  /** The loop of applyHunks, between splitting the original and joining the result. */
  method ApplyHunks(src: seq<string>, hunks: seq<Hunk>) returns (r: Result<seq<string>>)
    ensures r == ApplyLines(src, hunks)
  {
    hide Matches, FirstMatch, OldSide, NewSide;
    var out: seq<string> := [];
    var cursor := 0;
    assert ApplyLines(src, hunks).Ok? ==> [] + ApplyLines(src, hunks).value == ApplyLines(src, hunks).value;
    for i := 0 to |hunks|
      invariant 0 <= cursor <= |src|
      invariant ApplyLines(src, hunks) == Prepend(out, ApplyFrom(src, hunks[i..], i, cursor))
    {
      var h := hunks[i];
      assert hunks[i..][1..] == hunks[i + 1..];
      var want := OldTexts(h);
      var neu := NewTexts(h);
      if |want| == 0 {
        if !h.unspecified && h.oldStart > 0 {
          var start := h.oldStart - 1;
          if start < cursor || start > |src| {
            return Err(InsertOutOfRange(i + 1, h.oldStart));
          }
          PrependTwice(out, src[cursor..start], neu, ApplyFrom(src, hunks[i + 1..], i + 1, start));
          out := out + src[cursor..start];
          out := out + neu;
          cursor := start;
          continue;
        }
        PrependTwice(out, src[cursor..|src|], neu, ApplyFrom(src, hunks[i + 1..], i + 1, |src|));
        out := out + src[cursor..|src|];
        cursor := |src|;
        out := out + neu;
        continue;
      }
      var start := Locate(src, h, want, cursor);
      if start < 0 {
        return Err(Conflict(i + 1, want[0], if cursor < |src| then Some(src[cursor]) else None));
      }
      PrependTwice(out, src[cursor..start], neu, ApplyFrom(src, hunks[i + 1..], i + 1, start + |want|));
      out := out + src[cursor..start];
      out := out + neu;
      cursor := start + |want|;
    }
    out := out + src[cursor..];
    return Ok(out);
  }

  lemma PrependTwice(out: seq<string>, a: seq<string>, b: seq<string>, r: Result<seq<string>>)
    ensures Prepend(out, Prepend(a + b, r)) == Prepend(out + a + b, r)
  {
    if r.Ok? {
      assert out + (a + b + r.value) == out + a + b + r.value;
    }
  }

  // ----- soundness: what a placement is, independently of the algorithm ------

  /** h may stand at `at`: the header's position when it matches there, otherwise
      the leftmost match; an insertion before its line, or at the end. */
  ghost predicate PlacedAt(src: seq<string>, h: Hunk, cursor: nat, at: nat) {
    var want := OldSide(h.lines);
    && cursor <= at
    && Matches(src, at, want)
    && (want == [] ==> at == if HasPosition(h) then h.oldStart - 1 else |src|)
    && (want != [] ==>
          var fits := HasPosition(h) && h.oldStart - 1 >= cursor && Matches(src, h.oldStart - 1, want);
          if fits then at == h.oldStart - 1 else NoMatchIn(src, want, cursor, at))
  }

  function Cursor(hunks: seq<Hunk>, starts: seq<nat>, i: nat): nat
    requires i <= |starts| <= |hunks|
  {
    if i == 0 then 0 else starts[i - 1] + |OldSide(hunks[i - 1].lines)|
  }

  /** starts[i] is where hunk i stands; every window begins after the previous one ends. */
  ghost predicate Placement(src: seq<string>, hunks: seq<Hunk>, starts: seq<nat>) {
    && |starts| <= |hunks|
    && forall i :: 0 <= i < |starts| ==> HunkPlaced(src, hunks, starts, i)
  }

  ghost predicate HunkPlaced(src: seq<string>, hunks: seq<Hunk>, starts: seq<nat>, i: nat)
    requires i < |starts| <= |hunks|
  {
    PlacedAt(src, hunks[i], Cursor(hunks, starts, i), starts[i])
  }

  /** src with the windows of the hunks from `index` on replaced, from `cursor`. */
  ghost function Splice(src: seq<string>, hunks: seq<Hunk>, starts: seq<nat>, index: nat): seq<string>
    requires Placement(src, hunks, starts) && index <= |starts| == |hunks|
    decreases |hunks| - index
  {
    CursorInRange(src, hunks, starts, index);
    var cursor := Cursor(hunks, starts, index);
    if index == |hunks| then src[cursor..]
    else src[cursor..starts[index]] + NewSide(hunks[index].lines) + Splice(src, hunks, starts, index + 1)
  }

  lemma CursorInRange(src: seq<string>, hunks: seq<Hunk>, starts: seq<nat>, index: nat)
    requires Placement(src, hunks, starts) && index <= |starts|
    ensures Cursor(hunks, starts, index) <= |src|
    ensures index < |starts| ==> Cursor(hunks, starts, index) <= starts[index] <= |src|
  {
    if index > 0 {
      assert HunkPlaced(src, hunks, starts, index - 1);
    }
    if index < |starts| {
      assert HunkPlaced(src, hunks, starts, index);
    }
  }

  lemma PositionIsPlacement(src: seq<string>, h: Hunk, cursor: nat, at: nat)
    requires cursor <= |src|
    ensures PlacedAt(src, h, cursor, at) <==> Position(src, h, cursor) == at
  {
    var want := OldSide(h.lines);
    if want != [] && PlacedAt(src, h, cursor, at) {
      var first := FirstMatch(src, want, cursor);
      assert first >= 0;
      if !(HasPosition(h) && h.oldStart - 1 >= cursor && Matches(src, h.oldStart - 1, want)) {
        assert !(cursor <= first < at);
      }
    }
  }

  /** The whole contract of a successful application, in both directions: the
      output is the source with a valid placement spliced in, and every valid
      placement of all hunks is the one the code finds. */
  lemma {:induction false} ApplyIsSplice(src: seq<string>, hunks: seq<Hunk>, starts: seq<nat>)
    requires Placement(src, hunks, starts) && |starts| == |hunks|
    ensures ApplyLines(src, hunks) == Ok(Splice(src, hunks, starts, 0))
  {
    SpliceFrom(src, hunks, starts, 0);
  }

  lemma {:induction false} SpliceFrom(src: seq<string>, hunks: seq<Hunk>, starts: seq<nat>, index: nat)
    requires Placement(src, hunks, starts) && index <= |starts| == |hunks|
    ensures Cursor(hunks, starts, index) <= |src|
    ensures ApplyFrom(src, hunks[index..], index, Cursor(hunks, starts, index)) == Ok(Splice(src, hunks, starts, index))
    decreases |hunks| - index
  {
    hide Matches, FirstMatch, OldSide, NewSide;
    CursorInRange(src, hunks, starts, index);
    if index < |hunks| {
      assert HunkPlaced(src, hunks, starts, index);
      assert hunks[index..][1..] == hunks[index + 1..];
      PositionIsPlacement(src, hunks[index], Cursor(hunks, starts, index), starts[index]);
      SpliceFrom(src, hunks, starts, index + 1);
    }
  }

  /** Whatever the outcome, the hunks before the first unplaceable one have a
      placement; the application fails exactly when one hunk has no position
      after it, and names that hunk. */
  lemma {:induction false} ApplyPlaces(src: seq<string>, hunks: seq<Hunk>) returns (starts: seq<nat>)
    ensures Placement(src, hunks, starts)
    ensures ApplyLines(src, hunks).Ok? <==> |starts| == |hunks|
    ensures ApplyLines(src, hunks).Err? ==>
              var k := |starts|;
              && k < |hunks|
              && Cursor(hunks, starts, k) <= |src|
              && (forall at: nat :: !PlacedAt(src, hunks[k], Cursor(hunks, starts, k), at))
              && ApplyLines(src, hunks).error == PlacementError(src, hunks[k], Cursor(hunks, starts, k), k)
  {
    hide Matches, FirstMatch, OldSide, NewSide, Position, PlacedAt;
    starts := [];
    while |starts| < |hunks|
      invariant Placement(src, hunks, starts)
      invariant Cursor(hunks, starts, |starts|) <= |src|
      invariant ApplyLines(src, hunks).Ok? <==> ApplyFrom(src, hunks[|starts|..], |starts|, Cursor(hunks, starts, |starts|)).Ok?
      invariant ApplyLines(src, hunks).Err? ==>
                  ApplyLines(src, hunks).error == ApplyFrom(src, hunks[|starts|..], |starts|, Cursor(hunks, starts, |starts|)).error
      decreases |hunks| - |starts|
    {
      var k := |starts|;
      assert hunks[k..][1..] == hunks[k + 1..];
      var cursor := Cursor(hunks, starts, k);
      var at := Position(src, hunks[k], cursor);
      if at < 0 {
        forall p: nat ensures !PlacedAt(src, hunks[k], cursor, p) {
          PositionIsPlacement(src, hunks[k], cursor, p);
        }
        return;
      }
      PositionIsPlacement(src, hunks[k], cursor, at);
      var more := starts + [at];
      forall i | 0 <= i < |more|
        ensures HunkPlaced(src, hunks, more, i)
      {
        assert i < k ==> HunkPlaced(src, hunks, starts, i);
        assert Cursor(hunks, more, i) == if i < k then Cursor(hunks, starts, i) else cursor;
      }
      starts := more;
    }
  }

  // ----- counting lines, keeping lines ---------------------------------------

  function Count(lines: seq<HunkLine>, kind: HunkKind): nat {
    if lines == [] then 0 else (if lines[0].kind == kind then 1 else 0) + Count(lines[1..], kind)
  }

  function CountAll(hunks: seq<Hunk>, kind: HunkKind): nat {
    if hunks == [] then 0 else Count(hunks[0].lines, kind) + CountAll(hunks[1..], kind)
  }

  lemma {:induction false} SideLengths(lines: seq<HunkLine>)
    ensures |NewSide(lines)| - |OldSide(lines)| == Count(lines, Add) - Count(lines, Delete)
  {
    if lines != [] {
      SideLengths(lines[1..]);
    }
  }

  lemma {:induction false} ApplyLineCount(src: seq<string>, hunks: seq<Hunk>, index: nat, cursor: nat)
    requires cursor <= |src| && ApplyFrom(src, hunks, index, cursor).Ok?
    ensures |ApplyFrom(src, hunks, index, cursor).value| ==
            |src| - cursor + CountAll(hunks, Add) - CountAll(hunks, Delete)
    decreases |hunks|
  {
    hide Matches, FirstMatch, OldSide, NewSide, Position;
    if hunks != [] {
      var h := hunks[0];
      SideLengths(h.lines);
      ApplyLineCount(src, hunks[1..], index + 1, Position(src, h, cursor) + |OldSide(h.lines)|);
    }
  }

  lemma {:induction false} OldKeptInNew(lines: seq<HunkLine>)
    requires Count(lines, Delete) == 0
    ensures Subsequence(OldSide(lines), NewSide(lines))
  {
    if lines == [] {
      SubsequenceReflexive<string>([]);
    } else {
      OldKeptInNew(lines[1..]);
      var a := if lines[0].kind.Add? then [] else [lines[0].text];
      assert Embeds(a, [lines[0].text], if a == [] then [] else [0]);
      SubsequenceConcat(a, [lines[0].text], OldSide(lines[1..]), NewSide(lines[1..]));
    }
  }

  /** A patch that deletes nothing loses nothing: every source line survives, in order. */
  lemma {:induction false} AddOnlyKeepsEveryLine(src: seq<string>, hunks: seq<Hunk>, index: nat, cursor: nat)
    requires cursor <= |src| && ApplyFrom(src, hunks, index, cursor).Ok?
    requires CountAll(hunks, Delete) == 0
    ensures Subsequence(src[cursor..], ApplyFrom(src, hunks, index, cursor).value)
    decreases |hunks|
  {
    hide Matches, FirstMatch, OldSide, NewSide, Position, Subsequence;
    if hunks == [] {
      SubsequenceReflexive(src[cursor..]);
    } else {
      var h := hunks[0];
      var at := Position(src, h, cursor);
      var next := at + |OldSide(h.lines)|;
      AddOnlyKeepsEveryLine(src, hunks[1..], index + 1, next);
      OldKeptInNew(h.lines);
      KeepsThree(src[cursor..at], OldSide(h.lines), NewSide(h.lines), src[next..], ApplyFrom(src, hunks[1..], index + 1, next).value);
      CutAtWindow(src, cursor, at, OldSide(h.lines));
    }
  }

  lemma CutAtWindow(src: seq<string>, cursor: nat, at: nat, want: seq<string>)
    requires cursor <= at && Matches(src, at, want)
    ensures src[cursor..] == src[cursor..at] + want + src[at + |want|..]
  {
  }

  lemma KeepsThree(gap: seq<string>, a: seq<string>, b: seq<string>, tail: seq<string>, rest: seq<string>)
    requires Subsequence(a, b) && Subsequence(tail, rest)
    ensures Subsequence(gap + a + tail, gap + b + rest)
  {
    SubsequenceReflexive(gap);
    SubsequenceConcat(gap, gap, a, b);
    SubsequenceConcat(gap + a, gap + b, tail, rest);
  }

  // ----- completeness and inverse --------------------------------------------

  /** An edit script: stretches that stay, and hunks between them. */
  datatype Script =
    | Done
    | Keep(same: seq<string>, rest: Script)
    | Change(lines: seq<HunkLine>, rest: Script)

  function Source(script: Script): seq<string> {
    match script
    case Done => []
    case Keep(same, rest) => same + Source(rest)
    case Change(lines, rest) => OldSide(lines) + Source(rest)
  }

  function Target(script: Script): seq<string> {
    match script
    case Done => []
    case Keep(same, rest) => same + Target(rest)
    case Change(lines, rest) => NewSide(lines) + Target(rest)
  }

  /** The hunks of a script, each headed by the line it starts at, counted from one. */
  function HunksOf(script: Script, pos: nat): seq<Hunk> {
    match script
    case Done => []
    case Keep(same, rest) => HunksOf(rest, pos + |same|)
    case Change(lines, rest) => [Hunk(pos + 1, false, lines)] + HunksOf(rest, pos + |OldSide(lines)|)
  }

  /** Every hunk shows at least one line of the file it is applied to. */
  ghost predicate Anchored(script: Script) {
    match script
    case Done => true
    case Keep(_, rest) => Anchored(rest)
    case Change(lines, rest) => OldSide(lines) != [] && Anchored(rest)
  }

  /** Every hunk shows at least one line of the file it produces. */
  ghost predicate TargetAnchored(script: Script) {
    match script
    case Done => true
    case Keep(_, rest) => TargetAnchored(rest)
    case Change(lines, rest) => NewSide(lines) != [] && TargetAnchored(rest)
  }

  function SwapKind(kind: HunkKind): HunkKind {
    match kind case Context => Context case Add => Delete case Delete => Add
  }

  function SwapLines(lines: seq<HunkLine>): seq<HunkLine> {
    if lines == [] then [] else [HunkLine(SwapKind(lines[0].kind), lines[0].text)] + SwapLines(lines[1..])
  }

  /** The same script read backwards: additions and deletions swapped. */
  function Reverse(script: Script): Script {
    match script
    case Done => Done
    case Keep(same, rest) => Keep(same, Reverse(rest))
    case Change(lines, rest) => Change(SwapLines(lines), Reverse(rest))
  }

  lemma {:induction false} SwapSides(lines: seq<HunkLine>)
    ensures OldSide(SwapLines(lines)) == NewSide(lines)
    ensures NewSide(SwapLines(lines)) == OldSide(lines)
  {
    if lines != [] {
      SwapSides(lines[1..]);
    }
  }

  lemma {:induction false} ReverseSides(script: Script)
    ensures Source(Reverse(script)) == Target(script)
    ensures Target(Reverse(script)) == Source(script)
    ensures Anchored(Reverse(script)) <==> TargetAnchored(script)
  {
    if !script.Done? {
      ReverseSides(script.rest);
      if script.Change? {
        SwapSides(script.lines);
      }
    }
  }

  lemma HeaderPositionWins(src: seq<string>, h: Hunk, cursor: nat, at: nat)
    requires cursor <= at && HasPosition(h) && h.oldStart == at + 1 && OldSide(h.lines) != []
    requires at + |OldSide(h.lines)| <= |src| && src[at..at + |OldSide(h.lines)|] == OldSide(h.lines)
    ensures Position(src, h, cursor) == at
  {
  }

  /** A stretch that stays only moves the point from which the hunks apply. */
  lemma KeepFirst(pre: seq<string>, same: seq<string>, tail: seq<string>, hunks: seq<Hunk>, index: nat, cursor: nat, out: seq<string>)
    requires cursor <= |pre|
    requires ApplyFrom(pre + same + tail, hunks, index, cursor) == Ok((pre + same)[cursor..] + out)
    ensures ApplyFrom(pre + (same + tail), hunks, index, cursor) == Ok(pre[cursor..] + (same + out))
  {
    hide ApplyFrom;
    assert pre + (same + tail) == pre + same + tail;
    assert (pre + same)[cursor..] + out == pre[cursor..] + (same + out);
  }

  /** One correctly headed hunk in front of hunks that are already known to apply. */
  lemma ChangeFirst(pre: seq<string>, lines: seq<HunkLine>, tail: seq<string>, hunks: seq<Hunk>, index: nat, cursor: nat, out: seq<string>)
    requires cursor <= |pre| && OldSide(lines) != []
    requires var pre' := pre + OldSide(lines);
             ApplyFrom(pre' + tail, hunks, index + 1, |pre'|) == Ok(pre'[|pre'|..] + out)
    ensures ApplyFrom(pre + (OldSide(lines) + tail), [Hunk(|pre| + 1, false, lines)] + hunks, index, cursor)
            == Ok(pre[cursor..] + (NewSide(lines) + out))
  {
    var h := Hunk(|pre| + 1, false, lines);
    var pre' := pre + OldSide(lines);
    hide Position, OldSide, NewSide, Matches;
    assert pre + (OldSide(lines) + tail) == pre' + tail;
    HeaderPositionWins(pre' + tail, h, cursor, |pre|);
    assert ([h] + hunks)[1..] == hunks;
    assert (pre' + tail)[cursor..|pre|] == pre[cursor..];
    assert pre[cursor..] + NewSide(lines) + (pre'[|pre'|..] + out) == pre[cursor..] + (NewSide(lines) + out);
  }

  /** Completeness: correctly headed hunks with at least one old line each turn the
      script's source into its target, whatever precedes them. */
  lemma {:induction false} CompletenessFrom(pre: seq<string>, script: Script, index: nat, cursor: nat)
    requires Anchored(script) && cursor <= |pre|
    ensures ApplyFrom(pre + Source(script), HunksOf(script, |pre|), index, cursor) == Ok(pre[cursor..] + Target(script))
    decreases script
  {
    hide ApplyFrom, OldSide, NewSide;
    match script
    case Done => NoHunksLeft(pre, index, cursor);
    case Keep(same, rest) =>
      CompletenessFrom(pre + same, rest, index, cursor);
      SameLength(pre, same);
      KeepFirst(pre, same, Source(rest), HunksOf(rest, |pre + same|), index, cursor, Target(rest));
    case Change(lines, rest) =>
      var pre' := pre + OldSide(lines);
      SameLength(pre, OldSide(lines));
      CompletenessFrom(pre', rest, index + 1, |pre'|);
      ChangeFirst(pre, lines, Source(rest), HunksOf(rest, |pre'|), index, cursor, Target(rest));
  }

  lemma NoHunksLeft(pre: seq<string>, index: nat, cursor: nat)
    requires cursor <= |pre|
    ensures ApplyFrom(pre + [], [], index, cursor) == Ok(pre[cursor..] + [])
  {
    assert pre + [] == pre && pre[cursor..] + [] == pre[cursor..];
  }

  /** The end of the stretch is where the cursor goes. */
  lemma SameLength(pre: seq<string>, more: seq<string>)
    ensures |pre + more| == |pre| + |more| && (pre + more)[|pre + more|..] == []
  {
  }

  lemma Completeness(script: Script)
    requires Anchored(script)
    ensures ApplyLines(Source(script), HunksOf(script, 0)) == Ok(Target(script))
  {
    CompletenessFrom([], script, 0, 0);
    assert [] + Source(script) == Source(script);
    assert [][0..] + Target(script) == Target(script);
  }

  /** The reversed hunks, headed by their new-side positions, undo the patch. */
  lemma ReversedHunksUndo(script: Script)
    requires Anchored(script) && TargetAnchored(script)
    ensures ApplyLines(Source(script), HunksOf(script, 0)) == Ok(Target(script))
    ensures ApplyLines(Target(script), HunksOf(Reverse(script), 0)) == Ok(Source(script))
  {
    Completeness(script);
    ReverseSides(script);
    Completeness(Reverse(script));
  }

  // ----- hunks without context -----------------------------------------------

  /** Where the POSIX.1 diff format puts a hunk without old lines: after line n. */
  function InsertedAfter(src: seq<string>, n: nat, neu: seq<string>): seq<string>
    requires n <= |src|
  {
    src[..n] + neu + src[n..]
  }

  /** Where the code puts it: before line n, at the end when the header says line 0 or
      nothing, and nowhere when line n - 1 does not exist. */
  function InsertPosition(src: seq<string>, n: int, unspecified: bool): Option<nat> {
    if unspecified || n <= 0 then Some(|src|) else if n - 1 <= |src| then Some(n - 1) else None
  }

  /** For every header of a hunk without old lines: where its lines land, or the error. */
  lemma ZeroContextInsertLands(src: seq<string>, n: int, unspecified: bool, lines: seq<HunkLine>)
    requires OldSide(lines) == []
    ensures ApplyLines(src, [Hunk(n, unspecified, lines)]) ==
            match InsertPosition(src, n, unspecified)
            case Some(at) => Ok(InsertedAfter(src, at, NewSide(lines)))
            case None => Err(InsertOutOfRange(1, n))
  {
    var neu, h := NewSide(lines), Hunk(n, unspecified, lines);
    assert [h][1..] == [];
    if InsertPosition(src, n, unspecified).Some? {
      var at := InsertPosition(src, n, unspecified).value;
      assert ApplyFrom(src, [h], 0, 0) == Prepend(src[0..at] + neu, ApplyFrom(src, [], 1, at));
      assert src[0..at] == src[..at];
    }
  }

  /** w repeated k times. */
  function Repeat(w: seq<string>, k: nat): seq<string> { if k == 0 then [] else w + Repeat(w, k - 1) }

  /** Both are repetitions of one block of lines. */
  ghost predicate SameBlocks(a: seq<string>, b: seq<string>) {
    exists w: seq<string>, i: nat, j: nat :: a == Repeat(w, i) && b == Repeat(w, j)
  }

  /** Line n is every inserted line; before the first line, the file and the insertion are
      repetitions of one block. */
  ghost predicate SameEitherSide(src: seq<string>, n: nat, neu: seq<string>)
    requires n <= |src|
  {
    if n == 0 then SameBlocks(src, neu) else forall line <- neu :: line == src[n - 1]
  }

  /** So the code agrees with the format, for every line n of the file and for line 0,
      exactly when the two places cannot be told apart. */
  lemma ZeroContextInsertAgreesIff(src: seq<string>, n: nat, lines: seq<HunkLine>)
    requires OldSide(lines) == [] && n <= |src|
    ensures ApplyLines(src, [Hunk(n, false, lines)]) == Ok(InsertedAfter(src, n, NewSide(lines)))
            <==> SameEitherSide(src, n, NewSide(lines))
  {
    var neu := NewSide(lines);
    ZeroContextInsertLands(src, n, false, lines);
    hide ApplyLines;
    if n == 0 {
      assert InsertedAfter(src, |src|, neu) == src + neu && InsertedAfter(src, 0, neu) == neu + src;
      CommuteIff(src, neu);
    } else {
      ShiftIff(src, n, neu);
    }
  }

  lemma {:induction false} RepeatAdds(w: seq<string>, i: nat, j: nat)
    ensures Repeat(w, i) + Repeat(w, j) == Repeat(w, i + j)
  {
    if i == 0 {
      assert Repeat(w, 0) + Repeat(w, j) == Repeat(w, j);
    } else {
      RepeatAdds(w, i - 1, j);
      assert w + Repeat(w, i - 1) + Repeat(w, j) == w + (Repeat(w, i - 1) + Repeat(w, j));
    }
  }

  lemma {:induction false} CommuteMeansBlocks(a: seq<string>, b: seq<string>)
    requires a + b == b + a
    ensures SameBlocks(a, b)
    decreases |a| + |b|, |a|
  {
    if a == [] {
      assert a == Repeat(b, 0) && b == b + Repeat(b, 0) == Repeat(b, 1);
    } else if |a| > |b| {
      CommuteMeansBlocks(b, a);
      var w: seq<string>, i: nat, j: nat :| b == Repeat(w, i) && a == Repeat(w, j);
    } else {
      var rest := b[|a|..];
      assert b == (a + b)[..|b|] == (b + a)[..|b|];
      assert (a + b)[..|a|] == a && (b + a)[..|a|] == b[..|a|];
      assert b == a + rest;
      assert a + (a + rest) == a + (rest + a) by {
        assert a + b == b + a && b + a == a + (rest + a);
      }
      assert a + rest == (a + (a + rest))[|a|..] && rest + a == (a + (rest + a))[|a|..];
      CommuteMeansBlocks(a, rest);
      var w: seq<string>, i: nat, j: nat :| a == Repeat(w, i) && rest == Repeat(w, j);
      RepeatAdds(w, i, j);
    }
  }

  lemma CommuteIff(a: seq<string>, b: seq<string>)
    ensures a + b == b + a <==> SameBlocks(a, b)
  {
    if SameBlocks(a, b) {
      var w: seq<string>, i: nat, j: nat :| a == Repeat(w, i) && b == Repeat(w, j);
      RepeatAdds(w, i, j);
      RepeatAdds(w, j, i);
    }
    if a + b == b + a {
      CommuteMeansBlocks(a, b);
    }
  }

  lemma ShiftIff(src: seq<string>, n: nat, neu: seq<string>)
    requires 1 <= n <= |src|
    ensures InsertedAfter(src, n - 1, neu) == InsertedAfter(src, n, neu) <==> forall line <- neu :: line == src[n - 1]
  {
    var got, posix := InsertedAfter(src, n - 1, neu), InsertedAfter(src, n, neu);
    assert got == src[..n - 1] + neu + [src[n - 1]] + src[n..];
    assert posix == src[..n - 1] + [src[n - 1]] + neu + src[n..];
    if forall line <- neu :: line == src[n - 1] {
      AllEqualCommutes(src[n - 1], neu);
      assert src[..n - 1] + neu + [src[n - 1]] == src[..n - 1] + (neu + [src[n - 1]]);
      assert src[..n - 1] + [src[n - 1]] + neu == src[..n - 1] + ([src[n - 1]] + neu);
    }
    if got == posix {
      AllEqualByShift(src[n - 1], neu, src[..n - 1], src[n..]);
    }
  }

  lemma AllEqualCommutes(x: string, neu: seq<string>)
    requires forall line <- neu :: line == x
    ensures neu + [x] == [x] + neu
  {
    assert forall i :: 0 <= i < |neu| ==> neu[i] in neu;
    var l, r := neu + [x], [x] + neu;
    assert forall i :: 0 <= i < |l| ==> l[i] == x;
    assert forall i :: 0 <= i < |r| ==> r[i] == x;
  }

  lemma {:induction false} AllEqualByShift(x: string, neu: seq<string>, a: seq<string>, b: seq<string>)
    requires a + neu + [x] + b == a + [x] + neu + b
    ensures forall line <- neu :: line == x
  {
    var l, r := a + neu + [x] + b, a + [x] + neu + b;
    forall i | 0 <= i < |neu| ensures neu[i] == x
    {
      ShiftAt(x, neu, a, b, i);
    }
  }

  lemma {:induction false} ShiftAt(x: string, neu: seq<string>, a: seq<string>, b: seq<string>, i: nat)
    requires a + neu + [x] + b == a + [x] + neu + b && i < |neu|
    ensures neu[i] == x
  {
    var l, r := a + neu + [x] + b, a + [x] + neu + b;
    assert l[|a| + i] == neu[i];
    if i > 0 {
      ShiftAt(x, neu, a, b, i - 1);
      assert r[|a| + i] == neu[i - 1];
    }
  }
}
