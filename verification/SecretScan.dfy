/** The secret scanner: a whole buffer line by line, and the same from a stream of
    pieces (internal/secretscan/scan.go). */
module SecretScan {
  import opened Text
  import opened Sequences

  datatype Finding = Finding(path: string, rule: string, line: nat)

  /** A rule and its regular expression, as a predicate on lines. */
  datatype Detector = Detector(rule: string, hit: string -> bool)

  const MAX_LINE: nat := 1024 * 1024

  /** No read returns more than this. */
  const READ: nat := 32 * 1024

  function Hits(name: string, line: nat, chunk: string, detectors: seq<Detector>): seq<Finding> {
    if detectors == [] then []
    else if detectors[0].hit(chunk) then [Finding(name, detectors[0].rule, line)] + Hits(name, line, chunk, detectors[1..])
    else Hits(name, line, chunk, detectors[1..])
  }

  function Truncate(chunk: string): string {
    if |chunk| > MAX_LINE then chunk[..MAX_LINE] else chunk
  }

  function LineFindings(name: string, line: nat, chunk: string, detectors: seq<Detector>): seq<Finding> {
    if chunk == "" then [] else Hits(name, line, Truncate(chunk), detectors)
  }

  method ScanLine(name: string, line: nat, chunk: string, detectors: seq<Detector>) returns (out: seq<Finding>)
    ensures out == LineFindings(name, line, chunk, detectors)
  {
    if |chunk| == 0 {
      return [];
    }
    var cut := if |chunk| > MAX_LINE then chunk[..MAX_LINE] else chunk;
    out := Matching(name, line, cut, detectors);
  }

  method Matching(name: string, line: nat, chunk: string, detectors: seq<Detector>) returns (out: seq<Finding>)
    ensures out == Hits(name, line, chunk, detectors)
  {
    out := [];
    assert detectors[0..] == detectors;
    for i := 0 to |detectors|
      invariant out + Hits(name, line, chunk, detectors[i..]) == Hits(name, line, chunk, detectors)
    {
      assert detectors[i..][1..] == detectors[i + 1..];
      if !detectors[i].hit(chunk) {
        continue;
      }
      ghost var rest := Hits(name, line, chunk, detectors[i + 1..]);
      var one := Finding(name, detectors[i].rule, line);
      assert out + ([one] + rest) == out + [one] + rest;
      out := out + [one];
    }
  }

  // ----- the whole buffer ----------------------------------------------------------------

  /** The findings in `data` when its first line has number `line`. */
  function ScanFrom(name: string, line: nat, data: string, detectors: seq<Detector>): seq<Finding>
    decreases |data|
  {
    if data == "" then []
    else
      var (head, rest, more) := Cut(data, '\n');
      if more then LineFindings(name, line, head, detectors) + ScanFrom(name, line + 1, rest, detectors)
      else LineFindings(name, line, data, detectors)
  }

  lemma CutLine(head: string, rest: string)
    requires '\n' !in head
    ensures Cut(head + "\n" + rest, '\n') == (head, rest, true)
    ensures Cut(head, '\n') == (head, "", false)
  {
    CutAt(head, '\n', rest);
  }

  /** One line of data, from `start` to the newline at i. */
  lemma NextLine(name: string, line: nat, data: string, start: nat, i: nat, detectors: seq<Detector>)
    requires start <= i < |data| && data[i] == '\n' && forall k :: start <= k < i ==> data[k] != '\n'
    ensures ScanFrom(name, line, data[start..], detectors)
            == LineFindings(name, line, data[start..i], detectors) + ScanFrom(name, line + 1, data[i + 1..], detectors)
  {
    hide LineFindings;
    CutLine(data[start..i], data[i + 1..]);
    assert data[start..] == data[start..i] + "\n" + data[i + 1..];
  }

  lemma LastLine(name: string, line: nat, data: string, detectors: seq<Detector>)
    requires '\n' !in data
    ensures ScanFrom(name, line, data, detectors) == LineFindings(name, line, data, detectors)
  {
    CutLine(data, "");
  }

  lemma MoreFound(out: seq<Finding>, found: seq<Finding>, rest: seq<Finding>)
    ensures out + (found + rest) == out + found + rest
  {
  }

  lemma NothingToScan(name: string, line: nat, detectors: seq<Detector>)
    ensures ScanFrom(name, line, "", detectors) == []
  {
  }

  method Scan(name: string, data: string, detectors: seq<Detector>) returns (out: seq<Finding>)
    ensures out == ScanFrom(name, 1, data, detectors)
  {
    hide LineFindings, ScanFrom, Cut;
    if |data| == 0 {
      NothingToScan(name, 1, detectors);
      return [];
    }
    out := [];
    var line, start := 1, 0;
    ghost var all := ScanFrom(name, 1, data, detectors);
    assert data[0..] == data && [] + all == all;
    for i := 0 to |data|
      invariant 0 <= start <= i && line >= 1
      invariant forall k :: start <= k < i ==> data[k] != '\n'
      invariant out + ScanFrom(name, line, data[start..], detectors) == all
    {
      if data[i] != '\n' {
        continue;
      }
      var found := ScanLine(name, line, data[start..i], detectors);
      NextLine(name, line, data, start, i, detectors);
      MoreFound(out, found, ScanFrom(name, line + 1, data[i + 1..], detectors));
      out := out + found;
      line, start := line + 1, i + 1;
    }
    var rest := ScanRest(name, line, data, start, detectors);
    out := out + rest;
  }

  /** What follows the last newline. */
  method ScanRest(name: string, line: nat, data: string, start: nat, detectors: seq<Detector>) returns (out: seq<Finding>)
    requires start <= |data| && forall k :: start <= k < |data| ==> data[k] != '\n'
    ensures out == ScanFrom(name, line, data[start..], detectors)
  {
    hide LineFindings, ScanFrom;
    LastLine(name, line, data[start..], detectors);
    if start < |data| {
      out := ScanLine(name, line, data[start..], detectors);
    } else {
      NothingInEmpty(name, line, detectors);
      assert data[start..] == "";
      out := [];
    }
  }

  // ----- a stream of reads -----------------------------------------------------------------

  /** All complete lines of buf: their findings, the next line number, what is left. */
  function Drain(name: string, line: nat, buf: string, detectors: seq<Detector>): (seq<Finding>, nat, string)
    decreases |buf|
  {
    var (head, rest, more) := Cut(buf, '\n');
    if more then
      var (found, line', left) := Drain(name, line + 1, rest, detectors);
      (LineFindings(name, line, head, detectors) + found, line', left)
    else ([], line, buf)
  }

  /** The findings of the reads still to come, with `buf` unread so far. */
  function ReadFrom(name: string, line: nat, buf: string, pieces: seq<string>, detectors: seq<Detector>): seq<Finding>
    decreases |pieces|
  {
    if pieces == [] then LineFindings(name, line, buf, detectors)
    else if pieces[0] == "" then ReadFrom(name, line, buf, pieces[1..], detectors)
    else
      var (found, line', left) := Drain(name, line, buf + pieces[0], detectors);
      if |left| > MAX_LINE then
        found + LineFindings(name, line', left[..MAX_LINE], detectors)
        + ReadFrom(name, line', left[MAX_LINE..], pieces[1..], detectors)
      else found + ReadFrom(name, line', left, pieces[1..], detectors)
  }

  method DrainLines(name: string, line: nat, buf: string, detectors: seq<Detector>) returns (out: seq<Finding>, next: nat, left: string)
    ensures (out, next, left) == Drain(name, line, buf, detectors)
  {
    hide LineFindings;
    out, next, left := [], line, buf;
    ghost var want := Drain(name, line, buf, detectors);
    assert [] + want.0 == want.0;
    while true
      invariant var rest := Drain(name, next, left, detectors); want == (out + rest.0, rest.1, rest.2)
      decreases |left|
    {
      var (head, rest, more) := Cut(left, '\n');
      if !more {
        assert out + [] == out;
        return;
      }
      var found := ScanLine(name, next, head, detectors);
      ghost var tail := Drain(name, next + 1, rest, detectors);
      assert out + (found + tail.0) == out + found + tail.0;
      out := out + found;
      next := next + 1;
      left := rest;
    }
  }

  /** scanReader: the reads, the last of which comes with the end of file or an error. */
  method ScanReader(name: string, pieces: seq<string>, failed: bool, detectors: seq<Detector>) returns (r: Option<seq<Finding>>)
    ensures r == if failed then None else Some(ReadFrom(name, 1, "", pieces, detectors))
  {
    hide LineFindings, Drain;
    var out: seq<Finding> := [];
    var line, buf := 1, "";
    ghost var want := ReadFrom(name, 1, "", pieces, detectors);
    assert [] + want == want;
    for i := 0 to |pieces|
      invariant want == out + ReadFrom(name, line, buf, pieces[i..], detectors)
    {
      var tmp := pieces[i];
      assert pieces[i..][1..] == pieces[i + 1..];
      if |tmp| > 0 {
        buf := buf + tmp;
        var found, next, left := DrainLines(name, line, buf, detectors);
        if |left| > MAX_LINE {
          var forced := ScanLine(name, next, left[..MAX_LINE], detectors);
          Reassociate(out, found, forced, ReadFrom(name, next, left[MAX_LINE..], pieces[i + 1..], detectors));
          out := out + found;
          out := out + forced;
          buf := left[MAX_LINE..];
        } else {
          Reassociate(out, found, [], ReadFrom(name, next, left, pieces[i + 1..], detectors));
          out := out + found;
          buf := left;
        }
        line := next;
      }
    }
    if failed {
      return None;
    }
    if |buf| > 0 {
      var found := ScanLine(name, line, buf, detectors);
      out := out + found;
    } else {
      NothingInEmpty(name, line, detectors);
      assert out + [] == out;
    }
    return Some(out);
  }

  lemma Reassociate(a: seq<Finding>, b: seq<Finding>, c: seq<Finding>, d: seq<Finding>)
    ensures a + (b + c + d) == a + b + c + d
    ensures a + (b + d) == a + b + d
  {
  }

  lemma NothingInEmpty(name: string, line: nat, detectors: seq<Detector>)
    ensures LineFindings(name, line, "", detectors) == []
  {
  }

  // ----- chunk independence ------------------------------------------------------------------

  function Concat(pieces: seq<string>): string {
    if pieces == [] then "" else pieces[0] + Concat(pieces[1..])
  }

  /** No line of s is longer than the scanner's limit. */
  predicate LinesShort(s: string)
    decreases |s|
  {
    var (head, rest, more) := Cut(s, '\n');
    |head| <= MAX_LINE && (more ==> LinesShort(rest))
  }

  lemma CutMore(buf: string, more: string)
    ensures Cut(buf, '\n').2 ==> Cut(buf + more, '\n') == (Cut(buf, '\n').0, Cut(buf, '\n').1 + more, true)
  {
    var (head, rest, found) := Cut(buf, '\n');
    if found {
      Extended(buf, head, rest, more);
    }
  }

  lemma Extended(buf: string, head: string, rest: string, more: string)
    requires '\n' !in head && buf == head + "\n" + rest
    ensures Cut(buf + more, '\n') == (head, rest + more, true)
  {
    hide Cut;
    CutLine(head, rest + more);
    assert buf + more == head + "\n" + (rest + more);
  }

  /** Draining takes complete lines off the front of whatever follows. */
  lemma {:induction false} DrainScans(name: string, line: nat, buf: string, more: string, detectors: seq<Detector>)
    ensures var (found, line', left) := Drain(name, line, buf, detectors);
            && ScanFrom(name, line, buf + more, detectors) == found + ScanFrom(name, line', left + more, detectors)
            && '\n' !in left
            && (LinesShort(buf + more) ==> LinesShort(left + more))
    decreases |buf|
  {
    hide LineFindings;
    var (head, rest, found) := Cut(buf, '\n');
    if found {
      CutMore(buf, more);
      DrainScans(name, line + 1, rest, more, detectors);
      var tail := Drain(name, line + 1, rest, detectors);
      var first := LineFindings(name, line, head, detectors);
      assert first + (tail.0 + ScanFrom(name, tail.1, tail.2 + more, detectors)) == first + tail.0 + ScanFrom(name, tail.1, tail.2 + more, detectors);
    }
  }

  lemma ShortHead(left: string, more: string)
    requires '\n' !in left && LinesShort(left + more)
    ensures |left| <= MAX_LINE
  {
    HeadReaches(left, more);
  }

  lemma HeadReaches(left: string, more: string)
    requires '\n' !in left
    ensures |left| <= |Cut(left + more, '\n').0|
  {
    hide Cut;
    var (head, rest, found) := Cut(more, '\n');
    if found {
      assert left + more == (left + head) + "\n" + rest;
      CutLine(left + head, rest);
    } else {
      CutLine(left + more, "");
    }
  }

  lemma {:induction false} ReadAgrees(name: string, line: nat, buf: string, pieces: seq<string>, detectors: seq<Detector>)
    requires '\n' !in buf && LinesShort(buf + Concat(pieces))
    ensures ReadFrom(name, line, buf, pieces, detectors) == ScanFrom(name, line, buf + Concat(pieces), detectors)
    decreases |pieces|
  {
    hide LineFindings, Drain, LinesShort;
    if pieces == [] {
      assert buf + "" == buf;
      CutLine(buf, "");
      NothingInEmpty(name, line, detectors);
    } else if pieces[0] == "" {
      assert "" + Concat(pieces[1..]) == Concat(pieces[1..]);
      ReadAgrees(name, line, buf, pieces[1..], detectors);
    } else {
      var more := Concat(pieces[1..]);
      assert buf + (pieces[0] + more) == buf + pieces[0] + more;
      DrainScans(name, line, buf + pieces[0], more, detectors);
      var (found, line', left) := Drain(name, line, buf + pieces[0], detectors);
      ShortHead(left, more);
      ReadAgrees(name, line', left, pieces[1..], detectors);
    }
  }

  /** However the input is split into reads, the stream finds exactly what the buffer
      scan finds, as long as no line exceeds the limit. */
  lemma ChunksDoNotMatter(name: string, pieces: seq<string>, detectors: seq<Detector>)
    requires LinesShort(Concat(pieces))
    ensures ReadFrom(name, 1, "", pieces, detectors) == ScanFrom(name, 1, Concat(pieces), detectors)
  {
    assert "" + Concat(pieces) == Concat(pieces);
    ReadAgrees(name, 1, "", pieces, detectors);
  }

  // ----- long lines --------------------------------------------------------------------------

  /** What the buffer scan still owes: the rest of a line whose first part was already
      scanned owes nothing. */
  function Owed(name: string, line: nat, begun: bool, data: string, detectors: seq<Detector>): seq<Finding> {
    if !begun then ScanFrom(name, line, data, detectors)
    else
      var (head, rest, more) := Cut(data, '\n');
      if more then ScanFrom(name, line + 1, rest, detectors) else []
  }

  lemma {:induction false} DrainOwes(name: string, line: nat, begun: bool, buf: string, more: string, detectors: seq<Detector>)
    ensures var (found, line', left) := Drain(name, line, buf, detectors);
            && (Cut(buf, '\n').2 ==>
                  exists mine :: Subsequence(mine, found)
                    && Owed(name, line, begun, buf + more, detectors) == mine + Owed(name, line', false, left + more, detectors))
            && (!Cut(buf, '\n').2 ==> found == [] && line' == line && left == buf)
            && '\n' !in left
  {
    hide LineFindings, Subsequence, ScanFrom;
    var (head, rest, found) := Cut(buf, '\n');
    if found {
      CutMore(buf, more);
      DrainScans(name, line + 1, rest, more, detectors);
      DrainScans(name, line, buf, more, detectors);
      var all, tail := Drain(name, line, buf, detectors), Drain(name, line + 1, rest, detectors);
      if begun {
        var first := LineFindings(name, line, head, detectors);
        EmptySubsequence(first);
        SubsequenceReflexive(tail.0);
        SubsequenceConcat([], first, tail.0, tail.0);
        assert [] + tail.0 == tail.0;
        assert Subsequence(tail.0, all.0);
      } else {
        SubsequenceReflexive(all.0);
      }
    }
  }

  /** The first MAX_LINE bytes of a line decide its findings in the buffer scan. */
  lemma LongLineOwes(name: string, line: nat, left: string, more: string, detectors: seq<Detector>)
    requires '\n' !in left && |left| > MAX_LINE
    ensures ScanFrom(name, line, left + more, detectors)
            == LineFindings(name, line, left[..MAX_LINE], detectors) + Owed(name, line, true, left[MAX_LINE..] + more, detectors)
  {
    hide Hits;
    var tail := left[MAX_LINE..];
    var (head, rest, found) := Cut(tail + more, '\n');
    var prefix := left[..MAX_LINE];
    assert left + more == prefix + (tail + more);
    if found {
      assert left + more == (prefix + head) + "\n" + rest;
      CutLine(prefix + head, rest);
      assert Truncate(prefix + head) == prefix == Truncate(prefix);
    } else {
      CutLine(left + more, "");
      assert Truncate(left + more) == prefix == Truncate(prefix);
    }
  }

  lemma {:induction false} ReadCovers(name: string, line: nat, begun: bool, buf: string, pieces: seq<string>, detectors: seq<Detector>)
    requires '\n' !in buf
    ensures Subsequence(Owed(name, line, begun, buf + Concat(pieces), detectors), ReadFrom(name, line, buf, pieces, detectors))
    decreases |pieces|, 0
  {
    hide LineFindings, Drain, Subsequence, ScanFrom;
    if pieces == [] {
      LastCovers(name, line, begun, buf, detectors);
    } else if pieces[0] == "" {
      assert "" + Concat(pieces[1..]) == Concat(pieces[1..]);
      ReadCovers(name, line, begun, buf, pieces[1..], detectors);
    } else {
      var more := Concat(pieces[1..]);
      assert buf + (pieces[0] + more) == buf + pieces[0] + more;
      StepCovers(name, line, begun, buf + pieces[0], pieces[1..], detectors);
    }
  }

  lemma LastCovers(name: string, line: nat, begun: bool, buf: string, detectors: seq<Detector>)
    requires '\n' !in buf
    ensures Subsequence(Owed(name, line, begun, buf + Concat([]), detectors), LineFindings(name, line, buf, detectors))
  {
    hide LineFindings, Subsequence;
    assert buf + Concat([]) == buf;
    CutLine(buf, "");
    NothingInEmpty(name, line, detectors);
    EmptySubsequence(LineFindings(name, line, buf, detectors));
    SubsequenceReflexive(LineFindings(name, line, buf, detectors));
  }

  /** One nonempty read: drain, and force a piece out when the line is too long. */
  lemma {:induction false} StepCovers(name: string, line: nat, begun: bool, data: string, pieces: seq<string>, detectors: seq<Detector>)
    ensures var (found, line', left) := Drain(name, line, data, detectors);
            Subsequence(
              Owed(name, line, begun, data + Concat(pieces), detectors),
              if |left| > MAX_LINE then
                found + LineFindings(name, line', left[..MAX_LINE], detectors) + ReadFrom(name, line', left[MAX_LINE..], pieces, detectors)
              else found + ReadFrom(name, line', left, pieces, detectors))
    decreases |pieces|, 2
  {
    hide LineFindings, Subsequence, ScanFrom, Owed;
    var (found, line', left) := Drain(name, line, data, detectors);
    var more := Concat(pieces);
    DrainOwes(name, line, begun, data, more, detectors);
    var begun' := begun && !Cut(data, '\n').2;
    var mine: seq<Finding> := [];
    if Cut(data, '\n').2 {
      mine :| Subsequence(mine, found) && Owed(name, line, begun, data + more, detectors) == mine + Owed(name, line', false, left + more, detectors);
    } else {
      EmptySubsequence(found);
      assert [] + Owed(name, line', begun', left + more, detectors) == Owed(name, line', begun', left + more, detectors);
    }
    if |left| > MAX_LINE {
      ForcedCovers(name, line', begun', left, pieces, detectors);
      var forced := LineFindings(name, line', left[..MAX_LINE], detectors);
      SubsequenceConcat(mine, found, Owed(name, line', begun', left + more, detectors), forced + ReadFrom(name, line', left[MAX_LINE..], pieces, detectors));
      assert found + (forced + ReadFrom(name, line', left[MAX_LINE..], pieces, detectors)) == found + forced + ReadFrom(name, line', left[MAX_LINE..], pieces, detectors);
    } else {
      ReadCovers(name, line', begun', left, pieces, detectors);
      SubsequenceConcat(mine, found, Owed(name, line', begun', left + more, detectors), ReadFrom(name, line', left, pieces, detectors));
    }
  }

  lemma {:induction false} ForcedCovers(name: string, line: nat, begun: bool, left: string, pieces: seq<string>, detectors: seq<Detector>)
    requires '\n' !in left && |left| > MAX_LINE
    ensures Subsequence(
              Owed(name, line, begun, left + Concat(pieces), detectors),
              LineFindings(name, line, left[..MAX_LINE], detectors) + ReadFrom(name, line, left[MAX_LINE..], pieces, detectors))
    decreases |pieces|, 1
  {
    hide LineFindings, Subsequence, ReadFrom;
    var forced, tail, more := LineFindings(name, line, left[..MAX_LINE], detectors), left[MAX_LINE..], Concat(pieces);
    ReadCovers(name, line, true, tail, pieces, detectors);
    if begun {
      SkipForced(name, line, left, more, detectors);
      EmptySubsequence(forced);
      SubsequenceConcat([], forced, Owed(name, line, true, tail + more, detectors), ReadFrom(name, line, tail, pieces, detectors));
      assert [] + Owed(name, line, true, tail + more, detectors) == Owed(name, line, true, tail + more, detectors);
    } else {
      LongLineOwes(name, line, left, more, detectors);
      SubsequenceReflexive(forced);
      SubsequenceConcat(forced, forced, Owed(name, line, true, tail + more, detectors), ReadFrom(name, line, tail, pieces, detectors));
    }
  }

  lemma SkipForced(name: string, line: nat, left: string, more: string, detectors: seq<Detector>)
    requires '\n' !in left && |left| > MAX_LINE
    ensures Owed(name, line, true, left + more, detectors) == Owed(name, line, true, left[MAX_LINE..] + more, detectors)
  {
    hide ScanFrom;
    var prefix, tail := left[..MAX_LINE], left[MAX_LINE..];
    var (head, rest, found) := Cut(tail + more, '\n');
    assert left + more == prefix + (tail + more);
    if found {
      assert left + more == (prefix + head) + "\n" + rest;
      CutLine(prefix + head, rest);
    } else {
      CutLine(left + more, "");
    }
  }

  /** With long lines the stream may find more, never less: every finding of the
      buffer scan is reported, in order, however the reads fall. */
  lemma StreamMissesNothing(name: string, pieces: seq<string>, detectors: seq<Detector>)
    ensures Subsequence(ScanFrom(name, 1, Concat(pieces), detectors), ReadFrom(name, 1, "", pieces, detectors))
  {
    hide Subsequence;
    assert "" + Concat(pieces) == Concat(pieces);
    ReadCovers(name, 1, false, "", pieces, detectors);
  }

  // ----- and it finds more on every long line ----------------------------------------------------

  const ALWAYS: seq<Detector> := [Detector("always", (line: string) => true)]

  lemma AlwaysHits(name: string, line: nat, chunk: string)
    ensures |LineFindings(name, line, chunk, ALWAYS)| == if chunk == "" then 0 else 1
  {
    var cut := Truncate(chunk);
    assert ALWAYS[1..] == [] && ALWAYS[0].hit(cut);
    assert Hits(name, line, cut, ALWAYS) == [Finding(name, "always", line)] + Hits(name, line, cut, []);
    assert Hits(name, line, cut, []) == [];
  }

  /** The first line over the limit, cut one byte past it: what comes before ends a line,
      and no line up to the cut is over the limit. */
  lemma {:induction false} LongLine(s: string) returns (pre: string, left: string, rest: string)
    requires !LinesShort(s)
    ensures s == pre + left + rest && |left| == MAX_LINE + 1 && '\n' !in left
    ensures pre == "" || pre[|pre| - 1] == '\n'
    ensures LinesShort(pre + left[..MAX_LINE])
    decreases |s|
  {
    var (head, tail, more) := Cut(s, '\n');
    if |head| > MAX_LINE {
      hide LinesShort;
      pre, left, rest := LongHead(s, head);
    } else {
      assert !LinesShort(tail) && s == head + "\n" + tail;
      hide Cut, LinesShort;
      pre, left, rest := LongLine(tail);
      var start := left[..MAX_LINE];
      OneMoreShortLine(head, pre + start);
      HeadInFront(head, pre, left, rest);
      HeadInFront(head, pre, start, "");
      pre := head + "\n" + pre;
    }
  }

  lemma HeadInFront(head: string, pre: string, left: string, rest: string)
    ensures head + "\n" + (pre + left + rest) == head + "\n" + pre + left + rest
    ensures head + "\n" + (pre + left) == head + "\n" + pre + left
    ensures (head + "\n" + pre)[|head + "\n" + pre| - 1] == if pre == "" then '\n' else pre[|pre| - 1]
  {
  }

  lemma LongHead(s: string, head: string) returns (pre: string, left: string, rest: string)
    requires head <= s && '\n' !in head && |head| > MAX_LINE
    ensures pre == "" && s == pre + left + rest && |left| == MAX_LINE + 1 && '\n' !in left
    ensures LinesShort(pre + left[..MAX_LINE])
  {
    pre, left, rest := "", head[..MAX_LINE + 1], s[MAX_LINE + 1..];
    assert left == s[..MAX_LINE + 1];
    var start := left[..MAX_LINE];
    assert '\n' !in start;
    assert pre + start == start;
    CutLine(start, "");
  }

  lemma OneMoreShortLine(head: string, tail: string)
    requires '\n' !in head && |head| <= MAX_LINE && LinesShort(tail)
    ensures LinesShort(head + "\n" + tail)
  {
    CutLine(head, tail);
  }

  /** Whole lines are drained, and the start of the next is left. */
  lemma {:induction false} DrainLeaves(name: string, line: nat, pre: string, left: string, detectors: seq<Detector>)
    requires '\n' !in left && (pre == "" || pre[|pre| - 1] == '\n')
    ensures Drain(name, line, pre + left, detectors).2 == left
    decreases |pre|
  {
    if pre == "" {
      assert pre + left == left;
      CutLine(left, "");
    } else {
      hide LineFindings;
      var (head, tail, more) := Cut(pre, '\n');
      assert more by { assert pre[|pre| - 1] in pre; }
      CutMore(pre, left);
      assert tail != "" ==> tail[|tail| - 1] == pre[|pre| - 1];
      DrainLeaves(name, line + 1, tail, left, detectors);
    }
  }

  /** One line more than what is owed of a line already begun. */
  lemma OneLineMore(name: string, line: nat, tail: string, rest: string)
    requires tail != "" && '\n' !in tail
    ensures |ScanFrom(name, line, tail + rest, ALWAYS)| == |Owed(name, line, true, tail + rest, ALWAYS)| + 1
  {
    var data := tail + rest;
    var (head, after, more) := Cut(data, '\n');
    HeadReaches(tail, rest);
    AlwaysHits(name, line, head);
    AlwaysHits(name, line, data);
    hide LineFindings;
  }

  lemma SubsequenceLength(a: seq<Finding>, b: seq<Finding>)
    requires Subsequence(a, b)
    ensures |a| <= |b|
  {
    var f :| Embeds(a, b, f);
    assert Climbs(f);
    if |a| > 0 {
      AtMost(f, |b|, 0);
    }
  }

  /** Draining what is left together with what follows goes on where draining stopped. */
  lemma {:induction false} DrainTwice(name: string, line: nat, buf: string, more: string, detectors: seq<Detector>)
    ensures var (found, line', left) := Drain(name, line, buf, detectors);
            var (found', line'', left') := Drain(name, line', left + more, detectors);
            Drain(name, line, buf + more, detectors) == (found + found', line'', left')
    decreases |buf|
  {
    hide LineFindings;
    var (head, rest, cut) := Cut(buf, '\n');
    if cut {
      CutMore(buf, more);
      DrainTwice(name, line + 1, rest, more, detectors);
      var (found, line', left) := Drain(name, line + 1, rest, detectors);
      var first, found' := LineFindings(name, line, head, detectors), Drain(name, line', left + more, detectors).0;
      assert first + (found + found') == first + found + found';
    } else {
      assert [] + Drain(name, line, buf + more, detectors).0 == Drain(name, line, buf + more, detectors).0;
    }
  }

  /** As long as no line is over the limit, reading is draining, however the reads fall. */
  lemma {:induction false} ReadsDrain(name: string, line: nat, buf: string, pieces: seq<string>, later: seq<string>, detectors: seq<Detector>)
    requires '\n' !in buf && LinesShort(buf + Concat(pieces))
    ensures var (found, line', left) := Drain(name, line, buf + Concat(pieces), detectors);
            ReadFrom(name, line, buf, pieces + later, detectors) == found + ReadFrom(name, line', left, later, detectors)
    decreases |pieces|
  {
    hide LineFindings, LinesShort, ScanFrom, Drain, ReadFrom, Concat;
    if |pieces| == 0 {
      NoReads(name, line, buf, detectors);
      assert pieces + later == later;
      assert [] + ReadFrom(name, line, buf, later, detectors) == ReadFrom(name, line, buf, later, detectors);
    } else {
      var first, rest := pieces[0], pieces[1..];
      var more := Concat(rest);
      assert pieces + later == [first] + (rest + later);
      FirstPiece(buf, pieces);
      if first == "" {
        BlankRead(name, line, buf, rest + later, detectors);
        assert buf + "" == buf;
        ReadsDrain(name, line, buf, rest, later, detectors);
      } else {
        DrainScans(name, line, buf + first, more, detectors);
        DrainTwice(name, line, buf + first, more, detectors);
        var (found, line', left) := Drain(name, line, buf + first, detectors);
        ShortHead(left, more);
        ShortRead(name, line, buf, first, rest + later, detectors);
        ReadsDrain(name, line', left, rest, later, detectors);
        var (found', line'', left') := Drain(name, line', left + more, detectors);
        assert found + (found' + ReadFrom(name, line'', left', later, detectors)) == found + found' + ReadFrom(name, line'', left', later, detectors);
      }
    }
  }

  lemma FirstPiece(buf: string, pieces: seq<string>)
    requires pieces != []
    ensures buf + Concat(pieces) == buf + pieces[0] + Concat(pieces[1..])
  {
  }

  lemma NoReads(name: string, line: nat, buf: string, detectors: seq<Detector>)
    requires '\n' !in buf
    ensures Drain(name, line, buf + Concat([]), detectors) == ([], line, buf)
  {
    assert buf + "" == buf;
    CutLine(buf, "");
  }

  lemma BlankRead(name: string, line: nat, buf: string, later: seq<string>, detectors: seq<Detector>)
    ensures ReadFrom(name, line, buf, [""] + later, detectors) == ReadFrom(name, line, buf, later, detectors)
  {
    hide Drain, LineFindings;
    assert ([""] + later)[1..] == later;
  }

  /** A read after which nothing is over the limit. */
  lemma ShortRead(name: string, line: nat, buf: string, read: string, later: seq<string>, detectors: seq<Detector>)
    requires read != "" && |Drain(name, line, buf + read, detectors).2| <= MAX_LINE
    ensures var (found, line', left) := Drain(name, line, buf + read, detectors);
            ReadFrom(name, line, buf, [read] + later, detectors) == found + ReadFrom(name, line', left, later, detectors)
  {
    hide Drain, LineFindings;
    assert ([read] + later)[1..] == later;
  }

  /** One byte at a time. */
  function Singles(s: string): (pieces: seq<string>)
    ensures forall p <- pieces :: |p| == 1
  {
    if s == "" then [] else [[s[0]]] + Singles(s[1..])
  }

  lemma {:induction false} ConcatSingles(s: string)
    ensures Concat(Singles(s)) == s
  {
    if s != "" {
      ConcatSingles(s[1..]);
      assert [s[0]] + s[1..] == s;
    }
  }

  lemma {:induction false} ConcatPieces(a: seq<string>, b: seq<string>)
    ensures Concat(a + b) == Concat(a) + Concat(b)
  {
    if a == [] {
      assert a + b == b;
    } else {
      assert (a + b)[1..] == a[1..] + b;
      ConcatPieces(a[1..], b);
    }
  }

  /** The read that takes the buffer one byte past the limit forces the start of the line
      out. */
  lemma ReadForces(name: string, line: nat, left: string, later: seq<string>)
    requires |left| == MAX_LINE + 1 && '\n' !in left
    ensures ReadFrom(name, line, left[..MAX_LINE], [[left[MAX_LINE]]] + later, ALWAYS)
            == LineFindings(name, line, left[..MAX_LINE], ALWAYS) + ReadFrom(name, line, left[MAX_LINE..], later, ALWAYS)
  {
    hide LineFindings;
    var buf, read := left[..MAX_LINE], [left[MAX_LINE]];
    var pieces := [read] + later;
    assert buf + read == left && pieces[0] == read && pieces[1..] == later;
    CutLine(left, "");
    var forced := LineFindings(name, line, buf, ALWAYS);
    assert [] + forced + ReadFrom(name, line, left[MAX_LINE..], later, ALWAYS) == forced + ReadFrom(name, line, left[MAX_LINE..], later, ALWAYS);
  }

  /** The rest of the forced line is reported once more. */
  lemma RestFoundAgain(name: string, line: nat, left: string, rest: string, later: seq<string>)
    requires |left| == MAX_LINE + 1 && '\n' !in left && Concat(later) == rest
    ensures |ReadFrom(name, line, left[..MAX_LINE], [[left[MAX_LINE]]] + later, ALWAYS)| > |ScanFrom(name, line, left + rest, ALWAYS)|
  {
    hide LineFindings, ScanFrom, Owed, Subsequence, ReadFrom;
    ReadForces(name, line, left, later);
    LongLineOwes(name, line, left, rest, ALWAYS);
    var tail := left[MAX_LINE..];
    OneLineMore(name, line, tail, rest);
    ReadCovers(name, line, false, tail, later, ALWAYS);
    NotBegun(name, line, tail + rest);
    SubsequenceLength(ScanFrom(name, line, tail + rest, ALWAYS), ReadFrom(name, line, tail, later, ALWAYS));
  }

  /** Reads that end one byte past the limit inside a long line make the scanner report
      that line twice. */
  lemma LongLineFoundTwice(name: string, pre: string, left: string, rest: string)
    requires |left| == MAX_LINE + 1 && '\n' !in left && (pre == "" || pre[|pre| - 1] == '\n')
    requires LinesShort(pre + left[..MAX_LINE])
    ensures |ReadFrom(name, 1, "", Singles(pre + left[..MAX_LINE]) + ([[left[MAX_LINE]]] + Singles(rest)), ALWAYS)|
            > |ScanFrom(name, 1, pre + left + rest, ALWAYS)|
  {
    hide LineFindings, Drain, ScanFrom, ReadFrom, LinesShort, Singles;
    var start, later := left[..MAX_LINE], [[left[MAX_LINE]]] + Singles(rest);
    var before := pre + start;
    ConcatSingles(before);
    ConcatSingles(rest);
    assert "" + before == before;
    ReadsDrain(name, 1, "", Singles(before), later, ALWAYS);
    DrainLeaves(name, 1, pre, start, ALWAYS);
    var more := [left[MAX_LINE]] + rest;
    DrainScans(name, 1, before, more, ALWAYS);
    assert left == start + [left[MAX_LINE]];
    assert before + more == pre + left + rest && start + more == left + rest;
    RestFoundAgain(name, Drain(name, 1, before, ALWAYS).1, left, rest, Singles(rest));
  }

  lemma NotBegun(name: string, line: nat, data: string)
    ensures Owed(name, line, false, data, ALWAYS) == ScanFrom(name, line, data, ALWAYS)
  {
  }

  /** Reads the scanner's buffer can hold. */
  predicate Readable(pieces: seq<string>) { forall p <- pieces :: |p| <= READ }

  /** However s comes in reads and whatever the detectors are, the stream finds what the
      buffer scan finds. */
  ghost predicate ChunksNeverMatter(s: string) {
    forall name: string, pieces: seq<string>, detectors: seq<Detector> ::
      Readable(pieces) && Concat(pieces) == s ==> ReadFrom(name, 1, "", pieces, detectors) == ScanFrom(name, 1, s, detectors)
  }

  /** That is so exactly when no line of s exceeds the limit. */
  lemma ChunksNeverMatterIff(s: string)
    ensures ChunksNeverMatter(s) <==> LinesShort(s)
  {
    hide LinesShort, ScanFrom, ReadFrom;
    if LinesShort(s) {
      forall name: string, pieces: seq<string>, detectors: seq<Detector> | Readable(pieces) && Concat(pieces) == s
        ensures ReadFrom(name, 1, "", pieces, detectors) == ScanFrom(name, 1, s, detectors)
      {
        ChunksDoNotMatter(name, pieces, detectors);
      }
    } else {
      var pre, left, rest := LongLine(s);
      LongLineFoundTwice("", pre, left, rest);
      var _ := LongLineReads(pre, left, rest);
    }
  }

  /** Those reads, one byte each, and what they hold. */
  lemma LongLineReads(pre: string, left: string, rest: string) returns (pieces: seq<string>)
    requires |left| == MAX_LINE + 1
    ensures pieces == Singles(pre + left[..MAX_LINE]) + ([[left[MAX_LINE]]] + Singles(rest))
    ensures Readable(pieces) && Concat(pieces) == pre + left + rest
  {
    var before, byte := pre + left[..MAX_LINE], [left[MAX_LINE]];
    hide Singles, Concat;
    pieces := Singles(before) + ([byte] + Singles(rest));
    ConcatSingles(before);
    ConcatSingles(rest);
    ConcatPieces(Singles(before), [byte] + Singles(rest));
    ConcatOneMore(byte, Singles(rest));
    Glue(pre, left[..MAX_LINE], byte, rest);
    assert left == left[..MAX_LINE] + byte;
  }

  lemma Glue(a: string, b: string, c: string, d: string)
    ensures a + b + (c + d) == a + (b + c) + d
  {
  }

  lemma ConcatOneMore(first: string, rest: seq<string>)
    ensures Concat([first] + rest) == first + Concat(rest)
  {
    assert ([first] + rest)[1..] == rest;
  }

  // ----- what a finding is --------------------------------------------------------------------------

  /** The line as the detectors see it: at most one megabyte of it. */
  predicate SeenAs(line: string, seen: string) {
    if |line| <= 1024 * 1024 then seen == line else |seen| == 1024 * 1024 && seen <= line
  }

  /** Some detector with this rule hits the line. */
  ghost predicate HitBy(line: string, rule: string, detectors: seq<Detector>) {
    line != "" && exists d, seen :: d in detectors && d.rule == rule && SeenAs(line, seen) && d.hit(seen)
  }

  lemma {:induction false} HitsMean(name: string, line: nat, chunk: string, detectors: seq<Detector>, f: Finding)
    ensures f in Hits(name, line, chunk, detectors) <==>
            f.path == name && f.line == line && exists d <- detectors :: d.rule == f.rule && d.hit(chunk)
  {
    if detectors != [] {
      var rest := Hits(name, line, chunk, detectors[1..]);
      HitsMean(name, line, chunk, detectors[1..], f);
      assert forall d :: d in detectors <==> d == detectors[0] || d in detectors[1..];
      if detectors[0].hit(chunk) {
        assert f in Hits(name, line, chunk, detectors) <==> f == Finding(name, detectors[0].rule, line) || f in rest;
      }
    }
  }

  lemma LineMeans(name: string, line: nat, chunk: string, detectors: seq<Detector>, f: Finding)
    ensures f in LineFindings(name, line, chunk, detectors) <==> f.path == name && f.line == line && HitBy(chunk, f.rule, detectors)
  {
    hide Hits;
    HitsMean(name, line, Truncate(chunk), detectors, f);
    assert SeenAs(chunk, Truncate(chunk));
    if HitBy(chunk, f.rule, detectors) {
      var d, seen :| d in detectors && d.rule == f.rule && SeenAs(chunk, seen) && d.hit(seen);
      assert seen == Truncate(chunk);
    }
  }

  lemma {:induction false} FoundFrom(name: string, line: nat, data: string, detectors: seq<Detector>, f: Finding)
    ensures f in ScanFrom(name, line, data, detectors) <==>
            f.path == name && exists k :: 0 <= k < |Split(data)| && f.line == line + k && HitBy(Split(data)[k], f.rule, detectors)
    decreases |data|
  {
    hide LineFindings, HitBy, Cut, Split;
    var lines := Split(data);
    if data == "" {
      SplitCons("", "");
      NothingToScan(name, line, detectors);
      NoHitInNothing(f.rule, detectors);
    } else {
      var (head, rest, more) := Cut(data, '\n');
      if more {
        SplitCons(head, rest);
        assert head + ['\n'] + rest == head + "\n" + rest;
        LineMeans(name, line, head, detectors, f);
        FoundFrom(name, line + 1, rest, detectors, f);
        assert lines[1..] == Split(rest) && lines[0] == head;
        assert forall k :: 0 < k < |lines| ==> lines[k] == Split(rest)[k - 1];
        assert forall k :: 0 <= k < |Split(rest)| ==> lines[k + 1] == Split(rest)[k];
      } else {
        SplitCons(data, "");
        LineMeans(name, line, data, detectors, f);
        assert |lines| == 1 && lines[0] == data && line + 0 == line;
      }
    }
  }

  lemma NoHitInNothing(rule: string, detectors: seq<Detector>)
    ensures !HitBy("", rule, detectors)
  {
  }

  /** A scan reports a rule at a line exactly when a detector of that rule hits that line of
      the file, under the name of the file. */
  lemma FoundIff(name: string, data: string, detectors: seq<Detector>, f: Finding)
    ensures f in ScanFrom(name, 1, data, detectors) <==>
            f.path == name && 1 <= f.line <= |Split(data)| && HitBy(Split(data)[f.line - 1], f.rule, detectors)
  {
    hide ScanFrom, HitBy, Split;
    FoundFrom(name, 1, data, detectors, f);
  }
}
