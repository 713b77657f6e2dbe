/** Patch text: parsing unified diffs and raw hunks, splitting and joining file
    contents, and turning a row payload into bytes (internal/plan/payload.go). */
module Payload {
  import opened Text
  import opened Patch

  // ----- file contents as lines ---------------------------------------------

  /** strings.TrimSuffix(s, "\n"). */
  function Chomp(s: string): string {
    if EndsWithNL(s) then s[..|s| - 1] else s
  }

  lemma ChompRestores(s: string)
    ensures s == if EndsWithNL(s) then Chomp(s) + "\n" else Chomp(s)
  {
  }

  function SplitLines(s: string): seq<string> {
    if s == "" then [] else Split(Chomp(NormalizeNL(s)))
  }

  function JoinLines(lines: seq<string>, original: string): string {
    if lines == [] then ""
    else if original == "" || EndsWithNL(original) then Join(lines) + "\n"
    else Join(lines)
  }

  /** Splitting and joining back loses nothing but carriage returns before newlines. */
  lemma JoinSplitLines(s: string)
    ensures JoinLines(SplitLines(s), s) == NormalizeNL(s)
  {
    if s != "" {
      hide NormalizeNL, Split, Join, Chomp, EndsWithNL;
      NormalizeNLSuffix(s);
      ChompRestores(NormalizeNL(s));
      JoinSplit(Chomp(NormalizeNL(s)));
    }
  }

  /** A text made of clean lines, with or without a final newline, splits into them. */
  lemma SplitTerminated(lines: seq<string>)
    requires lines != [] && forall line <- lines :: CleanLine(line)
    ensures SplitLines(Join(lines) + "\n") == lines
  {
    hide Join, Split, NormalizeNL;
    var text := Join(lines) + "\n";
    CleanJoinNoCRLF(lines);
    CleanJoinEnd(lines);
    NoCRLFConcat(Join(lines), "\n");
    NormalizeNLIdentity(text);
    SplitJoin(lines);
    assert text[..|text| - 1] == Join(lines);
  }

  lemma SplitUnterminated(lines: seq<string>)
    requires lines != [] && forall line <- lines :: CleanLine(line)
    requires lines[|lines| - 1] != ""
    ensures SplitLines(Join(lines)) == lines && Join(lines) != "" && !EndsWithNL(Join(lines))
  {
    hide Join, Split, NormalizeNL;
    CleanJoinNoCRLF(lines);
    CleanJoinEnd(lines);
    NormalizeNLIdentity(Join(lines));
    SplitJoin(lines);
  }

  lemma CleanJoinEnd(lines: seq<string>)
    requires lines != [] && forall line <- lines :: CleanLine(line)
    ensures Join(lines) != "" ==> Join(lines)[|Join(lines)| - 1] != '\r'
    ensures lines[|lines| - 1] != "" ==> Join(lines) != "" && !EndsWithNL(Join(lines))
  {
    hide Join;
    var front, last := lines[..|lines| - 1], lines[|lines| - 1];
    assert lines == front + [last];
    JoinSnoc(front, last);
    assert CleanLine(last);
    if last != "" {
      assert Join(lines)[|Join(lines)| - 1] == last[|last| - 1];
    }
  }

  /** Joining clean lines and splitting gives the lines back. */
  lemma SplitJoinLines(lines: seq<string>, original: string)
    requires lines != [] && forall line <- lines :: CleanLine(line)
    requires original == "" || EndsWithNL(original) || lines[|lines| - 1] != ""
    ensures SplitLines(JoinLines(lines, original)) == lines
    ensures JoinLines(lines, original) != ""
    ensures EndsWithNL(JoinLines(lines, original)) <==> original == "" || EndsWithNL(original)
  {
    hide Join, SplitLines;
    if original == "" || EndsWithNL(original) {
      SplitTerminated(lines);
      LastOfConcat(Join(lines), "\n");
    } else {
      SplitUnterminated(lines);
    }
  }

  // ----- parsing ---------------------------------------------------------------

  const NO_NEWLINE: string := "\\ No newline at end of file"

  /** strings.Fields(s)[0] for s that starts with a non-space. */
  function FirstField(s: string): string {
    if s == "" || IsSpace(s[0]) then "" else [s[0]] + FirstField(s[1..])
  }

  /** The old-side start line, and whether the header leaves it out. */
  function ParseHeader(line: string): Result<(int, bool)> {
    var rest := TrimSpace(TrimSuffix(TrimPrefix(TrimSpace(line), "@@"), "@@"));
    if rest == "" then Ok((0, true))
    else
      var field := FirstField(rest);
      if !HasPrefix(field, "-") then Err(BadHeader(line))
      else match ParseInt(Cut(TrimPrefix(field, "-"), ',').0)
        case None => Err(BadHeader(line))
        case Some(n) => Ok((n, false))
  }

  /** A line of a hunk body by its first byte. */
  function BodyLine(line: string): Result<HunkLine>
    requires line != ""
  {
    match line[0]
    case ' ' => Ok(HunkLine(Context, line[1..]))
    case '+' => Ok(HunkLine(Add, line[1..]))
    case '-' => Ok(HunkLine(Delete, line[1..]))
    case _ => Err(UnexpectedLine(line))
  }

  function AddLine(hunks: seq<Hunk>, line: HunkLine): seq<Hunk>
    requires hunks != []
  {
    var cur := hunks[|hunks| - 1];
    hunks[..|hunks| - 1] + [cur.(lines := cur.lines + [line])]
  }

  /** The rest of a unified diff, when `hunks` have been read so far. */
  function ParseUnifiedFrom(lines: seq<string>, hunks: seq<Hunk>): Result<seq<Hunk>>
    decreases |lines|
  {
    if lines == [] then Ok(hunks)
    else
      var line := lines[0];
      if HasPrefix(line, "@@") then
        match ParseHeader(line)
        case Err(e) => Err(e)
        case Ok(head) => ParseUnifiedFrom(lines[1..], hunks + [Hunk(head.0, head.1, [])])
      else if hunks == [] || line == NO_NEWLINE || line == "" then ParseUnifiedFrom(lines[1..], hunks)
      else
        match BodyLine(line)
        case Err(e) => Err(e)
        case Ok(body) => ParseUnifiedFrom(lines[1..], AddLine(hunks, body))
  }

  function ParseUnified(diff: string): Result<seq<Hunk>> {
    ParseUnifiedFrom(Split(NormalizeNL(diff)), [])
  }

  method ParseUnifiedHunks(diff: string) returns (r: Result<seq<Hunk>>)
    ensures r == ParseUnified(diff)
  {
    var raw := Split(NormalizeNL(diff));
    var hunks: seq<Hunk> := [];
    for i := 0 to |raw|
      invariant ParseUnified(diff) == ParseUnifiedFrom(raw[i..], hunks)
    {
      var line := raw[i];
      assert raw[i..][1..] == raw[i + 1..];
      if HasPrefix(line, "@@") {
        var head := ParseHeader(line);
        if head.Err? {
          return Err(head.error);
        }
        hunks := hunks + [Hunk(head.value.0, head.value.1, [])];
        continue;
      }
      if |hunks| == 0 || line == NO_NEWLINE || line == "" {
        continue;
      }
      var body := BodyLine(line);
      if body.Err? {
        return Err(body.error);
      }
      hunks := AddLine(hunks, body.value);
    }
    return Ok(hunks);
  }

  /** Lines a raw hunk passes over: blanks and the file headers of a diff. */
  predicate RawSkips(line: string) {
    || line == "" || line == NO_NEWLINE
    || HasPrefix(line, "diff --git ") || HasPrefix(line, "index ")
    || HasPrefix(line, "--- ") || HasPrefix(line, "+++ ")
  }

  function ParseRawFrom(lines: seq<string>): Result<seq<HunkLine>>
    decreases |lines|
  {
    if lines == [] then Ok([])
    else if RawSkips(lines[0]) then ParseRawFrom(lines[1..])
    else
      match BodyLine(lines[0])
      case Err(e) => Err(e)
      case Ok(body) =>
        match ParseRawFrom(lines[1..])
        case Err(e) => Err(e)
        case Ok(rest) => Ok([body] + rest)
  }

  function RawHunks(lines: seq<HunkLine>): seq<Hunk> {
    if lines == [] then [] else [Hunk(0, true, lines)]
  }

  function ParseRaw(diff: string): Result<seq<Hunk>> {
    match ParseRawFrom(Split(NormalizeNL(diff)))
    case Err(e) => Err(e)
    case Ok(lines) => Ok(RawHunks(lines))
  }

  method ParseRawHunks(diff: string) returns (r: Result<seq<Hunk>>)
    ensures r == ParseRaw(diff)
  {
    var raw := Split(NormalizeNL(diff));
    var lines: seq<HunkLine> := [];
    assert ParseRawFrom(raw).Ok? ==> [] + ParseRawFrom(raw).value == ParseRawFrom(raw).value;
    for i := 0 to |raw|
      invariant ParseRawFrom(raw) == match ParseRawFrom(raw[i..])
                                     case Err(e) => Err(e)
                                     case Ok(rest) => Ok(lines + rest)
    {
      var line := raw[i];
      assert raw[i..][1..] == raw[i + 1..];
      if RawSkips(line) {
        continue;
      }
      var body := BodyLine(line);
      if body.Err? {
        return Err(body.error);
      }
      ghost var rest := ParseRawFrom(raw[i + 1..]);
      assert rest.Ok? ==> lines + ([body.value] + rest.value) == lines + [body.value] + rest.value;
      lines := lines + [body.value];
    }
    assert lines + [] == lines;
    return Ok(RawHunks(lines));
  }

  function ApplyParsed(original: string, hunks: seq<Hunk>): Result<string> {
    if hunks == [] then Err(NoHunks)
    else
      match ApplyLines(SplitLines(original), hunks)
      case Err(e) => Err(e)
      case Ok(out) => Ok(JoinLines(out, original))
  }

  /** A unified diff if it has a hunk header, otherwise one raw hunk. */
  function ApplyPatch(original: string, diff: string): Result<string> {
    match ParseUnified(diff)
    case Err(e) => Err(e)
    case Ok(hunks) =>
      if hunks != [] then ApplyParsed(original, hunks)
      else
        match ParseRaw(diff)
        case Err(e) => Err(e)
        case Ok(raw) => ApplyParsed(original, raw)
  }

  // ----- rendering, and the round trip ----------------------------------------

  function Tag(kind: HunkKind): char {
    match kind case Context => ' ' case Add => '+' case Delete => '-'
  }

  function Tagged(lines: seq<HunkLine>): seq<string> {
    if lines == [] then [] else [[Tag(lines[0].kind)] + lines[0].text] + Tagged(lines[1..])
  }

  function Range(start: int, lines: seq<string>): string {
    FormatInt(start) + "," + FormatNat(|lines|)
  }

  function Ranges(h: Hunk, newStart: int): string {
    "-" + Range(h.oldStart, OldSide(h.lines)) + (" +" + Range(newStart, NewSide(h.lines)))
  }

  function Header(h: Hunk, newStart: int): string {
    if h.unspecified then "@@" else "@@" + (" " + Ranges(h, newStart) + " ") + "@@"
  }

  /** The hunks in the unified format; the new-side start lines are free. */
  function RenderLines(hunks: seq<Hunk>, newStarts: seq<int>): seq<string>
    requires |newStarts| == |hunks|
  {
    if hunks == [] then []
    else [Header(hunks[0], newStarts[0])] + Tagged(hunks[0].lines) + RenderLines(hunks[1..], newStarts[1..])
  }

  function Render(hunks: seq<Hunk>, newStarts: seq<int>): string
    requires |newStarts| == |hunks|
  {
    Join(RenderLines(hunks, newStarts))
  }

  predicate CleanBody(lines: seq<HunkLine>) {
    lines == [] || (CleanLine(lines[0].text) && CleanBody(lines[1..]))
  }

  predicate Positioned(h: Hunk) { MIN_INT64 <= h.oldStart <= MAX_INT64 && (h.unspecified ==> h.oldStart == 0) }

  /** What the format can carry: 64-bit positions, clean line texts. */
  predicate Renderable(h: Hunk) { Positioned(h) && CleanBody(h.lines) }

  lemma {:induction false} FirstFieldStops(word: string, rest: string)
    requires forall c <- word :: !IsSpace(c)
    requires rest != "" && IsSpace(rest[0])
    ensures FirstField(word + rest) == word
  {
    if word != "" {
      assert (word + rest)[1..] == word[1..] + rest;
      FirstFieldStops(word[1..], rest);
      assert [word[0]] + word[1..] == word;
    } else {
      assert word + rest == rest;
    }
  }

  lemma TrimmedIsFixed(s: string)
    requires Trimmed(s)
    ensures TrimSpace(s) == s
  {
  }

  lemma TrimPadded(body: string)
    requires body != "" && Trimmed(body)
    ensures TrimSpace(" " + body + " ") == body
  {
    var s := " " + body + " ";
    assert s[1..] == body + " ";
    assert TrimLeft(body + " ") == body + " ";
    assert (body + " ")[..|body|] == body;
    assert TrimRight(body) == body;
  }

  lemma Unwrap(mid: string)
    ensures TrimSuffix(TrimPrefix("@@" + mid + "@@", "@@"), "@@") == mid
  {
    var s := "@@" + mid + "@@";
    assert s[2..] == mid + "@@";
    assert (mid + "@@")[..|mid|] == mid;
  }

  lemma RangeHasNoSpace(start: int64, lines: seq<string>)
    ensures forall c <- Range(start, lines) :: !IsSpace(c) && c != '\n' && c != '\r'
    ensures Range(start, lines) != ""
    ensures Cut(Range(start, lines), ',').0 == FormatInt(start)
  {
    hide FormatInt, FormatNat;
    ParseFormatInt(start);
    CutAt(FormatInt(start), ',', FormatNat(|lines|));
  }

  lemma TwoFields(a: string, b: string)
    requires a != "" && b != "" && (forall c <- a :: !IsSpace(c)) && (forall c <- b :: !IsSpace(c))
    ensures Trimmed(a + (" " + b)) && FirstField(a + (" " + b)) == a
  {
    hide FirstField, IsSpace;
    var s := a + (" " + b);
    assert s[0] == a[0] && a[0] in a;
    assert s[|s| - 1] == b[|b| - 1] && b[|b| - 1] in b;
    assert (" " + b)[0] == ' ' && IsSpace(' ') by { SpaceIsSpace(); }
    FirstFieldStops(a, " " + b);
  }

  lemma SpaceIsSpace()
    ensures IsSpace(' ')
  {
  }

  /** What is left of a header once both markers and the padding are gone. */
  lemma HeaderBody(body: string)
    requires body != "" && Trimmed(body)
    ensures TrimSpace(TrimSuffix(TrimPrefix(TrimSpace("@@" + (" " + body + " ") + "@@"), "@@"), "@@")) == body
  {
    hide TrimSpace, TrimPrefix, TrimSuffix;
    var line := "@@" + (" " + body + " ") + "@@";
    assert line[|line| - 1] == '@';
    TrimmedIsFixed(line);
    Unwrap(" " + body + " ");
    TrimPadded(body);
  }

  lemma RangesFields(h: Hunk, newStart: int64)
    requires MIN_INT64 <= h.oldStart <= MAX_INT64
    ensures Ranges(h, newStart) != "" && Trimmed(Ranges(h, newStart))
    ensures FirstField(Ranges(h, newStart)) == "-" + Range(h.oldStart, OldSide(h.lines))
  {
    var a, b := Range(h.oldStart, OldSide(h.lines)), Range(newStart, NewSide(h.lines));
    RangeHasNoSpace(h.oldStart, OldSide(h.lines));
    RangeHasNoSpace(newStart, NewSide(h.lines));
    hide Range, FirstField, IsSpace, Trimmed, OldSide, NewSide;
    RangePair(a, b);
  }

  lemma RangePair(a: string, b: string)
    requires (forall c <- a :: !IsSpace(c)) && (forall c <- b :: !IsSpace(c))
    ensures var r := "-" + a + (" +" + b); r != "" && Trimmed(r) && FirstField(r) == "-" + a
  {
    hide FirstField, IsSpace, Trimmed;
    DashIsNoSpace();
    TwoFields("-" + a, "+" + b);
    assert " +" + b == " " + ("+" + b);
  }

  lemma DashIsNoSpace()
    ensures !IsSpace('-') && !IsSpace('+')
  {
  }

  /** Reading a header gives its start line back. */
  lemma HeaderRoundTrip(h: Hunk, newStart: int64)
    requires MIN_INT64 <= h.oldStart <= MAX_INT64 && (h.unspecified ==> h.oldStart == 0)
    ensures ParseHeader(Header(h, newStart)) == Ok((h.oldStart, h.unspecified))
  {
    if h.unspecified {
      assert TrimPrefix("@@", "@@") == "";
    } else {
      hide Range, Ranges, FirstField, TrimSpace, TrimPrefix, TrimSuffix, FormatInt, ParseInt, Cut, Trimmed;
      RangesFields(h, newStart);
      HeaderBody(Ranges(h, newStart));
      DashTrims(Range(h.oldStart, OldSide(h.lines)));
      RangeHasNoSpace(h.oldStart, OldSide(h.lines));
      ParseFormatInt(h.oldStart);
    }
  }

  lemma DashTrims(s: string)
    ensures TrimPrefix("-" + s, "-") == s
  {
  }

  lemma HeaderShape(h: Hunk, newStart: int64)
    requires MIN_INT64 <= h.oldStart <= MAX_INT64
    ensures HasPrefix(Header(h, newStart), "@@") && CleanLine(Header(h, newStart))
  {
    hide Range;
    RangeHasNoSpace(h.oldStart, OldSide(h.lines));
    RangeHasNoSpace(newStart, NewSide(h.lines));
    var line := Header(h, newStart);
    assert line[|line| - 1] == '@';
  }

  lemma TaggedLineParses(line: HunkLine, done: seq<Hunk>, cur: Hunk)
    ensures var text := [Tag(line.kind)] + line.text;
            && !HasPrefix(text, "@@") && text != NO_NEWLINE && text != ""
            && BodyLine(text) == Ok(line)
    ensures AddLine(done + [cur], line) == done + [cur.(lines := cur.lines + [line])]
  {
    var text := [Tag(line.kind)] + line.text;
    assert text[1..] == line.text;
    assert text[0] != NO_NEWLINE[0];
  }

  lemma TaggedLineReads(line: HunkLine, rest: seq<string>, done: seq<Hunk>, cur: Hunk)
    ensures ParseUnifiedFrom([[Tag(line.kind)] + line.text] + rest, done + [cur])
            == ParseUnifiedFrom(rest, done + [cur.(lines := cur.lines + [line])])
  {
    hide HasPrefix, BodyLine, AddLine, Tag, NO_NEWLINE;
    TaggedLineParses(line, done, cur);
    assert ([[Tag(line.kind)] + line.text] + rest)[1..] == rest;
  }

  lemma TaggedFirst(lines: seq<HunkLine>, rest: seq<string>)
    requires lines != []
    ensures Tagged(lines) + rest == [[Tag(lines[0].kind)] + lines[0].text] + (Tagged(lines[1..]) + rest)
  {
    hide Tag;
    assert Tagged(lines) == [[Tag(lines[0].kind)] + lines[0].text] + Tagged(lines[1..]);
  }

  lemma {:induction false} BodyParses(lines: seq<HunkLine>, rest: seq<string>, done: seq<Hunk>, cur: Hunk)
    ensures ParseUnifiedFrom(Tagged(lines) + rest, done + [cur])
            == ParseUnifiedFrom(rest, done + [cur.(lines := cur.lines + lines)])
    decreases |lines|
  {
    hide ParseUnifiedFrom, Tag, HasPrefix, AddLine, BodyLine, NO_NEWLINE;
    if |lines| == 0 {
      assert Tagged(lines) + rest == rest;
      assert cur.lines + lines == cur.lines;
    } else {
      TaggedFirst(lines, rest);
      hide Tagged;
      TaggedLineReads(lines[0], Tagged(lines[1..]) + rest, done, cur);
      BodyParses(lines[1..], rest, done, cur.(lines := cur.lines + [lines[0]]));
      MoreLines(cur, lines);
    }
  }

  lemma MoreLines(cur: Hunk, lines: seq<HunkLine>)
    requires lines != []
    ensures cur.(lines := cur.lines + [lines[0]]).lines + lines[1..] == cur.lines + lines
  {
  }

  lemma HunkParses(h: Hunk, newStart: int64, rest: seq<string>, done: seq<Hunk>)
    requires Positioned(h)
    ensures ParseUnifiedFrom([Header(h, newStart)] + Tagged(h.lines) + rest, done) == ParseUnifiedFrom(rest, done + [h])
  {
    hide Header, ParseHeader, Tagged;
    HeaderRoundTrip(h, newStart);
    HeaderShape(h, newStart);
    var all := [Header(h, newStart)] + Tagged(h.lines) + rest;
    assert all[1..] == Tagged(h.lines) + rest;
    BodyParses(h.lines, rest, done, Hunk(h.oldStart, h.unspecified, []));
    assert [] + h.lines == h.lines;
  }

  lemma {:induction false} LinesRoundTrip(hunks: seq<Hunk>, newStarts: seq<int64>, done: seq<Hunk>)
    requires |newStarts| == |hunks| && forall h <- hunks :: Renderable(h)
    ensures ParseUnifiedFrom(RenderLines(hunks, newStarts), done) == Ok(done + hunks)
    decreases |hunks|
  {
    hide Renderable, Header, Tagged;
    if |hunks| == 0 {
      NoLinesLeft(done);
      assert done + hunks == done;
    } else {
      hide ParseUnifiedFrom, RenderLines;
      FirstHunkLines(hunks, newStarts);
      assert hunks[0] in hunks;
      RenderableIsPositioned(hunks[0]);
      HunkParses(hunks[0], newStarts[0], RenderLines(hunks[1..], newStarts[1..]), done);
      LinesRoundTrip(hunks[1..], newStarts[1..], done + [hunks[0]]);
      assert done + [hunks[0]] + hunks[1..] == done + hunks;
    }
  }

  lemma RenderableIsPositioned(h: Hunk)
    ensures Renderable(h) ==> Positioned(h)
  {
  }

  lemma NoLinesLeft(done: seq<Hunk>)
    ensures ParseUnifiedFrom([], done) == Ok(done)
  {
  }

  lemma FirstHunkLines(hunks: seq<Hunk>, newStarts: seq<int64>)
    requires |newStarts| == |hunks| > 0
    ensures RenderLines(hunks, newStarts) == [Header(hunks[0], newStarts[0])] + Tagged(hunks[0].lines) + RenderLines(hunks[1..], newStarts[1..])
  {
    hide Header, Tagged;
  }

  lemma {:induction false} TaggedClean(lines: seq<HunkLine>)
    requires CleanBody(lines)
    ensures forall line <- Tagged(lines) :: CleanLine(line)
  {
    if lines != [] {
      TaggedClean(lines[1..]);
      var line := [Tag(lines[0].kind)] + lines[0].text;
      assert CleanLine(line);
    }
  }

  lemma {:induction false} RenderClean(hunks: seq<Hunk>, newStarts: seq<int64>)
    requires |newStarts| == |hunks| && forall h <- hunks :: Renderable(h)
    ensures forall line <- RenderLines(hunks, newStarts) :: CleanLine(line)
  {
    if hunks != [] {
      assert Renderable(hunks[0]);
      HeaderShape(hunks[0], newStarts[0]);
      TaggedClean(hunks[0].lines);
      RenderClean(hunks[1..], newStarts[1..]);
    }
  }

  /** Rendering hunks and parsing the text gives the same hunks, also when a
      deleted line reads like a file header. */
  lemma RenderParses(hunks: seq<Hunk>, newStarts: seq<int64>)
    requires |newStarts| == |hunks| && forall h <- hunks :: Renderable(h)
    ensures ParseUnified(Render(hunks, newStarts)) == Ok(hunks)
  {
    var lines := RenderLines(hunks, newStarts);
    if hunks != [] {
      RenderClean(hunks, newStarts);
      CleanJoinSplits(lines);
      LinesRoundTrip(hunks, newStarts, []);
      assert [] + hunks == hunks;
    }
  }

  // ----- a rendered script patches the file it was taken from ------------------

  predicate AllClean(lines: seq<string>) {
    lines == [] || (CleanLine(lines[0]) && AllClean(lines[1..]))
  }

  lemma {:induction false} AllCleanMembers(lines: seq<string>)
    requires AllClean(lines)
    ensures forall line <- lines :: CleanLine(line)
  {
    if lines != [] {
      AllCleanMembers(lines[1..]);
    }
  }

  lemma {:induction false} AllCleanConcat(a: seq<string>, b: seq<string>)
    ensures AllClean(a + b) <==> AllClean(a) && AllClean(b)
  {
    if a == [] {
      assert a + b == b;
    } else {
      assert (a + b)[1..] == a[1..] + b;
      AllCleanConcat(a[1..], b);
    }
  }

  lemma {:induction false} SidesClean(lines: seq<HunkLine>)
    requires AllClean(OldSide(lines)) && AllClean(NewSide(lines))
    ensures CleanBody(lines)
  {
    if lines != [] {
      AllCleanConcat(if lines[0].kind.Add? then [] else [lines[0].text], OldSide(lines[1..]));
      AllCleanConcat(if lines[0].kind.Delete? then [] else [lines[0].text], NewSide(lines[1..]));
      assert lines[0].kind.Add? || AllClean([lines[0].text]);
      assert lines[0].kind.Delete? || AllClean([lines[0].text]);
      SidesClean(lines[1..]);
    }
  }

  lemma ChangeRenderable(lines: seq<HunkLine>, pos: nat)
    requires AllClean(OldSide(lines)) && AllClean(NewSide(lines)) && pos < MAX_INT64
    ensures Renderable(Hunk(pos + 1, false, lines))
  {
    SidesClean(lines);
  }

  predicate AllRenderable(hunks: seq<Hunk>) { forall h <- hunks :: Renderable(h) }

  lemma RenderableCons(h: Hunk, hunks: seq<Hunk>)
    ensures Renderable(h) && AllRenderable(hunks) ==> AllRenderable([h] + hunks)
  {
    hide Renderable;
  }

  lemma {:induction false} ScriptRenderable(script: Script, pos: nat)
    requires AllClean(Source(script)) && AllClean(Target(script))
    requires pos + |Source(script)| < MAX_INT64
    ensures AllRenderable(HunksOf(script, pos))
  {
    hide AllClean, Renderable, AllRenderable, Source, Target, OldSide, NewSide;
    match script
    case Done => NoneRenderable();
    case Keep(same, rest) =>
      KeepParts(same, rest);
      ScriptRenderable(rest, pos + |same|);
    case Change(lines, rest) =>
      ChangeParts(lines, rest);
      ChangeRenderable(lines, pos);
      ScriptRenderable(rest, pos + |OldSide(lines)|);
      RenderableCons(Hunk(pos + 1, false, lines), HunksOf(rest, pos + |OldSide(lines)|));
  }

  lemma NoneRenderable()
    ensures AllRenderable([])
  {
  }

  lemma KeepParts(same: seq<string>, rest: Script)
    requires AllClean(Source(Keep(same, rest))) && AllClean(Target(Keep(same, rest)))
    ensures AllClean(Source(rest)) && AllClean(Target(rest)) && |Source(Keep(same, rest))| == |same| + |Source(rest)|
  {
    hide AllClean;
    AllCleanConcat(same, Source(rest));
    AllCleanConcat(same, Target(rest));
  }

  lemma ChangeParts(lines: seq<HunkLine>, rest: Script)
    requires AllClean(Source(Change(lines, rest))) && AllClean(Target(Change(lines, rest)))
    ensures AllClean(OldSide(lines)) && AllClean(NewSide(lines)) && AllClean(Source(rest)) && AllClean(Target(rest))
    ensures |Source(Change(lines, rest))| == |OldSide(lines)| + |Source(rest)|
  {
    hide AllClean, OldSide, NewSide;
    AllCleanConcat(OldSide(lines), Source(rest));
    AllCleanConcat(NewSide(lines), Target(rest));
  }

  /** From script to bytes: the rendered hunks of a script whose source is the
      file's lines turn the file into the script's target lines. */
  lemma RenderedScriptApplies(original: string, script: Script, newStarts: seq<int64>)
    requires SplitLines(original) == Source(script) && Anchored(script)
    requires AllClean(Source(script)) && AllClean(Target(script)) && |Source(script)| < MAX_INT64
    requires HunksOf(script, 0) != [] && |newStarts| == |HunksOf(script, 0)|
    ensures ApplyPatch(original, Render(HunksOf(script, 0), newStarts)) == Ok(JoinLines(Target(script), original))
  {
    hide Render, ParseUnified, ParseRaw, SplitLines, JoinLines, ApplyLines;
    ScriptRenderable(script, 0);
    RenderParses(HunksOf(script, 0), newStarts);
    Completeness(script);
  }

  /** The reversed script, rendered, takes the patched bytes back to the original
      (with its line ends normalised). */
  lemma RenderedReverseRestores(original: string, script: Script, newStarts: seq<int64>)
    requires SplitLines(original) == Source(script) && TargetAnchored(script)
    requires AllClean(Source(script)) && AllClean(Target(script)) && |Target(script)| < MAX_INT64
    requires HunksOf(Reverse(script), 0) != [] && |newStarts| == |HunksOf(Reverse(script), 0)|
    requires original != "" && Target(script) != []
    requires EndsWithNL(original) || Target(script)[|Target(script)| - 1] != ""
    ensures ApplyPatch(JoinLines(Target(script), original), Render(HunksOf(Reverse(script), 0), newStarts))
            == Ok(NormalizeNL(original))
  {
    var patched := JoinLines(Target(script), original);
    ReverseSides(script);
    AllCleanMembers(Target(script));
    SplitJoinLines(Target(script), original);
    RenderedScriptApplies(patched, Reverse(script), newStarts);
    JoinSplitLines(original);
    assert JoinLines(Source(script), patched) == JoinLines(Source(script), original);
  }

  // ----- payloads ---------------------------------------------------------------

  type Op = string
  const OP_CREATE: Op := "create"
  const OP_MODIFY: Op := "modify"
  const OP_DESTROY: Op := "destroy"
  const OP_MEMORY: Op := "memory_proposal"

  const SHRINK_FLOOR: nat := 256

  datatype PayloadError =
    | Placeholder
    | DoesNotApply(error: PatchError)
    | Shrinks
    | UnsupportedOp(op: Op)

  datatype Body = Bytes(text: string) | Refused(error: PayloadError)

  predicate RawLineShape(line: string) { line == "" || line[0] in {'+', '-', ' '} }

  predicate PlusMinus(line: string) { line != "" && line[0] in {'+', '-'} }

  predicate IsRawHunk(s: string) {
    var lines := Split(TrimSpace(NormalizeNL(s)));
    (forall line <- lines :: RawLineShape(line)) && (exists line <- lines :: PlusMinus(line))
  }

  predicate LooksLikeDiff(payload: string) {
    var s := NormalizeNL(payload);
    var lines := Split(s);
    || HasPrefix(s, "diff --git ") || Contains(s, "\ndiff --git ")
    || (exists line <- lines :: HasPrefix(line, "@@"))
    || ((exists line <- lines :: HasPrefix(line, "--- ")) && (exists line <- lines :: HasPrefix(line, "+++ ")))
    || IsRawHunk(s)
  }

  /** A context or deleted line that is template text; `marker` stands for the
      regular expressions. */
  predicate PlaceholderInDiff(payload: string, marker: string -> bool) {
    exists line <- Split(payload) ::
      && !HasPrefix(line, "+++") && !HasPrefix(line, "---") && !HasPrefix(line, "@@") && !HasPrefix(line, "+")
      && var body := TrimPrefix(TrimPrefix(line, " "), "-");
         TrimSpace(body) != "" && marker(body)
  }

  predicate WouldShrinkDrastically(before: string, after: string) {
    |before| >= SHRINK_FLOOR && |after| * 2 < |before|
  }

  predicate PatchDeletesContent(payload: string) {
    exists line <- Split(NormalizeNL(payload)) :: HasPrefix(line, "-") && !HasPrefix(line, "---")
  }

  function ApplyModify(original: string, payload: string, marker: string -> bool): Body {
    if LooksLikeDiff(payload) then
      if PlaceholderInDiff(payload, marker) then Refused(Placeholder)
      else
        match ApplyPatch(original, payload)
        case Err(e) => Refused(DoesNotApply(e))
        case Ok(out) =>
          if WouldShrinkDrastically(original, out) && !PatchDeletesContent(payload) then Refused(Shrinks)
          else Bytes(out)
    else if WouldShrinkDrastically(original, payload) then Refused(Shrinks)
    else Bytes(payload)
  }

  function Materialize(op: Op, original: string, payload: string, marker: string -> bool): Body {
    if op == OP_CREATE then Bytes(payload)
    else if op == OP_MODIFY then ApplyModify(original, payload, marker)
    else if op == OP_DESTROY then Bytes("")
    else if op == OP_MEMORY then Bytes(payload)
    else Refused(UnsupportedOp(op))
  }
}
