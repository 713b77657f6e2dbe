/** Diffs as texts: exactly which texts parse to which hunks, and what applying such a text
    does to the bytes of a file (internal/plan/payload.go). */
module DiffTexts {
  import opened Text
  import opened Patch
  import opened Payload
  import opened DiffFormat

  // ----- every parse is of the format -----------------------------------------------------

  lemma HeaderIsWritten(line: string)
    requires HasPrefix(line, "@@") && ParseHeader(line).Ok?
    ensures var (start, open) := ParseHeader(line).value; if open then start == 0 && BareHeader(line) else HeaderSays(line, start)
  {
    ParsedIsSaid(line);
  }

  lemma BodyIsTagged(line: string)
    requires line != "" && BodyLine(line).Ok?
    ensures TaggedAs(line, BodyLine(line).value)
  {
    assert line == [line[0]] + line[1..];
  }

  /** What goes after the hunk that is being read. */
  datatype Rest = Rest(body: seq<string>, lines: seq<HunkLine>, sections: seq<Section>, hunks: seq<Hunk>)

  ghost predicate Reads(texts: seq<string>, r: Rest) {
    texts == r.body + SectionLines(r.sections) && Spells(r.body, r.lines) && WritesAll(r.sections, r.hunks)
  }

  lemma ReadsText(text: string, lines: seq<HunkLine>, texts: seq<string>, r: Rest)
    requires Reads(texts, r) && ((Noise(text) && lines == []) || (!Noise(text) && |lines| == 1 && TaggedAs(text, lines[0])))
    ensures Reads([text] + texts, Rest([text] + r.body, lines + r.lines, r.sections, r.hunks))
  {
    hide TaggedAs, Noise, WritesAll, SectionLines;
    var body := [text] + r.body;
    assert body[0] == text && body[1..] == r.body;
    assert lines != [] ==> (lines + r.lines)[0] == lines[0] && (lines + r.lines)[1..] == r.lines;
    assert lines == [] ==> lines + r.lines == r.lines;
    assert [text] + texts == body + SectionLines(r.sections);
  }

  lemma ReadsHeader(header: string, h: Hunk, texts: seq<string>, r: Rest)
    requires Reads(texts, r) && h.lines == r.lines
    requires if h.unspecified then h.oldStart == 0 && BareHeader(header) else HeaderSays(header, h.oldStart)
    ensures Reads([header] + texts, Rest([], [], [Section(header, r.body)] + r.sections, [h] + r.hunks))
  {
    hide Spells, HeaderSays, BareHeader;
    var sections, hunks := [Section(header, r.body)] + r.sections, [h] + r.hunks;
    assert Writes(sections[0], hunks[0]);
    assert SectionLines(sections) == [header] + r.body + SectionLines(r.sections) by { assert sections[1..] == r.sections; }
    forall i | 0 <= i < |hunks| ensures Writes(sections[i], hunks[i]) {
      if i > 0 {
        assert Writes(r.sections[i - 1], r.hunks[i - 1]);
      }
    }
    assert Spells([], []) by { NothingSpelled(); }
    assert [header] + texts == [] + SectionLines(sections);
  }

  lemma NothingSpelled()
    ensures Spells([], [])
  {
  }

  lemma {:induction false} ParsedIsRead(texts: seq<string>, done: seq<Hunk>, cur: Hunk) returns (r: Rest)
    requires ParseUnifiedFrom(texts, done + [cur]).Ok?
    ensures Reads(texts, r)
    ensures ParseUnifiedFrom(texts, done + [cur]).value == done + [cur.(lines := cur.lines + r.lines)] + r.hunks
    decreases |texts|
  {
    hide ParseHeader, Reads;
    if texts == [] {
      r := Rest([], [], [], []);
      NothingRead();
      assert cur.(lines := cur.lines + []) == cur && done + [cur] + [] == done + [cur];
    } else {
      var text, more := texts[0], texts[1..];
      assert texts == [text] + more;
      if HasPrefix(text, "@@") {
        var head := ParseHeader(text).value;
        var next := Hunk(head.0, head.1, []);
        var rest := ParsedIsRead(more, done + [cur], next);
        HeaderIsWritten(text);
        var h := next.(lines := rest.lines);
        ReadsHeader(text, h, more, rest);
        r := Rest([], [], [Section(text, rest.body)] + rest.sections, [h] + rest.hunks);
        assert [] + rest.lines == rest.lines && cur.(lines := cur.lines + []) == cur;
        assert done + [cur] + [h] + rest.hunks == done + [cur] + ([h] + rest.hunks);
      } else if Noise(text) {
        NoiseIsPassed(text, more, done, cur);
        var rest := ParsedIsRead(more, done, cur);
        ReadsText(text, [], more, rest);
        assert [] + rest.lines == rest.lines;
        r := rest.(body := [text] + rest.body);
      } else {
        r := TaggedIsRead(text, more, done, cur);
      }
    }
  }

  lemma {:induction false} TaggedIsRead(text: string, more: seq<string>, done: seq<Hunk>, cur: Hunk) returns (r: Rest)
    requires !HasPrefix(text, "@@") && !Noise(text) && ParseUnifiedFrom([text] + more, done + [cur]).Ok?
    ensures Reads([text] + more, r)
    ensures ParseUnifiedFrom([text] + more, done + [cur]).value == done + [cur.(lines := cur.lines + r.lines)] + r.hunks
    decreases |more| + 1, 0
  {
    hide ParseHeader, Reads;
    var texts := [text] + more;
    assert texts[0] == text && texts[1..] == more && BodyLine(text).Ok?;
    var line := BodyLine(text).value;
    BodyIsTagged(text);
    TagOf(text, line);
    hide ParseUnifiedFrom, BodyLine;
    TaggedLineReads(line, more, done, cur);
    var rest := ParsedIsRead(more, done, cur.(lines := cur.lines + [line]));
    ReadsText(text, [line], more, rest);
    r := Rest([text] + rest.body, [line] + rest.lines, rest.sections, rest.hunks);
    assert cur.lines + [line] + rest.lines == cur.lines + r.lines;
  }

  lemma NothingRead()
    ensures Reads([], Rest([], [], [], []))
  {
  }

  /** These lines are a diff of these hunks: anything without markers, then the hunks. */
  ghost predicate DiffOf(texts: seq<string>, hunks: seq<Hunk>) {
    exists prologue, sections :: Headless(prologue) && WritesAll(sections, hunks) && texts == DiffLines(prologue, sections)
  }

  lemma {:induction false} ParsedIsDiff(texts: seq<string>)
    requires ParseUnifiedFrom(texts, []).Ok?
    ensures DiffOf(texts, ParseUnifiedFrom(texts, []).value)
    decreases |texts|
  {
    hide ParseHeader, WritesAll, SectionLines;
    if texts == [] {
      NothingRead();
      assert texts == DiffLines([], []) && Headless([]) by { NoSections(); }
    } else {
      var text, more := texts[0], texts[1..];
      assert texts == [text] + more;
      if HasPrefix(text, "@@") {
        var head := ParseHeader(text).value;
        var next := Hunk(head.0, head.1, []);
        assert [] + [next] == [next];
        var rest := ParsedIsRead(more, [], next);
        HeaderIsWritten(text);
        var h := next.(lines := rest.lines);
        ReadsHeader(text, h, more, rest);
        assert [] + rest.lines == rest.lines;
        var sections := [Section(text, rest.body)] + rest.sections;
        assert [] + SectionLines(sections) == SectionLines(sections);
        assert texts == DiffLines([], sections) && Headless([]);
        assert [] + [h] + rest.hunks == [h] + rest.hunks;
      } else {
        ParsedIsDiff(more);
        var hunks := ParseUnifiedFrom(more, []).value;
        var prologue, sections :| Headless(prologue) && WritesAll(sections, hunks) && more == DiffLines(prologue, sections);
        assert texts == DiffLines([text] + prologue, sections);
        assert Headless([text] + prologue);
      }
    }
  }

  lemma NoSections()
    ensures SectionLines([]) == [] && WritesAll([], [])
  {
  }

  /** The parser accepts exactly the diffs of some hunks, and gives those hunks. */
  lemma ParsesIff(texts: seq<string>, hunks: seq<Hunk>)
    ensures ParseUnifiedFrom(texts, []) == Ok(hunks) <==> DiffOf(texts, hunks)
  {
    hide ParseUnifiedFrom, WritesAll, SectionLines, Headless;
    if ParseUnifiedFrom(texts, []) == Ok(hunks) {
      ParsedIsDiff(texts);
    }
    if DiffOf(texts, hunks) {
      var prologue, sections :| Headless(prologue) && WritesAll(sections, hunks) && texts == DiffLines(prologue, sections);
      FormatParses(prologue, sections, hunks);
    }
  }

  // ----- raw hunks ------------------------------------------------------------------------

  /** Lines that a raw hunk passes over. */
  predicate RawNoise(text: string) {
    || Noise(text) || HasPrefix(text, "diff --git ") || HasPrefix(text, "index ")
    || HasPrefix(text, "--- ") || HasPrefix(text, "+++ ")
  }

  predicate SpellsRaw(texts: seq<string>, lines: seq<HunkLine>) {
    if texts == [] then lines == []
    else if RawNoise(texts[0]) then SpellsRaw(texts[1..], lines)
    else lines != [] && TaggedAs(texts[0], lines[0]) && SpellsRaw(texts[1..], lines[1..])
  }

  lemma TaggedIsBody(text: string, line: HunkLine)
    requires TaggedAs(text, line)
    ensures text != "" && BodyLine(text) == Ok(line)
  {
    assert text[1..] == line.text;
  }

  /** The raw parser accepts exactly the texts that spell some lines, and gives those. */
  lemma {:induction false} RawParsesIff(texts: seq<string>, lines: seq<HunkLine>)
    ensures ParseRawFrom(texts) == Ok(lines) <==> SpellsRaw(texts, lines)
    decreases |texts|
  {
    if texts != [] {
      var text := texts[0];
      assert RawNoise(text) <==> RawSkips(text);
      if RawNoise(text) {
        RawParsesIff(texts[1..], lines);
      } else {
        hide RawSkips, RawNoise, TaggedAs, BodyLine;
        if lines != [] {
          RawParsesIff(texts[1..], lines[1..]);
          if TaggedAs(text, lines[0]) {
            TaggedIsBody(text, lines[0]);
          }
        }
        if ParseRawFrom(texts) == Ok(lines) {
          BodyIsTagged(text);
          assert [lines[0]] + lines[1..] == lines;
        } else if lines != [] {
          assert [lines[0]] + lines[1..] == lines;
        }
      }
    }
  }

  /** The first line that is neither is named. */
  lemma {:induction false} RawFaultNamed(good: seq<string>, lines: seq<HunkLine>, text: string, rest: seq<string>)
    requires SpellsRaw(good, lines) && !RawNoise(text) && text[0] !in {' ', '+', '-'}
    ensures ParseRawFrom(good + ([text] + rest)) == Err(UnexpectedLine(text))
    decreases |good|
  {
    var last := [text] + rest;
    if good == [] {
      assert good + last == last && last[0] == text;
    } else {
      assert (good + last)[0] == good[0] && (good + last)[1..] == good[1..] + last;
      if RawNoise(good[0]) {
        RawFaultNamed(good[1..], lines, text, rest);
      } else {
        TaggedIsBody(good[0], lines[0]);
        RawFaultNamed(good[1..], lines[1..], text, rest);
      }
    }
  }

  // ----- from text to bytes -----------------------------------------------------------------

  predicate AllLines(lines: seq<string>) { forall line <- lines :: CleanLine(line) }

  /** The bytes of these lines, with or without a newline at the end. */
  function FileOf(lines: seq<string>, nl: bool): string {
    if lines == [] then "" else Join(lines) + (if nl then "\n" else "")
  }

  /** Lines that a file can have. */
  predicate Filed(lines: seq<string>, nl: bool) {
    AllLines(lines) && (lines != [] && !nl ==> lines[|lines| - 1] != "")
  }

  lemma FileLines(lines: seq<string>, nl: bool, out: seq<string>)
    requires Filed(lines, nl)
    ensures SplitLines(FileOf(lines, nl)) == lines
    ensures JoinLines(out, FileOf(lines, nl)) == FileOf(out, nl || lines == [])
  {
    hide SplitLines, Join;
    assert Join(lines) + "" == Join(lines) && Join(out) + "" == Join(out);
    if lines == [] {
      NoLines();
    } else if nl {
      SplitTerminated(lines);
      LastOfConcat(Join(lines), "\n");
    } else {
      SplitUnterminated(lines);
    }
  }

  lemma NoLines()
    ensures SplitLines("") == []
  {
  }

  /** Applying a text in the format is applying its hunks to the lines of the file. */
  lemma DiffApplies(src: seq<string>, nl: bool, prologue: seq<string>, sections: seq<Section>, hunks: seq<Hunk>)
    requires Filed(src, nl) && hunks != []
    requires Headless(prologue) && WritesAll(sections, hunks) && AllLines(DiffLines(prologue, sections))
    ensures ApplyPatch(FileOf(src, nl), Join(DiffLines(prologue, sections))) ==
            match ApplyLines(src, hunks)
            case Err(e) => Err(e)
            case Ok(out) => Ok(FileOf(out, nl || src == []))
  {
    var texts := DiffLines(prologue, sections);
    hide WritesAll, SplitLines, JoinLines, FileOf, ApplyLines, ParseUnifiedFrom, ParseRaw, Join, NormalizeNL, Split;
    FormatParses(prologue, sections, hunks);
    if texts == [] {
      NoLinesLeft([]);
    }
    CleanJoinSplits(texts);
    FileLines(src, nl, []);
    if ApplyLines(src, hunks).Ok? {
      FileLines(src, nl, ApplyLines(src, hunks).value);
    }
  }

  /** A diff of an edit script, as the format is found in the wild, takes the bytes of the
      source lines to the bytes of the target lines; the final newline stays as it was, and
      a new file gets one. */
  lemma DiffPatches(script: Script, nl: bool, prologue: seq<string>, sections: seq<Section>)
    requires Filed(Source(script), nl) && Anchored(script) && HunksOf(script, 0) != []
    requires Headless(prologue) && WritesAll(sections, HunksOf(script, 0)) && AllLines(DiffLines(prologue, sections))
    ensures ApplyPatch(FileOf(Source(script), nl), Join(DiffLines(prologue, sections)))
            == Ok(FileOf(Target(script), nl || Source(script) == []))
  {
    hide WritesAll, FileOf, ApplyLines, Join, ApplyPatch;
    Completeness(script);
    DiffApplies(Source(script), nl, prologue, sections, HunksOf(script, 0));
  }

  /** A faulty header or line refuses the whole text, whatever the file is. */
  lemma FaultRefusesPatch(original: string, prologue: seq<string>, sections: seq<Section>, hunks: seq<Hunk>, fault: string, rest: seq<string>)
    requires Headless(prologue) && WritesAll(sections, hunks) && AllLines(DiffLines(prologue, sections) + ([fault] + rest))
    requires if HasPrefix(fault, "@@") then !BareHeader(fault) && forall n: int :: !HeaderSays(fault, n)
             else hunks != [] && (Foreign(fault) || HasPrefix(fault, "@"))
    ensures ApplyPatch(original, Join(DiffLines(prologue, sections) + ([fault] + rest)))
            == Err(if HasPrefix(fault, "@@") then BadHeader(fault) else UnexpectedLine(fault))
  {
    var texts := DiffLines(prologue, sections) + ([fault] + rest);
    hide WritesAll, ParseUnifiedFrom, ParseRaw, Join, NormalizeNL, Split, HeaderSays, BareHeader;
    CleanJoinSplits(texts);
    if HasPrefix(fault, "@@") {
      BadHeaderNamed(prologue, sections, hunks, fault, rest);
    } else {
      ForeignLineNamed(prologue, sections, hunks, fault, rest);
    }
  }

  lemma {:induction false} HeadlessParse(texts: seq<string>)
    requires Headless(texts)
    ensures ParseUnifiedFrom(texts, []) == Ok([])
  {
    PrologueIsPassed(texts, []);
    assert texts + [] == texts;
  }

  /** A text without headers is one raw hunk, if it has any line. */
  lemma RawPatchReads(original: string, texts: seq<string>, lines: seq<HunkLine>)
    requires Headless(texts) && SpellsRaw(texts, lines) && AllLines(texts) && texts != []
    ensures ApplyPatch(original, Join(texts)) == ApplyParsed(original, if lines == [] then [] else [Hunk(0, true, lines)])
  {
    hide ApplyParsed, Headless, SpellsRaw, ParseUnifiedFrom, ParseRawFrom, Join, NormalizeNL, Split;
    CleanJoinSplits(texts);
    HeadlessParse(texts);
    RawParsesIff(texts, lines);
  }

  /** A text of noise alone has nothing to apply, and a raw text with a faulty line is refused. */
  lemma RawRefusals(original: string, good: seq<string>, lines: seq<HunkLine>, bad: seq<string>)
    requires Headless(good + bad) && SpellsRaw(good, lines) && AllLines(good + bad)
    requires bad != [] ==> !RawNoise(bad[0]) && bad[0][0] !in {' ', '+', '-'}
    requires bad == [] ==> good != [] && lines == []
    ensures ApplyPatch(original, Join(good + bad)) == Err(if bad == [] then NoHunks else UnexpectedLine(bad[0]))
  {
    hide Headless, SpellsRaw, ParseUnifiedFrom, ParseRawFrom, Join, NormalizeNL, Split;
    CleanJoinSplits(good + bad);
    HeadlessParse(good + bad);
    if bad == [] {
      assert good + bad == good;
      RawParsesIff(good, []);
    } else {
      assert bad == [bad[0]] + bad[1..];
      RawFaultNamed(good, lines, bad[0], bad[1..]);
    }
  }

  /** A raw hunk replaces the first place where its old lines stand; without old lines it
      goes at the end. */
  lemma RawHunkLands(src: seq<string>, nl: bool, texts: seq<string>, lines: seq<HunkLine>, at: nat)
    requires Filed(src, nl) && Headless(texts) && SpellsRaw(texts, lines) && AllLines(texts) && lines != []
    requires var want := OldSide(lines);
             Matches(src, at, want) && NoMatchIn(src, want, 0, at) && (want == [] ==> at == |src|)
    ensures ApplyPatch(FileOf(src, nl), Join(texts))
            == Ok(FileOf(src[..at] + NewSide(lines) + src[at + |OldSide(lines)|..], nl || src == []))
  {
    var h, out := Hunk(0, true, lines), src[..at] + NewSide(lines) + src[at + |OldSide(lines)|..];
    RawPosition(src, h, at);
    hide Headless, AllLines, SpellsRaw, Filed, FileOf, SplitLines, JoinLines, Join, ApplyPatch, ApplyLines, Matches, Position, OldSide, NewSide;
    RawPatchReads(FileOf(src, nl), texts, lines);
    FileLines(src, nl, out);
    OneHunk(src, h, at);
  }

  lemma RawPosition(src: seq<string>, h: Hunk, at: nat)
    requires h.unspecified && Matches(src, at, OldSide(h.lines)) && NoMatchIn(src, OldSide(h.lines), 0, at)
    requires OldSide(h.lines) == [] ==> at == |src|
    ensures Position(src, h, 0) == at
  {
    hide OldSide, FirstMatch;
    var want := OldSide(h.lines);
    var first := FirstMatch(src, want, 0);
    assert first >= 0 ==> Matches(src, first, want);
  }

  lemma OneHunk(src: seq<string>, h: Hunk, at: nat)
    requires Position(src, h, 0) == at
    ensures ApplyLines(src, [h]) == Ok(src[..at] + NewSide(h.lines) + src[at + |OldSide(h.lines)|..])
  {
    hide Position, OldSide, NewSide;
    var want := OldSide(h.lines);
    assert [h][1..] == [] && src[0..at] == src[..at];
    assert ApplyFrom(src, [], 1, at + |want|) == Ok(src[at + |want|..]);
  }

  /** And it is a conflict when they stand nowhere. */
  lemma RawHunkConflicts(src: seq<string>, nl: bool, texts: seq<string>, lines: seq<HunkLine>)
    requires Filed(src, nl) && Headless(texts) && SpellsRaw(texts, lines) && AllLines(texts)
    requires OldSide(lines) != [] && NoMatchIn(src, OldSide(lines), 0, |src| + 1)
    ensures ApplyPatch(FileOf(src, nl), Join(texts)) == Err(Conflict(1, OldSide(lines)[0], if src == [] then None else Some(src[0])))
  {
    var h := Hunk(0, true, lines);
    assert lines != [] && texts != [];
    hide SpellsRaw, Headless, FileOf, SplitLines, JoinLines, Join, ApplyPatch;
    RawPatchReads(FileOf(src, nl), texts, lines);
    FileLines(src, nl, []);
    assert Position(src, h, 0) < 0;
  }
}
