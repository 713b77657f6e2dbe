/** When a modify replaces the whole file, when it patches it, and when it is refused, by
    the lines of its payload (internal/plan/payload.go). */
module ModifyRules {
  import opened Text
  import opened Strings
  import opened Patch
  import opened Payload
  import opened DiffFormat
  import opened DiffTexts

  function LinesOf(payload: string): seq<string> { Split(NormalizeNL(payload)) }

  ghost predicate SomeLineStarts(lines: seq<string>, start: string) { exists line <- lines :: HasPrefix(line, start) }

  /** Added, deleted or context lines and blank ones, at least one of them added or deleted. */
  ghost predicate EditLines(lines: seq<string>) {
    && (forall line <- lines :: line == "" || line[0] in {'+', '-', ' '})
    && (exists line <- lines :: line != "" && line[0] in {'+', '-'})
  }

  /** Nothing but edit lines, once the white space around them is gone. */
  ghost predicate RawText(s: string) {
    exists pre, inner, post :: Around(NormalizeNL(s), pre, inner, post) && EditLines(Split(inner))
  }

  /** A text is a diff if it has a git header, a hunk header, both file headers, or nothing
      but edit lines. The last test normalises the line ends once more. */
  ghost predicate IsDiff(payload: string) {
    var lines := LinesOf(payload);
    || SomeLineStarts(lines, "diff --git ") || SomeLineStarts(lines, "@@")
    || (SomeLineStarts(lines, "--- ") && SomeLineStarts(lines, "+++ "))
    || RawText(NormalizeNL(payload))
  }

  lemma RawHunkIff(s: string)
    ensures IsRawHunk(s) <==> RawText(s)
  {
    var text := NormalizeNL(s);
    var inner := TrimSpace(text);
    EditLinesIff(Split(inner));
    hide NormalizeNL, Split, TrimSpace, EditLines, RawLineShape, PlusMinus;
    assert IsRawHunk(s) <==> EditLines(Split(inner));
    hide IsRawHunk;
    var pre, post := TrimSpaceMeans(text);
    assert Around(text, pre, inner, post);
    if RawText(s) {
      var pre', inner', post' :| Around(text, pre', inner', post') && EditLines(Split(inner'));
      TrimSpaceOf(pre', inner', post');
    }
  }

  lemma EditLinesIff(lines: seq<string>)
    ensures EditLines(lines) <==> (forall line <- lines :: RawLineShape(line)) && (exists line <- lines :: PlusMinus(line))
  {
  }

  lemma LooksLikeDiffIff(payload: string)
    ensures LooksLikeDiff(payload) <==> IsDiff(payload)
  {
    var s := NormalizeNL(payload);
    LineStarts(s, "diff --git ");
    assert "\n" + "diff --git " == "\ndiff --git ";
    RawHunkIff(s);
    hide NormalizeNL, Split, IsRawHunk, RawText, Contains, HasPrefix;
  }

  // ----- the other conditions --------------------------------------------------------------

  /** A file of at least 256 bytes would come out with less than half of them. */
  predicate Shrunk(before: string, after: string) { |before| >= 256 && 2 * |after| < |before| }

  /** A line that is neither added nor a header, without its tags. */
  predicate Quotes(line: string, text: string) {
    && !HasPrefix(line, "+") && !HasPrefix(line, "---") && !HasPrefix(line, "@@")
    && (|| line == " -" + text || line == "-" + text
        || (line == " " + text && !HasPrefix(text, "-"))
        || (line == text && !HasPrefix(text, " ") && !HasPrefix(text, "-")))
  }

  /** Some context or deleted line is template text. */
  ghost predicate HasPlaceholder(payload: string, marker: string -> bool) {
    exists line, text :: line in Split(payload) && Quotes(line, text) && !Blank(text) && marker(text)
  }

  /** Some line is deleted, and reads like no file header. */
  ghost predicate DeletesSome(payload: string) {
    exists line <- LinesOf(payload) :: HasPrefix(line, "-") && !HasPrefix(line, "---")
  }

  lemma UntaggedIff(line: string, text: string)
    requires !HasPrefix(line, "+") && !HasPrefix(line, "---") && !HasPrefix(line, "@@")
    ensures Quotes(line, text) <==> text == TrimPrefix(TrimPrefix(line, " "), "-")
  {
    var once := TrimPrefix(line, " ");
    assert line == if HasPrefix(line, " ") then " " + once else once;
    var twice := TrimPrefix(once, "-");
    assert once == if HasPrefix(once, "-") then "-" + twice else twice;
    if line == " -" + text {
      assert line[1..] == "-" + text && once[1..] == text;
    } else if line == "-" + text {
      assert line[1..] == text;
    } else if line == " " + text {
      assert line[1..] == text;
    }
  }

  lemma PlaceholderIff(payload: string, marker: string -> bool)
    ensures PlaceholderInDiff(payload, marker) <==> HasPlaceholder(payload, marker)
  {
    hide TrimPrefix, HasPrefix, TrimSpace, Blank, Split;
    forall line | line in Split(payload) && !HasPrefix(line, "+") && !HasPrefix(line, "---") && !HasPrefix(line, "@@")
      ensures var body := TrimPrefix(TrimPrefix(line, " "), "-");
              (TrimSpace(body) != "" && marker(body)) <==> exists text :: Quotes(line, text) && !Blank(text) && marker(text)
    {
      var body := TrimPrefix(TrimPrefix(line, " "), "-");
      UntaggedIff(line, body);
      BlankIff(body);
      forall text | Quotes(line, text) ensures text == body {
        UntaggedIff(line, text);
      }
    }
    forall line ensures HasPrefix(line, "+++") ==> HasPrefix(line, "+") {
      PlusPrefix(line);
    }
  }

  lemma PlusPrefix(line: string)
    ensures HasPrefix(line, "+++") ==> HasPrefix(line, "+")
  {
  }

  // ----- the rule ----------------------------------------------------------------------------

  /** A payload that is no diff replaces the file, unless that would shrink it. */
  lemma WholeTextReplaces(original: string, payload: string, marker: string -> bool)
    requires !IsDiff(payload)
    ensures Materialize(OP_MODIFY, original, payload, marker) == if Shrunk(original, payload) then Refused(Shrinks) else Bytes(payload)
  {
    LooksLikeDiffIff(payload);
    hide LooksLikeDiff, IsDiff;
  }

  /** A payload that is one gives the patched file: exactly when no context or deleted line
      is a placeholder, the patch applies, and the file does not shrink without a deletion. */
  lemma DiffPatchesOrRefuses(original: string, payload: string, marker: string -> bool)
    requires IsDiff(payload)
    ensures var r := Materialize(OP_MODIFY, original, payload, marker);
            && (r == Refused(Placeholder) <==> HasPlaceholder(payload, marker))
            && (forall out :: r == Bytes(out) <==>
                  !HasPlaceholder(payload, marker) && ApplyPatch(original, payload) == Ok(out) && (Shrunk(original, out) ==> DeletesSome(payload)))
            && (forall e :: r == Refused(DoesNotApply(e)) <==> !HasPlaceholder(payload, marker) && ApplyPatch(original, payload) == Err(e))
            && (r.Bytes? || r.error in {Placeholder, Shrinks} || r.error.DoesNotApply?)
  {
    LooksLikeDiffIff(payload);
    PlaceholderIff(payload, marker);
    hide LooksLikeDiff, IsDiff, PlaceholderInDiff, HasPlaceholder, ApplyPatch, Split, NormalizeNL;
  }

  /** The other operations need no original. */
  lemma OthersMaterialize(op: Op, original: string, payload: string, marker: string -> bool)
    requires op != "modify"
    ensures Materialize(op, original, payload, marker) ==
            if op in {"create", "memory_proposal"} then Bytes(payload) else if op == "destroy" then Bytes("") else Refused(UnsupportedOp(op))
  {
  }

  lemma {:induction false} HeaderAmongLines(prologue: seq<string>, sections: seq<Section>, hunks: seq<Hunk>)
    requires WritesAll(sections, hunks) && hunks != []
    ensures SomeLineStarts(DiffLines(prologue, sections), "@@")
  {
    hide Spells, HeaderSays, BareHeader;
    assert Writes(sections[0], hunks[0]);
    WrittenHeader(sections[0], hunks[0]);
    var texts := DiffLines(prologue, sections);
    assert texts[|prologue|] == sections[0].header;
  }

  /** A modify by a diff of an edit script turns the source lines into the target lines,
      unless it quotes a placeholder or shrinks the file without a deletion. */
  lemma DiffModifies(script: Script, nl: bool, prologue: seq<string>, sections: seq<Section>, marker: string -> bool)
    requires Filed(Source(script), nl) && Anchored(script) && HunksOf(script, 0) != []
    requires Headless(prologue) && WritesAll(sections, HunksOf(script, 0)) && AllLines(DiffLines(prologue, sections))
    ensures var before, after, payload := FileOf(Source(script), nl), FileOf(Target(script), nl || Source(script) == []), Join(DiffLines(prologue, sections));
            Materialize(OP_MODIFY, before, payload, marker) ==
              if HasPlaceholder(payload, marker) then Refused(Placeholder)
              else if Shrunk(before, after) && !DeletesSome(payload) then Refused(Shrinks)
              else Bytes(after)
  {
    var texts := DiffLines(prologue, sections);
    HeaderAmongLines(prologue, sections, HunksOf(script, 0));
    hide WritesAll, FileOf, Join, NormalizeNL, Split, HasPlaceholder, DeletesSome, Shrunk, Materialize, ApplyPatch, RawText;
    CleanJoinSplits(texts);
    assert IsDiff(Join(texts));
    DiffPatches(script, nl, prologue, sections);
    MaterializeByPatch(FileOf(Source(script), nl), Join(texts), marker, FileOf(Target(script), nl || Source(script) == []));
  }

  lemma MaterializeByPatch(original: string, payload: string, marker: string -> bool, out: string)
    requires IsDiff(payload) && ApplyPatch(original, payload) == Ok(out)
    ensures Materialize(OP_MODIFY, original, payload, marker) ==
            if HasPlaceholder(payload, marker) then Refused(Placeholder)
            else if Shrunk(original, out) && !DeletesSome(payload) then Refused(Shrinks)
            else Bytes(out)
  {
    hide IsDiff, ApplyPatch, Materialize, HasPlaceholder, DeletesSome, Shrunk;
    DiffPatchesOrRefuses(original, payload, marker);
  }
}
