/** The unified format as files carry it: section text after the markers, file headers
    before the first hunk, blank lines and "no newline" notes between the lines of a hunk;
    and the raw hunks that go without headers (internal/plan/payload.go). */
module DiffFormat {
  import opened Text
  import opened Strings
  import opened Patch
  import opened Payload

  // ----- hunk headers ------------------------------------------------------------------

  /** The start line is followed by its length, by white space, by the closing marker, or
      by nothing. */
  predicate AfterStart(more: string) {
    more == "" || more[0] == ',' || White(more[0]) || (HasPrefix(more, "@@") && Blank(more[2..]))
  }

  /** "@@ -12" and whatever may follow the start line. */
  ghost predicate StartsAt(line: string, n: int, pad: string, num: string, more: string) {
    line == "@@" + pad + "-" + num + more && Blank(pad) && ParseInt(num) == Some(n) && AfterStart(more)
  }

  /** A header that names an old-side start line. */
  ghost predicate HeaderSays(line: string, n: int) { exists pad, num, more :: StartsAt(line, n, pad, num, more) }

  /** A header of markers only. */
  ghost predicate BareHeader(line: string) {
    exists pad, tail :: line == "@@" + pad + tail && Blank(pad) && (tail == "" || (HasPrefix(tail, "@@") && Blank(tail[2..])))
  }

  /** What may follow the number once the end of the line is trimmed. */
  predicate Stops(m: string) { m == "" || m[0] == ',' || White(m[0]) }

  lemma {:induction false} FieldGoesOn(word: string, more: string)
    requires forall c <- word :: !White(c)
    ensures FirstField(word + more) == word + FirstField(more)
  {
    if word == "" {
      assert word + more == more;
    } else {
      assert word[0] in word && (word + more)[1..] == word[1..] + more;
      FieldGoesOn(word[1..], more);
      assert [word[0]] + (word[1..] + FirstField(more)) == word + FirstField(more);
    }
  }

  lemma NumberIsSolid(num: string)
    requires ParseInt(num).Some?
    ensures num != "" && IsDigit(num[|num| - 1])
    ensures forall c <- num :: !White(c) && c != ',' && c != '@'
  {
    var digits := if num[0] in {'+', '-'} then num[1..] else num;
    assert digits[|digits| - 1] in digits;
    forall c | c in num ensures IsDigit(c) || c in {'+', '-'} {
      assert c == num[0] || c in digits;
    }
  }

  lemma TrimmedTail(more: string)
    requires AfterStart(more)
    ensures var m := TrimRight(more); Stops(m) || m == "@@"
    ensures HasSuffix(TrimRight(more), "@@") ==> Stops(TrimSuffix(TrimRight(more), "@@"))
  {
    var post := TrimRightMeans(more);
    var m := TrimRight(more);
    if HasPrefix(more, "@@") && Blank(more[2..]) {
      assert more == "@@" + more[2..];
      TrimRightOf("@@", more[2..]);
    } else if m != "" {
      assert m[0] == more[0];
    }
  }

  /** A suffix of markers comes off the tail, never off the number. */
  lemma SuffixComesOff(body: string, m: string)
    requires body != "" && body[|body| - 1] != '@' && (m == "@@" || Stops(m))
    ensures TrimSuffix(body + m, "@@") == body + TrimSuffix(m, "@@")
  {
    var s := body + m;
    if |m| >= 2 {
      assert s[|s| - 2..] == m[|m| - 2..];
    } else if |s| >= 2 {
      assert s[|s| - 2..][if m == "" then 1 else 0] == body[|body| - 1];
    }
  }

  lemma FieldOfNumber(num: string, m: string)
    requires ParseInt(num).Some? && Stops(m)
    ensures var field := FirstField("-" + num + m);
            && HasPrefix(field, "-") && Cut(TrimPrefix(field, "-"), ',').0 == num
  {
    NumberIsSolid(num);
    DashIsNoSpace();
    FieldBegins(m);
    hide ParseInt, FirstField, Cut, White, Stops, TrimPrefix;
    var word, w := "-" + num, FirstField(m);
    FieldGoesOn(word, m);
    assert word + w == "-" + (num + w);
    DashTrims(num + w);
    CutNumber(num, w);
  }

  lemma FieldBegins(m: string)
    requires Stops(m)
    ensures FirstField(m) == "" || FirstField(m)[0] == ','
    ensures !White('-')
  {
  }

  lemma CutNumber(num: string, w: string)
    requires ',' !in num && (w == "" || w[0] == ',')
    ensures Cut(num + w, ',').0 == num
  {
    CutAt(num, ',', if w == "" then "" else w[1..]);
    hide Cut;
    if w == "" {
      assert num + w == num;
    } else {
      assert num + w == num + [','] + w[1..];
    }
  }

  /** Reading a header that names a start line gives it, whatever follows. */
  lemma HeaderReads(line: string, n: int, pad: string, num: string, more: string)
    requires StartsAt(line, n, pad, num, more)
    ensures ParseHeader(line) == Ok((n, false))
  {
    NumberIsSolid(num);
    var body, m := pad + "-" + num, TrimRight(more);
    assert line == "@@" + body + more && body[|body| - 1] == num[|num| - 1];
    assert TrimLeft(line) == line;
    TrimRightInside("@@" + body, more);
    TrimmedTail(more);
    assert "@@" + body + m == "@@" + (body + m);
    assert TrimPrefix("@@" + (body + m), "@@") == body + m;
    SuffixComesOff(body, m);
    var m2 := TrimSuffix(m, "@@");
    assert Stops(m2);
    TrimNumber(pad, num, m2);
    FieldOfNumber(num, TrimRight(m2));
  }

  lemma TrimNumber(pad: string, num: string, m: string)
    requires Blank(pad) && ParseInt(num).Some? && Stops(m)
    ensures TrimSpace(pad + "-" + num + m) == "-" + num + TrimRight(m) && Stops(TrimRight(m))
  {
    NumberIsSolid(num);
    var word := "-" + num;
    assert pad + "-" + num + m == pad + (word + m);
    TrimLeftOf(pad, word + m);
    TrimRightInside(word, m);
    var post := TrimRightMeans(m);
    assert TrimRight(m) != "" ==> TrimRight(m)[0] == m[0];
  }

  /** A header of markers only leaves the position open. */
  lemma BareHeaderReads(line: string)
    requires BareHeader(line)
    ensures ParseHeader(line) == Ok((0, true))
  {
    var pad, tail :| line == "@@" + pad + tail && Blank(pad) && (tail == "" || (HasPrefix(tail, "@@") && Blank(tail[2..])));
    assert line == "@@" + (pad + tail);
    MarkerTrimmed(pad + tail);
    MarksComeOff(pad, tail);
    TrimSpaceOf(pad, "", "");
    hide TrimSpace, TrimRight, HasPrefix, TrimSuffix, BareHeader;
    assert pad + "" + "" == pad;
    UnwrapLeft(TrimRight(pad + tail));
  }

  lemma UnwrapLeft(body: string)
    ensures TrimPrefix("@@" + body, "@@") == body
  {
  }

  lemma MarksComeOff(pad: string, tail: string)
    requires Blank(pad) && (tail == "" || (HasPrefix(tail, "@@") && Blank(tail[2..])))
    ensures TrimSpace(TrimSuffix(TrimRight(pad + tail), "@@")) == ""
  {
    BlankIff(pad);
    BlankIff("");
    hide TrimSpace, TrimRight, White;
    if tail == "" {
      assert pad + tail == "" + pad;
      TrimRightOf("", pad);
    } else {
      var post := tail[2..];
      assert pad + tail == pad + "@@" + post;
      SolidEnd(pad);
      TrimRightOf(pad + "@@", post);
      SuffixGone(pad);
    }
  }

  lemma SolidEnd(pad: string)
    ensures var s := pad + "@@"; !White(s[|s| - 1])
  {
  }

  lemma SuffixGone(pad: string)
    ensures TrimSuffix(pad + "@@", "@@") == pad
  {
  }

  /** The parts of a line that begins with the marker, as the parser takes it apart. */
  lemma HeaderParts(line: string) returns (a: string, x: string, b: string, mark: string, post: string)
    requires HasPrefix(line, "@@")
    ensures line == "@@" + (a + x + b) + mark + post
    ensures Blank(a) && Blank(b) && Blank(post) && mark in {"", "@@"}
    ensures x == TrimSpace(TrimSuffix(TrimPrefix(TrimSpace(line), "@@"), "@@"))
  {
    var inner := line[2..];
    assert line == "@@" + inner;
    MarkerTrimmed(inner);
    post := TrimRightMeans(inner);
    var body := TrimRight(inner);
    hide TrimSpace, TrimRight, Blank;
    assert TrimPrefix("@@" + body, "@@") == body;
    var s := TrimSuffix(body, "@@");
    mark := SuffixOf(body);
    a, b := TrimSpaceMeans(s);
    x := TrimSpace(s);
  }

  lemma MarkerTrimmed(inner: string)
    ensures TrimSpace("@@" + inner) == "@@" + TrimRight(inner)
  {
    assert TrimLeft("@@" + inner) == "@@" + inner;
    TrimRightInside("@@", inner);
  }

  lemma SuffixOf(body: string) returns (mark: string)
    ensures mark in {"", "@@"} && body == TrimSuffix(body, "@@") + mark
  {
    mark := if HasSuffix(body, "@@") then "@@" else "";
  }

  lemma {:induction false} FirstFieldCuts(s: string) returns (rest: string)
    ensures s == FirstField(s) + rest && (rest == "" || White(rest[0]))
  {
    if s == "" || IsSpace(s[0]) {
      rest := s;
    } else {
      rest := FirstFieldCuts(s[1..]);
      assert s == [s[0]] + s[1..];
    }
  }

  lemma PartsSay(line: string, a: string, num: string, size: string, rest: string, b: string, mark: string, post: string, n: int)
    requires line == "@@" + (a + ("-" + num + size + rest) + b) + mark + post
    requires Blank(a) && Blank(b) && Blank(post) && mark in {"", "@@"} && ParseInt(num) == Some(n)
    requires (size == "" || size[0] == ',') && (rest == "" || White(rest[0]))
    ensures HeaderSays(line, n)
  {
    TailGoesOn(size, rest, b, mark, post);
    hide AfterStart, Blank, ParseInt;
    Regroup("@@", a, "-" + num, size + rest, b, mark, post);
    assert "-" + num + size + rest == "-" + num + (size + rest);
    assert "@@" + a + ("-" + num) == "@@" + a + "-" + num;
    assert StartsAt(line, n, a, num, size + rest + b + mark + post);
  }

  lemma Regroup(at: string, a: string, word: string, tail: string, b: string, mark: string, post: string)
    ensures at + (a + (word + tail) + b) + mark + post == at + a + word + (tail + b + mark + post)
  {
    assert a + (word + tail) + b == a + word + (tail + b);
    assert at + (a + word + (tail + b)) == at + a + word + (tail + b);
    var front := at + a + word;
    assert front + (tail + b) + mark == front + (tail + b + mark);
    assert front + (tail + b + mark) + post == front + (tail + b + mark + post);
  }

  lemma TailGoesOn(size: string, rest: string, b: string, mark: string, post: string)
    requires Blank(b) && Blank(post) && mark in {"", "@@"}
    requires (size == "" || size[0] == ',') && (rest == "" || White(rest[0]))
    ensures AfterStart(size + rest + b + mark + post)
  {
    var more := size + rest + b + mark + post;
    if size != "" {
      assert more[0] == size[0];
    } else if rest != "" {
      assert more[0] == rest[0];
    } else if b != "" {
      assert more[0] == b[0] && b[0] in b;
    } else if mark == "" {
      assert more == post && (post != "" ==> post[0] in post);
    } else {
      assert more == "@@" + post && more[2..] == post;
    }
  }

  lemma PartsBare(line: string, a: string, b: string, mark: string, post: string)
    requires line == "@@" + (a + "" + b) + mark + post && Blank(a) && Blank(b) && Blank(post) && mark in {"", "@@"}
    ensures BareHeader(line)
  {
    var pad, tail := if mark == "" then a + b + post else a + b, if mark == "" then "" else mark + post;
    assert line == "@@" + pad + tail;
    assert mark != "" ==> tail[2..] == post;
  }

  /** A header line is read in exactly these ways, and refused otherwise. */
  lemma ParseHeaderMeans(line: string)
    requires HasPrefix(line, "@@")
    ensures forall n: int :: ParseHeader(line) == Ok((n, false)) <==> HeaderSays(line, n)
    ensures ParseHeader(line) == Ok((0, true)) <==> BareHeader(line)
    ensures ParseHeader(line) == Err(BadHeader(line)) <==> !BareHeader(line) && forall n: int :: !HeaderSays(line, n)
  {
    forall n: int | HeaderSays(line, n) ensures ParseHeader(line) == Ok((n, false)) {
      var pad, num, more :| StartsAt(line, n, pad, num, more);
      HeaderReads(line, n, pad, num, more);
    }
    if BareHeader(line) {
      BareHeaderReads(line);
    }
    ParsedIsSaid(line);
  }

  lemma ParsedIsSaid(line: string)
    requires HasPrefix(line, "@@")
    ensures var r := ParseHeader(line);
            || (r == Ok((0, true)) && BareHeader(line))
            || (r.Ok? && !r.value.1 && HeaderSays(line, r.value.0))
            || r == Err(BadHeader(line))
  {
    hide TrimSpace, TrimPrefix, TrimSuffix, HeaderSays, BareHeader, ParseInt;
    var a, x, b, mark, post := HeaderParts(line);
    if x == "" {
      PartsBare(line, a, b, mark, post);
    } else {
      hide ParseHeader;
      FieldSays(line, a, x, b, mark, post);
      ParseByField(line, x);
    }
  }

  /** The parser by the first field of what is inside the markers. */
  lemma ParseByField(line: string, x: string)
    requires x == TrimSpace(TrimSuffix(TrimPrefix(TrimSpace(line), "@@"), "@@")) && x != ""
    ensures ParseHeader(line) == FieldStart(line, FirstField(x))
  {
    hide TrimSpace, TrimPrefix, TrimSuffix, ParseInt, FirstField, Cut;
  }

  function FieldStart(line: string, field: string): Result<(int, bool)> {
    if !HasPrefix(field, "-") then Err(BadHeader(line))
    else
      match ParseInt(Cut(TrimPrefix(field, "-"), ',').0)
      case None => Err(BadHeader(line))
      case Some(n) => Ok((n, false))
  }

  lemma FieldSays(line: string, a: string, x: string, b: string, mark: string, post: string)
    requires line == "@@" + (a + x + b) + mark + post && Blank(a) && Blank(b) && Blank(post) && mark in {"", "@@"}
    ensures var r := FieldStart(line, FirstField(x)); r == Err(BadHeader(line)) || (r.Ok? && !r.value.1 && HeaderSays(line, r.value.0))
  {
    hide HeaderSays, ParseInt, Cut;
    var rest := FirstFieldCuts(x);
    var field := FirstField(x);
    if HasPrefix(field, "-") {
      DashComesOff(field);
      var spec := field[1..];
      var num := Cut(spec, ',').0;
      if ParseInt(num).Some? {
        var size := spec[|num|..];
        assert spec == num + size && (size == "" || size[0] == ',');
        assert x == "-" + num + size + rest;
        PartsSay(line, a, num, size, rest, b, mark, post, ParseInt(num).value);
      }
    }
  }

  lemma DashComesOff(field: string)
    requires HasPrefix(field, "-")
    ensures TrimPrefix(field, "-") == field[1..] && field == "-" + field[1..]
  {
  }

  // ----- the lines of a hunk, with what goes between them ----------------------------------

  predicate Noise(text: string) { text == "" || text == "\\ No newline at end of file" }

  /** A line of a hunk as the format writes it. */
  predicate TaggedAs(text: string, line: HunkLine) {
    text == (match line.kind case Context => " " case Add => "+" case Delete => "-") + line.text
  }

  /** These texts are the lines of the hunk, in order, with noise anywhere between them. */
  predicate Spells(texts: seq<string>, lines: seq<HunkLine>) {
    if texts == [] then lines == []
    else if Noise(texts[0]) then Spells(texts[1..], lines)
    else lines != [] && TaggedAs(texts[0], lines[0]) && Spells(texts[1..], lines[1..])
  }

  datatype Section = Section(header: string, body: seq<string>)

  function SectionLines(sections: seq<Section>): seq<string> {
    if sections == [] then [] else [sections[0].header] + sections[0].body + SectionLines(sections[1..])
  }

  ghost predicate Writes(sec: Section, h: Hunk) {
    && (if h.unspecified then h.oldStart == 0 && BareHeader(sec.header) else HeaderSays(sec.header, h.oldStart))
    && Spells(sec.body, h.lines)
  }

  ghost predicate WritesAll(sections: seq<Section>, hunks: seq<Hunk>) {
    |sections| == |hunks| && forall i :: 0 <= i < |hunks| ==> Writes(sections[i], hunks[i])
  }

  predicate Headless(texts: seq<string>) { forall text <- texts :: !HasPrefix(text, "@@") }

  lemma WrittenHeader(sec: Section, h: Hunk)
    requires Writes(sec, h)
    ensures HasPrefix(sec.header, "@@") && ParseHeader(sec.header) == Ok((h.oldStart, h.unspecified))
  {
    hide Spells, ParseHeader;
    if h.unspecified {
      BareHeaderReads(sec.header);
    } else {
      var pad, num, more :| StartsAt(sec.header, h.oldStart, pad, num, more);
      HeaderReads(sec.header, h.oldStart, pad, num, more);
    }
  }

  lemma {:induction false} BodySpells(texts: seq<string>, lines: seq<HunkLine>, rest: seq<string>, done: seq<Hunk>, cur: Hunk)
    requires Spells(texts, lines)
    ensures ParseUnifiedFrom(texts + rest, done + [cur]) == ParseUnifiedFrom(rest, done + [cur.(lines := cur.lines + lines)])
    decreases |texts|
  {
    if texts == [] {
      assert texts + rest == rest && cur.lines + lines == cur.lines;
    } else {
      var more := texts[1..] + rest;
      assert texts + rest == [texts[0]] + more;
      hide ParseUnifiedFrom, Noise, TaggedAs;
      if Noise(texts[0]) {
        NoiseIsPassed(texts[0], more, done, cur);
        BodySpells(texts[1..], lines, rest, done, cur);
      } else {
        TagOf(texts[0], lines[0]);
        TaggedLineReads(lines[0], more, done, cur);
        BodySpells(texts[1..], lines[1..], rest, done, cur.(lines := cur.lines + [lines[0]]));
        MoreLines(cur, lines);
      }
    }
  }

  lemma TagOf(text: string, line: HunkLine)
    requires TaggedAs(text, line)
    ensures text == [Tag(line.kind)] + line.text
  {
  }

  lemma NoiseIsPassed(text: string, rest: seq<string>, done: seq<Hunk>, cur: Hunk)
    requires Noise(text)
    ensures ParseUnifiedFrom([text] + rest, done + [cur]) == ParseUnifiedFrom(rest, done + [cur])
  {
    assert text != "" ==> text[0] == '\\';
    assert ([text] + rest)[1..] == rest;
  }

  lemma {:induction false} SectionsRead(sections: seq<Section>, hunks: seq<Hunk>, rest: seq<string>, done: seq<Hunk>)
    requires WritesAll(sections, hunks)
    ensures ParseUnifiedFrom(SectionLines(sections) + rest, done) == ParseUnifiedFrom(rest, done + hunks)
    decreases |sections|
  {
    hide ParseUnifiedFrom, Writes;
    if sections == [] {
      assert SectionLines(sections) + rest == rest && done + hunks == done;
    } else {
      FirstWrites(sections, hunks);
      hide WritesAll;
      var sec, h, more := sections[0], hunks[0], SectionLines(sections[1..]) + rest;
      assert SectionLines(sections) + rest == [sec.header] + (sec.body + more);
      hide SectionLines;
      SectionReads(sec, h, more, done);
      SectionsRead(sections[1..], hunks[1..], rest, done + [h]);
      assert done + [h] + hunks[1..] == done + hunks;
    }
  }

  lemma FirstWrites(sections: seq<Section>, hunks: seq<Hunk>)
    requires WritesAll(sections, hunks)
    ensures |sections| == |hunks|
    ensures sections != [] ==> Writes(sections[0], hunks[0]) && WritesAll(sections[1..], hunks[1..])
  {
    hide Writes;
  }

  lemma SectionReads(sec: Section, h: Hunk, more: seq<string>, done: seq<Hunk>)
    requires Writes(sec, h)
    ensures ParseUnifiedFrom([sec.header] + (sec.body + more), done) == ParseUnifiedFrom(more, done + [h])
  {
    WrittenHeader(sec, h);
    hide ParseHeader, HeaderSays, BareHeader, Spells;
    var all, start := [sec.header] + (sec.body + more), Hunk(h.oldStart, h.unspecified, []);
    assert all[0] == sec.header && all[1..] == sec.body + more;
    assert ParseUnifiedFrom(all, done) == ParseUnifiedFrom(sec.body + more, done + [start]);
    hide ParseUnifiedFrom;
    BodySpells(sec.body, h.lines, more, done, start);
    assert [] + h.lines == h.lines;
  }

  lemma {:induction false} PrologueIsPassed(prologue: seq<string>, rest: seq<string>)
    requires Headless(prologue)
    ensures ParseUnifiedFrom(prologue + rest, []) == ParseUnifiedFrom(rest, [])
    decreases |prologue|
  {
    if prologue == [] {
      assert prologue + rest == rest;
    } else {
      assert (prologue + rest)[0] == prologue[0] && (prologue + rest)[1..] == prologue[1..] + rest;
      assert prologue[0] in prologue;
      PrologueIsPassed(prologue[1..], rest);
    }
  }

  function DiffLines(prologue: seq<string>, sections: seq<Section>): seq<string> { prologue + SectionLines(sections) }

  /** Any text in the format parses to its hunks: file headers or anything else without a
      marker in front, any text after the start lines, noise between the lines. */
  lemma FormatParses(prologue: seq<string>, sections: seq<Section>, hunks: seq<Hunk>)
    requires Headless(prologue) && WritesAll(sections, hunks)
    ensures ParseUnifiedFrom(DiffLines(prologue, sections), []) == Ok(hunks)
  {
    hide ParseUnifiedFrom, SectionLines, WritesAll;
    PrologueIsPassed(prologue, SectionLines(sections));
    SectionsRead(sections, hunks, [], []);
    assert SectionLines(sections) + [] == SectionLines(sections) && [] + hunks == hunks;
    NoLinesLeft(hunks);
  }

  // ----- the first fault ---------------------------------------------------------------------

  /** No line of a hunk: neither tagged nor noise nor a header. */
  predicate Foreign(text: string) { text != "" && text[0] !in {' ', '+', '-', '@'} && !Noise(text) }

  /** A header that says nothing ends the parse, and is named. */
  lemma BadHeaderNamed(prologue: seq<string>, sections: seq<Section>, hunks: seq<Hunk>, header: string, rest: seq<string>)
    requires Headless(prologue) && WritesAll(sections, hunks)
    requires HasPrefix(header, "@@") && !BareHeader(header) && forall n: int :: !HeaderSays(header, n)
    ensures ParseUnifiedFrom(DiffLines(prologue, sections) + ([header] + rest), []) == Err(BadHeader(header))
  {
    ParseHeaderMeans(header);
    var last := [header] + rest;
    hide SectionLines, WritesAll, ParseHeader, BareHeader, HeaderSays;
    assert last[0] == header && ParseUnifiedFrom(last, hunks) == Err(BadHeader(header));
    hide ParseUnifiedFrom;
    assert DiffLines(prologue, sections) + last == prologue + (SectionLines(sections) + last);
    PrologueIsPassed(prologue, SectionLines(sections) + last);
    SectionsRead(sections, hunks, last, []);
    assert [] + hunks == hunks;
  }

  /** So does a line in a hunk that belongs to no hunk. */
  lemma ForeignLineNamed(prologue: seq<string>, sections: seq<Section>, hunks: seq<Hunk>, text: string, rest: seq<string>)
    requires Headless(prologue) && WritesAll(sections, hunks) && hunks != []
    requires Foreign(text) || (HasPrefix(text, "@") && !HasPrefix(text, "@@"))
    ensures ParseUnifiedFrom(DiffLines(prologue, sections) + ([text] + rest), []) == Err(UnexpectedLine(text))
  {
    var last := [text] + rest;
    hide SectionLines, WritesAll, ParseHeader;
    assert last[0] == text && ParseUnifiedFrom(last, hunks) == Err(UnexpectedLine(text));
    hide ParseUnifiedFrom;
    assert DiffLines(prologue, sections) + last == prologue + (SectionLines(sections) + last);
    PrologueIsPassed(prologue, SectionLines(sections) + last);
    SectionsRead(sections, hunks, last, []);
    assert [] + hunks == hunks;
  }
}
