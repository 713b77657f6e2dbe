/** The notebook's differ (internal/memory/util.go), and how far the patch engine
    undoes it. */
module Differ {
  import opened Text
  import opened Patch
  import opened Payload

  function DiffLines(s: string): seq<string> {
    if s == "" then [] else Split(NormalizeNL(s))
  }

  // ----- common ends ------------------------------------------------------------

  /** How far a and b agree from index i on. */
  function PrefixFrom(a: seq<string>, b: seq<string>, i: nat): (n: nat)
    requires i <= |a| && i <= |b|
    ensures i <= n <= |a| && n <= |b|
    ensures forall k :: i <= k < n ==> a[k] == b[k]
    ensures n < |a| && n < |b| ==> a[n] != b[n]
    decreases |a| - i
  {
    if i < |a| && i < |b| && a[i] == b[i] then PrefixFrom(a, b, i + 1) else i
  }

  /** The k-th lines counted from the end are there, and equal. */
  predicate SameFromEnd(a: seq<string>, b: seq<string>, k: nat) {
    k < |a| && k < |b| && a[|a| - 1 - k] == b[|b| - 1 - k]
  }

  /** How far a and b agree from the i-th line before the end on. */
  function SuffixFrom(a: seq<string>, b: seq<string>, i: nat): (n: nat)
    requires i <= |a| && i <= |b|
    ensures i <= n <= |a| && n <= |b|
    ensures forall k :: i <= k < n ==> SameFromEnd(a, b, k)
    ensures !SameFromEnd(a, b, n)
    decreases |a| - i
  {
    if SameFromEnd(a, b, i) then SuffixFrom(a, b, i + 1) else i
  }

  method CommonPrefix(a: seq<string>, b: seq<string>) returns (i: nat)
    ensures i == PrefixFrom(a, b, 0)
  {
    var n := if |a| < |b| then |a| else |b|;
    i := 0;
    while i < n && a[i] == b[i]
      invariant i <= n
      invariant PrefixFrom(a, b, 0) == PrefixFrom(a, b, i)
    {
      i := i + 1;
    }
  }

  method CommonSuffix(a: seq<string>, b: seq<string>) returns (i: nat)
    ensures i == SuffixFrom(a, b, 0)
  {
    var n := if |a| < |b| then |a| else |b|;
    i := 0;
    while i < n && a[|a| - 1 - i] == b[|b| - 1 - i]
      invariant i <= n
      invariant SuffixFrom(a, b, 0) == SuffixFrom(a, b, i)
    {
      i := i + 1;
    }
  }

  // ----- the edit script between two line lists ----------------------------------

  function AllOf(kind: HunkKind, lines: seq<string>): seq<HunkLine> {
    if lines == [] then [] else [HunkLine(kind, lines[0])] + AllOf(kind, lines[1..])
  }

  /** Common head, deletions, additions, common tail. */
  function EditLines(head: seq<string>, gone: seq<string>, added: seq<string>, tail: seq<string>): seq<HunkLine> {
    AllOf(Context, head) + AllOf(Delete, gone) + AllOf(Add, added) + AllOf(Context, tail)
  }

  function Edits(a: seq<string>, b: seq<string>): seq<HunkLine> {
    var pre := PrefixFrom(a, b, 0);
    var suf := SuffixFrom(a[pre..], b[pre..], 0);
    EditLines(a[..pre], a[pre..|a| - suf], b[pre..|b| - suf], b[|b| - suf..])
  }

  /** What unified writes: one tagged line per edit. */
  function UnifiedText(before: string, after: string): string {
    Join(Tagged(Edits(DiffLines(before), DiffLines(after))))
  }

  /** Each line followed by a newline, as a builder writes them. */
  function Written(lines: seq<string>): string {
    if lines == [] then "" else lines[0] + "\n" + Written(lines[1..])
  }

  lemma {:induction false} WrittenConcat(a: seq<string>, b: seq<string>)
    ensures Written(a + b) == Written(a) + Written(b)
  {
    if a == [] {
      assert a + b == b;
    } else {
      assert (a + b)[1..] == a[1..] + b;
      WrittenConcat(a[1..], b);
    }
  }

  lemma {:induction false} WrittenIsJoin(lines: seq<string>)
    ensures Written(lines) == if lines == [] then "" else Join(lines) + "\n"
  {
    if lines != [] {
      WrittenIsJoin(lines[1..]);
      if |lines| > 1 {
        assert lines[0] + "\n" + (Join(lines[1..]) + "\n") == (lines[0] + "\n" + Join(lines[1..])) + "\n";
      } else {
        assert lines[0] + "\n" + "" == lines[0] + "\n";
      }
    }
  }

  lemma {:induction false} TaggedConcat(a: seq<HunkLine>, b: seq<HunkLine>)
    ensures Tagged(a + b) == Tagged(a) + Tagged(b)
  {
    if a == [] {
      assert a + b == b;
    } else {
      assert (a + b)[1..] == a[1..] + b;
      TaggedConcat(a[1..], b);
    }
  }

  /** One of the writing loops of unified. */
  method WriteAll(bld: string, kind: HunkKind, lines: seq<string>) returns (out: string)
    ensures out == bld + Written(Tagged(AllOf(kind, lines)))
  {
    out := bld;
    for i := 0 to |lines|
      invariant out + Written(Tagged(AllOf(kind, lines[i..]))) == bld + Written(Tagged(AllOf(kind, lines)))
    {
      assert lines[i..][1..] == lines[i + 1..];
      ghost var rest := Written(Tagged(AllOf(kind, lines[i + 1..])));
      ghost var all := AllOf(kind, lines[i..]);
      assert Tagged(all)[1..] == Tagged(all[1..]) && all[1..] == AllOf(kind, lines[i + 1..]);
      assert out + (([Tag(kind)] + lines[i]) + "\n" + rest) == out + [Tag(kind)] + lines[i] + "\n" + rest;
      out := out + [Tag(kind)];
      out := out + lines[i];
      out := out + "\n";
    }
    assert lines[|lines|..] == [];
    assert out + "" == out;
  }

  method Unified(before: string, after: string) returns (text: string)
    ensures text == UnifiedText(before, after)
  {
    hide Tagged, Written, Join, EditLines, Chomp, DiffLines;
    var a, b := DiffLines(before), DiffLines(after);
    var pre := CommonPrefix(a, b);
    var suf := CommonSuffix(a[pre..], b[pre..]);
    var bld := WriteEdits(a[..pre], a[pre..|a| - suf], b[pre..|b| - suf], b[|b| - suf..]);
    ChompWritten(Tagged(Edits(a, b)));
    text := Chomp(bld);
  }

  /** The four writing loops of unified. */
  method WriteEdits(head: seq<string>, gone: seq<string>, added: seq<string>, tail: seq<string>) returns (bld: string)
    ensures bld == Written(Tagged(EditLines(head, gone, added, tail)))
  {
    hide AllOf, Tagged, Written, EditLines;
    bld := WriteAll("", Context, head);
    bld := WriteAll(bld, Delete, gone);
    bld := WriteAll(bld, Add, added);
    if |tail| > 0 {
      bld := WriteAll(bld, Context, tail);
    } else {
      WriteNothing(bld, tail);
    }
    WrittenParts(head, gone, added, tail);
  }

  lemma WriteNothing(bld: string, lines: seq<string>)
    requires lines == []
    ensures bld == bld + Written(Tagged(AllOf(Context, lines)))
  {
  }

  /** Trimming the last newline of what was written leaves the joined lines. */
  lemma ChompWritten(lines: seq<string>)
    ensures Chomp(Written(lines)) == Join(lines)
  {
    WrittenIsJoin(lines);
    if lines != [] {
      assert (Join(lines) + "\n")[..|Join(lines)|] == Join(lines);
    }
  }

  lemma WrittenParts(head: seq<string>, gone: seq<string>, added: seq<string>, tail: seq<string>)
    ensures Written(Tagged(EditLines(head, gone, added, tail)))
            == "" + Written(Tagged(AllOf(Context, head))) + Written(Tagged(AllOf(Delete, gone)))
               + Written(Tagged(AllOf(Add, added))) + Written(Tagged(AllOf(Context, tail)))
  {
    hide AllOf, Tagged, Written;
    var w, x, y, z := AllOf(Context, head), AllOf(Delete, gone), AllOf(Add, added), AllOf(Context, tail);
    TaggedConcat(w, x);
    TaggedConcat(w + x, y);
    TaggedConcat(w + x + y, z);
    WrittenConcat(Tagged(w), Tagged(x));
    WrittenConcat(Tagged(w + x), Tagged(y));
    WrittenConcat(Tagged(w + x + y), Tagged(z));
  }

  // ----- both files can be read off a diff -----------------------------------------

  lemma {:induction false} OldConcat(a: seq<HunkLine>, b: seq<HunkLine>)
    ensures OldSide(a + b) == OldSide(a) + OldSide(b)
  {
    if a == [] {
      assert a + b == b;
    } else {
      assert (a + b)[1..] == a[1..] + b;
      OldConcat(a[1..], b);
    }
  }

  lemma {:induction false} NewConcat(a: seq<HunkLine>, b: seq<HunkLine>)
    ensures NewSide(a + b) == NewSide(a) + NewSide(b)
  {
    if a == [] {
      assert a + b == b;
    } else {
      assert (a + b)[1..] == a[1..] + b;
      NewConcat(a[1..], b);
    }
  }

  lemma {:induction false} SidesOfAll(kind: HunkKind, lines: seq<string>)
    ensures OldSide(AllOf(kind, lines)) == if kind.Add? then [] else lines
    ensures NewSide(AllOf(kind, lines)) == if kind.Delete? then [] else lines
    ensures forall l <- AllOf(kind, lines) :: l.kind == kind && l.text in lines
  {
    if lines != [] {
      SidesOfAll(kind, lines[1..]);
    }
  }

  lemma EditLinesSides(head: seq<string>, gone: seq<string>, added: seq<string>, tail: seq<string>)
    ensures OldSide(EditLines(head, gone, added, tail)) == head + gone + tail
    ensures NewSide(EditLines(head, gone, added, tail)) == head + added + tail
    ensures forall l <- EditLines(head, gone, added, tail) :: l.text in head + gone + added + tail
  {
    hide AllOf, OldSide, NewSide;
    var w, x, y, z := AllOf(Context, head), AllOf(Delete, gone), AllOf(Add, added), AllOf(Context, tail);
    OldConcat(w, x);
    OldConcat(w + x, y);
    OldConcat(w + x + y, z);
    NewConcat(w, x);
    NewConcat(w + x, y);
    NewConcat(w + x + y, z);
    SidesOfAll(Context, head);
    SidesOfAll(Delete, gone);
    SidesOfAll(Add, added);
    SidesOfAll(Context, tail);
  }

  lemma TailsEqual(a: seq<string>, b: seq<string>, n: nat)
    requires n <= |a| && n <= |b| && forall k :: 0 <= k < n ==> SameFromEnd(a, b, k)
    ensures a[|a| - n..] == b[|b| - n..]
  {
    var x, y := a[|a| - n..], b[|b| - n..];
    forall i | 0 <= i < n ensures x[i] == y[i] {
      assert SameFromEnd(a, b, n - 1 - i);
    }
  }

  lemma CutInThree(a: seq<string>, pre: nat, suf: nat)
    requires pre + suf <= |a|
    ensures a == a[..pre] + a[pre..|a| - suf] + a[pre..][|a[pre..]| - suf..]
    ensures a[pre..][|a[pre..]| - suf..] == a[|a| - suf..]
  {
  }

  lemma CutsMeet(a: seq<string>, b: seq<string>)
    ensures var pre := PrefixFrom(a, b, 0);
            var suf := SuffixFrom(a[pre..], b[pre..], 0);
            && a == a[..pre] + a[pre..|a| - suf] + b[|b| - suf..]
            && b == a[..pre] + b[pre..|b| - suf] + b[|b| - suf..]
  {
    hide SameFromEnd;
    var pre := PrefixFrom(a, b, 0);
    var suf := SuffixFrom(a[pre..], b[pre..], 0);
    assert a[..pre] == b[..pre];
    TailsEqual(a[pre..], b[pre..], suf);
    CutInThree(a, pre, suf);
    CutInThree(b, pre, suf);
  }

  lemma EditsSides(a: seq<string>, b: seq<string>)
    ensures OldSide(Edits(a, b)) == a && NewSide(Edits(a, b)) == b
    ensures forall l <- Edits(a, b) :: l.text in a || l.text in b
  {
    hide OldSide, NewSide, EditLines;
    var pre := PrefixFrom(a, b, 0);
    var suf := SuffixFrom(a[pre..], b[pre..], 0);
    CutsMeet(a, b);
    EditLinesSides(a[..pre], a[pre..|a| - suf], b[pre..|b| - suf], b[|b| - suf..]);
  }

  /** The lines of a diff that do not begin with `skip`, without their tags. */
  function DropTagged(lines: seq<string>, skip: char): seq<string> {
    if lines == [] then []
    else (if lines[0] == "" || lines[0][0] == skip then [] else [lines[0][1..]]) + DropTagged(lines[1..], skip)
  }

  lemma {:induction false} DropTaggedSides(lines: seq<HunkLine>)
    ensures DropTagged(Tagged(lines), '+') == OldSide(lines)
    ensures DropTagged(Tagged(lines), '-') == NewSide(lines)
  {
    if lines != [] {
      DropTaggedSides(lines[1..]);
      var line := [Tag(lines[0].kind)] + lines[0].text;
      assert line[1..] == lines[0].text;
    }
  }

  lemma {:induction false} TaggedNoNewline(lines: seq<HunkLine>)
    requires forall l <- lines :: '\n' !in l.text
    ensures |Tagged(lines)| == |lines|
    ensures forall line <- Tagged(lines) :: '\n' !in line && line != ""
  {
    if lines != [] {
      TaggedNoNewline(lines[1..]);
      assert '\n' !in lines[0].text;
    }
  }

  lemma {:induction false} JoinBlank(lines: seq<string>)
    requires forall line <- lines :: line != ""
    ensures Join(lines) == "" <==> lines == []
  {
    if |lines| == 1 {
      assert lines[0] in lines;
    }
  }

  lemma UnifiedSplits(before: string, after: string)
    ensures var text := UnifiedText(before, after);
            var tagged := Tagged(Edits(DiffLines(before), DiffLines(after)));
            && (text == "" <==> tagged == [])
            && (text != "" ==> Split(text) == tagged)
  {
    var a, b := DiffLines(before), DiffLines(after);
    hide Edits, Tagged, Join;
    EditsSides(a, b);
    TaggedNoNewline(Edits(a, b));
    var tagged := Tagged(Edits(a, b));
    JoinBlank(tagged);
    if tagged != [] {
      SplitJoin(tagged);
    }
  }

  /** Dropping the added lines of a diff leaves the file before, dropping the
      deleted lines leaves the file after. */
  lemma DiffHoldsBothFiles(before: string, after: string)
    ensures var text := UnifiedText(before, after);
            var lines := if text == "" then [] else Split(text);
            && DropTagged(lines, '+') == DiffLines(before)
            && DropTagged(lines, '-') == DiffLines(after)
  {
    UnifiedSplits(before, after);
    EditsSides(DiffLines(before), DiffLines(after));
    DropTaggedSides(Edits(DiffLines(before), DiffLines(after)));
  }

  // ----- when the patch engine undoes the differ -------------------------------------

  /** Edits whose diff line reads like a "--- " or "+++ " file header. */
  predicate HeaderLike(line: HunkLine) {
    || (line.kind.Delete? && HasPrefix(line.text, "-- "))
    || (line.kind.Add? && HasPrefix(line.text, "++ "))
  }

  /** The edits the raw parser does not pass over. */
  function Visible(lines: seq<HunkLine>): seq<HunkLine> {
    if lines == [] then []
    else if HeaderLike(lines[0]) then Visible(lines[1..])
    else [lines[0]] + Visible(lines[1..])
  }

  function Skipped(lines: seq<HunkLine>, kind: HunkKind): seq<string> {
    if lines == [] then []
    else if HeaderLike(lines[0]) && lines[0].kind == kind then [lines[0].text] + Skipped(lines[1..], kind)
    else Skipped(lines[1..], kind)
  }

  lemma TaggedShape(line: HunkLine)
    ensures var text := [Tag(line.kind)] + line.text;
            && !HasPrefix(text, "@@") && (RawSkips(text) <==> HeaderLike(line))
            && text != "" && BodyLine(text) == Ok(line)
  {
    var text := [Tag(line.kind)] + line.text;
    assert text[1..] == line.text;
    assert text[0] != NO_NEWLINE[0];
    assert HasPrefix(text, "--- ") <==> line.kind.Delete? && HasPrefix(line.text, "-- ") by {
      assert "--- "[1..] == "-- ";
      if HasPrefix(line.text, "-- ") {
        assert line.text[..3] == "-- ";
      }
    }
    assert HasPrefix(text, "+++ ") <==> line.kind.Add? && HasPrefix(line.text, "++ ") by {
      assert "+++ "[1..] == "++ ";
      if HasPrefix(line.text, "++ ") {
        assert line.text[..3] == "++ ";
      }
    }
  }

  lemma {:induction false} TaggedAsRaw(lines: seq<HunkLine>)
    ensures ParseRawFrom(Tagged(lines)) == Ok(Visible(lines))
    ensures ParseUnifiedFrom(Tagged(lines), []) == Ok([])
  {
    if lines != [] {
      hide RawSkips, BodyLine, HasPrefix, HeaderLike, Tag;
      TaggedShape(lines[0]);
      TaggedAsRaw(lines[1..]);
      assert Tagged(lines)[1..] == Tagged(lines[1..]);
    }
  }

  lemma {:induction false} SplitChars(s: string)
    ensures forall line <- Split(s) :: forall c <- line :: c in s
  {
    if s != "" {
      SplitChars(s[1..]);
      var rest := Split(s[1..]);
      forall line | line in Split(s) ensures forall c <- line :: c in s {
        assert rest[0] in rest;
        if line !in rest && line != "" {
          assert line == [s[0]] + rest[0];
        }
      }
    }
  }

  lemma NoReturnsClean(s: string)
    requires '\r' !in s
    ensures NormalizeNL(s) == s
    ensures forall line <- DiffLines(s) :: CleanLine(line) && '\r' !in line
  {
    NormalizeNLIdentity(s);
    SplitChars(s);
    forall line | line in DiffLines(s) ensures CleanLine(line) && '\r' !in line {
      assert '\n' !in line;
      if line != "" {
        assert line[|line| - 1] in line;
      }
    }
  }

  /** On such files the diff text reaches the raw parser, which sees Visible(edits). */
  lemma DiffReadsAsRawHunk(a: string, b: string)
    requires '\r' !in a && '\r' !in b
    ensures ApplyPatch(a, UnifiedText(a, b)) == ApplyParsed(a, RawHunks(Visible(Edits(DiffLines(a), DiffLines(b)))))
  {
    var edits := Edits(DiffLines(a), DiffLines(b));
    hide Edits, DiffLines, Join, Split, NormalizeNL, ApplyParsed, Visible;
    EditsSides(DiffLines(a), DiffLines(b));
    NoReturnsClean(a);
    NoReturnsClean(b);
    TaggedAsRaw(edits);
    if edits == [] {
      EmptyDiff();
    } else {
      CleanBodyOf(edits);
      TaggedClean(edits);
      CleanJoinSplits(Tagged(edits));
    }
  }

  lemma EmptyDiff()
    ensures Split(NormalizeNL(Join([]))) == [""]
    ensures ParseRawFrom([""]) == Ok([]) && ParseUnifiedFrom([""], []) == Ok([])
    ensures Visible([]) == [] && Tagged([]) == []
  {
    assert [""][1..] == [];
  }

  lemma {:induction false} CleanBodyOf(lines: seq<HunkLine>)
    requires forall l <- lines :: CleanLine(l.text)
    ensures CleanBody(lines)
  {
    if lines != [] {
      assert CleanLine(lines[0].text);
      CleanBodyOf(lines[1..]);
    }
  }

  lemma {:induction false} VisibleOld(lines: seq<HunkLine>)
    ensures multiset(OldSide(lines)) == multiset(OldSide(Visible(lines))) + multiset(Skipped(lines, Delete))
    ensures forall t <- Skipped(lines, Delete) :: HasPrefix(t, "-- ")
  {
    if lines != [] {
      VisibleOld(lines[1..]);
      var l, v, s := lines[0], Visible(lines[1..]), Skipped(lines[1..], Delete);
      var mine := if l.kind.Add? then [] else [l.text];
      assert OldSide(lines) == mine + OldSide(lines[1..]);
      if HeaderLike(l) {
        assert Skipped(lines, Delete) == mine + s || (mine == [] && Skipped(lines, Delete) == s);
      } else {
        assert ([l] + v)[1..] == v;
        assert OldSide(Visible(lines)) == mine + OldSide(v);
      }
    }
  }

  lemma {:induction false} VisibleNew(lines: seq<HunkLine>)
    ensures multiset(NewSide(lines)) == multiset(NewSide(Visible(lines))) + multiset(Skipped(lines, Add))
    ensures forall t <- Skipped(lines, Add) :: HasPrefix(t, "++ ")
  {
    if lines != [] {
      VisibleNew(lines[1..]);
      var l, v, s := lines[0], Visible(lines[1..]), Skipped(lines[1..], Add);
      var mine := if l.kind.Delete? then [] else [l.text];
      assert NewSide(lines) == mine + NewSide(lines[1..]);
      if HeaderLike(l) {
        assert Skipped(lines, Add) == mine + s || (mine == [] && Skipped(lines, Add) == s);
      } else {
        assert ([l] + v)[1..] == v;
        assert NewSide(Visible(lines)) == mine + NewSide(v);
      }
    }
  }

  lemma {:induction false} VisibleAll(lines: seq<HunkLine>)
    ensures (forall l <- lines :: !HeaderLike(l)) <==> Visible(lines) == lines
    ensures (forall l <- lines :: !HeaderLike(l)) <==> Skipped(lines, Delete) == [] && Skipped(lines, Add) == []
    ensures |Visible(lines)| <= |lines|
  {
    if lines != [] {
      VisibleAll(lines[1..]);
      assert lines == [lines[0]] + lines[1..];
    }
  }

  /** A headless hunk trades its old lines for its new ones. */
  lemma SingleHunkTrades(src: seq<string>, lines: seq<HunkLine>)
    requires ApplyLines(src, [Hunk(0, true, lines)]).Ok?
    ensures multiset(ApplyLines(src, [Hunk(0, true, lines)]).value) + multiset(OldSide(lines))
            == multiset(src) + multiset(NewSide(lines))
    ensures multiset(OldSide(lines)) <= multiset(src)
  {
    var h := Hunk(0, true, lines);
    hide OldSide, NewSide, FirstMatch;
    var at := Position(src, h, 0);
    var want := OldSide(lines);
    assert [h][1..] == [];
    assert ApplyFrom(src, [], 1, at + |want|) == Ok(src[at + |want|..]);
    assert src == src[0..at] + want + src[at + |want|..];
    assert ApplyLines(src, [h]).value == src[0..at] + NewSide(lines) + src[at + |want|..];
  }

  lemma SplitOfTerminated(s: string)
    requires EndsWithNL(s)
    ensures Split(s) == Split(Chomp(s)) + [""]
  {
    var t := Chomp(s);
    JoinSplit(t);
    JoinSnoc(Split(t), "");
    assert s == t + "\n" == t + "\n" + "";
    SplitJoin(Split(t) + [""]);
  }

  lemma DisjointPrefixes(x: seq<string>, y: seq<string>)
    requires multiset(x) == multiset(y)
    requires forall t <- x :: HasPrefix(t, "-- ")
    requires forall t <- y :: HasPrefix(t, "++ ")
    ensures x == [] && y == []
  {
    if x != [] {
      assert x[0] in multiset(x);
      PrefixesClash(x[0]);
    }
    assert |multiset(x)| == |x| && |multiset(y)| == |y|;
  }

  lemma BlankHasNoPrefix(x: seq<string>, prefix: string)
    requires prefix != "" && forall t <- x :: HasPrefix(t, prefix)
    ensures multiset(x)[""] == 0
  {
    assert "" !in x;
  }

  lemma PrefixesClash(t: string)
    ensures !(HasPrefix(t, "-- ") && HasPrefix(t, "++ "))
  {
    assert "-- "[0] != "++ "[0];
  }

  /** The three ways the round trip can go wrong, and nothing else. */
  ghost predicate Undoable(a: string, b: string) {
    && a != "" && !EndsWithNL(a)
    && forall l <- Edits(DiffLines(a), DiffLines(b)) :: !HeaderLike(l)
  }

  lemma UndoableUndoes(a: string, b: string)
    requires '\r' !in a && '\r' !in b && Undoable(a, b)
    ensures ApplyPatch(a, UnifiedText(a, b)) == Ok(b)
  {
    var x, y := DiffLines(a), DiffLines(b);
    var edits := Edits(x, y);
    hide Edits, UnifiedText, ApplyPatch, HeaderLike, Split, NormalizeNL, Join;
    DiffReadsAsRawHunk(a, b);
    VisibleAll(edits);
    EditsSides(x, y);
    NoReturnsClean(a);
    NoReturnsClean(b);
    assert SplitLines(a) == x;
    assert OldSide([]) == [];
    HeadlessReplacesAll(x, edits);
    if b == "" {
    } else {
      JoinSplit(b);
    }
  }

  lemma HeadlessReplacesAll(src: seq<string>, lines: seq<HunkLine>)
    requires OldSide(lines) == src && src != []
    ensures ApplyLines(src, [Hunk(0, true, lines)]) == Ok(NewSide(lines))
  {
    hide OldSide, NewSide;
    var h := Hunk(0, true, lines);
    assert src[0..|src|] == src;
    assert Matches(src, 0, src);
    assert Position(src, h, 0) == 0;
    assert [h][1..] == [];
    assert ApplyFrom(src, [], 1, |src|) == Ok(src[|src|..]);
    assert src[0..0] + NewSide(lines) + src[|src|..] == NewSide(lines);
  }

  /** What one headless hunk does, in terms of the lines the parser kept and skipped. */
  lemma AppliedCounts(a: string, b: string)
    requires '\r' !in a && '\r' !in b
    requires ApplyPatch(a, UnifiedText(a, b)).Ok?
    ensures var edits := Edits(DiffLines(a), DiffLines(b));
            var r := ApplyLines(SplitLines(a), RawHunks(Visible(edits)));
            && Visible(edits) != [] && r.Ok?
            && ApplyPatch(a, UnifiedText(a, b)) == Ok(JoinLines(r.value, a))
            && multiset(r.value) + multiset(OldSide(Visible(edits))) == multiset(SplitLines(a)) + multiset(NewSide(Visible(edits)))
            && multiset(OldSide(Visible(edits))) <= multiset(SplitLines(a))
  {
    hide Edits, UnifiedText, ApplyPatch, SplitLines, JoinLines, ApplyLines, OldSide, NewSide, Visible, DiffLines;
    DiffReadsAsRawHunk(a, b);
    var v := Visible(Edits(DiffLines(a), DiffLines(b)));
    if v != [] {
      SingleHunkTrades(SplitLines(a), v);
    }
  }

  lemma EditCounts(a: seq<string>, b: seq<string>)
    ensures var edits := Edits(a, b);
            && multiset(a) == multiset(OldSide(Visible(edits))) + multiset(Skipped(edits, Delete))
            && multiset(b) == multiset(NewSide(Visible(edits))) + multiset(Skipped(edits, Add))
            && multiset(Skipped(edits, Delete))[""] == 0 && multiset(Skipped(edits, Add))[""] == 0
  {
    var edits := Edits(a, b);
    hide Edits, Visible, Skipped, OldSide, NewSide;
    EditsSides(a, b);
    VisibleOld(edits);
    VisibleNew(edits);
    BlankHasNoPrefix(Skipped(edits, Delete), "-- ");
    BlankHasNoPrefix(Skipped(edits, Add), "++ ");
  }

  /** A file that ends with a newline is one line longer for the differ than for
      the patch engine, so the diff always conflicts. */
  lemma TerminatedConflicts(a: string, b: string)
    requires '\r' !in a && '\r' !in b && EndsWithNL(a)
    ensures ApplyPatch(a, UnifiedText(a, b)).Err?
  {
    hide Edits, UnifiedText, ApplyPatch, ApplyLines, OldSide, NewSide, Visible, Skipped, Split, NormalizeNL, Chomp;
    EditCounts(DiffLines(a), DiffLines(b));
    NoReturnsClean(a);
    SplitOfTerminated(a);
    assert multiset(DiffLines(a))[""] == multiset(SplitLines(a))[""] + 1;
    if ApplyPatch(a, UnifiedText(a, b)).Ok? {
      AppliedCounts(a, b);
    }
  }

  lemma JoinedLines(lines: seq<string>)
    requires lines != [] && forall line <- lines :: CleanLine(line)
    ensures DiffLines(Join(lines) + "\n") == lines + [""]
    ensures Join(lines) != "" ==> DiffLines(Join(lines)) == lines
    ensures Join(lines) == "" ==> lines == [""]
  {
    hide Split, NormalizeNL;
    JoinSnoc(lines, "");
    CleanJoinSplits(lines);
    assert CleanLine("");
    CleanJoinSplits(lines + [""]);
    assert Join(lines) + "\n" + "" == Join(lines) + "\n";
    if Join(lines) == "" {
      CleanJoinSplits([""]);
    }
  }

  lemma {:induction false} SomeSide(lines: seq<HunkLine>)
    ensures lines != [] ==> OldSide(lines) != [] || NewSide(lines) != []
  {
  }

  lemma OutputClean(a: string, b: string, out: seq<string>)
    requires '\r' !in a && '\r' !in b
    requires multiset(out) <= multiset(DiffLines(a)) + multiset(DiffLines(b))
    ensures forall line <- out :: CleanLine(line)
  {
    NoReturnsClean(a);
    NoReturnsClean(b);
    forall line | line in out ensures CleanLine(line) {
      assert line in multiset(out);
      assert line in multiset(DiffLines(a)) || line in multiset(DiffLines(b));
    }
  }

  lemma Cancel(o: multiset<string>, w: multiset<string>, x: multiset<string>, n: multiset<string>, s: multiset<string>)
    requires o + w == x + n && x == w + s
    ensures o == s + n
  {
    assert (o + w) - w == o;
    assert (w + s + n) - w == s + n;
  }

  /** A diff against the empty file comes back with one newline too many. */
  lemma EmptyNeverRestored(b: string)
    requires '\r' !in b
    ensures ApplyPatch("", UnifiedText("", b)) != Ok(b)
  {
    hide Edits, UnifiedText, ApplyPatch, ApplyLines, OldSide, NewSide, Visible, Skipped, Split, NormalizeNL, Join;
    var edits := Edits([], DiffLines(b));
    assert DiffLines("") == [] && SplitLines("") == [];
    EditCounts([], DiffLines(b));
    if ApplyPatch("", UnifiedText("", b)).Ok? {
      AppliedCounts("", b);
      var out := ApplyLines([], RawHunks(Visible(edits))).value;
      SomeSide(Visible(edits));
      var w, n := multiset(OldSide(Visible(edits))), multiset(NewSide(Visible(edits)));
      Cancel(multiset(out), w, multiset{}, n, multiset{});
      assert |multiset(out)| == |out| && |n| == |NewSide(Visible(edits))|;
      OutputClean("", b, out);
      JoinedLines(out);
      assert multiset(out + [""])[""] == multiset(out)[""] + 1;
    }
  }

  /** If the diff restores b, no edit was skipped: skipped deletions would have to
      be the same lines as skipped additions. */
  lemma RestoredSkipsNothing(a: string, b: string)
    requires '\r' !in a && '\r' !in b && a != "" && !EndsWithNL(a)
    requires ApplyPatch(a, UnifiedText(a, b)) == Ok(b)
    ensures forall l <- Edits(DiffLines(a), DiffLines(b)) :: !HeaderLike(l)
  {
    hide Edits, UnifiedText, ApplyPatch, ApplyLines, OldSide, NewSide, Visible, Skipped, Split, NormalizeNL, Join, HeaderLike, HasPrefix;
    var x, y := DiffLines(a), DiffLines(b);
    var edits := Edits(x, y);
    EditCounts(x, y);
    AppliedCounts(a, b);
    NoReturnsClean(a);
    assert SplitLines(a) == x;
    var out := ApplyLines(x, RawHunks(Visible(edits))).value;
    var sd, sa := Skipped(edits, Delete), Skipped(edits, Add);
    Cancel(multiset(out), multiset(OldSide(Visible(edits))), multiset(x), multiset(NewSide(Visible(edits))), multiset(sd));
    OutputClean(a, b, out);
    if out != [] {
      JoinedLines(out);
      assert multiset([""])[""] == 1;
      assert multiset(out)[""] == multiset(y)[""];
    }
    assert y == out;
    Cancel(multiset(sd), multiset(NewSide(Visible(edits))), multiset(y), multiset{}, multiset(sa));
    VisibleOld(edits);
    VisibleNew(edits);
    DisjointPrefixes(sd, sa);
    VisibleAll(edits);
  }

  /** Exactly when applying unified(a, b) to a gives b, for files without carriage
      returns: a is not empty and has no final newline, and no deleted line begins
      with "-- " and no added line with "++ ". */
  lemma PatchUndoesDiffIff(a: string, b: string)
    requires '\r' !in a && '\r' !in b
    ensures ApplyPatch(a, UnifiedText(a, b)) == Ok(b) <==> Undoable(a, b)
  {
    hide Edits, UnifiedText, ApplyPatch, HeaderLike, DiffLines;
    if Undoable(a, b) {
      UndoableUndoes(a, b);
    } else if a == "" {
      EmptyNeverRestored(b);
    } else if EndsWithNL(a) {
      TerminatedConflicts(a, b);
    } else if ApplyPatch(a, UnifiedText(a, b)) == Ok(b) {
      RestoredSkipsNothing(a, b);
    }
  }
}
