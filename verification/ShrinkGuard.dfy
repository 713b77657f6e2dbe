/** The guard against lost content: what a modify by a diff without deletion lines keeps,
    and the deletions the guard does not see (internal/plan/payload.go). */
module ShrinkGuard {
  import opened Text
  import opened Sequences
  import opened Patch
  import opened Payload

  // ----- a modify that deletes nothing loses nothing ----------------------------

  predicate Flat(line: string) { '\n' !in line }

  /** Single lines, and the only deletions the guard overlooks: lines that begin with two
      dashes. */
  predicate DashedDeletes(lines: seq<HunkLine>) {
    forall line <- lines :: Flat(line.text) && (line.kind.Delete? ==> HasPrefix(line.text, "--"))
  }

  predicate NotDeletion(line: string) { Flat(line) && (HasPrefix(line, "-") ==> HasPrefix(line, "---")) }

  lemma BodyLineDashed(line: string)
    requires line != "" && NotDeletion(line)
    ensures BodyLine(line).Ok? ==> DashedDeletes([BodyLine(line).value])
  {
  }

  lemma {:induction false} UnifiedDashed(lines: seq<string>, hunks: seq<Hunk>)
    requires forall line <- lines :: NotDeletion(line)
    requires forall h <- hunks :: DashedDeletes(h.lines)
    requires ParseUnifiedFrom(lines, hunks).Ok?
    ensures forall h <- ParseUnifiedFrom(lines, hunks).value :: DashedDeletes(h.lines)
    decreases |lines|
  {
    if lines != [] {
      var line := lines[0];
      hide NotDeletion, ParseHeader, BodyLine;
      if HasPrefix(line, "@@") {
        UnifiedDashed(lines[1..], hunks + [Hunk(ParseHeader(line).value.0, ParseHeader(line).value.1, [])]);
      } else if hunks == [] || line == NO_NEWLINE || line == "" {
        UnifiedDashed(lines[1..], hunks);
      } else {
        assert NotDeletion(line);
        BodyLineDashed(line);
        UnifiedDashed(lines[1..], AddLine(hunks, BodyLine(line).value));
      }
    }
  }

  lemma {:induction false} RawDashed(lines: seq<string>)
    requires forall line <- lines :: NotDeletion(line)
    requires ParseRawFrom(lines).Ok?
    ensures DashedDeletes(ParseRawFrom(lines).value)
    decreases |lines|
  {
    if lines != [] {
      hide NotDeletion, RawSkips, BodyLine;
      RawDashed(lines[1..]);
      assert NotDeletion(lines[0]);
      if !RawSkips(lines[0]) {
        RawSkipsBlank(lines[0]);
        BodyLineDashed(lines[0]);
      }
    }
  }

  lemma RawSkipsBlank(line: string)
    ensures line == "" ==> RawSkips(line)
  {
  }

  lemma {:induction false} DeletesAreOld(lines: seq<HunkLine>)
    ensures forall line <- lines :: line.kind.Delete? ==> line.text in OldSide(lines)
    ensures (forall line <- lines :: !line.kind.Delete?) ==> Count(lines, Delete) == 0
  {
    if lines != [] {
      DeletesAreOld(lines[1..]);
    }
  }

  lemma WindowMembers(src: seq<string>, at: int, want: seq<string>)
    requires Matches(src, at, want)
    ensures forall line <- want :: line in src
  {
    forall i | 0 <= i < |want| ensures want[i] in src {
      assert src[at + i] == src[at..at + |want|][i];
    }
  }

  /** Hunks that apply only delete lines the source has. */
  lemma {:induction false} NoDashNoDeletes(src: seq<string>, hunks: seq<Hunk>, index: nat, cursor: nat)
    requires cursor <= |src| && ApplyFrom(src, hunks, index, cursor).Ok?
    requires forall h <- hunks :: DashedDeletes(h.lines)
    requires forall line <- src :: !HasPrefix(line, "--")
    ensures CountAll(hunks, Delete) == 0
    decreases |hunks|
  {
    if hunks != [] {
      hide Position, FirstMatch, OldSide, Count, HasPrefix;
      var h := hunks[0];
      var at := Position(src, h, cursor);
      NoDashNoDeletes(src, hunks[1..], index + 1, at + |OldSide(h.lines)|);
      WindowMembers(src, at, OldSide(h.lines));
      assert DashedDeletes(h.lines);
      DeletesAreOld(h.lines);
      assert forall line <- h.lines :: line.kind.Delete? ==> line.text in src;
    }
  }

  /** What comes out are lines of the file and of the hunks. */
  lemma {:induction false} OutputFlat(src: seq<string>, hunks: seq<Hunk>, index: nat, cursor: nat)
    requires cursor <= |src| && ApplyFrom(src, hunks, index, cursor).Ok?
    requires (forall line <- src :: Flat(line)) && forall h <- hunks :: DashedDeletes(h.lines)
    ensures AllFlat(ApplyFrom(src, hunks, index, cursor).value)
    decreases |hunks|
  {
    hide AllFlat, Flat, DashedDeletes, Position, OldSide, NewSide;
    if |hunks| > 0 {
      var h := hunks[0];
      var at := Position(src, h, cursor);
      assert DashedDeletes(h.lines);
      NewSideFlat(h.lines);
      OutputFlat(src, hunks[1..], index + 1, at + |OldSide(h.lines)|);
      WindowFlat(src, cursor, at);
      FlatConcat(src[cursor..at], NewSide(h.lines));
      FlatConcat(src[cursor..at] + NewSide(h.lines), ApplyFrom(src, hunks[1..], index + 1, at + |OldSide(h.lines)|).value);
    } else {
      WindowFlat(src, cursor, |src|);
      assert src[cursor..] == src[cursor..|src|];
    }
  }

  predicate AllFlat(lines: seq<string>) { forall line <- lines :: Flat(line) }

  lemma FlatConcat(a: seq<string>, b: seq<string>)
    requires AllFlat(a) && AllFlat(b)
    ensures AllFlat(a + b)
  {
    hide Flat;
  }

  lemma WindowFlat(src: seq<string>, from: nat, to: nat)
    requires from <= to <= |src| && forall line <- src :: Flat(line)
    ensures AllFlat(src[from..to])
  {
    hide Flat;
    assert forall line <- src[from..to] :: line in src;
  }

  lemma {:induction false} NewSideFlat(lines: seq<HunkLine>)
    requires DashedDeletes(lines)
    ensures AllFlat(NewSide(lines))
  {
    if lines != [] {
      hide Flat;
      NewSideFlat(lines[1..]);
    }
  }

  /** The modified file still has every line of the original, in order. */
  ghost predicate KeepsLines(original: string, modified: string) {
    exists lines: seq<string> ::
      AllFlat(lines) && modified == JoinLines(lines, original) && Subsequence(SplitLines(original), lines)
  }

  /** The promise of the guard: an accepted diff without deletion lines loses nothing. */
  ghost predicate GuardHolds(original: string) {
    forall payload: string, marker: string -> bool ::
      LooksLikeDiff(payload) && !PatchDeletesContent(payload) && ApplyModify(original, payload, marker).Bytes? ==>
        KeepsLines(original, ApplyModify(original, payload, marker).text)
  }

  lemma ModifyKeepsLines(original: string, payload: string, marker: string -> bool)
    requires LooksLikeDiff(payload) && !PatchDeletesContent(payload)
    requires ApplyModify(original, payload, marker).Bytes?
    requires forall line <- SplitLines(original) :: !HasPrefix(line, "--")
    ensures KeepsLines(original, ApplyModify(original, payload, marker).text)
  {
    var src := SplitLines(original);
    var raw := Split(NormalizeNL(payload));
    assert forall line <- src :: Flat(line);
    assert forall line <- raw :: NotDeletion(line);
    hide LooksLikeDiff, PatchDeletesContent, PlaceholderInDiff, NotDeletion, Split, NormalizeNL, SplitLines, JoinLines, Subsequence, Flat;
    UnifiedDashed(raw, []);
    var hunks := ParseUnified(payload).value;
    if hunks == [] {
      RawDashed(raw);
      hunks := ParseRaw(payload).value;
    }
    NoDashNoDeletes(src, hunks, 0, 0);
    AddOnlyKeepsEveryLine(src, hunks, 0, 0);
    OutputFlat(src, hunks, 0, 0);
    assert src[0..] == src;
    var lines := ApplyLines(src, hunks).value;
    assert ApplyModify(original, payload, marker).text == JoinLines(lines, original);
  }

  // ----- a deletion the guard does not see --------------------------------------------------

  /** A line as long as n that is not the deleted one. */
  function Filler(n: nat): string { seq(n, i => 'x') }

  /** The hunk that trades the dashed line k for a filler. */
  function Trade(original: string, k: nat, dashed: string): Hunk {
    Hunk(k + 1, false, [HunkLine(Add, Filler(|original|)), HunkLine(Delete, dashed)])
  }

  /** Its text: a header, an added line, and a deletion that reads like a file header. */
  function TradeLines(original: string, k: nat, dashed: string): seq<string> {
    [Header(Trade(original, k, dashed), k + 1), "+" + Filler(|original|), "-" + dashed]
  }

  lemma LastLineMayBeRaw(lines: seq<string>, last: string)
    requires (forall line <- lines :: CleanLine(line)) && Flat(last)
    ensures Split(Join(lines + [last])) == lines + [last] && Split(NormalizeNL(Join(lines + [last]))) == lines + [last]
  {
    JoinSnoc(lines, last);
    assert NoCRLF(last) by { assert forall i :: 0 <= i < |last| ==> last[i] in last; }
    if lines != [] {
      CleanJoinNoCRLF(lines);
      JoinEndsClean(lines);
      NoCRLFConcat(Join(lines), "\n");
      NoCRLFConcat(Join(lines) + "\n", last);
    }
    NormalizeNLIdentity(Join(lines + [last]));
    SplitJoin(lines + [last]);
  }

  lemma {:induction false} JoinEndsClean(lines: seq<string>)
    requires forall line <- lines :: CleanLine(line)
    ensures Join(lines) != "" ==> Join(lines)[|Join(lines)| - 1] != '\r'
  {
    if |lines| > 1 {
      JoinEndsClean(lines[1..]);
    } else if |lines| == 1 {
      assert CleanLine(lines[0]);
    }
  }

  lemma FillerClean(n: nat)
    ensures CleanLine("+" + Filler(n)) && Flat(Filler(n))
  {
    assert forall c <- Filler(n) :: c == 'x';
    var line := "+" + Filler(n);
    assert forall c <- line :: c == '+' || c == 'x';
    assert line[|line| - 1] in line;
  }

  lemma TradeTextSplits(original: string, k: nat, dashed: string)
    requires k + 1 <= MAX_INT64 && Flat(dashed)
    ensures var lines := TradeLines(original, k, dashed);
            Split(Join(lines)) == lines && Split(NormalizeNL(Join(lines))) == lines
  {
    var lines := TradeLines(original, k, dashed);
    HeaderShape(Trade(original, k, dashed), k + 1);
    FillerClean(|original|);
    hide Header, Filler, CleanLine;
    assert lines == lines[..2] + [lines[2]] && lines[..2] == [lines[0], lines[1]];
    LastLineMayBeRaw(lines[..2], lines[2]);
  }

  lemma TradeParses(original: string, k: nat, dashed: string)
    requires k + 1 <= MAX_INT64 && Flat(dashed)
    ensures ParseUnified(Join(TradeLines(original, k, dashed))) == Ok([Trade(original, k, dashed)])
  {
    var h, lines := Trade(original, k, dashed), TradeLines(original, k, dashed);
    TradeTextSplits(original, k, dashed);
    hide Split, NormalizeNL, Join, Header, ParseUnifiedFrom, Filler;
    TradeTagged(h.lines[0], h.lines[1]);
    assert lines == [Header(h, k + 1)] + Tagged(h.lines) + [];
    HunkParses(h, k + 1, [], []);
    assert [] + [h] == [h];
    NoLinesLeft([h]);
  }

  lemma TradeTagged(a: HunkLine, b: HunkLine)
    ensures Tagged([a, b]) == [[Tag(a.kind)] + a.text, [Tag(b.kind)] + b.text]
  {
    assert [a, b][1..] == [b] && [b][1..] == [];
    assert Tagged([b]) == [[Tag(b.kind)] + b.text];
  }

  /** The trade looks like a diff without deletions and without placeholders. */
  lemma TradeIsUnseen(original: string, k: nat, dashed: string, marker: string -> bool)
    requires k + 1 <= MAX_INT64 && Flat(dashed) && HasPrefix(dashed, "--")
    ensures var payload := Join(TradeLines(original, k, dashed));
            LooksLikeDiff(payload) && !PatchDeletesContent(payload) && !PlaceholderInDiff(payload, marker)
  {
    var lines := TradeLines(original, k, dashed);
    TradeTextSplits(original, k, dashed);
    HeaderShape(Trade(original, k, dashed), k + 1);
    hide Split, NormalizeNL, Join, Header, Filler, CleanLine;
    assert lines[0] in lines;
    assert lines[0][0] == '@' && lines[1][0] == '+';
    assert HasPrefix(lines[2], "---") by {
      assert dashed[..2] == "--" && lines[2][..3] == "-" + dashed[..2];
    }
  }

  /** Line k traded for a filler. */
  function Traded(src: seq<string>, k: nat, filler: string): seq<string>
    requires k < |src|
  {
    src[..k] + [filler] + src[k + 1..]
  }

  lemma TradeApplies(original: string, src: seq<string>, k: nat)
    requires k < |src|
    ensures ApplyLines(src, [Trade(original, k, src[k])]) == Ok(Traded(src, k, Filler(|original|)))
  {
    var h, filler := Trade(original, k, src[k]), Filler(|original|);
    hide Filler;
    TradeSides(h.lines[0], h.lines[1]);
    hide OldSide, NewSide;
    assert src[k..k + 1] == [src[k]];
    HeaderPositionWins(src, h, 0, k);
    hide Position;
    assert [h][1..] == [] && src[0..k] == src[..k];
    assert ApplyFrom(src, [h], 0, 0) == Prepend(src[0..k] + [filler], ApplyFrom(src, [], 1, k + 1));
  }

  lemma TradeSides(a: HunkLine, b: HunkLine)
    requires a.kind.Add? && b.kind.Delete?
    ensures OldSide([a, b]) == [b.text] && NewSide([a, b]) == [a.text]
  {
    assert [a, b][1..] == [b] && [b][1..] == [];
    assert OldSide([b]) == [b.text] && NewSide([b]) == [];
  }

  lemma {:induction false} JoinAtLeast(lines: seq<string>, k: nat)
    requires k < |lines|
    ensures |Join(lines)| >= |lines[k]|
  {
    if k > 0 {
      JoinAtLeast(lines[1..], k - 1);
    }
  }

  /** A line that begins with two dashes can be lost: a diff the guard lets pass trades it
      for other text. */
  lemma DashedLineCanVanish(original: string, k: nat, marker: string -> bool)
    requires k < |SplitLines(original)| < MAX_INT64 && HasPrefix(SplitLines(original)[k], "--")
    ensures var src := SplitLines(original);
            var payload := Join(TradeLines(original, k, src[k]));
            && LooksLikeDiff(payload) && !PatchDeletesContent(payload)
            && ApplyModify(original, payload, marker) == Bytes(JoinLines(Traded(src, k, Filler(|original|)), original))
  {
    var src := SplitLines(original);
    var dashed := src[k];
    assert Flat(dashed);
    var payload, lines := Join(TradeLines(original, k, dashed)), Traded(src, k, Filler(|original|));
    TradeParses(original, k, dashed);
    TradeIsUnseen(original, k, dashed, marker);
    TradeApplies(original, src, k);
    JoinAtLeast(lines, k);
    assert lines[k] == Filler(|original|);
    hide LooksLikeDiff, PatchDeletesContent, PlaceholderInDiff, ParseUnified, ParseRaw, SplitLines, Join, TradeLines, Traded, Filler, ApplyLines;
  }

  lemma TradeLosesLine(original: string, k: nat)
    requires k < |SplitLines(original)| && HasPrefix(SplitLines(original)[k], "--")
    ensures !KeepsLines(original, JoinLines(Traded(SplitLines(original), k, Filler(|original|)), original))
  {
    var src := SplitLines(original);
    var traded := Traded(src, k, Filler(|original|));
    assert traded[k] == Filler(|original|) && src[k][0] == '-';
    assert Filler(|original|) != src[k] by { assert |original| > 0 ==> Filler(|original|)[0] == 'x'; }
    FillerClean(|original|);
    assert forall line <- traded :: Flat(line);
    hide SplitLines, Traded, Filler;
    forall lines: seq<string> | (forall line <- lines :: Flat(line)) && JoinLines(traded, original) == JoinLines(lines, original)
      ensures !Subsequence(src, lines)
    {
      if lines != [] {
        SameLines(traded, lines, original);
      } else {
        NoSubsequenceOfNothing(src);
      }
      if Subsequence(src, traded) {
        EqualLengthSubsequence(src, traded);
      }
    }
  }

  lemma SameLines(a: seq<string>, b: seq<string>, original: string)
    requires a != [] && b != [] && (forall line <- a :: Flat(line)) && (forall line <- b :: Flat(line))
    requires JoinLines(a, original) == JoinLines(b, original)
    ensures a == b
  {
    hide Join;
    assert (Join(a) + "\n")[..|Join(a)|] == Join(a) && (Join(b) + "\n")[..|Join(b)|] == Join(b);
    JoinInjective(a, b);
  }

  /** The guard keeps its promise for a file exactly when no line of it begins with two
      dashes. */
  lemma GuardHoldsIff(original: string)
    requires |SplitLines(original)| < MAX_INT64
    ensures GuardHolds(original) <==> forall line <- SplitLines(original) :: !HasPrefix(line, "--")
  {
    hide LooksLikeDiff, PatchDeletesContent, ApplyModify, KeepsLines, SplitLines, HasPrefix;
    if forall line <- SplitLines(original) :: !HasPrefix(line, "--") {
      forall payload: string, marker: string -> bool
        | LooksLikeDiff(payload) && !PatchDeletesContent(payload) && ApplyModify(original, payload, marker).Bytes?
        ensures KeepsLines(original, ApplyModify(original, payload, marker).text)
      {
        ModifyKeepsLines(original, payload, marker);
      }
    } else {
      var line :| line in SplitLines(original) && HasPrefix(line, "--");
      var k :| 0 <= k < |SplitLines(original)| && SplitLines(original)[k] == line;
      DashedLineCanVanish(original, k, (text: string) => false);
      TradeLosesLine(original, k);
    }
  }

  /** A file of three lines for which it fails. */
  lemma GuardFailsOn()
    ensures !GuardHolds("a\n--x\nb")
  {
    var lines, text := ["a", "--x", "b"], "a\n--x\nb";
    ThreeLines("a", "--x", "b");
    CleanJoinSplits(lines);
    NormalizeNLSuffix(text);
    assert !EndsWithNL(text);
    hide Join, Split, NormalizeNL, GuardHolds, HasPrefix, EndsWithNL;
    assert Join(lines) == text;
    GuardHoldsIff(text);
    DashedMiddle(lines);
  }

  lemma DashedMiddle(lines: seq<string>)
    requires |lines| == 3 && lines[1] == "--x"
    ensures exists line <- lines :: HasPrefix(line, "--")
  {
    assert lines[1] in lines && HasPrefix(lines[1], "--");
  }

  lemma ThreeLines(a: string, b: string, c: string)
    ensures Join([a, b, c]) == a + "\n" + (b + "\n" + c)
  {
    assert [a, b, c][1..] == [b, c] && [b, c][1..] == [c];
    assert Join([c]) == c && Join([b, c]) == b + "\n" + c;
  }
}
