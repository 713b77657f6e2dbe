/** Strings as the Go source sees them: sequences of bytes, one `char` per byte.
    Splitting and joining at newlines, trimming, 64-bit decimal numbers, and the
    byte-wise order that sorting and keyset pagination rely on. */
module Text {

  datatype Option<+T> = None | Some(value: T)

  // ----- newlines ----------------------------------------------------------

  /** strings.Split(s, "\n"): never empty, and no piece holds a newline. */
  function Split(s: string): (lines: seq<string>)
    ensures lines != []
    ensures forall line <- lines :: '\n' !in line
  {
    if s == "" then [""]
    else
      var rest := Split(s[1..]);
      if s[0] == '\n' then [""] + rest else [[s[0]] + rest[0]] + rest[1..]
  }

  /** strings.Join(lines, "\n"). */
  function Join(lines: seq<string>): string {
    if lines == [] then ""
    else if |lines| == 1 then lines[0]
    else lines[0] + "\n" + Join(lines[1..])
  }

  lemma {:induction false} JoinSplit(s: string)
    ensures Join(Split(s)) == s
  {
    if s != "" {
      var rest := Split(s[1..]);
      JoinSplit(s[1..]);
      if s[0] == '\n' {
        assert ([""] + rest)[1..] == rest;
        assert "" + "\n" + s[1..] == s;
      } else {
        assert ([[s[0]] + rest[0]] + rest[1..])[1..] == rest[1..];
        assert [s[0]] + s[1..] == s;
        if |rest| > 1 {
          assert [s[0]] + rest[0] + "\n" + Join(rest[1..]) == [s[0]] + Join(rest);
        }
      }
    }
  }

  lemma {:induction false} SplitCons(line: string, rest: string)
    requires '\n' !in line
    ensures Split(line + "\n" + rest) == [line] + Split(rest)
    ensures Split(line) == [line]
  {
    if line == "" {
      assert line + "\n" + rest == "\n" + rest;
    } else {
      SplitCons(line[1..], rest);
      assert (line + "\n" + rest)[1..] == line[1..] + "\n" + rest;
      assert [line[0]] + line[1..] == line;
    }
  }

  lemma {:induction false} SplitJoin(lines: seq<string>)
    requires lines != []
    requires forall line <- lines :: '\n' !in line
    ensures Split(Join(lines)) == lines
  {
    if |lines| == 1 {
      SplitCons(lines[0], "");
    } else {
      SplitJoin(lines[1..]);
      SplitCons(lines[0], Join(lines[1..]));
    }
  }

  lemma {:induction false} JoinInjective(a: seq<string>, b: seq<string>)
    requires a != [] && b != []
    requires forall line <- a + b :: '\n' !in line
    requires Join(a) == Join(b)
    ensures a == b
  {
    assert forall line <- a :: line in a + b;
    assert forall line <- b :: line in a + b;
    SplitJoin(a);
    SplitJoin(b);
  }

  lemma {:induction false} JoinSnoc(lines: seq<string>, last: string)
    ensures Join(lines + [last]) == if lines == [] then last else Join(lines) + "\n" + last
  {
    if lines == [] {
      assert lines + [last] == [last];
    } else {
      assert (lines + [last])[1..] == lines[1..] + [last];
      JoinSnoc(lines[1..], last);
    }
  }

  /** strings.ReplaceAll(s, "\r\n", "\n"). */
  function NormalizeNL(s: string): string {
    if s == "" then ""
    else if |s| >= 2 && s[0] == '\r' && s[1] == '\n' then "\n" + NormalizeNL(s[2..])
    else [s[0]] + NormalizeNL(s[1..])
  }

  ghost predicate NoCRLF(s: string) {
    forall i :: 0 <= i < |s| - 1 ==> !(s[i] == '\r' && s[i + 1] == '\n')
  }

  lemma {:induction false} NormalizeNLIdentity(s: string)
    requires NoCRLF(s)
    ensures NormalizeNL(s) == s
  {
    if s != "" {
      assert NoCRLF(s[1..]) by {
        forall i | 0 <= i < |s[1..]| - 1 ensures !(s[1..][i] == '\r' && s[1..][i + 1] == '\n') {
          assert !(s[i + 1] == '\r' && s[i + 2] == '\n');
        }
      }
      NormalizeNLIdentity(s[1..]);
      assert [s[0]] + s[1..] == s;
      assert |s| >= 2 ==> !(s[0] == '\r' && s[0 + 1] == '\n');
    }
  }

  lemma NoCRLFConcat(a: string, b: string)
    requires NoCRLF(a) && NoCRLF(b)
    requires a == "" || b == "" || !(a[|a| - 1] == '\r' && b[0] == '\n')
    ensures NoCRLF(a + b)
  {
    var s := a + b;
    forall i | 0 <= i < |s| - 1 ensures !(s[i] == '\r' && s[i + 1] == '\n') {
      if i + 1 < |a| {
        assert !(a[i] == '\r' && a[i + 1] == '\n');
      } else if |a| <= i {
        assert !(b[i - |a|] == '\r' && b[i - |a| + 1] == '\n');
      }
    }
  }

  /** A line that survives CRLF normalisation when a newline follows it. */
  predicate CleanLine(line: string) {
    '\n' !in line && (line != "" ==> line[|line| - 1] != '\r')
  }

  lemma {:induction false} CleanJoinNoCRLF(lines: seq<string>)
    requires forall line <- lines :: CleanLine(line)
    ensures NoCRLF(Join(lines))
  {
    if |lines| == 1 {
      assert CleanLine(lines[0]);
      assert forall i :: 0 <= i < |lines[0]| ==> lines[0][i] in lines[0];
    } else if lines != [] {
      CleanJoinNoCRLF(lines[1..]);
      assert CleanLine(lines[0]);
      assert forall i :: 0 <= i < |lines[0]| ==> lines[0][i] in lines[0];
      NoCRLFConcat(lines[0], "\n");
      NoCRLFConcat(lines[0] + "\n", Join(lines[1..]));
    }
  }

  lemma CleanJoinSplits(lines: seq<string>)
    requires lines != [] && forall line <- lines :: CleanLine(line)
    ensures Split(NormalizeNL(Join(lines))) == lines
  {
    CleanJoinNoCRLF(lines);
    NormalizeNLIdentity(Join(lines));
    SplitJoin(lines);
  }

  lemma {:induction false} NormalizeNLSuffix(s: string)
    ensures EndsWithNL(NormalizeNL(s)) == EndsWithNL(s)
    ensures NormalizeNL(s) == "" <==> s == ""
  {
    if s == "" {
    } else if |s| >= 2 && s[0] == '\r' && s[1] == '\n' {
      NormalizeNLSuffix(s[2..]);
      LastOfConcat("\n", NormalizeNL(s[2..]));
    } else {
      NormalizeNLSuffix(s[1..]);
      LastOfConcat([s[0]], NormalizeNL(s[1..]));
    }
  }

  /** strings.HasSuffix(s, "\n"). */
  predicate EndsWithNL(s: string) { s != "" && s[|s| - 1] == '\n' }

  lemma LastOfConcat(a: string, b: string)
    ensures EndsWithNL(a + b) == if b == "" then EndsWithNL(a) else EndsWithNL(b)
  {
    if b != "" {
      assert (a + b)[|a + b| - 1] == b[|b| - 1];
    } else {
      assert a + b == a;
    }
  }

  // ----- prefixes, suffixes, white space -----------------------------------

  predicate HasPrefix(s: string, prefix: string) { prefix <= s }

  predicate HasSuffix(s: string, suffix: string) {
    |suffix| <= |s| && s[|s| - |suffix|..] == suffix
  }

  function TrimPrefix(s: string, prefix: string): string {
    if HasPrefix(s, prefix) then s[|prefix|..] else s
  }

  function TrimSuffix(s: string, suffix: string): string {
    if HasSuffix(s, suffix) then s[..|s| - |suffix|] else s
  }

  /** strings.Contains. */
  predicate Contains(s: string, sub: string) {
    sub <= s || (s != "" && Contains(s[1..], sub))
  }

  predicate IsSpace(c: char) {
    c in {' ', '\t', '\n', '\r', 11 as char, 12 as char}
  }

  function TrimLeft(s: string): string {
    if s != "" && IsSpace(s[0]) then TrimLeft(s[1..]) else s
  }

  function TrimRight(s: string): string {
    if s != "" && IsSpace(s[|s| - 1]) then TrimRight(s[..|s| - 1]) else s
  }

  function TrimSpace(s: string): string { TrimRight(TrimLeft(s)) }

  /** Neither end is white space, so trimming changes nothing. */
  predicate Trimmed(s: string) {
    s == "" || (!IsSpace(s[0]) && !IsSpace(s[|s| - 1]))
  }

  /** The part of s before the first occurrence of sep, and whether there is one. */
  function Cut(s: string, sep: char): (r: (string, string, bool))
    ensures !r.2 ==> r.0 == s && sep !in s
    ensures r.2 ==> s == r.0 + [sep] + r.1
    ensures sep !in r.0
  {
    if s == "" then ("", "", false)
    else if s[0] == sep then ("", s[1..], true)
    else var r := Cut(s[1..], sep); ([s[0]] + r.0, r.1, r.2)
  }

  lemma {:induction false} CutAt(head: string, sep: char, tail: string)
    requires sep !in head
    ensures Cut(head + [sep] + tail, sep) == (head, tail, true)
    ensures Cut(head, sep) == (head, "", false)
  {
    if head != "" {
      CutAt(head[1..], sep, tail);
      assert (head + [sep] + tail)[1..] == head[1..] + [sep] + tail;
      assert [head[0]] + head[1..] == head;
    } else {
      assert head + [sep] + tail == [sep] + tail;
    }
  }

  // ----- decimal numbers ----------------------------------------------------

  const MIN_INT64: int := -0x8000_0000_0000_0000
  const MAX_INT64: int := 0x7fff_ffff_ffff_ffff
  type int64 = x: int | -0x8000_0000_0000_0000 <= x <= 0x7fff_ffff_ffff_ffff

  predicate IsDigit(c: char) { '0' <= c <= '9' }

  function DigitValue(c: char): nat
    requires IsDigit(c)
  {
    c as int - '0' as int
  }

  predicate AllDigits(s: string) { forall c <- s :: IsDigit(c) }

  function FormatNat(n: nat): (s: string)
    ensures s != "" && AllDigits(s)
  {
    var d := ('0' as int + n % 10) as char;
    if n < 10 then [d] else FormatNat(n / 10) + [d]
  }

  function DigitsValue(s: string): nat
    requires AllDigits(s)
  {
    if s == "" then 0 else 10 * DigitsValue(s[..|s| - 1]) + DigitValue(s[|s| - 1])
  }

  lemma {:induction false} FormatNatValue(n: nat)
    ensures DigitsValue(FormatNat(n)) == n
  {
    var s := FormatNat(n);
    if n >= 10 {
      FormatNatValue(n / 10);
      assert s[..|s| - 1] == FormatNat(n / 10);
    } else {
      assert s[..|s| - 1] == "";
    }
  }

  /** strconv.FormatInt(n, 10). */
  function FormatInt(n: int): string {
    if n < 0 then "-" + FormatNat(-n) else FormatNat(n)
  }

  /** strconv.ParseInt(s, 10, 64), and strconv.Atoi where int has 64 bits. */
  function ParseInt(s: string): Option<int64> {
    var digits := if s != "" && s[0] in {'+', '-'} then s[1..] else s;
    if digits == "" || !AllDigits(digits) then None
    else
      var v: int := DigitsValue(digits);
      var n: int := if s[0] == '-' then -v else v;
      if MIN_INT64 <= n <= MAX_INT64 then Some(n) else None
  }

  lemma ParseFormatInt(n: int64)
    ensures ParseInt(FormatInt(n)) == Some(n)
    ensures forall c <- FormatInt(n) :: IsDigit(c) || c == '-'
    ensures FormatInt(n) != ""
  {
    var m: int := n;
    var abs: nat := if m < 0 then -m else m;
    FormatNatValue(abs);
    var s := FormatNat(abs);
    assert IsDigit(s[0]);
    assert n < 0 ==> FormatInt(n)[1..] == s;
  }

  // ----- byte-wise order ----------------------------------------------------

  /** a < b for Go strings, and for TEXT columns in SQL. */
  predicate Less(a: string, b: string) {
    b != "" && (a == "" || a[0] < b[0] || (a[0] == b[0] && Less(a[1..], b[1..])))
  }

  lemma {:induction false} LessTotal(a: string, b: string)
    ensures !(Less(a, b) && Less(b, a))
    ensures a != b <==> Less(a, b) || Less(b, a)
  {
    if a != "" && b != "" && a[0] == b[0] {
      LessTotal(a[1..], b[1..]);
      assert a == [a[0]] + a[1..] && b == [b[0]] + b[1..];
    }
  }

  lemma {:induction false} LessTransitive(a: string, b: string, c: string)
    requires Less(a, b) && Less(b, c)
    ensures Less(a, c)
  {
    if a != "" && a[0] == b[0] == c[0] {
      LessTransitive(a[1..], b[1..], c[1..]);
    }
  }
}
