/** What the string functions of Text mean, said of the bytes alone. */
module Strings {
  import opened Text

  // ----- white space ---------------------------------------------------------------------

  predicate White(c: char) { c in {' ', '\t', '\n', '\r', 11 as char, 12 as char} }

  predicate Blank(s: string) { forall c <- s :: White(c) }

  /** No white space at either end. */
  predicate Tight(s: string) { s != "" ==> !White(s[0]) && !White(s[|s| - 1]) }

  /** What is between the white space at both ends of s. */
  predicate Around(s: string, pre: string, mid: string, post: string) {
    s == pre + mid + post && Blank(pre) && Blank(post) && Tight(mid)
  }

  lemma {:induction false} TrimLeftMeans(s: string) returns (pre: string)
    ensures Blank(pre) && s == pre + TrimLeft(s)
    ensures var t := TrimLeft(s); t != "" ==> !White(t[0])
  {
    if s != "" && IsSpace(s[0]) {
      var rest := TrimLeftMeans(s[1..]);
      pre := [s[0]] + rest;
      assert s == [s[0]] + s[1..];
    } else {
      pre := "";
    }
  }

  lemma {:induction false} TrimRightMeans(s: string) returns (post: string)
    ensures Blank(post) && s == TrimRight(s) + post
    ensures var t := TrimRight(s); t != "" ==> !White(t[|t| - 1])
  {
    if s != "" && IsSpace(s[|s| - 1]) {
      var rest := TrimRightMeans(s[..|s| - 1]);
      post := rest + [s[|s| - 1]];
      assert s == s[..|s| - 1] + [s[|s| - 1]];
    } else {
      post := "";
      assert s + "" == s;
    }
  }

  /** TrimSpace takes white space off both ends and leaves none there. */
  lemma TrimSpaceMeans(s: string) returns (pre: string, post: string)
    ensures Around(s, pre, TrimSpace(s), post)
  {
    pre := TrimLeftMeans(s);
    post := TrimRightMeans(TrimLeft(s));
    var t := TrimSpace(s);
    assert pre + (t + post) == pre + t + post;
    assert t != "" ==> t[0] == TrimLeft(s)[0];
  }

  lemma {:induction false} TrimLeftOf(pre: string, s: string)
    requires Blank(pre) && (s != "" ==> !White(s[0]))
    ensures TrimLeft(pre + s) == s
  {
    if pre == "" {
      assert pre + s == s;
    } else {
      assert (pre + s)[1..] == pre[1..] + s && pre[0] in pre;
      TrimLeftOf(pre[1..], s);
    }
  }

  lemma {:induction false} TrimRightOf(s: string, post: string)
    requires Blank(post) && (s != "" ==> !White(s[|s| - 1]))
    ensures TrimRight(s + post) == s
  {
    if post == "" {
      assert s + post == s;
    } else {
      assert (s + post)[..|s + post| - 1] == s + post[..|post| - 1] && post[|post| - 1] in post;
      TrimRightOf(s, post[..|post| - 1]);
    }
  }

  /** And what is left is determined by that. */
  lemma TrimSpaceOf(pre: string, s: string, post: string)
    requires Blank(pre) && Blank(post) && Tight(s)
    ensures TrimSpace(pre + s + post) == s
  {
    assert pre + s + post == pre + (s + post);
    if s == "" {
      assert s + post == post && pre + post == (pre + post) + "";
      TrimLeftOf(pre + post, "");
    } else {
      TrimLeftOf(pre, s + post);
      TrimRightOf(s, post);
    }
  }

  lemma BlankIff(s: string)
    ensures TrimSpace(s) == "" <==> Blank(s)
  {
    var pre, post := TrimSpaceMeans(s);
    if Blank(s) {
      TrimSpaceOf(s, "", "");
      assert s + "" + "" == s;
    } else {
      assert forall c :: c in pre + TrimSpace(s) + post <==> c in pre || c in TrimSpace(s) || c in post;
    }
  }

  /** Trimming only the right end of what begins with a visible byte. */
  lemma {:induction false} TrimRightInside(head: string, more: string)
    requires head != "" && !White(head[|head| - 1])
    ensures TrimRight(head + more) == head + TrimRight(more)
  {
    if more != "" && IsSpace(more[|more| - 1]) {
      assert (head + more)[..|head + more| - 1] == head + more[..|more| - 1];
      TrimRightInside(head, more[..|more| - 1]);
    } else if more == "" {
      assert head + more == head;
    }
  }

  // ----- lines ---------------------------------------------------------------------------

  /** Every carriage return before a newline goes, wherever it stands; nothing else does,
      as NormalizeNLIdentity says. */
  lemma {:induction false} NormalizeNLAt(a: string, b: string)
    ensures NormalizeNL(a + "\r\n" + b) == NormalizeNL(a) + "\n" + NormalizeNL(b)
  {
    var s := a + "\r\n" + b;
    if a == "" {
      assert s[2..] == b;
      assert "" + "\n" + NormalizeNL(b) == "\n" + NormalizeNL(b);
    } else if |a| >= 2 && a[0] == '\r' && a[1] == '\n' {
      assert s[2..] == a[2..] + "\r\n" + b;
      NormalizeNLAt(a[2..], b);
      assert "\n" + (NormalizeNL(a[2..]) + "\n" + NormalizeNL(b)) == "\n" + NormalizeNL(a[2..]) + "\n" + NormalizeNL(b);
    } else {
      assert s[1..] == a[1..] + "\r\n" + b;
      NormalizeNLAt(a[1..], b);
      assert [s[0]] + (NormalizeNL(a[1..]) + "\n" + NormalizeNL(b)) == [s[0]] + NormalizeNL(a[1..]) + "\n" + NormalizeNL(b);
    }
  }

  /** Contains finds sub wherever it stands. */
  lemma {:induction false} ContainsMeans(s: string, sub: string)
    ensures Contains(s, sub) <==> exists i :: 0 <= i <= |s| && sub <= s[i..]
  {
    assert s[0..] == s;
    if s != "" {
      ContainsMeans(s[1..], sub);
      if Contains(s[1..], sub) {
        var i :| 0 <= i <= |s[1..]| && sub <= s[1..][i..];
        assert s[1..][i..] == s[i + 1..];
      }
      if i :| 0 <= i <= |s| && sub <= s[i..] {
        if i > 0 {
          assert s[1..][i - 1..] == s[i..];
        }
      }
    }
  }

  /** Some line of s begins with `start`. */
  predicate SomeLine(s: string, start: string) { exists line <- Split(s) :: HasPrefix(line, start) }

  lemma {:induction false} FirstLineStarts(s: string, start: string)
    requires '\n' !in start
    ensures HasPrefix(Split(s)[0], start) <==> HasPrefix(s, start)
  {
    if s != "" && start != "" && s[0] == start[0] {
      var rest := Split(s[1..]);
      assert forall c <- start[1..] :: c in start;
      FirstLineStarts(s[1..], start[1..]);
      assert Split(s)[0] == [s[0]] + rest[0];
      hide Split;
      PrefixCons(s[0], start[1..], s[1..]);
      PrefixCons(s[0], start[1..], rest[0]);
      assert start == [s[0]] + start[1..] && s == [s[0]] + s[1..];
    }
  }

  lemma PrefixCons(c: char, a: string, b: string)
    ensures [c] + a <= [c] + b <==> a <= b
  {
    assert ([c] + a)[1..] == a && ([c] + b)[1..] == b;
  }

  lemma {:induction false} LaterLineStarts(s: string, start: string)
    requires '\n' !in start
    ensures (exists line <- Split(s)[1..] :: HasPrefix(line, start)) <==> Contains(s, "\n" + start)
  {
    if s != "" {
      var rest, sub := Split(s[1..]), "\n" + start;
      LaterLineStarts(s[1..], start);
      if s[0] == '\n' {
        FirstLineStarts(s[1..], start);
        assert sub <= s <==> start <= s[1..] by {
          assert s == "\n" + s[1..] && sub[1..] == start;
        }
        assert Split(s)[1..] == rest;
        assert forall line :: line in rest <==> line == rest[0] || line in rest[1..];
      } else {
        assert Split(s)[1..] == rest[1..];
        assert sub[0] == '\n' && !(sub <= s);
      }
    }
  }

  /** A line begins with `start` exactly when s does, or a newline in s is followed by it. */
  lemma LineStarts(s: string, start: string)
    requires '\n' !in start
    ensures SomeLine(s, start) <==> HasPrefix(s, start) || Contains(s, "\n" + start)
  {
    FirstLineStarts(s, start);
    LaterLineStarts(s, start);
    var lines := Split(s);
    hide Contains, Split, HasPrefix;
    assert forall line :: line in lines <==> line == lines[0] || line in lines[1..];
  }

  // ----- decimal numbers -------------------------------------------------------------------

  function Zeros(k: nat): string { if k == 0 then "" else "0" + Zeros(k - 1) }

  lemma {:induction false} DigitsSnoc(s: string, c: char)
    requires AllDigits(s) && IsDigit(c)
    ensures AllDigits(s + [c]) && DigitsValue(s + [c]) == 10 * DigitsValue(s) + DigitValue(c)
  {
    assert (s + [c])[..|s|] == s;
  }

  lemma {:induction false} ZerosValue(k: nat)
    ensures AllDigits(Zeros(k)) && DigitsValue(Zeros(k)) == 0
  {
    if k > 0 {
      ZerosValue(k - 1);
      ZerosSnoc(k - 1);
      DigitsSnoc(Zeros(k - 1), '0');
    }
  }

  lemma {:induction false} ZerosSnoc(k: nat)
    ensures "0" + Zeros(k) == Zeros(k) + "0"
  {
    if k > 0 {
      ZerosSnoc(k - 1);
    }
  }

  lemma {:induction false} PaddedValue(k: nat, n: nat)
    ensures var s := Zeros(k) + FormatNat(n); AllDigits(s) && DigitsValue(s) == n
  {
    var d := ('0' as int + n % 10) as char;
    ZerosValue(k);
    if n >= 10 {
      PaddedValue(k, n / 10);
      assert Zeros(k) + FormatNat(n) == Zeros(k) + FormatNat(n / 10) + [d];
      DigitsSnoc(Zeros(k) + FormatNat(n / 10), d);
    } else {
      DigitsSnoc(Zeros(k), d);
    }
  }

  lemma SignedValue(sign: string, digits: string)
    requires sign in {"", "+", "-"} && digits != "" && AllDigits(digits) && digits[0] in digits
    ensures ParseInt(sign + digits) ==
            var v: int := if sign == "-" then 0 - DigitsValue(digits) else DigitsValue(digits); if MIN_INT64 <= v <= MAX_INT64 then Some(v) else None
  {
    hide DigitsValue;
    var s := sign + digits;
    if sign == "" {
      assert s == digits;
    } else {
      assert s[0] == sign[0] && s[1..] == digits;
    }
  }

  /** A number may carry a sign and leading zeros; one that does not fit 64 bits is refused. */
  lemma ParseIntReads(sign: string, k: nat, n: nat)
    requires sign in {"", "+", "-"}
    ensures ParseInt(sign + Zeros(k) + FormatNat(n)) ==
            var v: int := if sign == "-" then 0 - n else n; if MIN_INT64 <= v <= MAX_INT64 then Some(v) else None
  {
    var digits := Zeros(k) + FormatNat(n);
    PaddedValue(k, n);
    hide FormatNat, Zeros, DigitsValue;
    assert digits[0] in digits;
    assert sign + Zeros(k) + FormatNat(n) == sign + digits;
    SignedValue(sign, digits);
  }

  /** Anything else is no number. */
  lemma ParseIntRefuses(s: string, i: nat)
    requires i < |s| && !IsDigit(s[i]) && (i == 0 ==> s[0] !in {'+', '-'} || |s| == 1)
    ensures ParseInt(s) == None && ParseInt("") == None
  {
    if i > 0 {
      assert s[1..][i - 1] == s[i];
    }
  }

  // ----- order -------------------------------------------------------------------------------

  /** Strings compare at the first byte in which they differ, and a proper prefix is less. */
  lemma {:induction false} LessIsBytewise(same: string, a: string, b: string)
    requires a == "" || b == "" || a[0] != b[0]
    ensures Less(same + a, same + b) <==> b != "" && (a == "" || a[0] < b[0])
  {
    if same == "" {
      assert same + a == a && same + b == b;
    } else {
      assert (same + a)[1..] == same[1..] + a && (same + b)[1..] == same[1..] + b;
      LessIsBytewise(same[1..], a, b);
    }
  }
}
