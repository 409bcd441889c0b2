/**
 Strings as both the Python script and the Rust crates of this repository see them:
 Unicode white space, stripping, and lines that keep their terminating newline.
 */
module Text {

  /** The characters that Python's `str.strip` removes. */
  predicate IsSpace(c: char) {
    || '\t' <= c <= '\r'
    || '\U{1C}' <= c <= ' '
    || c == '\U{85}' || c == '\U{A0}' || c == '\U{1680}'
    || '\U{2000}' <= c <= '\U{200A}'
    || c == '\U{2028}' || c == '\U{2029}' || c == '\U{202F}' || c == '\U{205F}' || c == '\U{3000}'
  }

  /** The characters that Rust's `char::is_whitespace` accepts: the same without four separators. */
  predicate IsWhiteSpace(c: char) {
    IsSpace(c) && !('\U{1C}' <= c <= '\U{1F}')
  }

  /** Both white spaces, character by character. */
  lemma SpacesAre(c: char)
    ensures IsWhiteSpace(c) <==>
      c in {'\t', '\n', '\U{B}', '\U{C}', '\r', ' ', '\U{85}', '\U{A0}', '\U{1680}', '\U{2000}', '\U{2001}', '\U{2002}',
            '\U{2003}', '\U{2004}', '\U{2005}', '\U{2006}', '\U{2007}', '\U{2008}', '\U{2009}', '\U{200A}',
            '\U{2028}', '\U{2029}', '\U{202F}', '\U{205F}', '\U{3000}'}
    ensures IsSpace(c) <==> IsWhiteSpace(c) || c in {'\U{1C}', '\U{1D}', '\U{1E}', '\U{1F}'}
  {
  }

  predicate IsDigit(c: char) {
    '0' <= c <= '9'
  }

  predicate AllWhiteSpace(s: string) {
    forall i :: 0 <= i < |s| ==> IsWhiteSpace(s[i])
  }

  /** The lower case of an ASCII letter. */
  function Lower(c: char): char {
    if 'A' <= c <= 'Z' then c + 32 as char else c
  }

  function Lowered(s: string): (r: string)
    ensures |r| == |s| && forall i :: 0 <= i < |s| ==> r[i] == Lower(s[i])
  {
    if s == "" then "" else [Lower(s[0])] + Lowered(s[1..])
  }

  const UPPER := "ABCDEFGHIJKLMNOPQRSTUVWXYZ"
  const LOWER := "abcdefghijklmnopqrstuvwxyz"

  lemma UpperInOrder(i: nat)
    requires i < 26
    ensures |UPPER| == 26 && UPPER[i] as int == 'A' as int + i
  {
  }

  lemma LowerInOrder(i: nat)
    requires i < 26
    ensures |LOWER| == 26 && LOWER[i] as int == 'a' as int + i
  {
  }

  lemma LettersAre(c: char)
    ensures c in UPPER <==> 'A' <= c <= 'Z'
    ensures c in LOWER <==> 'a' <= c <= 'z'
  {
    hide *;
    UpperInOrder(0);
    LowerInOrder(0);
    if c in UPPER {
      var i :| 0 <= i < |UPPER| && UPPER[i] == c;
      UpperInOrder(i);
    }
    if c in LOWER {
      var i :| 0 <= i < |LOWER| && LOWER[i] == c;
      LowerInOrder(i);
    }
    if 'A' <= c <= 'Z' {
      UpperInOrder(c as int - 'A' as int);
    }
    if 'a' <= c <= 'z' {
      LowerInOrder(c as int - 'a' as int);
    }
  }

  /** Each upper case letter becomes the lower case letter at the same place, any other character stays. */
  lemma LowerIs(c: char, i: nat)
    ensures c !in UPPER ==> Lower(c) == c
    ensures i < 26 && |UPPER| == |LOWER| == 26 && UPPER[i] == c ==> Lower(c) == LOWER[i]
  {
    hide UPPER, LOWER;
    LettersAre(c);
    if i < 26 {
      UpperInOrder(i);
      LowerInOrder(i);
    }
  }

  predicate Blank(s: string) {
    forall i :: 0 <= i < |s| ==> IsSpace(s[i])
  }

  /** No white space at either end. */
  predicate Trimmed(s: string) {
    s == "" || (!IsSpace(s[0]) && !IsSpace(s[|s| - 1]))
  }

  /** The longest suffix that does not begin with white space. */
  function LStrip(s: string): (r: string)
    ensures r == "" || !IsSpace(r[0])
  {
    if s != "" && IsSpace(s[0]) then LStrip(s[1..]) else s
  }

  /** The longest prefix that does not end in white space. */
  function RStrip(s: string): (r: string)
    ensures r == "" || !IsSpace(r[|r| - 1])
  {
    if s != "" && IsSpace(s[|s| - 1]) then RStrip(s[..|s| - 1]) else s
  }

  function Strip(s: string): string {
    RStrip(LStrip(s))
  }

  lemma BlankConcat(a: string, b: string)
    ensures Blank(a + b) <==> Blank(a) && Blank(b)
  {
    if Blank(a + b) {
      assert forall i :: 0 <= i < |a| ==> a[i] == (a + b)[i];
      assert forall i :: 0 <= i < |b| ==> b[i] == (a + b)[|a| + i];
    }
  }

  lemma {:induction false} LStripSplit(s: string) returns (a: string)
    ensures Blank(a) && s == a + LStrip(s)
  {
    if s != "" && IsSpace(s[0]) {
      a := LStripSplit(s[1..]);
      a := [s[0]] + a;
    } else {
      a := "";
    }
  }

  lemma {:induction false} RStripSplit(s: string) returns (b: string)
    ensures Blank(b) && s == RStrip(s) + b
  {
    if s != "" && IsSpace(s[|s| - 1]) {
      b := RStripSplit(s[..|s| - 1]);
      b := b + [s[|s| - 1]];
    } else {
      b := "";
    }
  }

  lemma {:induction false} LStripIs(a: string, core: string)
    requires Blank(a) && (core == "" || !IsSpace(core[0]))
    ensures LStrip(a + core) == core
  {
    if a == "" {
      assert a + core == core;
    } else {
      LStripIs(a[1..], core);
      assert (a + core)[1..] == a[1..] + core;
    }
  }

  lemma {:induction false} RStripIs(core: string, b: string)
    requires Blank(b) && (core == "" || !IsSpace(core[|core| - 1]))
    ensures RStrip(core + b) == core
  {
    hide IsSpace;
    if b == "" {
      assert core + b == core;
    } else {
      RStripIs(core, b[..|b| - 1]);
      assert (core + b)[..|core + b| - 1] == core + b[..|b| - 1];
    }
  }

  /** Every string is its stripped core between two stretches of white space. */
  lemma StripSplit(s: string) returns (a: string, b: string)
    ensures Blank(a) && Blank(b) && s == a + Strip(s) + b && Trimmed(Strip(s))
  {
    a := LStripSplit(s);
    b := RStripSplit(LStrip(s));
    assert s == a + (Strip(s) + b);
    assert Strip(s) != "" ==> Strip(s)[0] == LStrip(s)[0];
  }

  /** Stripping is determined by any split into white space, a trimmed core and white space. */
  lemma StripIs(a: string, core: string, b: string)
    requires Blank(a) && Trimmed(core) && Blank(b)
    ensures Strip(a + core + b) == core
  {
    if core == "" {
      assert a + core + b == (a + b) + "";
      BlankConcat(a, b);
      LStripIs(a + b, "");
    } else {
      assert a + core + b == a + (core + b);
      LStripIs(a, core + b);
      RStripIs(core, b);
    }
  }

  lemma StripTrimmed(s: string)
    requires Trimmed(s)
    ensures Strip(s) == s && RStrip(s) == s
  {
  }

  lemma StripBlank(s: string)
    ensures Blank(s) <==> Strip(s) == ""
  {
    var a, b := StripSplit(s);
    BlankConcat(a, b);
    if Blank(s) {
      BlankConcat(a + Strip(s), b);
      BlankConcat(a, Strip(s));
    } else {
      assert Strip(s) == "" ==> s == a + b;
    }
  }

  lemma RStripBlank(s: string)
    ensures Blank(s) <==> RStrip(s) == ""
  {
    var b := RStripSplit(s);
    BlankConcat(RStrip(s), b);
  }

  /** Stripping ignores white space added at either end. */
  lemma StripPad(a: string, s: string, b: string)
    requires Blank(a) && Blank(b)
    ensures Strip(a + s + b) == Strip(s)
  {
    var x, y := StripSplit(s);
    BlankConcat(a, x);
    BlankConcat(y, b);
    assert a + s + b == (a + x) + Strip(s) + (y + b);
    StripIs(a + x, Strip(s), y + b);
  }

  lemma RStripConcat(a: string, b: string)
    ensures Blank(b) ==> RStrip(a + b) == RStrip(a)
    ensures !Blank(b) ==> RStrip(a + b) == a + RStrip(b)
  {
    hide RStrip, Blank;
    RStripBlank(b);
    if Blank(b) {
      var c := RStripSplit(a);
      BlankConcat(c, b);
      assert a + b == RStrip(a) + (c + b);
      RStripIs(RStrip(a), c + b);
    } else {
      var r := RStrip(b);
      var c := RStripSplit(b);
      assert a + b == (a + r) + c;
      assert (a + r)[|a + r| - 1] == r[|r| - 1];
      RStripIs(a + r, c);
    }
  }

  lemma ConcatCancel(a: string, b: string, c: string)
    ensures a + c == b + c <==> a == b
  {
    if a + c == b + c {
      assert a == (a + c)[..|a|] && b == (b + c)[..|b|];
    }
  }

  lemma PrefixCancel(a: string, b: string, c: string)
    ensures a + b == a + c <==> b == c
  {
    if a + b == a + c {
      assert b == (a + b)[|a|..] && c == (a + c)[|a|..];
    }
  }

  // ---- Lines ----

  /** The first line of a text, with its newline when it has one. */
  function Head(s: string): (l: string)
    ensures |l| <= |s|
    ensures s != "" ==> l != ""
  {
    if s == "" then "" else if s[0] == '\n' then [s[0]] else [s[0]] + Head(s[1..])
  }

  /** Everything after the first line. */
  function Tail(s: string): (t: string)
    ensures |Head(s)| + |t| == |s|
  {
    s[|Head(s)|..]
  }

  /** Empty, or ending in a newline. */
  predicate Complete(s: string) {
    s != "" ==> s[|s| - 1] == '\n'
  }

  /** A single line, complete or not. */
  predicate IsLine(l: string) {
    l != "" && forall i :: 0 <= i < |l| - 1 ==> l[i] != '\n'
  }

  lemma {:induction false} HeadTail(s: string)
    ensures s == Head(s) + Tail(s)
  {
    if s != "" && s[0] != '\n' {
      HeadTail(s[1..]);
      assert Tail(s) == Tail(s[1..]);
    }
  }

  lemma {:induction false} HeadIsLine(s: string)
    requires s != ""
    ensures IsLine(Head(s)) && s == Head(s) + Tail(s)
    ensures Tail(s) != "" ==> Complete(Head(s))
  {
    HeadTail(s);
    if s[0] != '\n' && |s| > 1 {
      HeadIsLine(s[1..]);
    }
  }

  lemma {:induction false} HeadOfLine(l: string, s: string)
    requires IsLine(l) && (Complete(l) || s == "")
    ensures Head(l + s) == l && Tail(l + s) == s
  {
    if |l| > 1 {
      HeadOfLine(l[1..], s);
      assert (l + s)[1..] == l[1..] + s;
      assert l[0] != '\n';
    } else if l[0] != '\n' {
      assert l + s == l;
    }
  }

  lemma HeadConcat(a: string, c: string)
    requires a != "" && (Complete(Head(a)) || c == "")
    ensures Head(a + c) == Head(a) && Tail(a + c) == Tail(a) + c
  {
    hide *;
    HeadIsLine(a);
    if c == "" {
      assert a + c == a && Tail(a) + c == Tail(a);
    } else {
      HeadOfLine(Head(a), Tail(a) + c);
      assert a + c == Head(a) + (Tail(a) + c);
    }
  }

  lemma CompleteTail(s: string)
    requires s != "" && Complete(s)
    ensures Complete(Head(s)) && Complete(Tail(s))
  {
    HeadIsLine(s);
    if Tail(s) != "" {
      assert Tail(s)[|Tail(s)| - 1] == s[|s| - 1];
    } else {
      assert Head(s) + "" == Head(s);
    }
  }

  function CountNewlines(s: string): nat {
    if s == "" then 0 else (if s[0] == '\n' then 1 else 0) + CountNewlines(s[1..])
  }

  lemma {:induction false} CountNewlinesConcat(a: string, b: string)
    ensures CountNewlines(a + b) == CountNewlines(a) + CountNewlines(b)
  {
    if a == "" {
      assert a + b == b;
    } else {
      CountNewlinesConcat(a[1..], b);
      assert (a + b)[1..] == a[1..] + b;
    }
  }

  // ---- Searching ----

  predicate BeginsWith(s: string, p: string)
    decreases |p|
  {
    p == "" || (s != "" && s[0] == p[0] && BeginsWith(s[1..], p[1..]))
  }

  lemma {:induction false} BeginsWithSplit(s: string, p: string)
    ensures BeginsWith(s, p) <==> |p| <= |s| && s[..|p|] == p
    decreases |p|
  {
    if p != "" && s != "" {
      BeginsWithSplit(s[1..], p[1..]);
      if |p| <= |s| {
        assert s[..|p|] == [s[0]] + s[1..][..|p| - 1];
        assert p == [p[0]] + p[1..];
      }
    }
  }

  /** The number of positions at which `p` occurs in `s`. */
  function CountOccurrences(s: string, p: string): nat {
    if s == "" then 0 else (if BeginsWith(s, p) then 1 else 0) + CountOccurrences(s[1..], p)
  }

  /** The first position at which `p` occurs in `s`. */
  function IndexOf(s: string, p: string): (k: nat)
    requires CountOccurrences(s, p) > 0
    ensures k + |p| <= |s|
    ensures BeginsWith(s[k..], p)
  {
    BeginsWithSplit(s, p);
    if BeginsWith(s, p) then
      assert s[0..] == s;
      0
    else
      var k := IndexOf(s[1..], p);
      assert s[1..][k..] == s[k + 1..];
      k + 1
  }
}
