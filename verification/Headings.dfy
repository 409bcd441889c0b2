/**
 Fenced blocks and ATX headings, line by line: `transform_headings` and
 `mask_fenced_blocks` of script/changelog.py.
 */
module Headings {
  import opened Results
  import opened Text

  /** The fence state between two lines. */
  datatype Fence = Closed | Open(ch: char, len: nat)

  datatype Marker = Marker(ch: char, len: nat)

  /** How many copies of `c` a string begins with. */
  function LeadingRun(s: string, c: char): (n: nat)
    ensures n <= |s|
    ensures forall i :: 0 <= i < n ==> s[i] == c
    ensures n < |s| ==> s[n] != c
  {
    if s != "" && s[0] == c then 1 + LeadingRun(s[1..], c) else 0
  }

  /** Three or more backticks or tildes after any indentation. */
  function FenceMarker(line: string): Option<Marker> {
    var stripped := LStrip(line);
    if stripped == "" || stripped[0] !in {'`', '~'} || LeadingRun(stripped, stripped[0]) < 3 then None
    else Some(Marker(stripped[0], LeadingRun(stripped, stripped[0])))
  }

  function FenceStep(st: Fence, line: string): Fence {
    match FenceMarker(line)
    case None => st
    case Some(m) =>
      match st
      case Closed => Open(m.ch, m.len)
      case Open(ch, len) => if m.ch == ch && m.len >= len then Closed else st
  }

  function FenceAfter(s: string, st: Fence): Fence
    decreases |s|
  {
    if s == "" then st else FenceAfter(Tail(s), FenceStep(st, Head(s)))
  }

  // ---- Shifting headings ----

  /** A line of `lo` to `hi` number signs followed by a space or a tab. */
  predicate IsHeading(line: string, lo: nat, hi: nat) {
    var level := LeadingRun(line, '#');
    lo <= level <= hi && level < |line| && line[level] in {' ', '\t'}
  }

  function ShiftLine(line: string, delta: int): string {
    if delta < 0 && IsHeading(line, 3, 6) then line[1..]
    else if delta > 0 && IsHeading(line, 2, 5) then "#" + line
    else line
  }

  /** A line whose headings count: outside every fence and not a fence itself. */
  predicate Visible(st: Fence, line: string) {
    st.Closed? && FenceMarker(line).None?
  }

  function ShiftVisible(st: Fence, line: string, delta: int): string {
    if Visible(st, line) then ShiftLine(line, delta) else line
  }

  function Shift(s: string, delta: int, st: Fence): string
    decreases |s|
  {
    if s == "" then ""
    else ShiftVisible(st, Head(s), delta) + Shift(Tail(s), delta, FenceStep(st, Head(s)))
  }

  /** No level-6 heading outside fences: the one level that cannot be pushed down. */
  predicate NoDeepest(s: string, st: Fence)
    decreases |s|
  {
    s != "" ==>
      && !(Visible(st, Head(s)) && IsHeading(Head(s), 6, 6))
      && NoDeepest(Tail(s), FenceStep(st, Head(s)))
  }

  lemma {:induction false} LeadingRunIs(s: string, c: char, n: nat)
    requires n <= |s| && (forall i :: 0 <= i < n ==> s[i] == c) && (n < |s| ==> s[n] != c)
    ensures LeadingRun(s, c) == n
  {
    if n > 0 {
      LeadingRunIs(s[1..], c, n - 1);
    }
  }

  /** A line that starts with a number sign is not a fence. */
  lemma HashIsNoFence(line: string)
    requires line != "" && line[0] == '#'
    ensures FenceMarker(line).None?
  {
  }

  /** Shifting a line keeps it one line, of the same kind, with the same fence marker. */
  lemma ShiftLineShape(st: Fence, line: string, delta: int)
    requires IsLine(line)
    ensures var out := ShiftVisible(st, line, delta);
            && IsLine(out) && (Complete(out) <==> Complete(line))
            && FenceMarker(out) == FenceMarker(line)
  {
    var out := ShiftVisible(st, line, delta);
    if out != line {
      assert line[0] == '#' && out[0] == '#';
      HashIsNoFence(line);
      HashIsNoFence(out);
      assert out[|out| - 1] == line[|line| - 1];
      forall i | 0 <= i < |out| - 1 ensures out[i] != '\n' {
        assert if delta < 0 then out[i] == line[i + 1] else i == 0 || out[i] == line[i - 1];
      }
    }
  }

  lemma ShiftHead(s: string, delta: int, st: Fence)
    requires s != ""
    ensures var t := Shift(s, delta, st);
            && t != "" && Head(t) == ShiftVisible(st, Head(s), delta)
            && Tail(t) == Shift(Tail(s), delta, FenceStep(st, Head(s)))
  {
    HeadIsLine(s);
    ShiftLineShape(st, Head(s), delta);
    HeadOfLine(ShiftVisible(st, Head(s), delta), Shift(Tail(s), delta, FenceStep(st, Head(s))));
  }

  lemma {:induction false} ShiftKeepsFences(s: string, delta: int, st: Fence)
    ensures FenceAfter(Shift(s, delta, st), st) == FenceAfter(s, st)
    decreases |s|
  {
    if s != "" {
      ShiftHead(s, delta, st);
      HeadIsLine(s);
      ShiftLineShape(st, Head(s), delta);
      ShiftKeepsFences(Tail(s), delta, FenceStep(st, Head(s)));
    }
  }

  lemma ShiftLineBack(line: string)
    ensures ShiftLine(ShiftLine(line, 1), -1) == line <==> !IsHeading(line, 6, 6)
  {
    var n := LeadingRun(line, '#');
    if IsHeading(line, 2, 5) {
      LeadingRunIs("#" + line, '#', n + 1);
    } else if IsHeading(line, 6, 6) {
      assert |line[1..]| < |line|;
    }
  }

  /** Pushing every heading one level down and back is the identity exactly when no level-6 heading is visible. */
  lemma {:induction false} ShiftBack(s: string, st: Fence)
    ensures Shift(Shift(s, 1, st), -1, st) == s <==> NoDeepest(s, st)
    decreases |s|
  {
    if s != "" {
      var line, next := Head(s), FenceStep(st, Head(s));
      ShiftHead(s, 1, st);
      HeadIsLine(s);
      ShiftLineShape(st, line, 1);
      ShiftHead(Shift(s, 1, st), -1, st);
      ShiftBack(Tail(s), next);
      ShiftLineBack(line);
      var t := Shift(Shift(s, 1, st), -1, st);
      assert t == Head(t) + Tail(t);
      assert Head(t) == ShiftVisible(st, ShiftVisible(st, line, 1), -1);
      assert Tail(t) == Shift(Shift(Tail(s), 1, next), -1, next);
    }
  }

  /** A level-6 heading comes back one level too high. */
  lemma DeepestIsLost()
    ensures Shift(Shift("###### a", 1, Closed), -1, Closed) == "##### a"
  {
    hide LeadingRun, FenceMarker;
    LeadingRunIs("###### a", '#', 6);
    HeadOfLine("###### a", "");
    assert "###### a" + "" == "###### a";
    HashIsNoFence("###### a");
  }

  // ---- Masking fenced blocks ----

  function MaskLine(line: string): (r: string)
    ensures |r| == |line|
  {
    seq(|line|, i requires 0 <= i < |line| => if line[i] in {'\r', '\n'} then line[i] else ' ')
  }

  function MaskHidden(st: Fence, line: string): (r: string)
    ensures |r| == |line|
  {
    if Visible(st, line) then line else MaskLine(line)
  }

  function Mask(s: string, st: Fence): (r: string)
    ensures |r| == |s|
    decreases |s|
  {
    if s == "" then ""
    else MaskHidden(st, Head(s)) + Mask(Tail(s), FenceStep(st, Head(s)))
  }

  /** Whether position `i` lies in a line that belongs to a fenced block, its fences included. */
  predicate Hidden(s: string, st: Fence, i: nat)
    requires i < |s|
    decreases |s|
  {
    if i < |Head(s)| then !Visible(st, Head(s))
    else Hidden(Tail(s), FenceStep(st, Head(s)), i - |Head(s)|)
  }

  /** Masking keeps every offset and newline, and changes exactly the hidden characters, to spaces. */
  lemma {:induction false} MaskAt(s: string, st: Fence, i: nat)
    requires i < |s|
    ensures Mask(s, st)[i] == if Hidden(s, st, i) && s[i] !in {'\r', '\n'} then ' ' else s[i]
    decreases |s|
  {
    hide FenceStep, Visible, Head;
    var line := Head(s);
    HeadTail(s);
    assert Mask(s, st) == MaskHidden(st, line) + Mask(Tail(s), FenceStep(st, line));
    if i >= |line| {
      MaskAt(Tail(s), FenceStep(st, line), i - |line|);
    }
  }

  lemma MaskHiddenShape(st: Fence, line: string)
    requires IsLine(line)
    ensures var out := MaskHidden(st, line);
            && IsLine(out) && (Complete(out) <==> Complete(line))
            && FenceMarker(out).None? && Visible(Closed, out)
  {
    var out := MaskHidden(st, line);
    if !Visible(st, line) {
      assert Blank(out);
      LStripIs(out, "");
      assert out + "" == out;
    }
  }

  lemma MaskHead(s: string, st: Fence)
    requires s != ""
    ensures var t := Mask(s, st);
            && Head(t) == MaskHidden(st, Head(s))
            && Tail(t) == Mask(Tail(s), FenceStep(st, Head(s)))
  {
    HeadIsLine(s);
    MaskHiddenShape(st, Head(s));
    HeadOfLine(MaskHidden(st, Head(s)), Mask(Tail(s), FenceStep(st, Head(s))));
  }

  /** A masked text has no fence left, so masking it again changes nothing. */
  lemma {:induction false} MaskIdempotent(s: string, st: Fence)
    ensures Mask(Mask(s, st), Closed) == Mask(s, st)
    ensures FenceAfter(Mask(s, st), Closed) == Closed
    decreases |s|
  {
    if s != "" {
      MaskHead(s, st);
      HeadIsLine(s);
      MaskHiddenShape(st, Head(s));
      MaskIdempotent(Tail(s), FenceStep(st, Head(s)));
      var t := Mask(s, st);
      assert t == Head(t) + Tail(t);
    }
  }

  // ---- What counts as a fence, as a block and as a heading ----

  function Repeated(c: char, n: nat): (s: string)
    ensures |s| == n && forall i :: 0 <= i < n ==> s[i] == c
  {
    if n == 0 then "" else [c] + Repeated(c, n - 1)
  }

  lemma {:induction false} RepeatedIs(s: string, c: char)
    requires forall i :: 0 <= i < |s| ==> s[i] == c
    ensures s == Repeated(c, |s|)
  {
  }

  /** A line that begins with so many of a character, and no more, behind its indentation. */
  predicate Fences(line: string, ch: char, len: nat, indent: string, rest: string) {
    && Blank(indent) && (rest == "" || rest[0] != ch)
    && line == indent + (Repeated(ch, len) + rest)
  }

  lemma LeadingRunOfRepeated(ch: char, len: nat, rest: string)
    requires rest == "" || rest[0] != ch
    ensures LeadingRun(Repeated(ch, len) + rest, ch) == len
  {
    var s := Repeated(ch, len) + rest;
    assert len < |s| ==> s[len] == rest[0];
    LeadingRunIs(s, ch, len);
  }

  /** A fence is a line that begins with three or more backticks or tildes, behind any indentation. */
  lemma FenceMarkerIff(line: string, ch: char, len: nat)
    ensures FenceMarker(line) == Some(Marker(ch, len))
       <==> (ch == '`' || ch == '~') && len >= 3 && exists indent, rest :: Fences(line, ch, len, indent, rest)
  {
    hide LeadingRun, LStrip, Repeated, IsSpace;
    var stripped := LStrip(line);
    if FenceMarker(line) == Some(Marker(ch, len)) {
      var indent := LStripSplit(line);
      var run, rest := stripped[..len], stripped[len..];
      RepeatedIs(run, ch);
      assert stripped == run + rest;
      assert Fences(line, ch, len, indent, rest);
    }
    if ch in {'`', '~'} && len >= 3 {
      forall indent, rest | Fences(line, ch, len, indent, rest) ensures FenceMarker(line) == Some(Marker(ch, len)) {
        var core := Repeated(ch, len) + rest;
        LeadingRunOfRepeated(ch, len, rest);
        assert core[0] == ch;
        FenceIsSolid(ch);
        LStripIs(indent, core);
      }
    }
  }

  lemma FenceIsSolid(ch: char)
    requires ch in {'`', '~'}
    ensures !IsSpace(ch)
  {
  }

  /** Whether a line closes a block that so many of a character have opened. */
  predicate Closes(line: string, ch: char, len: nat) {
    var m := FenceMarker(line);
    m.Some? && m.value.ch == ch && m.value.len >= len
  }

  predicate NoneCloses(body: string, ch: char, len: nat)
    decreases |body|
  {
    body != "" ==> !Closes(Head(body), ch, len) && NoneCloses(Tail(body), ch, len)
  }

  lemma {:induction false} BodyStaysOpen(body: string, line: string, ch: char, len: nat)
    requires Complete(body) && NoneCloses(body, ch, len) && IsLine(line)
    ensures FenceAfter(body, Open(ch, len)) == Open(ch, len)
    ensures FenceAfter(body + line, Open(ch, len)) == if Closes(line, ch, len) then Closed else Open(ch, len)
    decreases |body|
  {
    hide *;
    OpenStep(body, ch, len);
    OpenStep(body + line, ch, len);
    if body == "" {
      assert body + line == line == line + "";
      HeadOfLine(line, "");
      OpenStep("", ch, len);
      LineIsSomething(line);
      AtTheEnd(FenceStep(Open(ch, len), line));
    } else {
      CompleteTail(body);
      HeadIsLine(body);
      LineIsSomething(Head(body));
      HeadConcat(body, line);
      BodyStaysOpen(Tail(body), line, ch, len);
    }
  }

  lemma AtTheEnd(st: Fence)
    ensures FenceAfter("", st) == st
  {
  }

  lemma LineIsSomething(line: string)
    requires IsLine(line)
    ensures line != ""
  {
  }

  /** One line of a block. */
  lemma OpenStep(body: string, ch: char, len: nat)
    ensures body == "" ==> FenceAfter(body, Open(ch, len)) == Open(ch, len)
    ensures body != "" ==>
      && (NoneCloses(body, ch, len) <==> !Closes(Head(body), ch, len) && NoneCloses(Tail(body), ch, len))
      && FenceStep(Open(ch, len), Head(body)) == (if Closes(Head(body), ch, len) then Closed else Open(ch, len))
      && FenceAfter(body, Open(ch, len)) == FenceAfter(Tail(body), FenceStep(Open(ch, len), Head(body)))
  {
    hide FenceMarker, Head, Tail;
  }

  /**
   A block goes from its fence to the first later one of the same character that is at least as
   long; shorter ones, and those of the other character, do not end it.
   */
  lemma BlockIsClosedBy(open: string, body: string, line: string, ch: char, len: nat)
    requires IsLine(open) && Complete(open) && FenceMarker(open) == Some(Marker(ch, len))
    requires Complete(body) && NoneCloses(body, ch, len) && IsLine(line)
    ensures FenceAfter(open + body, Closed) == Open(ch, len)
    ensures FenceAfter(open + body + line, Closed) == if Closes(line, ch, len) then Closed else Open(ch, len)
  {
    hide *;
    OpeningLine(open, body, ch, len);
    OpeningLine(open, body + line, ch, len);
    assert open + body + line == open + (body + line);
    BodyStaysOpen(body, line, ch, len);
  }

  lemma OpeningLine(open: string, rest: string, ch: char, len: nat)
    requires IsLine(open) && Complete(open) && FenceMarker(open) == Some(Marker(ch, len))
    ensures FenceAfter(open + rest, Closed) == FenceAfter(rest, Open(ch, len))
  {
    hide FenceMarker, Head, Tail;
    HeadOfLine(open, rest);
  }

  /** A line of so many number signs, and no more, with a space or tab behind them. */
  predicate AtLevel(line: string, level: nat, rest: string) {
    rest != "" && (rest[0] == ' ' || rest[0] == '\t') && line == Repeated('#', level) + rest
  }

  lemma IsHeadingIff(line: string, lo: nat, hi: nat)
    ensures IsHeading(line, lo, hi) <==> exists level, rest :: lo <= level <= hi && AtLevel(line, level, rest)
  {
    hide LeadingRun, Repeated;
    var n := LeadingRun(line, '#');
    RepeatedIs(line[..n], '#');
    assert line == line[..n] + line[n..];
    if IsHeading(line, lo, hi) {
      assert AtLevel(line, n, line[n..]);
    }
    forall level, rest | lo <= level <= hi && AtLevel(line, level, rest) ensures IsHeading(line, lo, hi) {
      LeadingRunOfRepeated('#', level, rest);
      assert line[level] == rest[0];
    }
  }

  /**
   Down, the levels 2 to 5 move and no other; up, the levels 3 to 6. Lines in fences, fences
   themselves and lines that are no headings stay.
   */
  lemma ShiftedLine(st: Fence, line: string, level: nat, rest: string)
    ensures AtLevel(line, level, rest) && st.Closed? && 2 <= level <= 5 ==> ShiftVisible(st, line, 1) == Repeated('#', level + 1) + rest
    ensures AtLevel(line, level, rest) && st.Closed? && 3 <= level <= 6 ==> ShiftVisible(st, line, -1) == Repeated('#', level - 1) + rest
    ensures AtLevel(line, level, rest) && !(2 <= level <= 5) ==> ShiftVisible(st, line, 1) == line
    ensures AtLevel(line, level, rest) && !(3 <= level <= 6) ==> ShiftVisible(st, line, -1) == line
    ensures st.Open? || FenceMarker(line).Some? || (forall l, r :: !AtLevel(line, l, r)) ==>
      ShiftVisible(st, line, 1) == line == ShiftVisible(st, line, -1)
  {
    hide LeadingRun, FenceMarker, Repeated, IsHeading;
    IsHeadingIff(line, 2, 5);
    IsHeadingIff(line, 3, 6);
    if AtLevel(line, level, rest) {
      LevelIsUnique(line, level, rest);
      if level > 0 {
        HashIsNoFence(line);
        OneMore(level, rest);
        OneMore(level - 1, rest);
      }
    }
  }

  lemma OneMore(level: nat, rest: string)
    ensures Repeated('#', level + 1) + rest == "#" + (Repeated('#', level) + rest)
    ensures (Repeated('#', level + 1) + rest)[1..] == Repeated('#', level) + rest
    ensures Repeated('#', level + 1)[0] == '#'
  {
  }

  lemma LevelIsUnique(line: string, level: nat, rest: string)
    requires AtLevel(line, level, rest)
    ensures forall l, r :: AtLevel(line, l, r) ==> l == level
    ensures level > 0 ==> line != "" && line[0] == '#'
  {
    hide LeadingRun;
    LeadingRunOfRepeated('#', level, rest);
    forall l, r | AtLevel(line, l, r) ensures l == level {
      LeadingRunOfRepeated('#', l, r);
    }
  }
}
