/**
 What `strip`, `rstrip` and `lstrip("\n")` do to a changelog's entries: nothing that
 extraction can see.
 */
module ChangelogTrim {
  import opened Results
  import opened Text
  import opened Headings
  import opened Changelog
  import opened ChangelogEntries

  // ---- Fence markers ignore white space around the line ----

  lemma {:induction false} LeadingRunPadded(x: string, b: string, c: char)
    requires Blank(b) && !IsSpace(c)
    ensures LeadingRun(x + b, c) == LeadingRun(x, c)
  {
    if x == "" {
      assert x + b == b;
    } else {
      LeadingRunPadded(x[1..], b, c);
      assert (x + b)[1..] == x[1..] + b;
    }
  }

  lemma FenceMarkerCore(a: string, x: string, b: string)
    requires Blank(a) && Blank(b) && x != "" && !IsSpace(x[0])
    ensures FenceMarker(a + x + b) == FenceMarker(x)
  {
    assert a + x + b == a + (x + b);
    LStripIs(a, x + b);
    LStripIs("", x);
    assert "" + x == x;
    LeadingRunPadded(x, b, x[0]);
  }

  lemma FenceMarkerStripped(line: string)
    requires !Blank(line)
    ensures FenceMarker(line) == FenceMarker(Strip(line))
  {
    hide FenceMarker;
    var a, b := StripSplit(line);
    StripBlank(line);
    FenceMarkerCore(a, Strip(line), b);
  }

  lemma FenceMarkerTrim(line: string, z: string)
    requires !Blank(line) && Blank(z)
    ensures FenceMarker(RStrip(line) + z) == FenceMarker(line)
  {
    hide *;
    var b := RStripSplit(line);
    RStripBlank(line);
    StripPad("", RStrip(line), b);
    StripPad("", RStrip(line), z);
    BlankOfEmpty();
    assert "" + RStrip(line) + b == line;
    assert "" + RStrip(line) + z == RStrip(line) + z;
    FenceMarkerStripped(line);
    StripBlank(line);
    StripBlank(RStrip(line) + z);
    FenceMarkerStripped(RStrip(line) + z);
  }

  lemma BlankOfEmpty()
    ensures Blank("")
  {
  }

  // ---- Version headings and trailing white space ----

  lemma {:induction false} HeadingRunConcat(st: HeadingState, a: string, b: string)
    ensures HeadingRun(st, a + b) == HeadingRun(HeadingRun(st, a), b)
    decreases |a|
  {
    if a == "" {
      assert a + b == b;
    } else {
      HeadingRunConcat(HeadingStep(st, a[0]), a[1..], b);
      assert (a + b)[1..] == a[1..] + b;
    }
  }

  /** Trailing white space never completes a heading and never changes a complete one. */
  lemma {:induction false} SpacesKeepTrail(st: HeadingState, w: string)
    requires Blank(w)
    ensures !st.Trail? ==> !HeadingRun(st, w).Trail?
    ensures st.Trail? ==> HeadingRun(st, w) in {st, Mismatch}
    decreases |w|
  {
    if w != "" {
      SpacesKeepTrail(HeadingStep(st, w[0]), w[1..]);
      MismatchStays(w[1..]);
    }
  }

  /** A line whose trailing white space is not what keeps it from being a version heading. */
  predicate CleanLine(line: string) {
    VersionHeading(RStrip(line)).Some? ==> VersionHeading(line).Some?
  }

  /** A text whose last line that is not blank is clean: its trailing white space can go. */
  predicate Clean(s: string)
    decreases |s|
  {
    !Blank(s) ==> if s == "" || Blank(Tail(s)) then CleanLine(Head(s)) else Clean(Tail(s))
  }

  lemma ContentPadded(line: string) returns (w: string)
    requires IsLine(line) && !Blank(line)
    ensures Blank(w) && Content(line) == RStrip(line) + w
    ensures Content(RStrip(line)) == RStrip(line) && Content(RStrip(line) + "\n") == RStrip(line)
  {
    hide RStrip;
    var b := RStripSplit(line);
    RStripBlank(line);
    if Complete(line) {
      assert b != "" && line[|line| - 1] == b[|b| - 1];
      w := b[..|b| - 1];
    } else {
      w := b;
    }
  }

  lemma HeadingTrim(line: string)
    requires IsLine(line) && CleanLine(line) && !Blank(line)
    ensures VersionHeading(RStrip(line) + "\n") == VersionHeading(line)
  {
    hide HeadingStep, Content, RStrip, IsLine, Blank, HeadingRun;
    var w := ContentPadded(line);
    var st := HeadingRun(Prefix(0), RStrip(line));
    HeadingRunConcat(Prefix(0), RStrip(line), w);
    SpacesKeepTrail(st, w);
  }

  // ---- Blank text ----

  lemma BlankLine(line: string, st: Fence)
    requires Blank(line)
    ensures FenceMarker(line).None? && FenceStep(st, line) == st && VersionHeading(line).None?
  {
    hide Content, HeadingRun;
    LStripIs(line, "");
    assert line + "" == line;
    if VersionHeading(line).Some? {
      HeadingIsVisible(line);
      assert false;
    }
  }

  lemma TopOf(s: string, st: Fence)
    ensures s == "" || !st.Closed? || VersionHeading(Head(s)).None? ==> TopHeading(s, st) == None
    ensures s != "" && st.Closed? ==> TopHeading(s, st) == VersionHeading(Head(s))
  {
  }

  lemma {:induction false} BlankText(s: string, st: Fence)
    requires Blank(s)
    ensures FenceAfter(s, st) == st && Entries(s, st) == [] && Preamble(s, st) == s
    decreases |s|
  {
    hide *;
    EntriesStep(s, st);
    if s != "" {
      HeadTail(s);
      BlankConcat(Head(s), Tail(s));
      BlankLine(Head(s), st);
      TopOf(s, st);
      AddEntryShape(TopHeading(s, st), LineEnd(Head(s)) + Preamble(Tail(s), st), Entries(Tail(s), FenceStep(st, Head(s))));
      BlankText(Tail(s), st);
    }
  }

  // ---- Trimming the end of a text ----

  /** The same entries as far as extraction is concerned: bodies count up to white space at their ends. */
  predicate Alike(x: seq<Entry>, y: seq<Entry>) {
    && |x| == |y|
    && forall i :: 0 <= i < |x| ==>
         x[i].tag == y[i].tag && x[i].date == y[i].date && Strip(x[i].body) == Strip(y[i].body)
  }

  lemma AlikeReflexive(x: seq<Entry>)
    ensures Alike(x, x)
  {
  }

  lemma AlikeConcat(p: seq<Entry>, a: seq<Entry>, z: seq<Entry>, c: seq<Entry>)
    requires Alike(p, a) && Alike(z, c)
    ensures Alike(p + z, a + c)
  {
    hide Strip;
  }

  lemma AlikeAdd(h: Option<Heading>, b: string, c: string, x: seq<Entry>, y: seq<Entry>)
    requires Alike(x, y) && Strip(b) == Strip(c)
    ensures Alike(AddEntry(h, b, x), AddEntry(h, c, y))
  {
    hide Strip;
  }

  lemma StripOfRStrip(s: string)
    ensures Strip(s) == Strip(RStrip(s))
  {
    hide *;
    var b := RStripSplit(s);
    BlankOfEmpty();
    StripPad("", RStrip(s), b);
    assert "" + RStrip(s) + b == s;
  }

  /** Two texts that a reader of entries cannot tell apart, starting in the same fence state. */
  predicate Same(s: string, t: string, st: Fence) {
    && FenceAfter(t, st) == FenceAfter(s, st)
    && Alike(Entries(t, st), Entries(s, st))
    && RStrip(Preamble(t, st)) == RStrip(Preamble(s, st))
  }

  lemma SameParts(s: string, t: string, st: Fence)
    ensures Same(s, t, st) <==>
            && FenceAfter(t, st) == FenceAfter(s, st)
            && Alike(Entries(t, st), Entries(s, st))
            && RStrip(Preamble(t, st)) == RStrip(Preamble(s, st))
  {
  }

  lemma RStripConcatEqual(a: string, b: string, c: string)
    requires RStrip(b) == RStrip(c)
    ensures RStrip(a + b) == RStrip(a + c)
  {
    hide *;
    RStripConcat(a, b);
    RStripConcat(a, c);
    RStripBlank(b);
    RStripBlank(c);
  }

  lemma StripConcatEqual(a: string, b: string, c: string)
    requires RStrip(b) == RStrip(c)
    ensures Strip(a + b) == Strip(a + c)
  {
    hide *;
    RStripConcatEqual(a, b, c);
    StripOfRStrip(a + b);
    StripOfRStrip(a + c);
  }

  /** Putting the same line in front of two texts that cannot be told apart. */
  lemma SameBehind(line: string, s: string, t: string, st: Fence)
    requires IsLine(line) && Complete(line)
    requires Same(s, t, FenceStep(st, line))
    ensures Same(line + s, line + t, st)
  {
    hide *;
    HeadOfLine(line, s);
    HeadOfLine(line, t);
    NonEmptyLine(line, s);
    NonEmptyLine(line, t);
    EntriesStep(line + s, st);
    EntriesStep(line + t, st);
    TopOf(line + s, st);
    TopOf(line + t, st);
    SameParts(s, t, FenceStep(st, line));
    SameParts(line + s, line + t, st);
    var h := TopHeading(line + s, st);
    if h.Some? {
      TopHeadingContent(line + s, st);
      StripConcatEqual(LineEnd(line), Preamble(t, st), Preamble(s, st));
    } else {
      RStripConcatEqual(line, Preamble(t, FenceStep(st, line)), Preamble(s, FenceStep(st, line)));
    }
    AddEntryShape(h, LineEnd(line) + Preamble(s, st), Entries(s, FenceStep(st, line)));
    AddEntryShape(h, LineEnd(line) + Preamble(t, st), Entries(t, FenceStep(st, line)));
    if h.Some? {
      AlikeAdd(h, LineEnd(line) + Preamble(t, st), LineEnd(line) + Preamble(s, st), Entries(t, st), Entries(s, st));
    }
  }

  lemma NonEmptyLine(line: string, s: string)
    requires IsLine(line)
    ensures line != "" && line + s != ""
  {
  }

  lemma LineEndBlank(line: string)
    ensures Blank(LineEnd(line))
  {
  }

  lemma TrimmedLine(line: string)
    requires IsLine(line) && !Blank(line)
    ensures IsLine(RStrip(line) + "\n") && Complete(RStrip(line) + "\n")
  {
    hide RStrip;
    var b := RStripSplit(line);
    RStripBlank(line);
    var r := RStrip(line);
    forall i | 0 <= i < |r| ensures r[i] != '\n' {
      assert r[i] == line[i];
    }
  }

  lemma CleanStep(s: string)
    ensures !Blank(s) ==> s != "" && (Clean(s) <==> if Blank(Tail(s)) then CleanLine(Head(s)) else Clean(Tail(s)))
    ensures Blank(s) ==> Clean(s)
  {
  }

  lemma PreambleEmpty(s: string, st: Fence)
    requires s != ""
    ensures Preamble(s, st) == "" <==> TopHeading(s, st).Some?
  {
  }

  lemma FenceStepTrim(st: Fence, line: string)
    requires !Blank(line)
    ensures FenceStep(st, RStrip(line) + "\n") == FenceStep(st, line)
  {
    hide FenceMarker, RStrip;
    FenceMarkerTrim(line, "\n");
  }

  /** Two lines of the same kind, each followed only by white space. */
  lemma SameLastLine(line: string, b: string, out: string, c: string, st: Fence)
    requires IsLine(line) && (Complete(line) || b == "") && Blank(b)
    requires IsLine(out) && Complete(out) && Blank(c)
    requires FenceStep(st, out) == FenceStep(st, line) && VersionHeading(out) == VersionHeading(line)
    requires RStrip(line + b) == RStrip(out + c)
    ensures Same(line + b, out + c, st)
    ensures Preamble(out + c, st) == "" <==> Preamble(line + b, st) == ""
  {
    hide *;
    HeadOfLine(line, b);
    HeadOfLine(out, c);
    NonEmptyLine(line, b);
    NonEmptyLine(out, c);
    EntriesStep(line + b, st);
    EntriesStep(out + c, st);
    TopOf(line + b, st);
    TopOf(out + c, st);
    SameParts(line + b, out + c, st);
    PreambleEmpty(line + b, st);
    PreambleEmpty(out + c, st);
    BlankText(b, FenceStep(st, line));
    BlankText(c, FenceStep(st, line));
    BlankText(b, st);
    BlankText(c, st);
    var h := TopHeading(line + b, st);
    LineEndBlank(line);
    LineEndBlank(out);
    BlankConcat(LineEnd(line), b);
    BlankConcat(LineEnd(out), c);
    StripBlank(LineEnd(line) + b);
    StripBlank(LineEnd(out) + c);
    AlikeReflexive([]);
    AlikeAdd(h, LineEnd(out) + c, LineEnd(line) + b, [], []);
    AddEntryShape(h, LineEnd(line) + b, []);
    AddEntryShape(h, LineEnd(out) + c, []);
    assert RStrip("") == RStrip("");
  }

  /** Replacing the white space at the end of a text by newlines changes nothing a reader sees. */
  lemma {:induction false} TrimText(s: string, st: Fence, z: string)
    requires Clean(s) && (z == "\n" || z == "\n\n")
    ensures Same(s, RStrip(s) + z, st)
    ensures !Blank(s) ==> (Preamble(RStrip(s) + z, st) == "" <==> Preamble(s, st) == "")
    decreases |s|
  {
    hide *;
    NewlinesBlank();
    if Blank(s) {
      RStripBlank(s);
      RStripBlank(z);
      BlankText(s, st);
      BlankText(z, st);
      assert RStrip(s) + z == z;
      AlikeReflexive([]);
      SameParts(s, z, st);
    } else {
      NonBlankLine(s);
      var line, rest := Head(s), Tail(s);
      CleanStep(s);
      HeadIsLine(s);
      RStripConcat(line, rest);
      if Blank(rest) {
        BlankConcat(line, rest);
        TrimmedLine(line);
        FenceStepTrim(st, line);
        HeadingTrim(line);
        RStripConcat(RStrip(line), z);
        RStripOfRStrip(line);
        assert RStrip(line) + z == (RStrip(line) + "\n") + z[1..];
        SameLastLine(line, rest, RStrip(line) + "\n", z[1..], st);
      } else {
        NonBlankLine(rest);
        TrimText(rest, FenceStep(st, line), z);
        SameBehind(line, rest, RStrip(rest) + z, st);
        assert RStrip(s) + z == line + (RStrip(rest) + z);
        PreambleOfLine(line, rest, RStrip(rest) + z, st);
      }
    }
  }

  /** Trailing white space has no part in the fences. */
  lemma {:induction false} FencesTrimmed(s: string, st: Fence, z: string)
    requires z == "\n" || z == "\n\n"
    ensures FenceAfter(RStrip(s) + z, st) == FenceAfter(s, st)
    decreases |s|
  {
    hide *;
    NewlinesBlank();
    if Blank(s) {
      RStripBlank(s);
      BlankText(s, st);
      BlankText(z, st);
      assert RStrip(s) + z == z;
    } else {
      NonBlankLine(s);
      var line, rest := Head(s), Tail(s);
      EntriesStep(s, st);
      HeadIsLine(s);
      RStripConcat(line, rest);
      if Blank(rest) {
        BlankConcat(line, rest);
        FencesOfLastLine(line, rest, st, z);
      } else {
        NonBlankLine(rest);
        FencesTrimmed(rest, FenceStep(st, line), z);
        assert RStrip(s) + z == line + (RStrip(rest) + z);
        FencesBehind(line, RStrip(rest) + z, st);
      }
    }
  }

  lemma FencesBehind(line: string, s: string, st: Fence)
    requires IsLine(line) && (Complete(line) || s == "")
    ensures FenceAfter(line + s, st) == FenceAfter(s, FenceStep(st, line))
  {
    hide *;
    HeadOfLine(line, s);
    NonEmptyLine(line, s);
    EntriesStep(line + s, st);
  }

  lemma FencesOfLastLine(line: string, b: string, st: Fence, z: string)
    requires IsLine(line) && (Complete(line) || b == "") && Blank(b) && !Blank(line) && (z == "\n" || z == "\n\n")
    ensures FenceAfter(RStrip(line) + z, st) == FenceAfter(b, FenceStep(st, line))
  {
    hide *;
    NewlinesBlank();
    TrimmedLine(line);
    FenceStepTrim(st, line);
    LastNewlines(z);
    assert RStrip(line) + z == (RStrip(line) + "\n") + z[1..];
    FencesBehind(RStrip(line) + "\n", z[1..], st);
    BlankText(b, FenceStep(st, line));
    BlankText(z[1..], FenceStep(st, line));
  }

  lemma LastNewlines(z: string)
    requires z == "\n" || z == "\n\n"
    ensures Blank(z[1..]) && z == "\n" + z[1..]
  {
  }

  lemma NewlinesBlank()
    ensures Blank("") && Blank("\n") && Blank("\n\n")
  {
  }

  lemma NonBlankLine(s: string)
    requires !Blank(s)
    ensures s != ""
  {
  }

  lemma RStripOfRStrip(s: string)
    ensures RStrip(RStrip(s)) == RStrip(s)
  {
  }

  lemma PreambleOfLine(line: string, s: string, t: string, st: Fence)
    requires IsLine(line) && Complete(line)
    ensures Preamble(line + s, st) == "" <==> Preamble(line + t, st) == ""
  {
    hide *;
    HeadOfLine(line, s);
    HeadOfLine(line, t);
    NonEmptyLine(line, s);
    NonEmptyLine(line, t);
    TopOf(line + s, st);
    TopOf(line + t, st);
    PreambleEmpty(line + s, st);
    PreambleEmpty(line + t, st);
  }
}
