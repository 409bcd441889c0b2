/**
 The text that `upsert_release` builds: shifted notes, the entry made of them, and the entries
 of the spliced changelog.
 */
module ChangelogSplice {
  import opened Results
  import opened Text
  import opened Headings
  import opened Changelog
  import opened ChangelogEntries
  import opened ChangelogTrim

  // ---- Shifted notes ----

  lemma ShiftStep(s: string, delta: int, st: Fence)
    ensures s == "" ==> Shift(s, delta, st) == ""
    ensures s != "" ==>
              Shift(s, delta, st) == ShiftVisible(st, Head(s), delta) + Shift(Tail(s), delta, FenceStep(st, Head(s)))
  {
  }

  lemma ShiftLineEnds(line: string, delta: int, st: Fence)
    requires line != ""
    ensures var out := ShiftVisible(st, line, delta);
            && out != "" && out[|out| - 1] == line[|line| - 1]
            && (out[0] == line[0] || out[0] == '#')
            && CountNewlines(out) == CountNewlines(line)
  {
    hide FenceMarker;
    assert line == [line[0]] + line[1..];
    CountNewlinesConcat([line[0]], line[1..]);
    CountNewlinesConcat("#", line);
  }

  /** Shifting keeps the last character and the number of lines, and starts no line with white space. */
  lemma {:induction false} ShiftEnds(s: string, delta: int, st: Fence)
    requires s != ""
    ensures var t := Shift(s, delta, st);
            && t != "" && t[|t| - 1] == s[|s| - 1]
            && (t[0] == s[0] || t[0] == '#')
            && CountNewlines(t) == CountNewlines(s)
    decreases |s|
  {
    hide *;
    ShiftStep(s, delta, st);
    HeadIsLine(s);
    NonEmptyLine(Head(s), Tail(s));
    ShiftLineEnds(Head(s), delta, st);
    CountNewlinesConcat(Head(s), Tail(s));
    CountNewlinesConcat(ShiftVisible(st, Head(s), delta), Shift(Tail(s), delta, FenceStep(st, Head(s))));
    if Tail(s) == "" {
      ShiftStep("", delta, FenceStep(st, Head(s)));
    } else {
      ShiftEnds(Tail(s), delta, FenceStep(st, Head(s)));
    }
  }

  lemma HeadingNewline(line: string, lo: nat, hi: nat)
    requires line != "" && !IsSpace(line[|line| - 1])
    ensures IsHeading(line + "\n", lo, hi) <==> IsHeading(line, lo, hi)
  {
    hide Blank, LeadingRun;
    NewlinesBlank();
    LeadingRunPadded(line, "\n", '#');
  }

  lemma ShiftOfNewline(line: string, delta: int)
    requires line != "" && !IsSpace(line[|line| - 1])
    ensures ShiftLine(line + "\n", delta) == ShiftLine(line, delta) + "\n"
  {
    hide IsHeading, IsSpace;
    HeadingNewline(line, 3, 6);
    HeadingNewline(line, 2, 5);
    assert (line + "\n")[1..] == line[1..] + "\n";
    assert "#" + (line + "\n") == ("#" + line) + "\n";
  }

  lemma ShiftLineNewline(st: Fence, line: string, delta: int)
    requires line != "" && !IsSpace(line[|line| - 1])
    ensures ShiftVisible(st, line + "\n", delta) == ShiftVisible(st, line, delta) + "\n"
  {
    hide FenceMarker, ShiftLine, RStrip, Blank;
    NewlinesBlank();
    RStripOfLine(line);
    FenceMarkerTrim(line, "\n");
    ShiftOfNewline(line, delta);
  }

  lemma RStripOfLine(line: string)
    requires line != "" && !IsSpace(line[|line| - 1])
    ensures RStrip(line) == line && !Blank(line)
  {
  }

  lemma {:induction false} ShiftAppendNewline(s: string, delta: int, st: Fence)
    requires s != "" && !IsSpace(s[|s| - 1])
    ensures Shift(s + "\n", delta, st) == Shift(s, delta, st) + "\n"
    decreases |s|
  {
    hide *;
    HeadIsLine(s);
    var line, rest := Head(s), Tail(s);
    ShiftStep(s, delta, st);
    ShiftStep(s + "\n", delta, st);
    if rest == "" {
      assert line == s;
      ShiftLineNewline(st, s, delta);
      ShiftStep("", delta, FenceStep(st, line));
      ShiftStep("", delta, FenceStep(st, line + "\n"));
      LineWithNewline(s);
    } else {
      HeadConcat(s, "\n");
      ShiftAppendNewline(rest, delta, FenceStep(st, line));
    }
  }

  lemma LineWithNewline(s: string)
    requires IsLine(s) && !IsSpace(s[|s| - 1])
    ensures Head(s + "\n") == s + "\n" && Tail(s + "\n") == ""
  {
    HeadOfLine(s + "\n", "");
    assert (s + "\n") + "" == s + "\n";
  }

  lemma TrimmedParts(s: string)
    ensures Trimmed(s) <==> s == "" || (!IsSpace(s[0]) && !IsSpace(s[|s| - 1]))
  {
  }

  /** Shifting trimmed notes and then stripping them only moves the final newline. */
  lemma ShiftedNotes(s: string, delta: int)
    requires Trimmed(s) && s != ""
    ensures var b := Shift(s, delta, Closed);
            && b != "" && Trimmed(b)
            && Shift(s + "\n", delta, Closed) == b + "\n" && Strip(b + "\n") == b
            && CountNewlines(b) == CountNewlines(s)
  {
    hide *;
    var b := Shift(s, delta, Closed);
    TrimmedParts(s);
    TrimmedParts(b);
    HashIsNoSpace();
    ShiftEnds(s, delta, Closed);
    ShiftAppendNewline(s, delta, Closed);
    NewlinesBlank();
    StripIs("", b, "\n");
    assert "" + b + "\n" == b + "\n";
  }

  lemma HashIsNoSpace()
    ensures !IsSpace('#')
  {
  }

  lemma PushedBelowLevelTwo(st: Fence, line: string)
    requires Visible(st, line)
    ensures !IsHeading(ShiftVisible(st, line, 1), 2, 2)
  {
    hide FenceMarker;
    if IsHeading(line, 2, 5) {
      LeadingRunIs("#" + line, '#', LeadingRun(line, '#') + 1);
    }
  }

  lemma ShiftedLineIsNoVersion(st: Fence, line: string)
    requires st.Closed?
    ensures VersionHeading(ShiftVisible(st, line, 1)).None?
  {
    hide VersionHeading, FenceMarker, IsHeading;
    var out := ShiftVisible(st, line, 1);
    if VersionHeading(out).Some? {
      HeadingIsVisible(out);
      if Visible(st, line) {
        PushedBelowLevelTwo(st, line);
      }
    }
  }

  /** Once its headings are pushed down, a text holds no version heading. */
  lemma {:induction false} ShiftedHasNoEntries(s: string, st: Fence)
    ensures Entries(Shift(s, 1, st), st) == []
    decreases |s|
  {
    hide *;
    var t := Shift(s, 1, st);
    ShiftStep(s, 1, st);
    EntriesStep(t, st);
    if s != "" {
      ShiftHead(s, 1, st);
      HeadIsLine(s);
      ShiftLineShape(st, Head(s), 1);
      FenceStepByMarker(st, Head(s), Head(t));
      TopOf(t, st);
      if st.Closed? {
        ShiftedLineIsNoVersion(st, Head(s));
      }
      ShiftedHasNoEntries(Tail(s), FenceStep(st, Head(s)));
      AddEntryShape(TopHeading(t, st), LineEnd(Head(t)) + Preamble(Tail(t), st), Entries(Tail(t), FenceStep(st, Head(t))));
    }
  }

  lemma FenceStepByMarker(st: Fence, line: string, out: string)
    requires FenceMarker(out) == FenceMarker(line)
    ensures FenceStep(st, out) == FenceStep(st, line)
  {
  }

  // ---- The heading line ----

  lemma {:induction false} RejectStays(t: string)
    ensures TagRun(Reject, t) == Reject
    decreases |t|
  {
    if t != "" {
      RejectStays(t[1..]);
    }
  }

  lemma {:induction false} TagIsRead(st: TagState, tag: string, t: string)
    requires AcceptsTag(TagRun(st, t))
    ensures HeadingRun(InTag(st, tag), t) == InTag(TagRun(st, t), tag + t)
    decreases |t|
  {
    if t == "" {
      assert tag + t == tag;
    } else {
      if t[0] == ']' {
        RejectStays(t[1..]);
      }
      TagIsRead(TagStep(st, t[0]), tag + [t[0]], t[1..]);
      assert tag + [t[0]] + t[1..] == tag + t;
    }
  }

  lemma {:induction false} DateIsRead(tag: string, d: string, k: nat)
    requires IsDateShape(d) && k < 10
    ensures HeadingRun(InDate(tag, d[..k]), d[k..]) == Trail(tag, d)
    decreases 10 - k
  {
    assert d[k..][0] == d[k] && d[k..][1..] == d[k + 1..];
    assert d[..k] + [d[k]] == d[..k + 1];
    if k < 9 {
      DateIsRead(tag, d, k + 1);
    } else {
      assert d[..10] == d && d[10..] == "";
    }
  }

  lemma PrefixIsRead()
    ensures HeadingRun(Prefix(0), "## [") == InTag(Start, "")
  {
    assert "## ["[1..] == "# [" && "# ["[1..] == " [" && " ["[1..] == "[" && "["[1..] == "";
    assert HeadingRun(Prefix(3), "[") == HeadingRun(InTag(Start, ""), "");
    assert HeadingRun(Prefix(2), " [") == HeadingRun(Prefix(3), "[");
    assert HeadingRun(Prefix(1), "# [") == HeadingRun(Prefix(2), " [");
  }

  lemma MiddleIsRead(st: TagState, tag: string)
    requires AcceptsTag(st)
    ensures HeadingRun(InTag(st, tag), "] - ") == InDate(tag, "")
  {
    assert "] - "[1..] == " - " && " - "[1..] == "- " && "- "[1..] == " " && " "[1..] == "";
    assert HeadingRun(Middle(2, tag), " ") == HeadingRun(InDate(tag, ""), "");
    assert HeadingRun(Middle(1, tag), "- ") == HeadingRun(Middle(2, tag), " ");
    assert HeadingRun(Middle(0, tag), " - ") == HeadingRun(Middle(1, tag), "- ");
  }

  lemma {:induction false} TagHasNoNewline(st: TagState, t: string)
    requires AcceptsTag(TagRun(st, t))
    ensures forall i :: 0 <= i < |t| ==> t[i] != '\n'
    decreases |t|
  {
    if t != "" {
      if t[0] == '\n' {
        RejectStays(t[1..]);
      }
      TagHasNoNewline(TagStep(st, t[0]), t[1..]);
      forall i | 0 <= i < |t| ensures t[i] != '\n' {
        if i > 0 {
          assert t[i] == t[1..][i - 1];
        }
      }
    }
  }

  lemma HeadingTextRuns(tag: string, date: string)
    requires IsTag(tag) && IsDateShape(date)
    ensures HeadingRun(Prefix(0), HeadingText(tag, date)) == Trail(tag, date)
  {
    hide HeadingRun, TagRun;
    PrefixIsRead();
    TagIsRead(Start, "", tag);
    assert "" + tag == tag;
    MiddleIsRead(TagRun(Start, tag), tag);
    DateIsRead(tag, date, 0);
    assert date[..0] == "" && date[0..] == date;
    HeadingRunConcat(Prefix(0), "## [", tag);
    HeadingRunConcat(Prefix(0), "## [" + tag, "] - ");
    HeadingRunConcat(Prefix(0), "## [" + tag + "] - ", date);
  }

  lemma NoNewlines(a: string, b: string)
    requires forall i :: 0 <= i < |a| ==> a[i] != '\n'
    requires forall i :: 0 <= i < |b| ==> b[i] != '\n'
    ensures forall i :: 0 <= i < |a + b| ==> (a + b)[i] != '\n'
  {
  }

  /** The heading that `upsert_release` writes is a version heading with that tag and date. */
  lemma WrittenHeading(tag: string, date: string)
    requires IsTag(tag) && IsDateShape(date)
    ensures var line := HeadingText(tag, date) + "\n";
            && IsLine(line) && Complete(line) && Content(line) == HeadingText(tag, date)
            && VersionHeading(line) == Some(Heading(tag, date))
  {
    hide HeadingRun, TagRun;
    HeadingTextRuns(tag, date);
    TagHasNoNewline(Start, tag);
    NoNewlines("## [", tag);
    NoNewlines("## [" + tag, "] - ");
    assert forall i :: 0 <= i < |date| ==> DateCharAt(i, date[i]);
    NoNewlines("## [" + tag + "] - ", date);
    var line := HeadingText(tag, date) + "\n";
    assert line[..|line| - 1] == HeadingText(tag, date);
  }

  // ---- The spliced text ----

  lemma PrependConcat(h: Option<Heading>, offset: nat, content: nat, x: seq<Match>, y: seq<Match>)
    ensures Prepend(h, offset, content, x + y) == Prepend(h, offset, content, x) + y
  {
  }

  lemma {:induction false} MatchesConcat(a: string, c: string, st: Fence, offset: nat)
    requires Complete(a)
    ensures Matches(a + c, st, offset) == Matches(a, st, offset) + Matches(c, FenceAfter(a, st), offset + |a|)
    decreases |a|
  {
    hide *;
    EntriesStep(a, st);
    MatchesStep(a, st, offset);
    MatchesStep(a + c, st, offset);
    if a == "" {
      assert a + c == c;
    } else {
      CompleteTail(a);
      HeadConcat(a, c);
      TopHeadingOfConcat(a, c, st);
      var line, next := Head(a), FenceStep(st, Head(a));
      MatchesConcat(Tail(a), c, next, offset + |line|);
      PrependConcat(TopHeading(a, st), offset, |Content(line)|, Matches(Tail(a), next, offset + |line|),
                    Matches(c, FenceAfter(a, st), offset + |a|));
    }
  }

  lemma ExtendNothing(es: seq<Entry>)
    ensures Extend(es, "") == es
  {
    if es != [] {
      var e := es[|es| - 1];
      assert e.body + "" == e.body;
      assert e.(body := e.body + "") == e;
    }
  }

  lemma LineEndOfHeading(line: string, text: string)
    requires Content(line) == text && line == text + "\n"
    ensures LineEnd(line) == "\n"
  {
  }

  /** A heading line, an empty line and a text without headings of its own. */
  lemma EntriesOfEntry(tag: string, date: string, u: string, z: string, offset: nat)
    requires IsTag(tag) && IsDateShape(date) && Complete(u) && Entries(u, Closed) == []
    ensures var line, f := HeadingText(tag, date) + "\n", FenceAfter(u, Closed);
            var rest := "\n" + (u + z);
            && Entries(line + rest, Closed)
            == [Entry(tag, date, "\n" + ("\n" + (u + Preamble(z, f))))] + Entries(z, f)
            && Preamble(line + rest, Closed) == ""
            && Matches(line + rest, Closed, offset)
              == [Match(tag, date, offset, offset + |line| - 1)] + Matches(z, f, offset + |line| + 1 + |u|)
  {
    hide *;
    var line, f := HeadingText(tag, date) + "\n", FenceAfter(u, Closed);
    var rest := "\n" + (u + z);
    WrittenHeading(tag, date);
    HeadOfLine(line, rest);
    NonEmptyLine(line, rest);
    EntriesStep(line + rest, Closed);
    TopOf(line + rest, Closed);
    TopHeadingContent(line + rest, Closed);
    LineEndOfHeading(line, HeadingText(tag, date));
    AddEntryShape(TopHeading(line + rest, Closed), LineEnd(line) + Preamble(rest, Closed), Entries(rest, Closed));
    NewlineInFront(u + z, Closed);
    EntriesConcat(u, z, Closed);
    PreambleConcat(u, z, Closed);
    ExtendNone(Preamble(z, f));
    MatchesStep(line + rest, Closed, offset);
    PrependShape(Heading(tag, date), offset, |Content(line)|, Matches(rest, Closed, offset + |line|));
    MatchesOfNewline(u + z, Closed, offset + |line|);
    MatchesConcat(u, z, Closed, offset + |line| + 1);
    NoEntriesNoMatches(u, Closed, offset + |line| + 1);
  }

  lemma PrependShape(h: Heading, offset: nat, content: nat, ms: seq<Match>)
    ensures Prepend(Some(h), offset, content, ms) == [Match(h.tag, h.date, offset, offset + content)] + ms
  {
  }

  lemma NoEntriesNoMatches(s: string, st: Fence, offset: nat)
    requires Entries(s, st) == []
    ensures Matches(s, st, offset) == []
  {
    hide Matches, Entries, Preamble, Cuts, InOrder;
    MatchesDelimitEntries(s, st, offset);
  }

  lemma NewlineLine()
    ensures IsLine("\n") && Complete("\n") && Blank("\n")
  {
  }

  lemma NewlineInFront(s: string, st: Fence)
    ensures Entries("\n" + s, st) == Entries(s, st) && Preamble("\n" + s, st) == "\n" + Preamble(s, st)
    ensures FenceAfter("\n" + s, st) == FenceAfter(s, st)
  {
    hide *;
    NewlineLine();
    BlankLineInFront("\n", s, st);
  }

  lemma BlankLineInFront(line: string, s: string, st: Fence)
    requires IsLine(line) && Blank(line) && (Complete(line) || s == "")
    ensures Entries(line + s, st) == Entries(s, st) && Preamble(line + s, st) == line + Preamble(s, st)
    ensures FenceAfter(line + s, st) == FenceAfter(s, st)
  {
    hide *;
    HeadOfLine(line, s);
    NonEmptyLine(line, s);
    EntriesStep(line + s, st);
    BlankLine(line, st);
    TopOf(line + s, st);
    AddEntryShape(TopHeading(line + s, st), LineEnd(line) + Preamble(s, st), Entries(s, st));
  }

  lemma MatchesOfNewline(s: string, st: Fence, offset: nat)
    ensures Matches("\n" + s, st, offset) == Matches(s, st, offset + 1)
  {
    hide *;
    NewlineLine();
    HeadOfLine("\n", s);
    MatchesStep("\n" + s, st, offset);
    BlankLine("\n", st);
    TopOf("\n" + s, st);
    NothingAdded(offset, |Content("\n")|, Matches(s, st, offset + 1), "", []);
  }
}
