/**
 The promises of script/changelog.py: what is upserted can be extracted again, upserting twice
 is upserting once, and other entries stay as they are.
 */
module ChangelogRoundTrip {
  import opened Results
  import opened Text
  import opened Headings
  import opened Changelog
  import opened ChangelogEntries
  import opened ChangelogTrim
  import opened ChangelogSplice
  import opened ChangelogUpsert

  // ---- Stripping newlines and cutting lines ----

  lemma {:induction false} StrippedNewlines(s: string, st: Fence)
    ensures var t := LStripNewlines(s);
            && Entries(t, st) == Entries(s, st)
            && (Blank(Preamble(t, st)) <==> Blank(Preamble(s, st)))
    decreases |s|
  {
    hide *;
    LStripNewlinesStep(s);
    if s != "" && s[0] == '\n' {
      StrippedNewlines(s[1..], st);
      NewlineInFront(s[1..], st);
      assert "\n" + s[1..] == s;
      NewlinesBlank();
      BlankConcat("\n", Preamble(s[1..], st));
    }
  }

  lemma LStripNewlinesStep(s: string)
    ensures LStripNewlines(s) == if s != "" && s[0] == '\n' then LStripNewlines(s[1..]) else s
  {
  }

  lemma {:induction false} NewlinesInFront(s: string) returns (w: string)
    ensures Blank(w) && s == w + LStripNewlines(s)
    ensures s == "" || s[0] != '\n' ==> w == ""
  {
    hide *;
    LStripNewlinesStep(s);
    BlankOfEmpty();
    NewlinesBlank();
    if s != "" && s[0] == '\n' {
      var v := NewlinesInFront(s[1..]);
      BlankConcat("\n", v);
      w := "\n" + v;
      assert s == "\n" + s[1..];
      assert s == w + LStripNewlines(s);
    } else {
      w := "";
      assert s == "" + s;
    }
  }

  // ---- What stands before and behind a new entry ----

  function Front(changelog: string, tag: string): string
    requires CountOccurrences(changelog, INSERTION_MARKER) > 0
  {
    RStrip(Before(changelog, tag)) + "\n\n"
  }

  lemma FrontIsComplete(a: string)
    ensures Complete(a + "\n\n")
  {
  }

  /** A trimmed front keeps its entries. */
  lemma TrimmedFront(a: string)
    requires Clean(a)
    ensures Alike(Entries(RStrip(a) + "\n\n", Closed), Entries(a, Closed))
  {
    hide *;
    TrimText(a, Closed, "\n\n");
    SameParts(a, RStrip(a) + "\n\n", Closed);
  }

  lemma CutParts(a: string, b: string, st: Fence, i: nat)
    requires CutBefore(a, b, st, i)
    ensures Complete(a) && FenceAfter(a, st) == Closed && |Entries(a, st)| == i
    ensures b != "" && TopHeading(b, Closed).Some?
  {
  }

  lemma CutEntries(a: string, b: string, i: nat)
    requires CutBefore(a, b, Closed, i)
    ensures i <= |Entries(a + b, Closed)|
    ensures Entries(a, Closed) == Entries(a + b, Closed)[..i] && Entries(b, Closed) == Entries(a + b, Closed)[i..]
    ensures Preamble(b, Closed) == ""
  {
    hide *;
    CutParts(a, b, Closed, i);
    EntriesConcat(a, b, Closed);
    PreambleEmpty(b, Closed);
    ExtendNothing(Entries(a, Closed));
  }

  lemma BeforeAfterOfMatch(c: string, t: string, i: nat)
    requires CountOccurrences(c, INSERTION_MARKER) > 0 && FindTag(Entries(c, Closed), t) == i < |Entries(c, Closed)|
    ensures var ms := Matches(c, Closed, 0);
            && i < |ms| == |Entries(c, Closed)|
            && ms[i].start <= |c| && EntryEnd(c, ms, i) <= |c|
            && Before(c, t) == c[..ms[i].start] && After(c, t) == c[EntryEnd(c, ms, i)..]
  {
    hide Matches, Entries, Preamble, Delimit, IndexOfTag, FindTag, CountOccurrences, IndexOf, InStep;
    var ms, es := Matches(c, Closed, 0), Entries(c, Closed);
    MatchesInOrder(c, Closed, 0);
    MatchesDelimitEntries(c, Closed, 0);
    DelimitInStep(c, ms, es, Preamble(c, Closed));
    InStepIndex(ms, es, t);
    InStepLength(ms, es);
  }

  lemma HeadingStartsWithHash(s: string)
    requires s != "" && TopHeading(s, Closed).Some?
    ensures s[0] == '#' && LStripNewlines(s) == s
  {
    hide VersionHeading;
    HeadingIsVisible(Head(s));
  }

  lemma FrontView(c: string, t: string)
    requires CountOccurrences(c, INSERTION_MARKER) > 0 && Clean(Before(c, t))
    requires FindTag(Entries(c, Closed), t) < |Entries(c, Closed)|
    ensures var es, i := Entries(c, Closed), FindTag(Entries(c, Closed), t);
            Alike(Entries(Front(c, t), Closed), es[..i])
  {
    hide *;
    var i := FindTag(Entries(c, Closed), t);
    BeforeAfterOfMatch(c, t, i);
    FrontIs(c, t);
    SplitAtMatch(c, Closed, 0, i);
    var k := Matches(c, Closed, 0)[i].start;
    CutEntries(c[..k], c[k..], i);
    CutParts(c[..k], c[k..], Closed, i);
    assert c[..k] + c[k..] == c;
    TrimmedFront(c[..k]);
  }

  lemma FollowingView(c: string, t: string)
    requires CountOccurrences(c, INSERTION_MARKER) > 0
    requires FindTag(Entries(c, Closed), t) < |Entries(c, Closed)|
    ensures var es, i := Entries(c, Closed), FindTag(Entries(c, Closed), t);
            && Entries(Following(c, t), Closed) == es[i + 1..]
            && Preamble(Following(c, t), Closed) == ""
  {
    hide *;
    var es, i := Entries(c, Closed), FindTag(Entries(c, Closed), t);
    var ms := Matches(c, Closed, 0);
    BeforeAfterOfMatch(c, t, i);
    FrontIs(c, t);
    EntryEndIs(c, ms, i);
    if i + 1 < |ms| {
      SplitAtMatch(c, Closed, 0, i + 1);
      var e := ms[i + 1].start;
      CutEntries(c[..e], c[e..], i + 1);
      CutParts(c[..e], c[e..], Closed, i + 1);
      assert c[..e] + c[e..] == c;
      HeadingStartsWithHash(c[e..]);
    } else {
      SplitAtMatch(c, Closed, 0, i);
      assert c[|c|..] == "";
      LStripNewlinesStep("");
      EntriesStep("", Closed);
    }
  }

  /** Replacing an entry: the entries above it, the entries below it, and nothing else. */
  lemma ReplaceView(c: string, t: string)
    requires CountOccurrences(c, INSERTION_MARKER) > 0 && Clean(Before(c, t))
    requires FindTag(Entries(c, Closed), t) < |Entries(c, Closed)|
    ensures var es, i := Entries(c, Closed), FindTag(Entries(c, Closed), t);
            && Alike(Entries(Front(c, t), Closed), es[..i])
            && Entries(Following(c, t), Closed) == es[i + 1..]
            && Preamble(Following(c, t), Closed) == ""
  {
    hide *;
    FrontView(c, t);
    FollowingView(c, t);
  }

  lemma FrontIs(c: string, t: string)
    requires CountOccurrences(c, INSERTION_MARKER) > 0
    ensures Front(c, t) == RStrip(Before(c, t)) + "\n\n" && Following(c, t) == LStripNewlines(After(c, t))
  {
  }

  lemma EntryEndIs(c: string, ms: seq<Match>, i: nat)
    requires i < |ms|
    ensures EntryEnd(c, ms, i) == if i + 1 < |ms| then ms[i + 1].start else |c|
  {
  }

  lemma BeforeAfterOfMarker(c: string, t: string)
    requires CountOccurrences(c, INSERTION_MARKER) > 0 && FindTag(Entries(c, Closed), t) == |Entries(c, Closed)|
    ensures c == Before(c, t) + After(c, t)
  {
    hide Matches, Entries, Preamble, Delimit, IndexOfTag, FindTag, CountOccurrences, IndexOf, InStep;
    var ms, es := Matches(c, Closed, 0), Entries(c, Closed);
    MatchesDelimitEntries(c, Closed, 0);
    DelimitInStep(c, ms, es, Preamble(c, Closed));
    InStepIndex(ms, es, t);
    InStepLength(ms, es);
    MatchesInOrder(c, Closed, 0);
  }

  lemma PlacedParts(c: string, t: string)
    requires CountOccurrences(c, INSERTION_MARKER) > 0
    ensures Inserts(c, t) <==> FindTag(Entries(c, Closed), t) == |Entries(c, Closed)|
    ensures Inserts(c, t) && Placed(c, t) ==> FenceAfter(Before(c, t), Closed) == Closed
    ensures Inserts(c, t) && MarkerEndsLine(c, t) ==> Blank(Head(After(c, t)))
  {
    hide Before, After, FindTag, Entries, FenceAfter, Blank, Head;
  }

  lemma MarkerShape()
    ensures INSERTION_MARKER != "" && INSERTION_MARKER[|INSERTION_MARKER| - 1] == '>' && !IsSpace('>')
  {
  }

  predicate EndsWithAngle(s: string) {
    s != "" && s[|s| - 1] == '>'
  }

  lemma BeforeEndsWithAngle(c: string, t: string)
    requires CountOccurrences(c, INSERTION_MARKER) > 0 && FindTag(Entries(c, Closed), t) == |Entries(c, Closed)|
    ensures EndsWithAngle(Before(c, t))
  {
    hide Matches, Entries, Preamble, Delimit, IndexOfTag, FindTag, CountOccurrences, IndexOf, InStep, BeginsWith;
    var ms, es := Matches(c, Closed, 0), Entries(c, Closed);
    MatchesDelimitEntries(c, Closed, 0);
    DelimitInStep(c, ms, es, Preamble(c, Closed));
    InStepIndex(ms, es, t);
    InStepLength(ms, es);
    var k := IndexOf(c, INSERTION_MARKER);
    BeginsWithSplit(c[k..], INSERTION_MARKER);
    MarkerShape();
    assert Before(c, t)[k + |INSERTION_MARKER| - 1] == c[k..][..|INSERTION_MARKER|][|INSERTION_MARKER| - 1];
  }

  lemma AngleIsNoHeading(line: string)
    requires EndsWithAngle(line)
    ensures VersionHeading(line).None?
  {
    hide HeadingRun;
    var start := line[..|line| - 1];
    HeadingRunConcat(Prefix(0), start, ">");
    assert line == start + ">" && Content(line) == line;
    assert ">"[1..] == "";
    OneStep(HeadingRun(Prefix(0), start), '>');
  }

  lemma OneStep(st: HeadingState, c: char)
    ensures HeadingRun(st, [c]) == HeadingStep(st, c)
    ensures c == '>' ==> !HeadingStep(st, c).Trail?
  {
    assert [c][1..] == "";
  }

  lemma AngleBehind(line: string, s: string)
    requires EndsWithAngle(line + s) && s != ""
    ensures EndsWithAngle(s)
  {
  }

  /** A text that ends in the marker, up to white space, can lose that white space. */
  lemma {:induction false} MarkerIsClean(s: string)
    requires EndsWithAngle(RStrip(s))
    ensures Clean(s)
    decreases |s|
  {
    hide *;
    CleanStep(s);
    if !Blank(s) {
      HeadIsLine(s);
      RStripConcat(Head(s), Tail(s));
      if Blank(Tail(s)) {
        CleanLineOf(Head(s));
      } else {
        RStripBlank(Tail(s));
        AngleBehind(Head(s), RStrip(Tail(s)));
        MarkerIsClean(Tail(s));
      }
    }
  }

  lemma CleanLineOf(line: string)
    requires EndsWithAngle(RStrip(line))
    ensures CleanLine(line)
  {
    hide VersionHeading, RStrip, EndsWithAngle;
    AngleIsNoHeading(RStrip(line));
  }

  lemma TrimmedAngle(s: string)
    requires EndsWithAngle(s)
    ensures RStrip(s) == s
  {
    MarkerShape();
  }

  lemma CompleteConcat(a: string, l: string)
    requires l != "" && Complete(l)
    ensures Complete(a + l)
  {
  }

  predicate EndsLine(s: string) {
    s != "" && s[|s| - 1] == '\n'
  }

  lemma LastBodyOfLine(line: string, s: string, st: Fence)
    requires Complete(line) && line != "" && Complete(s)
    requires Entries(s, st) == []
    ensures EndsLine(LineEnd(line) + Preamble(s, st))
  {
    hide TopHeading, Entries, Preamble;
    PreambleConcat(s, "", st);
  }

  /** In a text that ends its last line, so does the last entry. */
  lemma {:induction false} LastBodyEndsLine(s: string, st: Fence)
    requires Complete(s)
    ensures var es := Entries(s, st); es != [] ==> EndsLine(es[|es| - 1].body)
    decreases |s|
  {
    hide *;
    EntriesStep(s, st);
    if s != "" {
      CompleteTail(s);
      HeadIsLine(s);
      LastBodyEndsLine(Tail(s), FenceStep(st, Head(s)));
      var rest := Entries(Tail(s), FenceStep(st, Head(s)));
      var body := LineEnd(Head(s)) + Preamble(Tail(s), st);
      AddEntryShape(TopHeading(s, st), body, rest);
      if TopHeading(s, st).Some? && rest == [] {
        TopHeadingContent(s, st);
        LastBodyOfLine(Head(s), Tail(s), st);
      }
    }
  }

  /**
   Inserting an entry behind the marker, in whatever fence that is: the entries above, the text up
   to the first heading below, the entries below.
   */
  lemma InsertView(c: string, t: string) returns (above: seq<Entry>, gap: string)
    requires CountOccurrences(c, INSERTION_MARKER) > 0 && MarkerEndsLine(c, t)
    requires FindTag(Entries(c, Closed), t) == |Entries(c, Closed)|
    ensures Alike(Entries(Front(c, t), Closed), above)
    ensures var f := FenceAfter(Before(c, t), Closed);
            && FenceAfter(Front(c, t), Closed) == f
            && Entries(c, Closed) == Extend(above, gap) + Entries(Following(c, t), f)
            && (Blank(gap) <==> Blank(Preamble(Following(c, t), f)))
    ensures above != [] && !Blank(gap) ==> EndsLine(above[|above| - 1].body)
  {
    hide *;
    var before, after, f := Before(c, t), After(c, t), FenceAfter(Before(c, t), Closed);
    BeforeAfterOfMarker(c, t);
    PlacedParts(c, t);
    FrontIs(c, t);
    var line, rest := Head(after), Tail(after);
    HeadTail(after);
    var a := before + line;
    assert c == a + rest;
    above, gap := Entries(a, Closed), Preamble(rest, f);
    RStripConcat(before, line);
    BeforeEndsWithAngle(c, t);
    TrimmedAngle(before);
    MarkerIsClean(a);
    FencesTrimmed(before, Closed, "\n\n");
    FencesTrimmed(a, Closed, "\n\n");
    EntriesStep("", f);
    LStripNewlinesStep("");
    BlankOfEmpty();
    if rest == "" {
      assert c == a;
      ExtendNothing(above);
      assert above + [] == above;
    } else {
      HeadIsLine(after);
      NonEmptyLine(line, rest);
      CompleteConcat(before, line);
      EntriesConcat(a, rest, Closed);
      LastBodyEndsLine(a, Closed);
    }
    TrimmedFront(a);
    if after != "" {
      HeadIsLine(after);
      BlankLineInFront(line, rest, f);
      BlankConcat(line, gap);
    }
    StrippedNewlines(after, f);
  }

  // ---- The entries of the result ----

  /** The notes of an entry as they are written: trimmed, one heading level down. */
  function Shifted(notes: string): string {
    Shift(Strip(notes), 1, Closed)
  }

  /** The fence state that the notes leave behind. */
  function FenceOf(notes: string): Fence {
    FenceAfter(Strip(notes) + "\n", Closed)
  }

  function NewBody(notes: string, suffix: string): string {
    "\n" + ("\n" + ((Shifted(notes) + "\n") + Preamble(Remainder(suffix), FenceOf(notes))))
  }

  function NewEntries(front: string, tag: string, date: string, notes: string, suffix: string): seq<Entry> {
    Entries(front, Closed) + [Entry(tag, date, NewBody(notes, suffix))] + Entries(Remainder(suffix), FenceOf(notes))
  }

  /** What an upsert writes behind the front. */
  function NewText(tag: string, date: string, notes: string, suffix: string): string {
    (HeadingText(tag, date) + "\n") + ("\n" + ((Shifted(notes) + "\n") + Remainder(suffix)))
  }

  lemma ShiftedFacts(notes: string)
    requires Strip(notes) != ""
    ensures var b := Shifted(notes);
            && b != "" && Trimmed(b) && Complete(b + "\n") && CountNewlines(b) == CountNewlines(Strip(notes))
            && Strip(Shift(Strip(notes) + "\n", 1, Closed)) == b
            && Entries(b + "\n", Closed) == [] && FenceAfter(b + "\n", Closed) == FenceOf(notes)
  {
    hide Strip, Shift, Entries, Trimmed, FenceAfter;
    var a, x := StripSplit(notes);
    ShiftedNotes(Strip(notes), 1);
    ShiftedHasNoEntries(Strip(notes) + "\n", Closed);
    ShiftKeepsFences(Strip(notes) + "\n", 1, Closed);
  }

  lemma EntryTextIs(tag: string, date: string, notes: string)
    requires Strip(notes) != ""
    ensures EntryText(tag, date, Strip(notes) + "\n") == HeadingText(tag, date) + "\n\n" + Shifted(notes) + "\n"
  {
    hide Strip, Shift, HeadingText, Entries, FenceAfter, Trimmed;
    ShiftedFacts(notes);
  }

  lemma NewTextFacts(tag: string, date: string, notes: string, suffix: string, offset: nat)
    requires IsTag(tag) && IsDateShape(date) && Strip(notes) != ""
    ensures var u, f := Shifted(notes) + "\n", FenceOf(notes);
            && Entries(NewText(tag, date, notes, suffix), Closed)
            == [Entry(tag, date, NewBody(notes, suffix))] + Entries(Remainder(suffix), f)
            && Preamble(NewText(tag, date, notes, suffix), Closed) == ""
            && Matches(NewText(tag, date, notes, suffix), Closed, offset)
            == [Match(tag, date, offset, offset + |HeadingText(tag, date)|)]
             + Matches(Remainder(suffix), f, offset + |HeadingText(tag, date)| + 2 + |u|)
  {
    hide Strip, Shift, Entries, Preamble, Matches, Shifted, FenceOf, Remainder, FenceAfter, IsTag, HeadingText, Trimmed;
    ShiftedFacts(notes);
    EntriesOfEntry(tag, date, Shifted(notes) + "\n", Remainder(suffix), offset);
  }

  lemma UpsertGuards(c: string, tag: string, date: string, notes: string)
    requires Upsert(c, tag, date, notes).Ok?
    ensures NormalizeTag(tag).Ok? && IsTag(NormalizeTag(tag).value) && IsIsoDate(date) && IsDateShape(date)
    ensures ValidateNotes(Strip(notes) + "\n").None? && Strip(notes) != ""
    ensures CountOccurrences(c, INSERTION_MARKER) == 1 && WellFormed(Entries(c, Closed))
  {
    hide *;
    UpsertIs(c, tag, date, notes);
    NormalizedIsTag(tag);
    IsoDateShape(date);
    ValidNotesAreNotBlank(Strip(notes) + "\n");
    NewlineIsBlankNotes();
    StripBlank(Strip(notes) + "\n");
    assert Strip(notes) == "" ==> Strip(notes) + "\n" == "\n";
  }

  lemma NewlineIsBlankNotes()
    ensures Blank("\n")
  {
  }

  /** The text of the result: the front, the new entry and what follows. */
  lemma UpsertText(c: string, tag: string, date: string, notes: string)
    requires Upsert(c, tag, date, notes).Ok?
    ensures NormalizeTag(tag).Ok? && CountOccurrences(c, INSERTION_MARKER) > 0
    ensures var t := NormalizeTag(tag).value;
            Upsert(c, tag, date, notes).value == Front(c, t) + NewText(t, date, notes, Following(c, t))
  {
    hide *;
    UpsertGuards(c, tag, date, notes);
    var t := NormalizeTag(tag).value;
    UpsertIs(c, tag, date, notes);
    EntryTextIs(t, date, notes);
    ShiftedFacts(notes);
    SpliceShape(Before(c, t), HeadingText(t, date), Shifted(notes), After(c, t));
    FrontIs(c, t);
    NewTextIs(t, date, notes, Following(c, t));
  }

  lemma NewTextIs(tag: string, date: string, notes: string, suffix: string)
    ensures NewText(tag, date, notes, suffix)
         == (HeadingText(tag, date) + "\n") + ("\n" + ((Shifted(notes) + "\n") + Remainder(suffix)))
  {
  }

  lemma NewEntriesIs(front: string, tag: string, date: string, notes: string, suffix: string)
    ensures NewEntries(front, tag, date, notes, suffix)
         == Entries(front, Closed) + ([Entry(tag, date, NewBody(notes, suffix))] + Entries(Remainder(suffix), FenceOf(notes)))
  {
    hide Entries, NewBody, Remainder, FenceOf;
  }

  /** The entries of a front with a closed fence and a new entry behind it. */
  lemma EntriesOfNew(front: string, tag: string, date: string, notes: string, suffix: string)
    requires Complete(front) && FenceAfter(front, Closed) == Closed
    requires IsTag(tag) && IsDateShape(date) && Strip(notes) != ""
    ensures Entries(front + NewText(tag, date, notes, suffix), Closed) == NewEntries(front, tag, date, notes, suffix)
  {
    hide *;
    NewTextFacts(tag, date, notes, suffix, 0);
    EntriesConcat(front, NewText(tag, date, notes, suffix), Closed);
    ExtendNothing(Entries(front, Closed));
    NewEntriesIs(front, tag, date, notes, suffix);
  }

  lemma FrontFacts(c: string, t: string)
    requires CountOccurrences(c, INSERTION_MARKER) > 0 && Placed(c, t)
    ensures Complete(Front(c, t)) && FenceAfter(Front(c, t), Closed) == Closed
  {
    hide *;
    var i := FindTag(Entries(c, Closed), t);
    FindTagBound(Entries(c, Closed), t);
    FrontIs(c, t);
    FrontIsComplete(RStrip(Before(c, t)));
    PlacedParts(c, t);
    FencesTrimmed(Before(c, t), Closed, "\n\n");
    if i < |Entries(c, Closed)| {
      BeforeAfterOfMatch(c, t, i);
      SplitAtMatch(c, Closed, 0, i);
      var k := Matches(c, Closed, 0)[i].start;
      CutParts(c[..k], c[k..], Closed, i);
    }
  }

  lemma FindTagBound(es: seq<Entry>, tag: string)
    ensures FindTag(es, tag) <= |es|
  {
  }

  lemma UpsertEntries(c: string, tag: string, date: string, notes: string)
    requires Upsert(c, tag, date, notes).Ok?
    requires NormalizeTag(tag).Ok? && CountOccurrences(c, INSERTION_MARKER) > 0 && Placed(c, NormalizeTag(tag).value)
    ensures var t := NormalizeTag(tag).value;
            Entries(Upsert(c, tag, date, notes).value, Closed) == NewEntries(Front(c, t), t, date, notes, Following(c, t))
  {
    hide *;
    var t := NormalizeTag(tag).value;
    UpsertGuards(c, tag, date, notes);
    UpsertText(c, tag, date, notes);
    FrontFacts(c, t);
    EntriesOfNew(Front(c, t), t, date, notes, Following(c, t));
  }

  // ---- What follows the new entry ----

  /** In an open fence no heading is found before the first line that is not blank. */
  lemma {:induction false} OpenPreamble(s: string, st: Fence)
    requires !Blank(s) && st.Open?
    ensures !Blank(Preamble(s, st))
    decreases |s|
  {
    hide *;
    NonBlankLine(s);
    EntriesStep(s, st);
    TopOf(s, st);
    HeadTail(s);
    BlankConcat(Head(s), Tail(s));
    BlankConcat(Head(s), Preamble(Tail(s), FenceStep(st, Head(s))));
    if Blank(Head(s)) {
      BlankLine(Head(s), st);
      OpenPreamble(Tail(s), st);
    }
  }

  lemma OpenOrClosed(f: Fence)
    ensures f == Closed || f.Open?
  {
  }

  /** The text between the new entry and the next heading is blank in exactly two cases. */
  lemma GapIsBlank(suffix: string, f: Fence)
    ensures Blank(Preamble(Remainder(suffix), f)) <==>
      Blank(suffix) || (f == Closed && Blank(Preamble(Ended(suffix), Closed)))
  {
    hide *;
    RemainderCases(suffix);
    NewlinesBlank();
    EntriesStep("", f);
    if !Blank(suffix) {
      var w := Ended(suffix);
      NewlineInFront(w, f);
      BlankConcat("\n", Preamble(w, f));
      OpenOrClosed(f);
      if f != Closed {
        EndedIsNotBlank(suffix);
        OpenPreamble(w, f);
      }
    }
  }

  lemma EndedIsNotBlank(s: string)
    requires !Blank(s)
    ensures !Blank(Ended(s))
  {
    hide *;
    RemainderCases(s);
    RStripBlank(s);
    BlankConcat(RStrip(s), "\n");
    var b := RStripSplit(s);
    BlankConcat(RStrip(s), b);
  }

  /** Behind closed notes the following entries are those of the text itself. */
  lemma RemainderEntries(suffix: string, f: Fence)
    requires Blank(suffix) || f == Closed
    ensures Entries(Remainder(suffix), f) == Entries(Ended(suffix), Closed)
  {
    hide *;
    RemainderCases(suffix);
    EntriesStep("", f);
    if Blank(suffix) {
      RStripBlank(suffix);
      BlankConcat(RStrip(suffix), "\n");
      NewlinesBlank();
      BlankText(Ended(suffix), Closed);
    } else {
      NewlineInFront(Ended(suffix), f);
    }
  }

  /** Cutting trailing white space off what follows keeps its entries, if its last line allows it. */
  lemma EndedEntries(suffix: string, st: Fence)
    requires Clean(suffix)
    ensures Alike(Entries(Ended(suffix), st), Entries(suffix, st))
    ensures Blank(Preamble(Ended(suffix), st)) <==> Blank(Preamble(suffix, st))
  {
    hide *;
    RemainderCases(suffix);
    TrimText(suffix, st, "\n");
    SameParts(suffix, Ended(suffix), st);
    RStripBlank(Preamble(suffix, st));
    RStripBlank(Preamble(Ended(suffix), st));
  }

  // ---- Extracting the new entry ----

  lemma DistinctFind(p: seq<Entry>, x: Entry, c: seq<Entry>)
    requires DistinctEntries(p + [x] + c)
    ensures FindTag(p + [x] + c, x.tag) == |p| && (p + [x] + c)[|p|] == x
  {
    var es, i := p + [x] + c, FindTag(p + [x] + c, x.tag);
    assert es[|p|] == x;
  }

  /** When the notes in an entry come back unchanged. */
  lemma NotesComeBack(notes: string, suffix: string)
    requires Strip(notes) != "" && ValidateNotes(Strip(notes) + "\n").None?
    ensures NotesOfBody(NewBody(notes, suffix)) == Ok(Strip(notes) + "\n")
       <==> NoDeepest(Strip(notes), Closed) && Blank(Preamble(Remainder(suffix), FenceOf(notes)))
  {
    hide *;
    var b, g := Shifted(notes), Preamble(Remainder(suffix), FenceOf(notes));
    ShiftedFacts(notes);
    NewlinesBlank();
    NewBodyIs(notes, suffix);
    var y := Strip(NewBody(notes, suffix));
    if Blank(g) {
      BlankConcat("\n", g);
      StripIs("\n\n", b, "\n" + g);
      assert "\n\n" + b + ("\n" + g) == NewBody(notes, suffix);
    } else {
      TrimmedJoin(b, g);
      var x := RStripSplit(g);
      var core := b + "\n" + RStrip(g);
      StripIs("\n\n", core, x);
      assert "\n\n" + core + x == NewBody(notes, suffix);
      CountNewlinesConcat(b, "\n" + RStrip(g));
      CountNewlinesConcat("\n", RStrip(g));
      OneNewline();
      assert b + ("\n" + RStrip(g)) == core;
    }
    ShiftedNotes(y, -1);
    StripTrimmed(Shift(y, -1, Closed));
    NotesOfBodyIs(NewBody(notes, suffix));
    ShiftedIs(notes);
    ShiftBack(Strip(notes), Closed);
    ConcatCancel(Shift(y, -1, Closed), Strip(notes), "\n");
  }

  lemma OneNewline()
    ensures CountNewlines("\n") == 1
  {
  }

  lemma ShiftedIs(notes: string)
    ensures Shifted(notes) == Shift(Strip(notes), 1, Closed)
  {
  }

  lemma NewBodyIs(notes: string, suffix: string)
    ensures NewBody(notes, suffix)
         == "\n" + ("\n" + ((Shifted(notes) + "\n") + Preamble(Remainder(suffix), FenceOf(notes))))
  {
  }

  lemma TrimmedJoin(b: string, g: string)
    requires b != "" && Trimmed(b) && !Blank(g)
    ensures Trimmed(b + "\n" + RStrip(g)) && b + "\n" + RStrip(g) != ""
  {
    hide RStrip;
    RStripBlank(g);
  }

  lemma NotesOfBodyIs(body: string)
    requires Strip(body) != ""
    ensures var n := Strip(Shift(Strip(body), -1, Closed)) + "\n";
            && (ValidateNotes(n).None? ==> NotesOfBody(body) == Ok(n))
            && (ValidateNotes(n).Some? ==> NotesOfBody(body).Err?)
    ensures forall m :: NotesOfBody(body) == Ok(m) ==> m == Strip(Shift(Strip(body), -1, Closed)) + "\n"
  {
  }

  lemma ExtractNew(c: string, tag: string, date: string, notes: string)
    requires Upsert(c, tag, date, notes).Ok?
    requires NormalizeTag(tag).Ok? && CountOccurrences(c, INSERTION_MARKER) > 0 && Placed(c, NormalizeTag(tag).value)
    ensures var t := NormalizeTag(tag).value;
            var r := Extract(Upsert(c, tag, date, notes).value, tag);
            && (WellFormed(NewEntries(Front(c, t), t, date, notes, Following(c, t))) ==>
                  r == NotesOfBody(NewBody(notes, Following(c, t))))
            && (r.Ok? ==> WellFormed(NewEntries(Front(c, t), t, date, notes, Following(c, t))))
  {
    hide *;
    var t := NormalizeTag(tag).value;
    var es := NewEntries(Front(c, t), t, date, notes, Following(c, t));
    UpsertEntries(c, tag, date, notes);
    ExtractByEntries(Upsert(c, tag, date, notes).value, tag);
    ExtractFromIs(es, t);
    WellFormedIs(es);
    NewEntriesIs(Front(c, t), t, date, notes, Following(c, t));
    var x := Entry(t, date, NewBody(notes, Following(c, t)));
    var p, z := Entries(Front(c, t), Closed), Entries(Remainder(Following(c, t)), FenceOf(notes));
    assert p + ([x] + z) == p + [x] + z;
    if DistinctEntries(es) {
      DistinctFind(p, x, z);
    }
  }

  lemma WellFormedIs(es: seq<Entry>)
    ensures WellFormed(es) <==> DistinctEntries(es) && ValidEntryDates(es)
  {
  }

  lemma ExtractFromIs(es: seq<Entry>, tag: string)
    ensures FindTag(es, tag) <= |es|
    ensures ExtractFrom(es, tag)
         == if !DistinctEntries(es) then Err(DuplicateEntries)
            else if !ValidEntryDates(es) then Err(InvalidDate)
            else if FindTag(es, tag) == |es| then Err(NoEntry)
            else NotesOfBody(es[FindTag(es, tag)].body)
  {
  }

  // ---- The result is well formed ----

  /** What stands around the new entry neither repeats a tag, its own included, nor has an impossible date. */
  predicate Unambiguous(c: string, tag: string)
    requires CountOccurrences(c, INSERTION_MARKER) > 0
  {
    var around := Entries(Front(c, tag), Closed) + Entries(Ended(Following(c, tag)), Closed);
    WellFormed(around) && !Mentions(around, tag)
  }

  lemma UnambiguousIs(c: string, tag: string)
    requires CountOccurrences(c, INSERTION_MARKER) > 0
    ensures var around := Entries(Front(c, tag), Closed) + Entries(Ended(Following(c, tag)), Closed);
            Unambiguous(c, tag) <==> WellFormed(around) && !Mentions(around, tag)
  {
    hide Entries, Front, Ended, Following, WellFormed, Mentions;
  }

  lemma SplicedAt(p: seq<Entry>, x: Entry, z: seq<Entry>, i: nat)
    requires i < |p + z|
    ensures (p + [x] + z)[if i < |p| then i else i + 1] == (p + z)[i]
  {
  }

  lemma SplicedIsWellFormed(p: seq<Entry>, x: Entry, z: seq<Entry>)
    requires WellFormed(p + z) && !Mentions(p + z, x.tag) && IsIsoDate(x.date)
    ensures WellFormed(p + [x] + z)
  {
    hide IsIsoDate;
    var es := p + [x] + z;
    forall i | 0 <= i < |es| ensures IsIsoDate(es[i].date) && (i != |p| ==> es[i].tag != x.tag) {
      if i != |p| {
        SplicedAt(p, x, z, if i < |p| then i else i - 1);
      }
    }
    forall i, j | 0 <= i < j < |es| ensures es[i].tag != es[j].tag {
      if i != |p| && j != |p| {
        SplicedAt(p, x, z, if i < |p| then i else i - 1);
        SplicedAt(p, x, z, if j < |p| then j else j - 1);
      }
    }
  }

  /** An entry more leaves a list well formed exactly when it was, and the entry's tag is new. */
  lemma SplicedIff(p: seq<Entry>, x: Entry, z: seq<Entry>)
    requires IsIsoDate(x.date)
    ensures WellFormed(p + [x] + z) <==> WellFormed(p + z) && !Mentions(p + z, x.tag)
  {
    hide IsIsoDate, WellFormed, Mentions;
    if WellFormed(p + [x] + z) {
      var es := p + [x] + z;
      WithoutEntry(es, |p|);
      assert es[..|p|] == p && es[|p| + 1..] == z && es[|p|] == x;
      MentionsSum(p, z, x.tag);
    } else if WellFormed(p + z) && !Mentions(p + z, x.tag) {
      SplicedIsWellFormed(p, x, z);
    }
  }

  lemma MentionsSum(p: seq<Entry>, z: seq<Entry>, tag: string)
    ensures Mentions(p + z, tag) <==> Mentions(p, tag) || Mentions(z, tag)
  {
    if i: nat :| i < |p| && p[i].tag == tag {
      assert (p + z)[i].tag == tag;
    }
    if i: nat :| i < |z| && z[i].tag == tag {
      assert (p + z)[|p| + i].tag == tag;
    }
  }

  /** Without an open fence behind the notes the result can be read exactly when what stands around the entry can. */
  lemma NewWellFormedIff(c: string, tag: string, date: string, notes: string)
    requires CountOccurrences(c, INSERTION_MARKER) > 0 && IsIsoDate(date)
    requires Blank(Following(c, tag)) || FenceOf(notes) == Closed
    ensures WellFormed(NewEntries(Front(c, tag), tag, date, notes, Following(c, tag))) <==> Unambiguous(c, tag)
  {
    hide *;
    var front, suffix := Front(c, tag), Following(c, tag);
    var p, x, z := Entries(front, Closed), Entry(tag, date, NewBody(notes, suffix)), Entries(Ended(suffix), Closed);
    NewEntriesIs(front, tag, date, notes, suffix);
    RemainderEntries(suffix, FenceOf(notes));
    UnambiguousIs(c, tag);
    assert p + ([x] + z) == p + [x] + z;
    SplicedIff(p, x, z);
  }

  lemma WithoutEntry(es: seq<Entry>, i: nat)
    requires WellFormed(es) && i < |es|
    ensures WellFormed(es[..i] + es[i + 1..])
    ensures !Mentions(es[..i], es[i].tag) && !Mentions(es[i + 1..], es[i].tag)
  {
    hide IsIsoDate;
    var rest := es[..i] + es[i + 1..];
    assert forall k :: 0 <= k < |rest| ==> rest[k] == if k < i then es[k] else es[k + 1];
  }

  lemma WithoutMention(es: seq<Entry>, above: seq<Entry>, gap: string, below: seq<Entry>, tag: string)
    requires WellFormed(es) && es == Extend(above, gap) + below && FindTag(es, tag) == |es|
    ensures WellFormed(above + below) && !Mentions(above, tag) && !Mentions(below, tag)
  {
    hide IsIsoDate, FindTag, Extend;
    NeverFound(es, tag);
    ExtendKeepsTags(above, gap);
    var joined := above + below;
    assert forall k :: 0 <= k < |es| ==> joined[k].tag == es[k].tag && joined[k].date == es[k].date;
    assert forall k :: 0 <= k < |above| ==> joined[k] == above[k];
    assert forall k :: 0 <= k < |below| ==> joined[|above| + k] == below[k];
  }

  lemma ExtendKeepsTags(es: seq<Entry>, gap: string)
    ensures |Extend(es, gap)| == |es|
    ensures forall k :: 0 <= k < |es| ==> Extend(es, gap)[k].tag == es[k].tag && Extend(es, gap)[k].date == es[k].date
  {
  }

  lemma NeverFound(es: seq<Entry>, tag: string)
    ensures FindTag(es, tag) == |es| ==> forall i :: 0 <= i < |es| ==> es[i].tag != tag
  {
  }

  /** Where the marker ends its line and trailing white space can go, what stands around the entry is what was there. */
  lemma UsuallyUnambiguous(c: string, t: string)
    requires CountOccurrences(c, INSERTION_MARKER) > 0 && WellFormed(Entries(c, Closed))
    requires Placed(c, t) && MarkerEndsLine(c, t) && Clean(Before(c, t)) && Clean(Following(c, t))
    ensures Unambiguous(c, t)
  {
    hide *;
    var es, i, suffix := Entries(c, Closed), FindTag(Entries(c, Closed), t), Following(c, t);
    FindTagBound(es, t);
    PlacedParts(c, t);
    UnambiguousIs(c, t);
    EndedEntries(suffix, Closed);
    var p, z := Entries(Front(c, t), Closed), Entries(Ended(suffix), Closed);
    if i == |es| {
      var above, gap := InsertView(c, t);
      WithoutMention(es, above, gap, Entries(suffix, Closed), t);
      MentionsSum(above, Entries(suffix, Closed), t);
      AlikeConcat(p, above, z, Entries(suffix, Closed));
      AlikeReads(p + z, above + Entries(suffix, Closed), t);
    } else {
      ReplaceView(c, t);
      WithoutEntry(es, i);
      FoundTag(es, t);
      MentionsSum(es[..i], es[i + 1..], t);
      AlikeConcat(p, es[..i], z, es[i + 1..]);
      AlikeReads(p + z, es[..i] + es[i + 1..], t);
    }
  }

  lemma AlikeReads(x: seq<Entry>, y: seq<Entry>, tag: string)
    requires Alike(x, y)
    ensures WellFormed(x) <==> WellFormed(y)
    ensures Mentions(x, tag) <==> Mentions(y, tag)
  {
    hide Strip;
    WellFormedAlike(x, y);
  }

  lemma FoundTag(es: seq<Entry>, tag: string)
    requires FindTag(es, tag) < |es|
    ensures es[FindTag(es, tag)].tag == tag
  {
  }

  // ---- The promise ----

  /**
   What the caller has to check for the notes to come back: no level-6 heading outside fences;
   behind the entry either nothing, or closed fences and then only white space up to the next
   version heading or the end of the file; and no repeated tag or impossible date around the entry.
   */
  predicate Fits(c: string, tag: string, notes: string)
    requires CountOccurrences(c, INSERTION_MARKER) > 0
  {
    && NoDeepest(Strip(notes), Closed)
    && (|| Blank(Following(c, tag))
        || (FenceOf(notes) == Closed && Blank(Preamble(Ended(Following(c, tag)), Closed))))
    && Unambiguous(c, tag)
  }

  lemma FitsParts(c: string, tag: string, notes: string)
    requires CountOccurrences(c, INSERTION_MARKER) > 0
    ensures Fits(c, tag, notes) <==>
            && NoDeepest(Strip(notes), Closed)
            && (|| Blank(Following(c, tag))
                || (FenceOf(notes) == Closed && Blank(Preamble(Ended(Following(c, tag)), Closed))))
            && Unambiguous(c, tag)
  {
    hide NoDeepest, Blank, FenceOf, Preamble, Ended, Following, Unambiguous, Strip;
  }

  /** Extracting what was upserted gives the stripped notes and a newline exactly when they fit. */
  lemma RoundTrip(c: string, tag: string, date: string, notes: string)
    requires Upsert(c, tag, date, notes).Ok?
    requires NormalizeTag(tag).Ok? && CountOccurrences(c, INSERTION_MARKER) > 0 && Placed(c, NormalizeTag(tag).value)
    ensures Extract(Upsert(c, tag, date, notes).value, tag) == Ok(Strip(notes) + "\n")
       <==> Fits(c, NormalizeTag(tag).value, notes)
  {
    hide *;
    var t := NormalizeTag(tag).value;
    UpsertGuards(c, tag, date, notes);
    FitsParts(c, t, notes);
    GapIsBlank(Following(c, t), FenceOf(notes));
    NotesComeBack(notes, Following(c, t));
    ExtractNew(c, tag, date, notes);
    if Blank(Following(c, t)) || FenceOf(notes) == Closed {
      NewWellFormedIff(c, t, date, notes);
    }
  }
}
