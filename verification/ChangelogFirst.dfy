/**
 The first release in a changelog that holds nothing but the marker: the conditions of the promises
 can all be met, and the notes come back.
 */
module ChangelogFirst {
  import opened Results
  import opened Text
  import opened Headings
  import opened Changelog
  import opened ChangelogEntries
  import opened ChangelogTrim
  import opened ChangelogSplice
  import opened ChangelogUpsert
  import opened ChangelogRoundTrip
  import opened ChangelogOthers
  import opened ChangelogMarkers

  function FreshChangelog(): string {
    INSERTION_MARKER + "\n"
  }

  lemma {:induction false} CountTooShort(s: string, p: string)
    requires |s| < |p|
    ensures CountOccurrences(s, p) == 0
  {
    BeginsWithSplit(s, p);
    if s != "" {
      CountTooShort(s[1..], p);
    }
  }

  lemma CountItself(p: string)
    requires p != ""
    ensures CountOccurrences(p, p) == 1 && IndexOf(p, p) == 0
  {
    BeginsWithSplit(p, p);
    CountTooShort(p[1..], p);
  }

  lemma MarkerText()
    ensures INSERTION_MARKER != "" && INSERTION_MARKER[0] == '<' && INSERTION_MARKER[|INSERTION_MARKER| - 1] == '>'
    ensures forall i :: 0 <= i < |INSERTION_MARKER| ==> INSERTION_MARKER[i] != '\n'
    ensures !IsSpace('<') && !IsSpace('>')
  {
  }

  lemma FreshIsOneLine()
    ensures var c := FreshChangelog(); c != "" && IsLine(c) && Complete(c) && Head(c) == c && Tail(c) == "" && c[0] == '<'
  {
    hide Head, Tail;
    MarkerText();
    HeadOfLine(FreshChangelog(), "");
    assert FreshChangelog() + "" == FreshChangelog();
  }

  lemma NoHeadingLine(line: string)
    requires line != "" && line[0] == '<'
    ensures VersionHeading(line).None? && FenceMarker(line).None?
  {
    hide HeadingRun;
    if VersionHeading(line).Some? {
      HeadingIsVisible(line);
      assert false;
    }
  }

  lemma FreshHasNoEntries()
    ensures var c := FreshChangelog(); Entries(c, Closed) == [] && FenceAfter(c, Closed) == Closed
    ensures FenceAfter(INSERTION_MARKER, Closed) == Closed
  {
    hide HeadingRun, FenceMarker, Head, Tail, RStrip;
    var c := FreshChangelog();
    FreshIsOneLine();
    NoHeadingLine(c);
    NewlinesBlank();
    MarkerText();
    EntriesStep("", Closed);
    TrimmedAngle(INSERTION_MARKER);
    FencesTrimmed(INSERTION_MARKER, Closed, "\n");
  }

  lemma FreshMarker()
    ensures var c := FreshChangelog(); CountOccurrences(c, INSERTION_MARKER) == 1 && IndexOf(c, INSERTION_MARKER) == 0
  {
    hide BeginsWith, CountOccurrences;
    var c, m := FreshChangelog(), INSERTION_MARKER;
    InsertionMarkerIsMarker();
    MarkerText();
    CountItself(m);
    NewlinesBlank();
    CountPadded(m, "\n", m);
    BeginsWithSplit(c, m);
    assert c[..|m|] == m;
  }

  lemma AroundMarker(c: string, tag: string)
    requires CountOccurrences(c, INSERTION_MARKER) > 0 && Matches(c, Closed, 0) == []
    ensures var end := IndexOf(c, INSERTION_MARKER) + |INSERTION_MARKER|;
            end <= |c| && Before(c, tag) == c[..end] && After(c, tag) == c[end..]
  {
    hide Matches, CountOccurrences, IndexOf, InOrder;
  }

  lemma PlacedIf(c: string, tag: string)
    requires CountOccurrences(c, INSERTION_MARKER) > 0
    requires Blank(Head(After(c, tag))) && FenceAfter(Before(c, tag), Closed) == Closed
    ensures Placed(c, tag) && MarkerEndsLine(c, tag)
  {
    hide Before, After, FenceAfter, Head, Blank, Inserts;
  }

  lemma CutAtMarker()
    ensures var m := INSERTION_MARKER;
            FreshChangelog()[..|m|] == m && FreshChangelog()[|m|..] == "\n" && m + "\n" == FreshChangelog()
  {
  }

  lemma FreshIsPlaced(tag: string)
    ensures CountOccurrences(FreshChangelog(), INSERTION_MARKER) > 0
    ensures Regular(FreshChangelog(), tag) && Following(FreshChangelog(), tag) == ""
  {
    hide *;
    var c := FreshChangelog();
    FreshMarker();
    FreshHasNoEntries();
    NoEntriesNoMatches(c, Closed, 0);
    AroundMarker(c, tag);
    CutAtMarker();
    NewlineLine();
    HeadOfLine("\n", "");
    assert "\n" + "" == "\n";
    PlacedIf(c, tag);
    FrontIs(c, tag);
    LStripNewlinesStep("\n");
    LStripNewlinesStep("");
    assert "\n"[1..] == "";
    MarkerAngle();
    TrimmedAngle(INSERTION_MARKER);
    MarkerIsClean(INSERTION_MARKER);
    BlankOfEmpty();
    CleanStep("");
    RegularParts(c, tag);
  }

  lemma MarkerAngle()
    ensures EndsWithAngle(INSERTION_MARKER)
  {
  }

  /** From a fresh changelog the first release can be written, and its notes come back exactly without a level-6 heading. */
  lemma FirstRelease(tag: string, date: string, notes: string)
    requires NormalizeTag(tag).Ok? && IsIsoDate(date) && ValidateNotes(Strip(notes) + "\n").None?
    ensures var c := FreshChangelog();
            && Upsert(c, tag, date, notes).Ok?
            && (Extract(Upsert(c, tag, date, notes).value, tag) == Ok(Strip(notes) + "\n") <==> NoDeepest(Strip(notes), Closed))
  {
    hide *;
    var c, t := FreshChangelog(), NormalizeTag(tag).value;
    FreshMarker();
    FreshHasNoEntries();
    FreshIsPlaced(t);
    NothingIsWellFormed();
    RegularParts(c, t);
    UpsertIs(c, tag, date, notes);
    UsuallyUnambiguous(c, t);
    RoundTrip(c, tag, date, notes);
    FitsParts(c, t, notes);
    BlankOfEmpty();
  }

  lemma NothingIsWellFormed()
    ensures WellFormed([])
  {
  }
}
