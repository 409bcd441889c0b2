/**
 What `upsert_release` writes, character by character, and which of its checks decides the error
 when several fail.
 */
module ChangelogWritten {
  import opened Results
  import opened Text
  import opened Headings
  import opened Changelog
  import opened ChangelogEntries
  import opened ChangelogTrim
  import opened ChangelogSplice
  import opened ChangelogUpsert
  import opened ChangelogRoundTrip

  // ---- The first check that fails decides ----

  /** A tag is checked before the date, the date before the notes, the notes before the marker, the marker before the entries. */
  lemma FirstFailureDecides(changelog: string, tag: string, date: string, notes: string)
    requires NormalizeTag(tag).Ok?
    ensures var r := Upsert(changelog, tag, date, notes);
            var checked, markers, es := ValidateNotes(Strip(notes) + "\n"), CountOccurrences(changelog, INSERTION_MARKER), Entries(changelog, Closed);
            if !IsIsoDate(date) then r == Err(InvalidDate)
            else if checked.Some? then r == Err(checked.value)
            else if markers == 0 then r == Err(MissingMarker)
            else if markers > 1 then r == Err(RepeatedMarker)
            else if !DistinctEntries(es) then r == Err(DuplicateEntries)
            else if !ValidEntryDates(es) then r == Err(InvalidDate)
            else r.Ok?
  {
    hide *;
    UpsertIs(changelog, tag, date, notes);
    VersionMatchesIs(changelog);
    EntriesOfMatches(changelog);
    FailureStep(changelog, tag, date, notes);
  }

  lemma EntriesOfMatches(changelog: string)
    ensures DistinctTags(Matches(changelog, Closed, 0)) <==> DistinctEntries(Entries(changelog, Closed))
    ensures ValidDates(Matches(changelog, Closed, 0)) <==> ValidEntryDates(Entries(changelog, Closed))
    ensures WellFormed(Entries(changelog, Closed)) <==>
      DistinctEntries(Entries(changelog, Closed)) && ValidEntryDates(Entries(changelog, Closed))
  {
    hide *;
    var ms, es := Matches(changelog, Closed, 0), Entries(changelog, Closed);
    MatchesDelimitEntries(changelog, Closed, 0);
    DelimitInStep(changelog, ms, es, Preamble(changelog, Closed));
    InStepValid(ms, es);
    WellFormedIs(es);
  }

  lemma FailureStep(changelog: string, tag: string, date: string, notes: string)
    requires NormalizeTag(tag).Ok?
    ensures var r := Upsert(changelog, tag, date, notes);
            var checked, markers := ValidateNotes(Strip(notes) + "\n"), CountOccurrences(changelog, INSERTION_MARKER);
            if !IsIsoDate(date) then r == Err(InvalidDate)
            else if checked.Some? then r == Err(checked.value)
            else if markers == 0 then r == Err(MissingMarker)
            else if markers > 1 then r == Err(RepeatedMarker)
            else if VersionMatches(changelog).Err? then r == Err(VersionMatches(changelog).error)
            else r.Ok?
  {
    hide NormalizeTag, ValidateNotes, CountOccurrences, VersionMatches, IsIsoDate, Splice, IndexOfTag, EntryEnd, EntryText, IndexOf;
  }

  /** What extraction says about a tag that has no notes to give. */
  lemma ExtractionFails(changelog: string, tag: string)
    requires NormalizeTag(tag).Ok?
    ensures var r, es, t := Extract(changelog, tag), Entries(changelog, Closed), NormalizeTag(tag).value;
            if !DistinctEntries(es) then r == Err(DuplicateEntries)
            else if !ValidEntryDates(es) then r == Err(InvalidDate)
            else if !Mentions(es, t) then r == Err(NoEntry)
            else forall i :: 0 <= i < |es| && es[i].tag == t ==>
              && (Blank(es[i].body) ==> r == Err(EmptyEntry))
              && (!Blank(es[i].body) ==> r.Ok? || r == Err(MissingSection))
  {
    hide *;
    var es, t := Entries(changelog, Closed), NormalizeTag(tag).value;
    ExtractByEntries(changelog, tag);
    if DistinctEntries(es) && ValidEntryDates(es) {
      MentionedIsFound(es, t);
      FailingExtract(es, t);
      forall i | 0 <= i < |es| && es[i].tag == t
        ensures Blank(es[i].body) ==> ExtractFrom(es, t) == Err(EmptyEntry)
        ensures !Blank(es[i].body) ==> ExtractFrom(es, t).Ok? || ExtractFrom(es, t) == Err(MissingSection)
      {
        TheOneEntry(es, t, i);
        StripBlank(es[i].body);
        NotesAreOr(es[i].body);
      }
    } else {
      FailingExtract(es, t);
    }
  }

  lemma FailingExtract(es: seq<Entry>, tag: string)
    ensures !DistinctEntries(es) ==> ExtractFrom(es, tag) == Err(DuplicateEntries)
    ensures DistinctEntries(es) && !ValidEntryDates(es) ==> ExtractFrom(es, tag) == Err(InvalidDate)
    ensures DistinctEntries(es) && ValidEntryDates(es) ==>
      ExtractFrom(es, tag) == if FindTag(es, tag) == |es| then Err(NoEntry) else NotesOfBody(es[FindTag(es, tag)].body)
  {
    hide DistinctEntries, ValidEntryDates, NotesOfBody, FindTag;
  }

  lemma MentionedIsFound(es: seq<Entry>, tag: string)
    ensures FindTag(es, tag) <= |es| && (Mentions(es, tag) <==> FindTag(es, tag) < |es|)
  {
    hide FindTag;
    var i := FindTag(es, tag);
  }

  lemma TheOneEntry(es: seq<Entry>, tag: string, i: nat)
    requires DistinctEntries(es) && i < |es| && es[i].tag == tag
    ensures FindTag(es, tag) == i
  {
    hide FindTag;
    if FindTag(es, tag) < i {
      assert false;
    }
  }

  lemma NotesAreOr(body: string)
    ensures Strip(body) == "" ==> NotesOfBody(body) == Err(EmptyEntry)
    ensures Strip(body) != "" ==> NotesOfBody(body).Ok? || NotesOfBody(body) == Err(MissingSection)
  {
    hide *;
    var a, b := StripSplit(body);
    BodyCases(body);
    if Strip(body) != "" {
      ShiftedNotes(Strip(body), -1);
      StripTrimmed(Shift(Strip(body), -1, Closed));
    }
  }

  lemma BodyCases(body: string)
    ensures Strip(body) == "" ==> NotesOfBody(body) == Err(EmptyEntry)
    ensures Strip(body) != "" ==>
      var n := Strip(Shift(Strip(body), -1, Closed)) + "\n";
      NotesOfBody(body).Ok? || NotesOfBody(body) == Err(MissingSection) || (Strip(n) == "" && NotesOfBody(body) == Err(EmptyNotes))
  {
    hide Strip, Shift, HasSection;
  }

  // ---- The text that is written ----

  /** So many newlines. */
  function Newlines(n: nat): string {
    if n == 0 then "" else "\n" + Newlines(n - 1)
  }

  lemma {:induction false} NewlinesAreCut(n: nat, rest: string)
    requires rest == "" || rest[0] != '\n'
    ensures LStripNewlines(Newlines(n) + rest) == rest
  {
    if n == 0 {
      assert Newlines(0) + rest == rest;
    } else {
      assert (Newlines(n) + rest)[1..] == Newlines(n - 1) + rest;
      NewlinesAreCut(n - 1, rest);
    }
  }

  /** An entry as it is written, with what comes behind it. */
  function Written(front: string, tag: string, date: string, notes: string, rest: string): string {
    front + "\n\n## [" + tag + "] - " + date + "\n\n" + Shift(Strip(notes), 1, Closed) + "\n"
    + if Blank(rest) then "" else "\n" + RStrip(rest) + "\n"
  }

  lemma {:induction false} OneOccurrence(c: string, p: string, k: nat)
    requires p != "" && CountOccurrences(c, p) == 1 && k <= |c| && BeginsWith(c[k..], p)
    ensures IndexOf(c, p) == k
  {
    hide BeginsWith;
    assert c[0..] == c;
    if k > 0 {
      assert c[1..][k - 1..] == c[k..];
      SomeOccurrence(c[1..], p, k - 1);
      OneOccurrence(c[1..], p, k - 1);
    }
  }

  lemma {:induction false} SomeOccurrence(c: string, p: string, k: nat)
    requires p != "" && k <= |c| && BeginsWith(c[k..], p)
    ensures CountOccurrences(c, p) > 0
  {
    assert c[0..] == c;
    if k > 0 {
      assert c[1..][k - 1..] == c[k..];
      SomeOccurrence(c[1..], p, k - 1);
    }
  }

  lemma BehindTheMarker(before: string, after: string, p: string)
    requires CountOccurrences(before + p + after, p) == 1 && p != ""
    ensures IndexOf(before + p + after, p) == |before|
    ensures (before + p + after)[|before| + |p|..] == after && (before + p + after)[..|before| + |p|] == before + p
  {
    hide CountOccurrences, BeginsWith;
    var c := before + p + after;
    BeginsWithSplit(c[|before|..], p);
    assert c[|before|..] == p + after;
    assert c == (before + p) + after;
    OneOccurrence(c, p, |before|);
  }

  /**
   Without an entry for the tag, the new one is put behind the marker and a blank line, and what
   followed the marker comes after another, without the newlines it began with.
   */
  lemma InsertedText(before: string, newlines: nat, rest: string, tag: string, date: string, notes: string)
    requires (rest == "" || rest[0] != '\n') && NormalizeTag(tag).Ok?
    requires var c := before + "<!-- NAVOP_RELEASES -->" + (Newlines(newlines) + rest);
             Upsert(c, tag, date, notes).Ok? && Inserts(c, NormalizeTag(tag).value)
    ensures Upsert(before + "<!-- NAVOP_RELEASES -->" + (Newlines(newlines) + rest), tag, date, notes)
         == Ok(Written(before + "<!-- NAVOP_RELEASES -->", NormalizeTag(tag).value, date, notes, rest))
  {
    hide *;
    MarkerIs();
    var after := Newlines(newlines) + rest;
    var c, t := before + INSERTION_MARKER + after, NormalizeTag(tag).value;
    UpsertGuards(c, tag, date, notes);
    UpsertText(c, tag, date, notes);
    BehindTheMarker(before, after, INSERTION_MARKER);
    InsertsAt(c, t);
    FrontIs(c, t);
    NewlinesAreCut(newlines, rest);
    MarkerIsSolid(before);
    WrittenIs(before + INSERTION_MARKER, t, date, notes, rest);
  }

  lemma MarkerIs()
    ensures INSERTION_MARKER == "<!-- NAVOP_RELEASES -->"
  {
  }

  lemma MarkerIsSolid(before: string)
    ensures RStrip(before + INSERTION_MARKER) == before + INSERTION_MARKER && INSERTION_MARKER != ""
  {
    MarkerShape();
    var s := before + INSERTION_MARKER;
    assert s[|s| - 1] == '>';
  }

  /** Where the two halves of the text are cut when an entry is inserted. */
  lemma InsertsAt(c: string, t: string)
    requires CountOccurrences(c, INSERTION_MARKER) > 0 && Inserts(c, t)
    ensures var k := IndexOf(c, INSERTION_MARKER) + |INSERTION_MARKER|; Before(c, t) == c[..k] && After(c, t) == c[k..]
  {
    hide Matches, Entries, Preamble, Delimit, IndexOfTag, FindTag, CountOccurrences, IndexOf, InStep;
    var ms, es := Matches(c, Closed, 0), Entries(c, Closed);
    MatchesDelimitEntries(c, Closed, 0);
    DelimitInStep(c, ms, es, Preamble(c, Closed));
    InStepIndex(ms, es, t);
    InStepLength(ms, es);
  }

  lemma WrittenIs(front: string, t: string, date: string, notes: string, rest: string)
    ensures front + "\n\n" + NewText(t, date, notes, rest) == Written(front, t, date, notes, rest)
  {
    hide Shift, Strip, RStrip, Blank;
    var shifted, tail := Shift(Strip(notes), 1, Closed), if Blank(rest) then "" else "\n" + RStrip(rest) + "\n";
    assert Remainder(rest) == tail;
    assert NewText(t, date, notes, rest) == ("## [" + t + "] - " + date + "\n") + ("\n" + ((shifted + "\n") + tail));
    Regroup(front, t, date, shifted, tail);
  }

  lemma Regroup(front: string, t: string, date: string, shifted: string, tail: string)
    ensures front + "\n\n" + (("## [" + t + "] - " + date + "\n") + ("\n" + ((shifted + "\n") + tail)))
         == front + "\n\n## [" + t + "] - " + date + "\n\n" + shifted + "\n" + tail
  {
    assert "\n\n" + "## [" == "\n\n## [";
    assert "\n" + "\n" == "\n\n";
  }

  /**
   With an entry for the tag, the new one replaces it from its heading up to the next one: the text
   before loses the white space at its end, the text behind the newlines it began with.
   */
  lemma ReplacedText(c: string, i: nat, tag: string, date: string, notes: string, newlines: nat, rest: string)
    requires NormalizeTag(tag).Ok? && Upsert(c, tag, date, notes).Ok? && (rest == "" || rest[0] != '\n')
    requires var ms := Matches(c, Closed, 0);
             && i < |ms| && ms[i].tag == NormalizeTag(tag).value
             && var end := if i + 1 < |ms| then ms[i + 1].start else |c|;
                end <= |c| && c[end..] == Newlines(newlines) + rest
    ensures Matches(c, Closed, 0)[i].start <= |c|
    ensures Upsert(c, tag, date, notes)
         == Ok(Written(RStrip(c[..Matches(c, Closed, 0)[i].start]), NormalizeTag(tag).value, date, notes, rest))
  {
    hide *;
    var t, ms := NormalizeTag(tag).value, Matches(c, Closed, 0);
    UpsertGuards(c, tag, date, notes);
    UpsertText(c, tag, date, notes);
    EntriesOfMatches(c);
    MatchesInOrder(c, Closed, 0);
    InOrderAt(ms, 0, |c|, i);
    TheOneMatch(ms, t, i);
    ReplacesAt(c, t, i);
    FrontIs(c, t);
    EntryEndIs(c, ms, i);
    NewlinesAreCut(newlines, rest);
    WrittenIs(RStrip(Before(c, t)), t, date, notes, rest);
  }

  lemma InOrderAt(ms: seq<Match>, low: nat, high: nat, i: nat)
    requires InOrder(ms, low, high) && i < |ms|
    ensures ms[i].start <= high
  {
  }

  lemma TheOneMatch(ms: seq<Match>, tag: string, i: nat)
    requires DistinctTags(ms) && i < |ms| && ms[i].tag == tag
    ensures IndexOfTag(ms, tag) == i
  {
    hide IndexOfTag;
    if IndexOfTag(ms, tag) < i {
      assert false;
    }
  }

  lemma ReplacesAt(c: string, t: string, i: nat)
    requires CountOccurrences(c, INSERTION_MARKER) > 0 && i < |Matches(c, Closed, 0)| && IndexOfTag(Matches(c, Closed, 0), t) == i
    ensures var ms := Matches(c, Closed, 0);
            && ms[i].start <= |c| && EntryEnd(c, ms, i) <= |c|
            && Before(c, t) == c[..ms[i].start] && After(c, t) == c[EntryEnd(c, ms, i)..]
  {
    hide Matches, IndexOfTag, CountOccurrences, IndexOf;
    MatchesInOrder(c, Closed, 0);
  }
}
