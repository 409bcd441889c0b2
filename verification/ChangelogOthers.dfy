/**
 Exactly which other entry an upsert changes: the one above the marker, when there is text below
 the marker that is not yet an entry of its own.
 */
module ChangelogOthers {
  import opened Results
  import opened Text
  import opened Headings
  import opened Changelog
  import opened ChangelogEntries
  import opened ChangelogTrim
  import opened ChangelogSplice
  import opened ChangelogUpsert
  import opened ChangelogRoundTrip

  // ---- Comparing lists of entries ----

  lemma AlikeTransitive(x: seq<Entry>, y: seq<Entry>, z: seq<Entry>)
    requires Alike(x, y) && Alike(y, z)
    ensures Alike(x, z)
  {
    hide Strip;
  }

  lemma AlikeSymmetric(x: seq<Entry>, y: seq<Entry>)
    requires Alike(x, y)
    ensures Alike(y, x)
  {
    hide Strip;
  }

  lemma {:induction false} FindWithout(a: seq<Entry>, x: Entry, c: seq<Entry>, tag: string)
    requires x.tag != tag
    ensures var i := FindTag(a + c, tag);
            FindTag(a + [x] + c, tag) == if i < |a| then i else i + 1
  {
    hide *;
    FindTagStep(a + [x] + c, tag);
    if a == [] {
      Dropped([x], c);
    } else {
      FindTagStep(a + c, tag);
      FindWithout(a[1..], x, c, tag);
      TailOfSums(a, [x], c);
    }
  }

  lemma Dropped(x: seq<Entry>, c: seq<Entry>)
    requires |x| == 1
    ensures [] + x + c == x + c && (x + c)[0] == x[0] && (x + c)[1..] == c && [] + c == c
  {
  }

  lemma TailOfSums(a: seq<Entry>, x: seq<Entry>, c: seq<Entry>)
    requires a != []
    ensures (a + x + c)[0] == a[0] && (a + x + c)[1..] == a[1..] + x + c
    ensures (a + c)[0] == a[0] && (a + c)[1..] == a[1..] + c
  {
  }

  lemma FindTagStep(es: seq<Entry>, tag: string)
    ensures FindTag(es, tag) == if es == [] || es[0].tag == tag then 0 else 1 + FindTag(es[1..], tag)
  {
  }

  /** Extraction looks past an entry with another tag. */
  lemma ExtractWithout(a: seq<Entry>, x: Entry, c: seq<Entry>, tag: string)
    requires x.tag != tag && WellFormed(a + [x] + c) && WellFormed(a + c)
    ensures ExtractFrom(a + [x] + c, tag) == ExtractFrom(a + c, tag)
  {
    hide DistinctEntries, ValidEntryDates, FindTag, NotesOfBody;
    FindWithout(a, x, c, tag);
    FindTagBound(a + c, tag);
  }

  lemma ExtendBlank(es: seq<Entry>, gap: string)
    requires Blank(gap) || es == []
    ensures Alike(Extend(es, gap), es)
  {
    hide Strip;
    if es != [] {
      var e := es[|es| - 1];
      BlankOfEmpty();
      StripPad("", e.body, gap);
      assert "" + e.body + gap == e.body + gap;
    }
  }

  lemma AlikeNothing(x: seq<Entry>, y: seq<Entry>)
    requires Alike(x, y)
    ensures x == [] <==> y == []
  {
  }

  // ---- More text in a body means other notes ----

  lemma EndOfLineCounts(w: string)
    requires EndsLine(w)
    ensures CountNewlines(w) >= 1
  {
    hide *;
    EndsLineParts(w);
    CountNewlinesConcat(w[..|w| - 1], "\n");
    OneNewline();
    assert w == w[..|w| - 1] + "\n";
  }

  lemma EndsLineParts(w: string)
    ensures EndsLine(w) <==> w != "" && w[|w| - 1] == '\n'
  {
  }

  lemma LastCharOfSum(a: string, y: string, w: string)
    ensures w != "" ==> (a + y + w)[|a + y + w| - 1] == w[|w| - 1]
    ensures w == "" && y != "" ==> (a + y + w)[|a + y + w| - 1] == y[|y| - 1]
  {
  }

  lemma NewlineIsSpace()
    ensures IsSpace('\n')
  {
  }

  lemma TrimmedSum(y: string, w: string, g: string)
    requires Trimmed(y) && y != "" && g != "" && !IsSpace(g[|g| - 1])
    ensures Trimmed(y + w + g) && y + w + g != ""
  {
    hide IsSpace;
  }

  /** Behind a body that ends its line, text that is not blank leaves more lines after stripping. */
  lemma StripOfMore(body: string, gap: string)
    requires EndsLine(body) && Strip(body) != "" && !Blank(gap)
    ensures CountNewlines(Strip(body + gap)) > CountNewlines(Strip(body))
    ensures Trimmed(Strip(body)) && Trimmed(Strip(body + gap)) && Strip(body + gap) != ""
  {
    hide *;
    var a, w := StripSplit(body);
    var y := Strip(body);
    EndsLineParts(body);
    EndsLineParts(w);
    LastCharOfSum(a, y, w);
    NewlineIsSpace();
    TrimmedParts(y);
    EndOfLineCounts(w);
    var z := RStripSplit(gap);
    var g := RStrip(gap);
    RStripBlank(gap);
    RStripEnds(gap);
    TrimmedSum(y, w, g);
    assert body + gap == a + (y + w + g) + z;
    StripIs(a, y + w + g, z);
    CountNewlinesConcat(y + w, g);
    CountNewlinesConcat(y, w);
  }

  lemma RStripEnds(s: string)
    ensures RStrip(s) != "" ==> !IsSpace(RStrip(s)[|RStrip(s)| - 1])
  {
    hide IsSpace;
  }

  lemma NotesOfBlank(body: string)
    requires Strip(body) == ""
    ensures NotesOfBody(body).Err?
  {
  }

  lemma OtherNotes(body: string, gap: string)
    requires EndsLine(body) && !Blank(gap) && NotesOfBody(body + gap).Ok?
    ensures NotesOfBody(body) != NotesOfBody(body + gap)
  {
    hide *;
    if Strip(body) == "" {
      NotesOfBlank(body);
    } else {
      var x, y := Strip(body), Strip(body + gap);
      StripOfMore(body, gap);
      ShiftedNotes(x, -1);
      ShiftedNotes(y, -1);
      StripTrimmed(Shift(x, -1, Closed));
      StripTrimmed(Shift(y, -1, Closed));
      NotesOfBodyIs(body);
      NotesOfBodyIs(body + gap);
      ConcatCancel(Shift(x, -1, Closed), Shift(y, -1, Closed), "\n");
    }
  }

  lemma NotesOfMore(body: string)
    requires Strip(body) != ""
    ensures var n := Strip(Shift(Strip(body), -1, Closed)) + "\n";
            NotesOfBody(body).Err? && Strip(n) != "" ==> NotesOfBody(body) == Err(MissingSection)
  {
    hide Strip, Shift, HasSection;
  }

  /** What is not blank can be unreadable in one way only. */
  lemma UnreadableIsMissing(body: string)
    requires Strip(body) != "" && Trimmed(Strip(body)) && NotesOfBody(body).Err?
    ensures NotesOfBody(body) == Err(MissingSection)
  {
    hide *;
    ShiftedNotes(Strip(body), -1);
    StripTrimmed(Shift(Strip(body), -1, Closed));
    NotesOfMore(body);
  }

  /** More text in a body goes unnoticed exactly when a section is missing with it and without it. */
  lemma OtherNotesIff(body: string, gap: string)
    requires EndsLine(body) && !Blank(gap)
    ensures NotesOfBody(body) == NotesOfBody(body + gap)
       <==> NotesOfBody(body) == Err(MissingSection) && NotesOfBody(body + gap).Err?
  {
    hide *;
    if NotesOfBody(body + gap).Ok? {
      OtherNotes(body, gap);
    } else {
      var a, w := StripSplit(body + gap);
      BlankOfSum(body, gap);
      StripBlank(body + gap);
      UnreadableIsMissing(body + gap);
    }
  }

  lemma BlankOfSum(a: string, b: string)
    ensures Blank(a + b) ==> Blank(b)
  {
    hide IsSpace;
    assert forall i :: 0 <= i < |b| ==> b[i] == (a + b)[|a| + i];
  }

  // ---- Entries with and without the text below the marker ----

  predicate SameTags(x: seq<Entry>, y: seq<Entry>) {
    |x| == |y| && forall i :: 0 <= i < |x| ==> x[i].tag == y[i].tag
  }

  lemma {:induction false} FindTagSame(x: seq<Entry>, y: seq<Entry>, tag: string)
    requires SameTags(x, y)
    ensures FindTag(x, tag) == FindTag(y, tag)
  {
    if x != [] {
      FindTagSame(x[1..], y[1..], tag);
    }
  }

  predicate LastHas(es: seq<Entry>, tag: string) {
    es != [] && es[|es| - 1].tag == tag
  }

  lemma ExtendedTags(above: seq<Entry>, gap: string, below: seq<Entry>)
    ensures SameTags(Extend(above, gap) + below, above + below)
    ensures forall i :: 0 <= i < |above + below| && i + 1 != |above| ==> (Extend(above, gap) + below)[i] == (above + below)[i]
    ensures above != [] ==>
      var i := |above| - 1;
      && (above + below)[i] == above[i]
      && (Extend(above, gap) + below)[i].body == above[i].body + gap
  {
    ExtendKeepsTags(above, gap);
  }

  lemma FindLast(above: seq<Entry>, below: seq<Entry>, tag: string)
    requires DistinctEntries(above + below) && above != []
    ensures FindTag(above + below, tag) == |above| - 1 <==> LastHas(above, tag)
  {
    hide Strip;
    var es, i := above + below, FindTag(above + below, tag);
    assert es[|above| - 1] == above[|above| - 1];
  }

  /** By itself, the last entry with this tag can be unreadable: its heading is there, a section is not. */
  predicate LastLacksSection(es: seq<Entry>) {
    es != [] && NotesOfBody(es[|es| - 1].body) == Err(MissingSection)
  }

  /** Cutting the text off changes what is read for the last entry above it, unless a section is missing either way. */
  lemma ExtractWithoutGap(above: seq<Entry>, gap: string, below: seq<Entry>, tag: string)
    requires WellFormed(Extend(above, gap) + below) && WellFormed(above + below)
    requires !Blank(gap) && (above != [] ==> EndsLine(above[|above| - 1].body))
    ensures ExtractFrom(above + below, tag) == ExtractFrom(Extend(above, gap) + below, tag)
       <==> !LastHas(above, tag) || (LastLacksSection(above) && ExtractFrom(Extend(above, gap) + below, tag).Err?)
  {
    hide *;
    var es, fs := Extend(above, gap) + below, above + below;
    ExtendedTags(above, gap, below);
    FindTagSame(es, fs, tag);
    WellFormedIs(es);
    WellFormedIs(fs);
    ExtractFromIs(es, tag);
    ExtractFromIs(fs, tag);
    SameTagsLength(es, fs);
    if above != [] {
      FindLast(above, below, tag);
      if LastHas(above, tag) {
        OtherNotesIff(above[|above| - 1].body, gap);
        LastLacksSectionIs(above);
      }
    } else {
      NothingLast(tag);
    }
  }

  lemma LastLacksSectionIs(es: seq<Entry>)
    requires es != []
    ensures LastLacksSection(es) <==> NotesOfBody(es[|es| - 1].body) == Err(MissingSection)
  {
    hide NotesOfBody;
  }

  lemma SameTagsLength(x: seq<Entry>, y: seq<Entry>)
    requires SameTags(x, y)
    ensures |x| == |y|
  {
  }

  lemma NothingLast(tag: string)
    ensures !LastHas([], tag)
  {
  }

  lemma LastHasAlike(x: seq<Entry>, y: seq<Entry>, tag: string)
    requires Alike(x, y)
    ensures LastHas(x, tag) <==> LastHas(y, tag)
    ensures LastLacksSection(x) <==> LastLacksSection(y)
  {
    hide Strip, NotesOfBody;
    if x != [] {
      NotesOfBodyStripped(x[|x| - 1].body, y[|y| - 1].body);
    }
  }

  // ---- What the entries around the new one read ----

  /** A file in which trailing white space can be cut around the entry, and whose marker ends its line. */
  predicate Regular(c: string, tag: string)
    requires CountOccurrences(c, INSERTION_MARKER) > 0
  {
    Placed(c, tag) && MarkerEndsLine(c, tag) && Clean(Before(c, tag)) && Clean(Following(c, tag))
  }

  lemma RegularParts(c: string, tag: string)
    requires CountOccurrences(c, INSERTION_MARKER) > 0
    ensures Regular(c, tag) <==>
      Placed(c, tag) && MarkerEndsLine(c, tag) && Clean(Before(c, tag)) && Clean(Following(c, tag))
  {
    hide Placed, MarkerEndsLine, Clean, Before, Following;
  }

  /** The entries in front of the new one and behind it, as they stand in the result. */
  function Around(c: string, tag: string): seq<Entry>
    requires CountOccurrences(c, INSERTION_MARKER) > 0
  {
    Entries(Front(c, tag), Closed) + Entries(Ended(Following(c, tag)), Closed)
  }

  lemma AroundIs(c: string, tag: string)
    requires CountOccurrences(c, INSERTION_MARKER) > 0
    ensures Around(c, tag) == Entries(Front(c, tag), Closed) + Entries(Ended(Following(c, tag)), Closed)
  {
    hide Entries, Front, Ended, Following;
  }

  /** With only white space below the marker, or nothing above it, the entries around read as before. */
  lemma AroundReads(c: string, t: string, other: string)
    requires CountOccurrences(c, INSERTION_MARKER) > 0 && WellFormed(Entries(c, Closed)) && Regular(c, t)
    requires NormalizeTag(other).Ok? && NormalizeTag(other).value != t
    requires Blank(Preamble(Following(c, t), Closed)) || Entries(Front(c, t), Closed) == []
    ensures ExtractFrom(Around(c, t), NormalizeTag(other).value) == Extract(c, other)
  {
    hide *;
    var u, es, i, suffix := NormalizeTag(other).value, Entries(c, Closed), FindTag(Entries(c, Closed), t), Following(c, t);
    ExtractByEntries(c, other);
    RegularParts(c, t);
    PlacedParts(c, t);
    AroundIs(c, t);
    EndedEntries(suffix, Closed);
    FindTagBound(es, t);
    var p, z, below := Entries(Front(c, t), Closed), Entries(Ended(suffix), Closed), Entries(suffix, Closed);
    if i == |es| {
      var above, gap := InsertView(c, t);
      AlikeNothing(p, above);
      ExtendBlank(above, gap);
      AlikeSymmetric(Extend(above, gap), above);
      AlikeTransitive(p, above, Extend(above, gap));
      AlikeConcat(p, Extend(above, gap), z, below);
      ExtractAlike(p + z, es, u);
    } else {
      ReplaceView(c, t);
      WithoutEntry(es, i);
      FoundTag(es, t);
      assert es == es[..i] + [es[i]] + es[i + 1..];
      ExtractWithout(es[..i], es[i], es[i + 1..], u);
      AlikeConcat(p, es[..i], z, es[i + 1..]);
      ExtractAlike(p + z, es[..i] + es[i + 1..], u);
    }
  }

  /** Exactly when the entries around read as before, for every tag but that of the new entry. */
  lemma AroundReadsIff(c: string, t: string, other: string)
    requires CountOccurrences(c, INSERTION_MARKER) > 0 && WellFormed(Entries(c, Closed)) && Regular(c, t)
    requires NormalizeTag(other).Ok? && NormalizeTag(other).value != t
    ensures var u, p := NormalizeTag(other).value, Entries(Front(c, t), Closed);
            ExtractFrom(Around(c, t), u) == Extract(c, other)
            <==> Blank(Preamble(Following(c, t), Closed)) || !LastHas(p, u) || (LastLacksSection(p) && Extract(c, other).Err?)
  {
    hide *;
    var u, es := NormalizeTag(other).value, Entries(c, Closed);
    if Blank(Preamble(Following(c, t), Closed)) {
      AroundReads(c, t, other);
    } else {
      RegularParts(c, t);
      PlacedParts(c, t);
      FindTagBound(es, t);
      if FindTag(es, t) < |es| {
        ReplaceView(c, t);
        BlankOfEmpty();
      } else {
        ExtractByEntries(c, other);
        AroundIs(c, t);
        EndedEntries(Following(c, t), Closed);
        var above, gap := InsertView(c, t);
        var below, p := Entries(Following(c, t), Closed), Entries(Front(c, t), Closed);
        WithoutMention(es, above, gap, below, t);
        AlikeConcat(p, above, Entries(Ended(Following(c, t)), Closed), below);
        ExtractAlike(Around(c, t), above + below, u);
        LastHasAlike(p, above, u);
        ExtractWithoutGap(above, gap, below, u);
      }
    }
  }

  // ---- Closed fences behind the entry ----

  /** What another tag's extraction reads after an upsert. */
  lemma ExtractAfter(c: string, tag: string, date: string, notes: string, other: string)
    requires Upsert(c, tag, date, notes).Ok?
    requires NormalizeTag(tag).Ok? && CountOccurrences(c, INSERTION_MARKER) > 0 && Placed(c, NormalizeTag(tag).value)
    requires NormalizeTag(other).Ok? && NormalizeTag(other) != NormalizeTag(tag)
    requires Blank(Following(c, NormalizeTag(tag).value)) || FenceOf(notes) == Closed
    requires Unambiguous(c, NormalizeTag(tag).value)
    ensures var t := NormalizeTag(tag).value;
            Extract(Upsert(c, tag, date, notes).value, other) == ExtractFrom(Around(c, t), NormalizeTag(other).value)
  {
    hide *;
    var t, u := NormalizeTag(tag).value, NormalizeTag(other).value;
    var front, suffix := Front(c, t), Following(c, t);
    var p, x, z := Entries(front, Closed), Entry(t, date, NewBody(notes, suffix)), Entries(Ended(suffix), Closed);
    ExtractByEntries(Upsert(c, tag, date, notes).value, other);
    UpsertGuards(c, tag, date, notes);
    UpsertEntries(c, tag, date, notes);
    NewWellFormedIff(c, t, date, notes);
    NewEntriesIs(front, t, date, notes, suffix);
    RemainderEntries(suffix, FenceOf(notes));
    AroundIs(c, t);
    assert p + ([x] + z) == p + [x] + z;
    SplicedIff(p, x, z);
    ExtractWithout(p, x, z, u);
  }

  /**
   Every other tag reads the same before and after, success or failure, unless the notes leave a
   fence open over what follows, or text between the marker and the first heading below it
   belonged to an entry above it.
   */
  lemma OthersUnchanged(c: string, tag: string, date: string, notes: string, other: string)
    requires Upsert(c, tag, date, notes).Ok?
    requires NormalizeTag(tag).Ok? && CountOccurrences(c, INSERTION_MARKER) > 0 && Regular(c, NormalizeTag(tag).value)
    requires NormalizeTag(other) != NormalizeTag(tag)
    requires Blank(Following(c, NormalizeTag(tag).value)) || FenceOf(notes) == Closed
    requires Blank(Preamble(Following(c, NormalizeTag(tag).value), Closed)) || Entries(Front(c, NormalizeTag(tag).value), Closed) == []
    ensures Extract(Upsert(c, tag, date, notes).value, other) == Extract(c, other)
  {
    hide *;
    var t := NormalizeTag(tag).value;
    if NormalizeTag(other).Ok? {
      RegularParts(c, t);
      UpsertGuards(c, tag, date, notes);
      UsuallyUnambiguous(c, t);
      ExtractAfter(c, tag, date, notes, other);
      AroundReads(c, t, other);
    } else {
      ExtractByEntries(c, other);
      ExtractByEntries(Upsert(c, tag, date, notes).value, other);
    }
  }

  /**
   With fences closed behind the new entry, another tag reads the same, success or failure, exactly
   when the text between the marker and the next heading is blank, or the tag is not that of the
   entry directly above the marker, or that entry lacks a section both with the text and without it.
   */
  lemma OtherUnchangedIff(c: string, tag: string, date: string, notes: string, other: string)
    requires Upsert(c, tag, date, notes).Ok?
    requires NormalizeTag(tag).Ok? && CountOccurrences(c, INSERTION_MARKER) > 0 && Regular(c, NormalizeTag(tag).value)
    requires NormalizeTag(other).Ok? && NormalizeTag(other) != NormalizeTag(tag)
    requires Blank(Following(c, NormalizeTag(tag).value)) || FenceOf(notes) == Closed
    ensures var t, u := NormalizeTag(tag).value, NormalizeTag(other).value;
            var p := Entries(Front(c, t), Closed);
            Extract(Upsert(c, tag, date, notes).value, other) == Extract(c, other)
            <==> Blank(Preamble(Following(c, t), Closed)) || !LastHas(p, u) || (LastLacksSection(p) && Extract(c, other).Err?)
  {
    hide *;
    var t := NormalizeTag(tag).value;
    RegularParts(c, t);
    UpsertGuards(c, tag, date, notes);
    UsuallyUnambiguous(c, t);
    ExtractAfter(c, tag, date, notes, other);
    AroundReadsIff(c, t, other);
  }
}
