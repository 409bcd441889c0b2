/**
 `extract_release_notes` and `upsert_release` in terms of entries: what one reads and what the
 other leaves behind.
 */
module ChangelogUpsert {
  import opened Results
  import opened Text
  import opened Headings
  import opened Changelog
  import opened ChangelogEntries
  import opened ChangelogTrim
  import opened ChangelogSplice

  // ---- Extraction reads entries ----

  predicate DistinctEntries(es: seq<Entry>) {
    forall i, j :: 0 <= i < j < |es| ==> es[i].tag != es[j].tag
  }

  predicate ValidEntryDates(es: seq<Entry>) {
    forall i :: 0 <= i < |es| ==> IsIsoDate(es[i].date)
  }

  predicate WellFormed(es: seq<Entry>) {
    DistinctEntries(es) && ValidEntryDates(es)
  }

  predicate Mentions(es: seq<Entry>, tag: string) {
    exists i :: 0 <= i < |es| && es[i].tag == tag
  }

  function FindTag(es: seq<Entry>, tag: string): (i: nat)
    ensures i <= |es|
    ensures forall j :: 0 <= j < i ==> es[j].tag != tag
    ensures i < |es| ==> es[i].tag == tag
  {
    if es == [] || es[0].tag == tag then 0 else 1 + FindTag(es[1..], tag)
  }

  function ExtractFrom(es: seq<Entry>, tag: string): Result<string, Error> {
    if !DistinctEntries(es) then Err(DuplicateEntries)
    else if !ValidEntryDates(es) then Err(InvalidDate)
    else if FindTag(es, tag) == |es| then Err(NoEntry)
    else NotesOfBody(es[FindTag(es, tag)].body)
  }

  /** The same tags and dates in the same order. */
  predicate InStep(ms: seq<Match>, es: seq<Entry>) {
    |ms| == |es| && forall i :: 0 <= i < |es| ==> ms[i].tag == es[i].tag && ms[i].date == es[i].date
  }

  lemma DelimitInStep(s: string, ms: seq<Match>, es: seq<Entry>, preamble: string)
    requires Delimit(s, 0, ms, es, preamble)
    ensures InStep(ms, es)
  {
    hide InOrder;
    forall i | 0 <= i < |es| ensures ms[i].tag == es[i].tag && ms[i].date == es[i].date {
      assert Cuts(s, 0, ms, es, i);
    }
  }

  lemma DelimitBody(s: string, ms: seq<Match>, es: seq<Entry>, preamble: string, i: nat)
    requires Delimit(s, 0, ms, es, preamble) && i < |es|
    ensures |ms| == |es| && ms[i].end <= EntryEnd(s, ms, i) <= |s|
    ensures s[ms[i].end..EntryEnd(s, ms, i)] == es[i].body
  {
    assert Cuts(s, 0, ms, es, i);
  }

  lemma InStepValid(ms: seq<Match>, es: seq<Entry>)
    requires InStep(ms, es)
    ensures DistinctTags(ms) <==> DistinctEntries(es)
    ensures ValidDates(ms) <==> ValidEntryDates(es)
  {
    hide IsIsoDate;
  }

  lemma {:induction false} InStepIndex(ms: seq<Match>, es: seq<Entry>, tag: string)
    requires InStep(ms, es)
    ensures IndexOfTag(ms, tag) == FindTag(es, tag)
  {
    if ms != [] {
      InStepIndex(ms[1..], es[1..], tag);
    }
  }

  /** The headings outside fences, or the error that they cause: a repeated tag before an impossible date. */
  lemma VersionMatchesIs(changelog: string)
    ensures var ms := Matches(changelog, Closed, 0);
            && InOrder(ms, 0, |changelog|)
            && VersionMatches(changelog)
            == if !DistinctTags(ms) then Err(DuplicateEntries) else if !ValidDates(ms) then Err(InvalidDate) else Ok(ms)
  {
    hide Matches, FindHeadings, DistinctTags, ValidDates, InOrder, Mask;
    MaskedMatches(changelog, Closed, 0);
    MatchesInOrder(changelog, Closed, 0);
  }

  /** Extraction depends on the changelog only through its entries. */
  lemma ExtractByEntries(changelog: string, tag: string)
    ensures Extract(changelog, tag)
         == match NormalizeTag(tag) case Err(e) => Err(e) case Ok(t) => ExtractFrom(Entries(changelog, Closed), t)
  {
    hide Matches, Entries, VersionMatches, NormalizeTag, DistinctTags, ValidDates, DistinctEntries, ValidEntryDates,
      FindTag, IndexOfTag, NotesOfBody, EntryEnd, InOrder, Delimit, Preamble, InStep;
    var ms, es := Matches(changelog, Closed, 0), Entries(changelog, Closed);
    MatchesDelimitEntries(changelog, Closed, 0);
    VersionMatchesIs(changelog);
    DelimitInStep(changelog, ms, es, Preamble(changelog, Closed));
    InStepValid(ms, es);
    InStepLength(ms, es);
    if NormalizeTag(tag).Ok? {
      var t := NormalizeTag(tag).value;
      InStepIndex(ms, es, t);
      if FindTag(es, t) < |es| {
        DelimitBody(changelog, ms, es, Preamble(changelog, Closed), FindTag(es, t));
      }
    }
  }

  lemma InStepLength(ms: seq<Match>, es: seq<Entry>)
    requires InStep(ms, es)
    ensures |ms| == |es|
  {
  }

  lemma NotesOfBodyStripped(x: string, y: string)
    requires Strip(x) == Strip(y)
    ensures NotesOfBody(x) == NotesOfBody(y)
  {
    hide Strip, Shift, ValidateNotes;
  }

  lemma {:induction false} FindTagAlike(x: seq<Entry>, y: seq<Entry>, tag: string)
    requires Alike(x, y)
    ensures FindTag(x, tag) == FindTag(y, tag)
  {
    hide Strip;
    if x != [] {
      FindTagAlike(x[1..], y[1..], tag);
    }
  }

  lemma WellFormedAlike(x: seq<Entry>, y: seq<Entry>)
    requires Alike(x, y)
    ensures DistinctEntries(x) <==> DistinctEntries(y)
    ensures ValidEntryDates(x) <==> ValidEntryDates(y)
  {
    hide IsIsoDate, Strip;
  }

  /** Extraction cannot tell entries apart that differ in white space around their bodies. */
  lemma ExtractAlike(x: seq<Entry>, y: seq<Entry>, tag: string)
    requires Alike(x, y)
    ensures ExtractFrom(x, tag) == ExtractFrom(y, tag)
  {
    hide NotesOfBody, Strip, DistinctEntries, ValidEntryDates, FindTag;
    FindTagAlike(x, y, tag);
    WellFormedAlike(x, y);
    var i := FindTag(x, tag);
    if i < |x| {
      NotesOfBodyStripped(x[i].body, y[i].body);
    }
  }

  // ---- Cutting a changelog before one of its entries ----

  /** A cut before the heading of entry `i`, with nothing unusual about the text. */
  predicate CutBefore(a: string, b: string, st: Fence, i: nat) {
    && Complete(a) && FenceAfter(a, st) == Closed && |Entries(a, st)| == i
    && b != "" && TopHeading(b, Closed).Some?
  }

  lemma CutHere(s: string, st: Fence)
    requires TopHeading(s, st).Some?
    ensures CutBefore("", s, st, 0)
  {
  }

  lemma AddEntryLength(h: Option<Heading>, body: string, es: seq<Entry>)
    ensures |AddEntry(h, body, es)| == |es| + if h.Some? then 1 else 0
  {
  }

  lemma CutLater(line: string, a: string, b: string, st: Fence, i: nat)
    requires IsLine(line) && Complete(line) && CutBefore(a, b, FenceStep(st, line), i)
    ensures CutBefore(line + a, b, st, i + if TopHeading(line + a, st).Some? then 1 else 0)
  {
    hide FenceStep, Entries, Preamble, Head, Tail, FenceAfter, TopHeading, AddEntry;
    HeadOfLine(line, a);
    EntriesStep(line + a, st);
    AddEntryLength(TopHeading(line + a, st), LineEnd(line) + Preamble(a, st), Entries(a, FenceStep(st, line)));
    assert a != "" ==> (line + a)[|line + a| - 1] == a[|a| - 1];
    assert a == "" ==> line + a == line;
  }

  lemma PrependAt(h: Option<Heading>, offset: nat, content: nat, ms: seq<Match>, i: nat)
    requires i < |Prepend(h, offset, content, ms)|
    ensures h.Some? && i == 0 ==> Prepend(h, offset, content, ms)[i].start == offset
    ensures h.Some? && i > 0 ==> |ms| > i - 1 && Prepend(h, offset, content, ms)[i] == ms[i - 1]
    ensures h.None? ==> |ms| > i && Prepend(h, offset, content, ms)[i] == ms[i]
  {
  }

  lemma StartInRange(s: string, st: Fence, offset: nat, i: nat)
    requires i < |Matches(s, st, offset)|
    ensures offset <= Matches(s, st, offset)[i].start < offset + |s|
  {
    hide Matches;
    MatchesInOrder(s, st, offset);
  }

  /** The start of match `i` cuts the text before entry `i`. */
  lemma {:induction false} SplitAtMatch(s: string, st: Fence, offset: nat, i: nat)
    requires i < |Matches(s, st, offset)|
    ensures var k := Matches(s, st, offset)[i].start - offset;
            && 0 <= k <= |s| && CutBefore(s[..k], s[k..], st, i)
    decreases |s|
  {
    hide *;
    MatchesStep(s, st, offset);
    var h, line, next := TopHeading(s, st), Head(s), FenceStep(st, Head(s));
    StartInRange(s, st, offset, i);
    var rest := Matches(Tail(s), next, offset + |line|);
    PrependAt(h, offset, |Content(line)|, rest, i);
    HeadIsLine(s);
    if h.Some? && i == 0 {
      CutHere(s, st);
      assert s[..0] == "" && s[0..] == s;
    } else {
      var i' := if h.Some? then i - 1 else i;
      MatchesStep(Tail(s), next, offset + |line|);
      StartInRange(Tail(s), next, offset + |line|, i');
      SplitAtMatch(Tail(s), next, offset + |line|, i');
      var k' := rest[i'].start - offset - |line|;
      CutLater(line, Tail(s)[..k'], Tail(s)[k'..], st, i');
      assert s[..|line| + k'] == line + Tail(s)[..k'];
      assert s[|line| + k'..] == Tail(s)[k'..];
      HeadOfLine(line, Tail(s)[..k']);
      NonEmptyLine(line, Tail(s)[..k']);
      TopHeadingByHead(s, line + Tail(s)[..k'], st);
    }
  }

  lemma TopHeadingByHead(s: string, t: string, st: Fence)
    requires s != "" && t != "" && Head(s) == Head(t)
    ensures TopHeading(s, st) == TopHeading(t, st)
  {
  }

  // ---- What an upsert keeps ----

  /** The text before the entry for `tag`: up to its heading, or up to and with the marker. */
  function Before(changelog: string, tag: string): string
    requires CountOccurrences(changelog, INSERTION_MARKER) > 0
  {
    MatchesInOrder(changelog, Closed, 0);
    var ms := Matches(changelog, Closed, 0);
    var i := IndexOfTag(ms, tag);
    if i < |ms| then changelog[..ms[i].start]
    else changelog[..IndexOf(changelog, INSERTION_MARKER) + |INSERTION_MARKER|]
  }

  /** The text behind the entry for `tag`: from the next heading on, or from the marker on. */
  function After(changelog: string, tag: string): string
    requires CountOccurrences(changelog, INSERTION_MARKER) > 0
  {
    MatchesInOrder(changelog, Closed, 0);
    var ms := Matches(changelog, Closed, 0);
    var i := IndexOfTag(ms, tag);
    if i < |ms| then changelog[EntryEnd(changelog, ms, i)..]
    else changelog[IndexOf(changelog, INSERTION_MARKER) + |INSERTION_MARKER|..]
  }

  /** What ends up directly behind the new entry. */
  function Following(changelog: string, tag: string): string
    requires CountOccurrences(changelog, INSERTION_MARKER) > 0
  {
    LStripNewlines(After(changelog, tag))
  }

  /** A text whose trailing white space is cut down to one newline. */
  function Ended(s: string): string {
    RStrip(s) + "\n"
  }

  /** Whether an upsert inserts an entry, having none to replace. */
  predicate Inserts(changelog: string, tag: string) {
    FindTag(Entries(changelog, Closed), tag) == |Entries(changelog, Closed)|
  }

  /** An entry to be inserted goes outside fences: none is open at the marker. */
  predicate Placed(changelog: string, tag: string)
    requires CountOccurrences(changelog, INSERTION_MARKER) > 0
  {
    Inserts(changelog, tag) ==> FenceAfter(Before(changelog, tag), Closed) == Closed
  }

  /** Nothing but white space follows the marker on its line, if it is used. */
  predicate MarkerEndsLine(changelog: string, tag: string)
    requires CountOccurrences(changelog, INSERTION_MARKER) > 0
  {
    Inserts(changelog, tag) ==> Blank(Head(After(changelog, tag)))
  }

  lemma NormalizedIsTag(tag: string)
    ensures NormalizeTag(tag).Ok? ==> IsTag(NormalizeTag(tag).value)
  {
  }

  lemma ValidNotesAreNotBlank(notes: string)
    requires ValidateNotes(notes).None?
    ensures Strip(notes) != ""
  {
  }

  lemma IsoDateShape(date: string)
    ensures IsIsoDate(date) ==> IsDateShape(date)
  {
  }

  /** When an upsert succeeds, and with what. */
  lemma UpsertIs(changelog: string, tag: string, date: string, notes: string)
    ensures Upsert(changelog, tag, date, notes).Ok? <==>
            && NormalizeTag(tag).Ok? && IsIsoDate(date) && ValidateNotes(Strip(notes) + "\n").None?
            && CountOccurrences(changelog, INSERTION_MARKER) == 1
            && WellFormed(Entries(changelog, Closed))
    ensures Upsert(changelog, tag, date, notes).Ok? ==>
            && var t := NormalizeTag(tag).value;
            && Upsert(changelog, tag, date, notes).value
            == Splice(Before(changelog, t), EntryText(t, date, Strip(notes) + "\n"), After(changelog, t))
  {
    hide Matches, Entries, VersionMatches, NormalizeTag, DistinctTags, ValidDates, DistinctEntries, ValidEntryDates,
      IndexOfTag, ValidateNotes, EntryEnd, InOrder, Delimit, Preamble, InStep, CountOccurrences, IndexOf, Splice,
      EntryText, Strip, IsIsoDate;
    MatchesDelimitEntries(changelog, Closed, 0);
    VersionMatchesIs(changelog);
    DelimitInStep(changelog, Matches(changelog, Closed, 0), Entries(changelog, Closed), Preamble(changelog, Closed));
    InStepValid(Matches(changelog, Closed, 0), Entries(changelog, Closed));
  }

  /** What follows a new entry, once the end of the file has been trimmed. */
  function Remainder(suffix: string): string {
    if Blank(suffix) then "" else "\n" + Ended(suffix)
  }

  lemma RStripSolid(front: string, b: string, tail: string)
    requires Trimmed(b) && b != "" && Blank(tail)
    ensures RStrip(front + b + tail) == front + b
  {
    hide RStrip, Blank, IsSpace;
    TrimmedParts(b);
    StripTrimmed(b);
    RStripBlank(b);
    RStripConcat(front, b);
    RStripConcat(front + b, tail);
  }

  lemma SpliceIs(before: string, entry: string, after: string)
    ensures var suffix := LStripNewlines(after);
            var text := RStrip(before) + "\n\n" + entry + (if suffix != "" then "\n" + suffix else "");
            Splice(before, entry, after) == RStrip(text) + "\n"
  {
  }

  lemma Pieces(r: string, h: string, b: string, z: string)
    ensures (r + "\n\n" + h + "\n\n" + b) + ("\n" + z) == (r + "\n\n") + ((h + "\n") + ("\n" + ((b + "\n") + z)))
  {
    assert (r + "\n\n" + h + "\n\n" + b) + ("\n" + z) == (r + "\n\n") + ((h + "\n\n" + b) + ("\n" + z));
    assert (h + "\n\n" + b) + ("\n" + z) == (h + "\n") + (("\n" + b) + ("\n" + z));
    assert ("\n" + b) + ("\n" + z) == "\n" + ((b + "\n") + z);
  }

  /** The result of a splice, piece by piece. */
  lemma SpliceShape(before: string, heading: string, b: string, after: string)
    requires Trimmed(b) && b != ""
    ensures Splice(before, heading + "\n\n" + b + "\n", after)
         == (RStrip(before) + "\n\n") + ((heading + "\n") + ("\n" + ((b + "\n") + Remainder(LStripNewlines(after)))))
  {
    hide *;
    var suffix, entry := LStripNewlines(after), heading + "\n\n" + b + "\n";
    SpliceIs(before, entry, after);
    Pieces(RStrip(before), heading, b, Remainder(suffix));
    SplicedEnd(RStrip(before) + "\n\n" + heading + "\n\n", b, suffix);
    SplicedText(RStrip(before), heading, b, if suffix != "" then "\n" + suffix else "");
  }

  lemma SplicedText(r: string, h: string, b: string, tail: string)
    ensures r + "\n\n" + (h + "\n\n" + b + "\n") + tail == (r + "\n\n" + h + "\n\n") + b + ("\n" + tail)
  {
  }

  lemma SplicedEnd(front: string, b: string, suffix: string)
    requires Trimmed(b) && b != ""
    ensures var tail := "\n" + (if suffix != "" then "\n" + suffix else "");
            RStrip(front + b + tail) + "\n" == (front + b) + ("\n" + Remainder(suffix))
  {
    hide *;
    NewlinesBlank();
    RemainderCases(suffix);
    if Blank(suffix) {
      var tail := "\n" + (if suffix != "" then "\n" + suffix else "");
      BlankConcat("\n", suffix);
      BlankConcat("\n", "\n" + suffix);
      RStripSolid(front, b, tail);
      assert "\n" + "" == "\n";
    } else {
      NonBlankLine(suffix);
      SplicedPieces(front + b, suffix, RStrip(suffix));
      RStripConcat(front + b + "\n\n", suffix);
    }
  }

  lemma SplicedPieces(front: string, suffix: string, kept: string)
    ensures front + ("\n" + ("\n" + suffix)) == (front + "\n\n") + suffix
    ensures (front + "\n\n" + kept) + "\n" == front + ("\n" + ("\n" + (kept + "\n")))
  {
  }

  lemma RemainderCases(suffix: string)
    ensures Remainder(suffix) == if Blank(suffix) then "" else "\n" + Ended(suffix)
    ensures Ended(suffix) == RStrip(suffix) + "\n"
  {
  }
}
