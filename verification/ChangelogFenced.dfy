/**
 What open fences do to a changelog: notes that leave one open hide the entries below, and an entry
 inserted inside one cannot be read.
 */
module ChangelogFenced {
  import opened Results
  import opened Text
  import opened Headings
  import opened Changelog
  import opened ChangelogEntries
  import opened ChangelogTrim
  import opened ChangelogSplice
  import opened ChangelogUpsert
  import opened ChangelogRoundTrip
  import opened ChangelogOthers

  /** A text without fence lines. */
  predicate NoFences(s: string)
    decreases |s|
  {
    s != "" ==> FenceMarker(Head(s)).None? && NoFences(Tail(s))
  }

  lemma NoFencesStep(s: string)
    ensures s == "" ==> NoFences(s)
    ensures s != "" ==> (NoFences(s) <==> FenceMarker(Head(s)).None? && NoFences(Tail(s)))
  {
    hide FenceMarker, Head, Tail;
  }

  lemma HiddenLine(s: string, st: Fence)
    requires s != "" && st.Open? && FenceMarker(Head(s)).None?
    ensures TopHeading(s, st).None? && FenceStep(st, Head(s)) == st
  {
    hide FenceMarker, Head;
  }

  /** In an open fence a text without fence lines has no entries and leaves the fence open. */
  lemma {:induction false} HiddenText(s: string, st: Fence)
    requires NoFences(s) && st.Open?
    ensures Entries(s, st) == [] && FenceAfter(s, st) == st
    decreases |s|
  {
    hide *;
    NoFencesStep(s);
    EntriesStep(s, st);
    if s != "" {
      HiddenLine(s, st);
      HeadIsLine(s);
      HiddenText(Tail(s), st);
      AddEntryShape(TopHeading(s, st), LineEnd(Head(s)) + Preamble(Tail(s), st), []);
    }
  }

  lemma HiddenBefore(s: string, z: string, st: Fence)
    requires NoFences(s) && Complete(s) && st.Open?
    ensures Entries(s + z, st) == Entries(z, st)
  {
    hide *;
    HiddenText(s, st);
    EntriesConcat(s, z, st);
    ExtendNone(Preamble(z, st));
    assert [] + Entries(z, st) == Entries(z, st);
  }

  // ---- Notes that leave a fence open ----

  lemma AlikeLength(x: seq<Entry>, y: seq<Entry>)
    requires Alike(x, y)
    ensures |x| == |y|
  {
  }

  lemma HiddenRemainder(suffix: string, st: Fence)
    requires Clean(suffix) && NoFences(suffix) && st.Open?
    ensures Entries(Remainder(suffix), st) == []
  {
    hide *;
    RemainderCases(suffix);
    EntriesStep("", st);
    HiddenText(suffix, st);
    EndedEntries(suffix, st);
    AlikeLength(Entries(Ended(suffix), st), []);
    NewlineInFront(Ended(suffix), st);
  }

  lemma PrefixReads(p: seq<Entry>, z: seq<Entry>, tag: string)
    requires WellFormed(p + z)
    ensures WellFormed(p)
    ensures ExtractFrom(p, tag) == if Mentions(p, tag) then ExtractFrom(p + z, tag) else Err(NoEntry)
  {
    hide IsIsoDate, NotesOfBody, FindTag;
    assert forall i :: 0 <= i < |p| ==> (p + z)[i] == p[i];
    FindTagInPrefix(p, z, tag);
  }

  lemma {:induction false} FindTagInPrefix(p: seq<Entry>, z: seq<Entry>, tag: string)
    ensures Mentions(p, tag) ==> FindTag(p, tag) == FindTag(p + z, tag) < |p|
    ensures !Mentions(p, tag) ==> FindTag(p, tag) == |p|
  {
    hide FindTag;
    FindTagStep(p, tag);
    FindTagStep(p + z, tag);
    if p != [] {
      assert (p + z)[0] == p[0] && (p + z)[1..] == p[1..] + z;
      MentionsStep(p, tag);
      FindTagInPrefix(p[1..], z, tag);
    }
  }

  lemma MentionsStep(es: seq<Entry>, tag: string)
    requires es != []
    ensures Mentions(es, tag) <==> es[0].tag == tag || Mentions(es[1..], tag)
  {
    MentionsSum([es[0]], es[1..], tag);
    assert [es[0]] + es[1..] == es && [es[0]][0] == es[0];
  }

  /**
   With a fence left open over a text without fence lines all entries behind are hidden: another tag
   whose entry stands in front reads the same exactly when it would with closed fences, and any
   other exactly when it had no entry before.
   */
  lemma OpenFenceHides(c: string, tag: string, date: string, notes: string, other: string)
    requires Upsert(c, tag, date, notes).Ok?
    requires NormalizeTag(tag).Ok? && CountOccurrences(c, INSERTION_MARKER) > 0 && Regular(c, NormalizeTag(tag).value)
    requires NormalizeTag(other).Ok? && NormalizeTag(other) != NormalizeTag(tag)
    requires FenceOf(notes).Open? && NoFences(Following(c, NormalizeTag(tag).value))
    ensures var t, u := NormalizeTag(tag).value, NormalizeTag(other).value;
            var p := Entries(Front(c, t), Closed);
            Extract(Upsert(c, tag, date, notes).value, other) == Extract(c, other)
            <==> if !Mentions(p, u) then Extract(c, other) == Err(NoEntry)
                 else
                   || Blank(Preamble(Following(c, t), Closed)) || !LastHas(p, u)
                   || (LastLacksSection(p) && Extract(c, other).Err?)
  {
    hide *;
    var t, u := NormalizeTag(tag).value, NormalizeTag(other).value;
    var front, suffix := Front(c, t), Following(c, t);
    var p, x := Entries(front, Closed), Entry(t, date, NewBody(notes, suffix));
    RegularParts(c, t);
    UpsertGuards(c, tag, date, notes);
    UpsertEntries(c, tag, date, notes);
    UsuallyUnambiguous(c, t);
    UnambiguousIs(c, t);
    AroundIs(c, t);
    NewEntriesIs(front, t, date, notes, suffix);
    HiddenRemainder(suffix, FenceOf(notes));
    PrefixReads(p, Entries(Ended(suffix), Closed), u);
    MentionsSum(p, Entries(Ended(suffix), Closed), t);
    assert p + ([x] + []) == p + [x] + [] && p + [] == p;
    SplicedIff(p, x, []);
    ExtractWithout(p, x, [], u);
    ExtractByEntries(Upsert(c, tag, date, notes).value, other);
    AroundReadsIff(c, t, other);
  }

  // ---- A marker inside a fence ----

  lemma {:induction false} NoFencesNewline(s: string)
    requires NoFences(s) && s != "" && !IsSpace(s[|s| - 1])
    ensures NoFences(s + "\n")
    decreases |s|
  {
    hide *;
    NoFencesStep(s);
    NoFencesStep(s + "\n");
    NoFencesStep("");
    HeadIsLine(s);
    var line, rest := Head(s), Tail(s);
    if rest == "" {
      assert line == s;
      NewlinesBlank();
      RStripOfLine(s);
      FenceMarkerTrim(s, "\n");
      LineWithNewline(s);
    } else {
      HeadConcat(s, "\n");
      NoFencesNewline(rest);
    }
  }

  lemma {:induction false} ShiftHasNoFences(s: string, delta: int, st: Fence)
    requires NoFences(s)
    ensures NoFences(Shift(s, delta, st))
    decreases |s|
  {
    hide *;
    NoFencesStep(s);
    NoFencesStep(Shift(s, delta, st));
    ShiftStep(s, delta, st);
    if s != "" {
      ShiftHead(s, delta, st);
      HeadIsLine(s);
      ShiftLineShape(st, Head(s), delta);
      ShiftHasNoFences(Tail(s), delta, FenceStep(st, Head(s)));
    }
  }

  lemma HeadingHasNoFence(tag: string, date: string)
    requires IsTag(tag) && IsDateShape(date)
    ensures NoFences(HeadingText(tag, date) + "\n") && Complete(HeadingText(tag, date) + "\n")
  {
    hide *;
    var line := HeadingText(tag, date) + "\n";
    WrittenHeading(tag, date);
    HeadingStartsLine(tag, date);
    HeadOfLine(line, "");
    assert line + "" == line;
    HashIsNoFence(line);
    NoFencesStep(line);
    NoFencesStep("");
  }

  lemma HeadingStartsLine(tag: string, date: string)
    ensures var line := HeadingText(tag, date) + "\n"; line != "" && line[0] == '#'
  {
  }

  lemma ShiftedHasNoFences(notes: string)
    requires Strip(notes) != "" && NoFences(Strip(notes))
    ensures NoFences(Shifted(notes) + "\n") && Complete(Shifted(notes) + "\n")
  {
    hide *;
    ShiftedFacts(notes);
    ShiftedIs(notes);
    ShiftHasNoFences(Strip(notes), 1, Closed);
    TrimmedParts(Shifted(notes));
    NoFencesNewline(Shifted(notes));
  }

  lemma HiddenNewText(tag: string, date: string, notes: string, suffix: string, st: Fence)
    requires IsTag(tag) && IsDateShape(date) && Strip(notes) != "" && NoFences(Strip(notes))
    requires Clean(suffix) && st.Open?
    ensures Alike(Entries(NewText(tag, date, notes, suffix), st), Entries(suffix, st))
  {
    hide *;
    var h, u, z := HeadingText(tag, date) + "\n", Shifted(notes) + "\n", Remainder(suffix);
    NewTextIs(tag, date, notes, suffix);
    HeadingHasNoFence(tag, date);
    ShiftedHasNoFences(notes);
    HiddenBefore(h, "\n" + (u + z), st);
    NewlineInFront(u + z, st);
    HiddenBefore(u, z, st);
    RemainderCases(suffix);
    if Blank(suffix) {
      BlankText(suffix, st);
      EntriesStep("", st);
      AlikeReflexive([]);
    } else {
      NewlineInFront(Ended(suffix), st);
      EndedEntries(suffix, st);
    }
  }

  predicate SameHeads(x: seq<Entry>, y: seq<Entry>) {
    |x| == |y| && forall i :: 0 <= i < |x| ==> x[i].tag == y[i].tag && x[i].date == y[i].date
  }

  lemma SameHeadsOf(p: seq<Entry>, above: seq<Entry>, one: string, gap: string, z: seq<Entry>, below: seq<Entry>)
    requires Alike(p, above) && Alike(z, below)
    ensures SameHeads(Extend(p, one) + z, Extend(above, gap) + below)
  {
    hide Strip;
  }

  lemma SameHeadsRead(x: seq<Entry>, y: seq<Entry>, tag: string)
    requires SameHeads(x, y) && WellFormed(y) && FindTag(y, tag) == |y|
    ensures ExtractFrom(x, tag) == Err(NoEntry)
  {
    hide IsIsoDate, FindTag;
    FindTagSame(x, y, tag);
  }

  /** An entry without fence lines that is inserted inside a fence cannot be read back. */
  lemma FencedMarkerHides(c: string, tag: string, date: string, notes: string)
    requires Upsert(c, tag, date, notes).Ok? && NoFences(Strip(notes))
    requires NormalizeTag(tag).Ok? && CountOccurrences(c, INSERTION_MARKER) > 0
    requires var t := NormalizeTag(tag).value;
             Inserts(c, t) && !Placed(c, t) && MarkerEndsLine(c, t) && Clean(Following(c, t))
    ensures Extract(Upsert(c, tag, date, notes).value, tag) == Err(NoEntry)
  {
    hide *;
    var t := NormalizeTag(tag).value;
    var front, suffix, f := Front(c, t), Following(c, t), FenceAfter(Before(c, t), Closed);
    var text := NewText(t, date, notes, suffix);
    PlacedIs(c, t);
    OpenOrClosed(f);
    PlacedParts(c, t);
    UpsertGuards(c, tag, date, notes);
    UpsertText(c, tag, date, notes);
    FrontIs(c, t);
    FrontIsComplete(RStrip(Before(c, t)));
    var above, gap := InsertView(c, t);
    EntriesConcat(front, text, Closed);
    HiddenNewText(t, date, notes, suffix, f);
    SameHeadsOf(Entries(front, Closed), above, Preamble(text, f), gap, Entries(text, f), Entries(suffix, f));
    ExtractByEntries(Upsert(c, tag, date, notes).value, tag);
    SameHeadsRead(Entries(Upsert(c, tag, date, notes).value, Closed), Entries(c, Closed), t);
  }

  // ---- The written heading itself ----

  predicate MatchedAt(s: string, st: Fence, offset: nat, start: nat) {
    exists m :: m in Matches(s, st, offset) && m.start == start
  }

  lemma PrependMatch(h: Option<Heading>, offset: nat, content: nat, rest: seq<Match>, start: nat)
    ensures (exists m :: m in Prepend(h, offset, content, rest) && m.start == start)
       <==> (h.Some? && start == offset) || exists m :: m in rest && m.start == start
  {
    if h.Some? {
      var first := Match(h.value.tag, h.value.date, offset, offset + content);
      assert first in [first] + rest;
      forall m | m in rest ensures m in [first] + rest {
      }
    }
  }

  lemma MatchedStep(s: string, st: Fence, offset: nat, start: nat)
    requires s != ""
    ensures MatchedAt(s, st, offset, start)
       <==> (TopHeading(s, st).Some? && start == offset)
            || MatchedAt(Tail(s), FenceStep(st, Head(s)), offset + |Head(s)|, start)
  {
    hide Matches, TopHeading, Head, Tail, FenceStep, Content, Prepend;
    MatchesStep(s, st, offset);
    var rest := Matches(Tail(s), FenceStep(st, Head(s)), offset + |Head(s)|);
    PrependMatch(TopHeading(s, st), offset, |Content(Head(s))|, rest, start);
  }

  lemma NotMatchedBefore(s: string, st: Fence, offset: nat, start: nat)
    requires start < offset
    ensures !MatchedAt(s, st, offset, start)
  {
    hide Matches;
    MatchesInOrder(s, st, offset);
  }

  /** Whether a line behind complete lines is matched depends on the fence state they leave. */
  lemma {:induction false} MatchedBehind(a: string, s: string, st: Fence, offset: nat)
    requires Complete(a) && s != ""
    ensures MatchedAt(a + s, st, offset, offset + |a|) <==> TopHeading(s, FenceAfter(a, st)).Some?
    decreases |a|
  {
    hide *;
    if a == "" {
      assert a + s == s;
      FenceAfterStep(a, st);
      MatchedStep(s, st, offset, offset);
      HeadIsLine(s);
      NonEmptyHead(s);
      NotMatchedBefore(Tail(s), FenceStep(st, Head(s)), offset + |Head(s)|, offset);
    } else {
      HeadIsLine(a);
      HeadTail(a);
      NonEmptyHead(a);
      CompleteTail(a);
      HeadConcat(a, s);
      MatchedStep(a + s, st, offset, offset + |a|);
      FenceAfterStep(a, st);
      MatchedBehind(Tail(a), s, FenceStep(st, Head(a)), offset + |Head(a)|);
    }
  }

  lemma NonEmptyHead(s: string)
    requires s != ""
    ensures |Head(s)| > 0 && |Tail(s)| < |s|
  {
  }

  lemma FenceAfterStep(s: string, st: Fence)
    ensures FenceAfter(s, st) == if s == "" then st else FenceAfter(Tail(s), FenceStep(st, Head(s)))
  {
    hide Head, Tail, FenceStep;
  }

  lemma TopHeadingIs(s: string, st: Fence)
    ensures TopHeading(s, st) == if s != "" && st.Closed? then VersionHeading(Head(s)) else None
  {
  }

  /**
   Whatever the notes hold, the heading that an upsert writes is among the headings found in the
   result exactly when no fence is open in front of it, whether it is inserted or replaced.
   */
  lemma WrittenHeadingIsFoundIff(c: string, tag: string, date: string, notes: string)
    requires Upsert(c, tag, date, notes).Ok?
    requires NormalizeTag(tag).Ok? && CountOccurrences(c, INSERTION_MARKER) > 0
    ensures var t := NormalizeTag(tag).value;
            var result, start := Upsert(c, tag, date, notes).value, |Front(c, t)|;
            && start <= |result| && HeadingText(t, date) + "\n" <= result[start..]
            && (MatchedAt(result, Closed, 0, start) <==> FenceAfter(Before(c, t), Closed) == Closed)
  {
    hide *;
    var t := NormalizeTag(tag).value;
    var front, text := Front(c, t), NewText(t, date, notes, Following(c, t));
    UpsertGuards(c, tag, date, notes);
    UpsertText(c, tag, date, notes);
    NewTextIs(t, date, notes, Following(c, t));
    FrontIs(c, t);
    FrontIsComplete(RStrip(Before(c, t)));
    FencesTrimmed(Before(c, t), Closed, "\n\n");
    WrittenHeading(t, date);
    HeadingStartsLine(t, date);
    var line := HeadingText(t, date) + "\n";
    HeadOfLine(line, text[|line|..]);
    assert text == line + text[|line|..];
    MatchedBehind(front, text, Closed, 0);
    TopHeadingIs(text, FenceAfter(front, Closed));
    assert (front + text)[|front|..] == text;
  }

  lemma PlacedIs(c: string, t: string)
    requires CountOccurrences(c, INSERTION_MARKER) > 0
    ensures Placed(c, t) <==> (Inserts(c, t) ==> FenceAfter(Before(c, t), Closed) == Closed)
  {
    hide Inserts, FenceAfter, Before;
  }
}
