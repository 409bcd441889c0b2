/**
 Where the insertion marker ends up: an upsert keeps the markers around the entry and adds those
 in the notes, which decides whether a second upsert is accepted.
 */
module ChangelogMarkers {
  import opened Results
  import opened Text
  import opened Headings
  import opened Changelog
  import opened ChangelogEntries
  import opened ChangelogTrim
  import opened ChangelogSplice
  import opened ChangelogUpsert
  import opened ChangelogRoundTrip

  /** What counting relies on: the marker lies within a line and cannot be part of a heading. */
  predicate IsMarker(p: string) {
    && p != "" && p[0] == '<' && !IsSpace(p[|p| - 1])
    && forall i :: 0 <= i < |p| ==> p[i] != '\n'
  }

  lemma InsertionMarkerIsMarker()
    ensures IsMarker(INSERTION_MARKER)
  {
  }

  /** A newline at the end of a text stops every occurrence. */
  lemma {:induction false} NewlineStops(s: string, c: string, p: string)
    requires s != "" && s[|s| - 1] == '\n' && (forall i :: 0 <= i < |p| ==> p[i] != '\n')
    ensures BeginsWith(s + c, p) <==> BeginsWith(s, p)
    decreases |p|
  {
    if p != "" && s[0] == p[0] {
      assert (s + c)[1..] == s[1..] + c;
      NewlineStops(s[1..], c, p[1..]);
    }
  }

  lemma {:induction false} CountLineConcat(a: string, c: string, p: string)
    requires IsMarker(p) && Complete(a)
    ensures CountOccurrences(a + c, p) == CountOccurrences(a, p) + CountOccurrences(c, p)
  {
    if a == "" {
      assert a + c == c;
    } else {
      NewlineStops(a, c, p);
      assert (a + c)[1..] == a[1..] + c;
      CountLineConcat(a[1..], c, p);
    }
  }

  lemma {:induction false} BlankStops(s: string, b: string, p: string)
    requires Blank(b) && p != "" && !IsSpace(p[|p| - 1])
    ensures BeginsWith(s + b, p) ==> BeginsWith(s, p)
    ensures BeginsWith(s, p) ==> BeginsWith(s + b, p)
  {
    hide IsSpace;
    BeginsWithSplit(s + b, p);
    BeginsWithSplit(s, p);
    if |s| < |p| <= |s + b| {
      assert (s + b)[..|p|][|p| - 1] == b[|p| - 1 - |s|];
    } else if |p| <= |s| {
      assert (s + b)[..|p|] == s[..|p|];
    }
  }

  lemma {:induction false} CountBlank(b: string, p: string)
    requires Blank(b) && IsMarker(p)
    ensures CountOccurrences(b, p) == 0
  {
    if b != "" {
      CountBlank(b[1..], p);
    }
  }

  lemma {:induction false} CountPadded(s: string, b: string, p: string)
    requires Blank(b) && IsMarker(p)
    ensures CountOccurrences(s + b, p) == CountOccurrences(s, p)
  {
    if s == "" {
      assert s + b == b;
      CountBlank(b, p);
    } else {
      BlankStops(s, b, p);
      assert (s + b)[1..] == s[1..] + b;
      CountPadded(s[1..], b, p);
    }
  }

  lemma {:induction false} CountIndented(b: string, s: string, p: string)
    requires Blank(b) && IsMarker(p)
    ensures CountOccurrences(b + s, p) == CountOccurrences(s, p)
  {
    if b == "" {
      assert b + s == s;
    } else {
      assert (b + s)[1..] == b[1..] + s;
      CountIndented(b[1..], s, p);
    }
  }

  lemma CountStrip(s: string, p: string)
    requires IsMarker(p)
    ensures CountOccurrences(Strip(s), p) == CountOccurrences(s, p)
    ensures CountOccurrences(RStrip(s), p) == CountOccurrences(s, p)
  {
    hide *;
    var a, b := StripSplit(s);
    CountPadded(a + Strip(s), b, p);
    CountIndented(a, Strip(s), p);
    var c := RStripSplit(s);
    CountPadded(RStrip(s), c, p);
  }

  lemma CountLStripNewlines(s: string, p: string)
    requires IsMarker(p)
    ensures CountOccurrences(LStripNewlines(s), p) == CountOccurrences(s, p)
  {
    hide *;
    var w := NewlinesInFront(s);
    CountIndented(w, LStripNewlines(s), p);
  }

  lemma {:induction false} CountWithoutFirst(s: string, p: string)
    requires IsMarker(p) && forall i :: 0 <= i < |s| ==> s[i] != '<'
    ensures CountOccurrences(s, p) == 0
  {
    if s != "" {
      CountWithoutFirst(s[1..], p);
    }
  }

  lemma {:induction false} TagHasNoAngle(st: TagState, t: string)
    requires AcceptsTag(TagRun(st, t))
    ensures forall i :: 0 <= i < |t| ==> t[i] != '<'
    decreases |t|
  {
    if t != "" {
      if t[0] == '<' {
        RejectStays(t[1..]);
      }
      TagHasNoAngle(TagStep(st, t[0]), t[1..]);
      forall i | 0 <= i < |t| ensures t[i] != '<' {
        if i > 0 {
          assert t[i] == t[1..][i - 1];
        }
      }
    }
  }

  lemma NoAngles(a: string, b: string)
    requires forall i :: 0 <= i < |a| ==> a[i] != '<'
    requires forall i :: 0 <= i < |b| ==> b[i] != '<'
    ensures forall i :: 0 <= i < |a + b| ==> (a + b)[i] != '<'
  {
  }

  lemma CountHeading(tag: string, date: string, p: string)
    requires IsTag(tag) && IsDateShape(date) && IsMarker(p)
    ensures CountOccurrences(HeadingText(tag, date) + "\n", p) == 0
  {
    hide CountOccurrences, TagRun;
    TagHasNoAngle(Start, tag);
    NoAngles("## [", tag);
    NoAngles("## [" + tag, "] - ");
    assert forall i :: 0 <= i < |date| ==> DateCharAt(i, date[i]);
    NoAngles("## [" + tag + "] - ", date);
    NoAngles(HeadingText(tag, date), "\n");
    CountWithoutFirst(HeadingText(tag, date) + "\n", p);
  }

  lemma CountShiftedLine(st: Fence, line: string, delta: int, p: string)
    requires line != "" && IsMarker(p)
    ensures CountOccurrences(ShiftVisible(st, line, delta), p) == CountOccurrences(line, p)
  {
    hide FenceMarker;
    assert ("#" + line)[1..] == line;
  }

  lemma CountNothing(p: string)
    ensures CountOccurrences("", p) == 0
  {
  }

  /** Shifting headings neither makes nor breaks a marker. */
  lemma {:induction false} CountShifted(s: string, delta: int, st: Fence, p: string)
    requires IsMarker(p)
    ensures CountOccurrences(Shift(s, delta, st), p) == CountOccurrences(s, p)
    decreases |s|
  {
    hide *;
    ShiftStep(s, delta, st);
    CountNothing(p);
    if s != "" {
      HeadIsLine(s);
      var line, next := Head(s), FenceStep(st, Head(s));
      NonEmptyLine(line, Tail(s));
      CountShiftedLine(st, line, delta, p);
      ShiftLineShape(st, line, delta);
      if Tail(s) == "" {
        ShiftStep("", delta, next);
        assert line + "" == line && ShiftVisible(st, line, delta) + "" == ShiftVisible(st, line, delta);
      } else {
        CountLineConcat(line, Tail(s), p);
        CountLineConcat(ShiftVisible(st, line, delta), Shift(Tail(s), delta, next), p);
        CountShifted(Tail(s), delta, next, p);
      }
    }
  }

  lemma CountRemainder(suffix: string, p: string)
    requires IsMarker(p)
    ensures CountOccurrences(Remainder(suffix), p) == CountOccurrences(suffix, p)
  {
    hide *;
    RemainderCases(suffix);
    CountNothing(p);
    NewlineLine();
    if Blank(suffix) {
      CountBlank(suffix, p);
    } else {
      CountIndented("\n", RStrip(suffix) + "\n", p);
      CountPadded(RStrip(suffix), "\n", p);
      CountStrip(suffix, p);
    }
  }

  lemma NewlineEnds(s: string)
    ensures Complete(s + "\n")
  {
  }

  /** The markers of the result are those before and behind the entry and those in the notes. */
  lemma MarkersOfResult(c: string, tag: string, date: string, notes: string)
    requires Upsert(c, tag, date, notes).Ok?
    requires NormalizeTag(tag).Ok? && CountOccurrences(c, INSERTION_MARKER) > 0
    ensures var t, m := NormalizeTag(tag).value, INSERTION_MARKER;
            var around := CountOccurrences(Before(c, t), m) + CountOccurrences(After(c, t), m);
            CountOccurrences(Upsert(c, tag, date, notes).value, m) == around + CountOccurrences(notes, m)
  {
    hide *;
    var t, m := NormalizeTag(tag).value, INSERTION_MARKER;
    InsertionMarkerIsMarker();
    UpsertGuards(c, tag, date, notes);
    UpsertText(c, tag, date, notes);
    FrontIs(c, t);
    NewTextIs(t, date, notes, Following(c, t));
    var h, u, z := HeadingText(t, date) + "\n", Shifted(notes) + "\n", Remainder(Following(c, t));
    FrontIsComplete(RStrip(Before(c, t)));
    CountLineConcat(Front(c, t), NewText(t, date, notes, Following(c, t)), m);
    NewlinesBlank();
    CountPadded(RStrip(Before(c, t)), "\n\n", m);
    CountStrip(Before(c, t), m);
    NewlineEnds(HeadingText(t, date));
    NewlineEnds(Shifted(notes));
    CountLineConcat(h, "\n" + (u + z), m);
    CountIndented("\n", u + z, m);
    CountLineConcat(u, z, m);
    CountHeading(t, date, m);
    CountPadded(Shifted(notes), "\n", m);
    ShiftedIs(notes);
    CountShifted(Strip(notes), 1, Closed, m);
    CountStrip(notes, m);
    CountRemainder(Following(c, t), m);
    CountLStripNewlines(After(c, t), m);
  }

  lemma {:induction false} BeginsWithMore(s: string, c: string, p: string)
    requires BeginsWith(s, p)
    ensures BeginsWith(s + c, p)
    decreases |p|
  {
    if p != "" {
      assert (s + c)[1..] == s[1..] + c;
      BeginsWithMore(s[1..], c, p[1..]);
    }
  }

  lemma {:induction false} CountAtLeast(a: string, c: string, p: string)
    ensures CountOccurrences(a + c, p) >= CountOccurrences(a, p) + CountOccurrences(c, p)
  {
    if a == "" {
      assert a + c == c;
    } else {
      if BeginsWith(a, p) {
        BeginsWithMore(a, c, p);
      }
      assert (a + c)[1..] == a[1..] + c;
      CountAtLeast(a[1..], c, p);
    }
  }

  lemma {:induction false} CountFrom(s: string, k: nat, p: string)
    requires k < |s| && BeginsWith(s[k..], p)
    ensures CountOccurrences(s, p) > 0
  {
    if k == 0 {
      assert s[0..] == s;
    } else {
      assert s[k..] == s[1..][k - 1..];
      CountFrom(s[1..], k - 1, p);
    }
  }

  lemma BeforeEndsWithMarker(c: string, t: string)
    requires CountOccurrences(c, INSERTION_MARKER) > 0 && FindTag(Entries(c, Closed), t) == |Entries(c, Closed)|
    ensures c == Before(c, t) + After(c, t) && CountOccurrences(Before(c, t), INSERTION_MARKER) > 0
  {
    hide Matches, Entries, Preamble, Delimit, IndexOfTag, FindTag, CountOccurrences, IndexOf, InStep, BeginsWith;
    var ms, es := Matches(c, Closed, 0), Entries(c, Closed);
    MatchesDelimitEntries(c, Closed, 0);
    DelimitInStep(c, ms, es, Preamble(c, Closed));
    InStepIndex(ms, es, t);
    InStepLength(ms, es);
    MatchesInOrder(c, Closed, 0);
    var k, n := IndexOf(c, INSERTION_MARKER), |INSERTION_MARKER|;
    assert Before(c, t) == c[..k + n];
    BeginsWithSplit(c[k..], INSERTION_MARKER);
    assert c[..k + n][k..] == c[k..][..n];
    BeginsWithSplit(c[..k + n][k..], INSERTION_MARKER);
    CountFrom(c[..k + n], k, INSERTION_MARKER);
  }

  /** Inserting an entry whose notes do not mention the marker leaves exactly one marker. */
  lemma InsertKeepsMarker(c: string, tag: string, date: string, notes: string)
    requires Upsert(c, tag, date, notes).Ok? && NormalizeTag(tag).Ok?
    requires FindTag(Entries(c, Closed), NormalizeTag(tag).value) == |Entries(c, Closed)|
    requires CountOccurrences(notes, INSERTION_MARKER) == 0
    ensures CountOccurrences(Upsert(c, tag, date, notes).value, INSERTION_MARKER) == 1
  {
    hide *;
    var t := NormalizeTag(tag).value;
    UpsertGuards(c, tag, date, notes);
    MarkersOfResult(c, tag, date, notes);
    BeforeEndsWithMarker(c, t);
    CountAtLeast(Before(c, t), After(c, t), INSERTION_MARKER);
  }
}
