/**
 Upserting the same release a second time: what the second upsert cuts and writes, and exactly when
 that changes nothing.
 */
module ChangelogTwice {
  import opened Results
  import opened Text
  import opened Headings
  import opened Changelog
  import opened ChangelogEntries
  import opened ChangelogTrim
  import opened ChangelogSplice
  import opened ChangelogUpsert
  import opened ChangelogRoundTrip

  lemma DelimitParts(s: string, offset: nat, ms: seq<Match>, es: seq<Entry>, preamble: string)
    requires Delimit(s, offset, ms, es, preamble)
    ensures |ms| == |es|
    ensures ms != [] ==> offset <= ms[0].start <= offset + |s| && preamble == s[..ms[0].start - offset]
    ensures ms == [] ==> preamble == s
  {
    assert s[..|s|] == s;
  }

  /** Where the new entry lies in the result, by the script's own offsets. */
  lemma SecondCut(front: string, tag: string, date: string, notes: string, suffix: string)
    requires Complete(front) && FenceAfter(front, Closed) == Closed
    requires IsTag(tag) && IsDateShape(date) && Strip(notes) != ""
    requires var r := front + NewText(tag, date, notes, suffix);
             CountOccurrences(r, INSERTION_MARKER) > 0 && WellFormed(Entries(r, Closed))
    ensures var r := front + NewText(tag, date, notes, suffix);
            && FindTag(Entries(r, Closed), tag) < |Entries(r, Closed)|
            && Before(r, tag) == front
            && var pre := Preamble(Remainder(suffix), FenceOf(notes));
            && |pre| <= |Remainder(suffix)|
            && After(r, tag) == Remainder(suffix)[|pre|..]
  {
    hide *;
    var text, z, f := NewText(tag, date, notes, suffix), Remainder(suffix), FenceOf(notes);
    var r, u := front + text, Shifted(notes) + "\n";
    var off := |front| + |HeadingText(tag, date)| + 2 + |u|;
    EntriesOfNew(front, tag, date, notes, suffix);
    NewEntriesIs(front, tag, date, notes, suffix);
    var p, x := Entries(front, Closed), Entry(tag, date, NewBody(notes, suffix));
    assert p + ([x] + Entries(z, f)) == p + [x] + Entries(z, f);
    WellFormedIs(Entries(r, Closed));
    DistinctFind(p, x, Entries(z, f));
    BeforeAfterOfMatch(r, tag, |p|);
    NewTextFacts(tag, date, notes, suffix, |front|);
    MatchesConcat(front, text, Closed, 0);
    var ms := Matches(r, Closed, 0);
    MatchesDelimitEntries(front, Closed, 0);
    DelimitParts(front, 0, Matches(front, Closed, 0), p, Preamble(front, Closed));
    MatchesDelimitEntries(z, f, off);
    DelimitParts(z, off, Matches(z, f, off), Entries(z, f), Preamble(z, f));
    assert ms[|p|] == Match(tag, date, |front|, |front| + |HeadingText(tag, date)|);
    EntryEndIs(r, ms, |p|);
    NewTextIs(tag, date, notes, suffix);
    assert |r| == off + |z| && r[off..] == z;
    assert r[..|front|] == front;
    var k := |Preamble(z, f)|;
    assert EntryEnd(r, ms, |p|) == off + k;
    assert r[off + k..] == r[off..][k..];
  }

  lemma FrontAgain(a: string)
    ensures RStrip(RStrip(a) + "\n\n") + "\n\n" == RStrip(a) + "\n\n"
  {
    hide *;
    NewlinesBlank();
    RStripConcat(RStrip(a), "\n\n");
    RStripOfRStrip(a);
  }

  lemma FollowingHasNoNewline(s: string)
    ensures LStripNewlines(s) == "" || LStripNewlines(s)[0] != '\n'
  {
  }

  lemma PreambleIsPrefix(s: string, st: Fence) returns (rest: string)
    ensures s == Preamble(s, st) + rest
  {
    hide *;
    MatchesDelimitEntries(s, st, 0);
    DelimitParts(s, 0, Matches(s, st, 0), Entries(s, st), Preamble(s, st));
    rest := s[|Preamble(s, st)|..];
  }

  lemma RStripShortens(s: string)
    requires s != "" && s[|s| - 1] == '\n'
    ensures |RStrip(s)| < |s|
  {
    hide *;
    NewlinesBlank();
    var b := RStripSplit(s);
    RStripConcat(s[..|s| - 1], "\n");
    assert s == s[..|s| - 1] + "\n";
    var c := RStripSplit(s[..|s| - 1]);
  }

  lemma RemainderOfNothingCut(r: string)
    requires r != "" && RStrip(r) == r && r[0] != '\n'
    ensures Remainder(LStripNewlines(r + "\n")) == "\n" + (r + "\n")
  {
    hide *;
    NewlinesBlank();
    LStripNewlinesStep(r + "\n");
    RemainderCases(r + "\n");
    RStripConcat(r, "\n");
    RStripBlank(r);
    BlankConcat(r, "\n");
  }

  lemma LastOfSuffix(front: string, again: string)
    requires again != ""
    ensures (front + again)[|front + again| - 1] == again[|again| - 1]
  {
  }

  lemma RemainderOfSomethingCut(r: string, pre: string, rest: string)
    requires pre != "" && r + "\n" == pre + rest
    ensures Remainder(LStripNewlines(rest)) != "\n" + (r + "\n")
  {
    hide *;
    var again := LStripNewlines(rest);
    var front := NewlinesInFront(rest);
    RemainderCases(again);
    BlankOfEmpty();
    if !Blank(again) {
      LastOfSuffix(r, "\n");
      LastOfSuffix(pre, rest);
      LastOfSuffix(front, again);
      RStripShortens(again);
    }
  }

  /** What a second splice keeps of the text `r` and a newline after it has cut off a part in front. */
  lemma RemainderOfCut(r: string, pre: string, rest: string)
    requires r != "" && RStrip(r) == r && r + "\n" == pre + rest && r[0] != '\n'
    ensures Remainder(LStripNewlines(rest)) == "\n" + (r + "\n") <==> pre == ""
  {
    hide *;
    if pre == "" {
      assert rest == r + "\n";
      RemainderOfNothingCut(r);
    } else {
      RemainderOfSomethingCut(r, pre, rest);
    }
  }

  /** Cutting the text up to the first heading off what follows keeps it only if there was none. */
  lemma RemainderAgain(suffix: string, f: Fence)
    requires suffix == "" || suffix[0] != '\n'
    ensures var z := Remainder(suffix);
            && |Preamble(z, f)| <= |z|
            && (Remainder(LStripNewlines(z[|Preamble(z, f)|..])) == z
                <==> Blank(suffix) || (f == Closed && Preamble(Ended(suffix), Closed) == ""))
  {
    hide *;
    RemainderCases(suffix);
    BlankOfEmpty();
    if Blank(suffix) {
      EntriesStep("", f);
      LStripNewlinesStep("");
      NewlinesBlank();
      var z := Remainder(suffix);
      assert z[0..] == "";
      RemainderCases("");
    } else {
      RemainderOfText(suffix, f);
    }
  }

  lemma RemainderOfText(suffix: string, f: Fence)
    requires !Blank(suffix) && suffix != "" && suffix[0] != '\n'
    ensures var z := "\n" + Ended(suffix);
            && |Preamble(z, f)| <= |z|
            && (Remainder(LStripNewlines(z[|Preamble(z, f)|..])) == z <==> f == Closed && Preamble(Ended(suffix), Closed) == "")
  {
    hide *;
    var r, e := RStrip(suffix), Ended(suffix);
    RemainderCases(suffix);
    NewlineInFront(e, f);
    var rest := PreambleIsPrefix(e, f);
    CutOff("\n", Preamble(e, f), rest);
    RStripBlank(suffix);
    RStripOfRStrip(suffix);
    var b := RStripSplit(suffix);
    FirstCharKept(r, b);
    RemainderOfCut(r, Preamble(e, f), rest);
    OpenOrClosed(f);
    BlankOfEmpty();
    if f != Closed {
      EndedIsNotBlank(suffix);
      OpenPreamble(e, f);
    }
  }

  lemma CutOff(front: string, pre: string, rest: string)
    ensures (front + (pre + rest))[|front + pre|..] == rest && |front + pre| <= |front + (pre + rest)|
  {
  }

  lemma FirstCharKept(r: string, b: string)
    ensures r != "" ==> (r + b)[0] == r[0] && (r + "\n")[0] == r[0]
  {
  }

  /**
   Upserting the same release twice is upserting it once, byte for byte, exactly when the result
   has one marker and no ambiguity around the entry, and behind the entry there is nothing, or
   closed fences and a version heading at once.
   */
  lemma UpsertTwice(c: string, tag: string, date: string, notes: string)
    requires Upsert(c, tag, date, notes).Ok?
    requires NormalizeTag(tag).Ok? && CountOccurrences(c, INSERTION_MARKER) > 0 && Placed(c, NormalizeTag(tag).value)
    ensures var r, t := Upsert(c, tag, date, notes).value, NormalizeTag(tag).value;
            var suffix := Following(c, t);
            Upsert(r, tag, date, notes) == Ok(r) <==>
              && CountOccurrences(r, INSERTION_MARKER) == 1
              && Unambiguous(c, t)
              && (Blank(suffix) || (FenceOf(notes) == Closed && Preamble(Ended(suffix), Closed) == ""))
  {
    hide *;
    var t, r := NormalizeTag(tag).value, Upsert(c, tag, date, notes).value;
    UpsertGuards(c, tag, date, notes);
    UpsertEntries(c, tag, date, notes);
    UpsertIs(r, tag, date, notes);
    if Blank(Following(c, t)) || FenceOf(notes) == Closed {
      NewWellFormedIff(c, t, date, notes);
    }
    if Upsert(r, tag, date, notes).Ok? {
      SecondUpsert(c, tag, date, notes);
    }
    OkIs(Upsert(r, tag, date, notes), r);
  }

  /** What a second upsert writes, if it writes anything. */
  lemma SecondUpsert(c: string, tag: string, date: string, notes: string)
    requires Upsert(c, tag, date, notes).Ok? && Upsert(Upsert(c, tag, date, notes).value, tag, date, notes).Ok?
    requires NormalizeTag(tag).Ok? && CountOccurrences(c, INSERTION_MARKER) > 0 && Placed(c, NormalizeTag(tag).value)
    ensures var r, suffix := Upsert(c, tag, date, notes).value, Following(c, NormalizeTag(tag).value);
            Upsert(r, tag, date, notes).value == r <==>
              Blank(suffix) || (FenceOf(notes) == Closed && Preamble(Ended(suffix), Closed) == "")
  {
    hide *;
    var t, r := NormalizeTag(tag).value, Upsert(c, tag, date, notes).value;
    var suffix, front := Following(c, t), Front(c, t);
    UpsertGuards(c, tag, date, notes);
    UpsertGuards(r, tag, date, notes);
    UpsertText(c, tag, date, notes);
    UpsertText(r, tag, date, notes);
    FrontFacts(c, t);
    FrontIs(c, t);
    FrontIs(r, t);
    SecondCut(front, t, date, notes, suffix);
    FrontAgain(Before(c, t));
    FollowingHasNoNewline(After(c, t));
    RemainderAgain(suffix, FenceOf(notes));
    NewTextIs(t, date, notes, suffix);
    NewTextIs(t, date, notes, Following(r, t));
    var h, u := HeadingText(t, date) + "\n", Shifted(notes) + "\n";
    PieceCancel(front, h, u, Remainder(suffix), Remainder(Following(r, t)));
  }

  lemma OkIs(x: Result<string, Error>, r: string)
    ensures x == Ok(r) <==> x.Ok? && x.value == r
  {
  }

  lemma PieceCancel(front: string, h: string, u: string, x: string, y: string)
    ensures front + (h + ("\n" + (u + x))) == front + (h + ("\n" + (u + y))) <==> x == y
  {
    PrefixCancel(front + h + "\n" + u, x, y);
    assert front + (h + ("\n" + (u + x))) == (front + h + "\n" + u) + x;
    assert front + (h + ("\n" + (u + y))) == (front + h + "\n" + u) + y;
  }
}
