/**
 What the patterns of the release changelog match, said without the automata that read them: tags,
 dates, version headings and the sections that release notes must have.
 */
module ChangelogPatterns {
  import opened Results
  import opened Text
  import opened Headings
  import opened Changelog
  import opened ChangelogTrim
  import opened ChangelogSplice
  import opened ChangelogUpsert
  import NaturalOrder

  // ---- Tags ----

  predicate IsNumber(s: string) {
    s != "" && NaturalOrder.Digits(s)
  }

  predicate IsSuffixChar(c: char) {
    c in "0123456789" || c in UPPER || c in LOWER || c == '.' || c == '-'
  }

  predicate AllSuffixChars(s: string) {
    forall i :: 0 <= i < |s| ==> IsSuffixChar(s[i])
  }

  /** Nothing, or a dot or dash and then at least one more character. */
  predicate IsSuffix(s: string) {
    s == "" || (|s| > 1 && (s[0] == '.' || s[0] == '-') && AllSuffixChars(s[1..]))
  }

  /** A tag by its three numbers and its suffix. */
  predicate Spells(tag: string, major: string, minor: string, patch: string, suffix: string) {
    && IsNumber(major) && IsNumber(minor) && IsNumber(patch) && IsSuffix(suffix)
    && tag == "v" + (major + ("." + (minor + ("." + (patch + suffix)))))
  }

  lemma SuffixChars(c: char)
    ensures IsTagChar(c) <==> IsSuffixChar(c)
  {
    hide UPPER, LOWER;
    LettersAre(c);
    if IsDigit(c) {
      assert "0123456789"[c as int - '0' as int] == c;
    }
  }

  lemma {:induction false} TagRunConcat(st: TagState, x: string, y: string)
    ensures TagRun(st, x + y) == TagRun(TagRun(st, x), y)
    decreases |x|
  {
    hide TagStep;
    if x == "" {
      assert x + y == y;
    } else {
      assert (x + y)[1..] == x[1..] + y;
      TagRunConcat(TagStep(st, x[0]), x[1..], y);
    }
  }

  lemma {:induction false} DigitsStay(k: nat, s: string)
    requires NaturalOrder.Digits(s)
    ensures TagRun(Number(k), s) == Number(k)
    decreases |s|
  {
    if s != "" {
      assert forall i :: 0 <= i < |s[1..]| ==> s[1..][i] == s[i + 1];
      assert IsDigit(s[0]);
      DigitsStay(k, s[1..]);
    }
  }

  lemma NumberIsRead(k: nat, s: string)
    requires IsNumber(s)
    ensures TagRun(Begin(k), s) == Number(k)
  {
    hide TagRun;
    assert forall i :: 0 <= i < |s[1..]| ==> s[1..][i] == s[i + 1];
    assert IsDigit(s[0]);
    DigitsStay(k, s[1..]);
    TagRunStep(Begin(k), s);
  }

  lemma TagRunStep(st: TagState, s: string)
    ensures TagRun(st, s) == if s == "" then st else TagRun(TagStep(st, s[0]), s[1..])
  {
    hide TagStep;
  }

  lemma {:induction false} SuffixStays(s: string)
    ensures AcceptsTag(TagRun(Suffix, s)) <==> AllSuffixChars(s)
    decreases |s|
  {
    hide IsTagChar, IsSuffixChar;
    if s != "" {
      SuffixChars(s[0]);
      assert AllSuffixChars(s) <==> IsSuffixChar(s[0]) && AllSuffixChars(s[1..]) by {
        assert s == [s[0]] + s[1..];
      }
      if IsTagChar(s[0]) {
        SuffixStays(s[1..]);
      } else {
        RejectStays(s[1..]);
      }
    }
  }

  lemma SuffixIsRead(s: string)
    requires s == "" || s[0] in {'.', '-'}
    ensures AcceptsTag(TagRun(Number(3), s)) <==> IsSuffix(s)
  {
    hide TagRun, IsTagChar, IsSuffixChar;
    TagRunStep(Number(3), s);
    if s != "" {
      var rest := s[1..];
      TagRunStep(SuffixStart, rest);
      if rest != "" {
        SuffixChars(rest[0]);
        SuffixStays(rest[1..]);
        RejectStays(rest[1..]);
        assert AllSuffixChars(rest) <==> IsSuffixChar(rest[0]) && AllSuffixChars(rest[1..]) by {
          assert rest == [rest[0]] + rest[1..];
        }
      }
    }
  }

  /** What an accepted rest of a tag is, inside its number `k`. */
  lemma {:induction false} RestOfNumber(k: nat, s: string) returns (digits: string, rest: string)
    requires k <= 3 && AcceptsTag(TagRun(Number(k), s))
    ensures s == digits + rest && NaturalOrder.Digits(digits)
    ensures if k == 3 then IsSuffix(rest)
            else rest != "" && rest[0] == '.' && AcceptsTag(TagRun(Begin(k + 1), rest[1..]))
    decreases |s|
  {
    hide TagRun, IsSuffix, NaturalOrder.Digits;
    TagRunStep(Number(k), s);
    NoDigits();
    if s != "" && IsDigit(s[0]) {
      digits, rest := RestOfNumber(k, s[1..]);
      MoreDigits(s[0], digits);
      digits := [s[0]] + digits;
    } else {
      digits, rest := "", s;
      if s != "" {
        RejectStays(s[1..]);
      }
      if k == 3 {
        SuffixIsRead(s);
      }
    }
  }

  lemma NoDigits()
    ensures NaturalOrder.Digits("")
  {
  }

  lemma MoreDigits(c: char, s: string)
    requires IsDigit(c) && NaturalOrder.Digits(s)
    ensures NaturalOrder.Digits([c] + s)
  {
  }

  lemma RestOfBegin(k: nat, s: string) returns (digits: string, rest: string)
    requires k <= 3 && AcceptsTag(TagRun(Begin(k), s))
    ensures s == digits + rest && IsNumber(digits)
    ensures if k == 3 then IsSuffix(rest)
            else rest != "" && rest[0] == '.' && AcceptsTag(TagRun(Begin(k + 1), rest[1..]))
  {
    hide TagRun, IsSuffix, NaturalOrder.Digits;
    TagRunStep(Begin(k), s);
    if s != "" {
      RejectStays(s[1..]);
      digits, rest := RestOfNumber(k, s[1..]);
      MoreDigits(s[0], digits);
      digits := [s[0]] + digits;
    }
  }

  /** A tag is a `v`, three numbers with dots between, and perhaps a suffix. */
  lemma TagIff(tag: string)
    ensures IsTag(tag)
       <==> exists major, minor, patch, suffix :: Spells(tag, major, minor, patch, suffix)
  {
    hide TagRun, IsNumber, IsSuffix, NaturalOrder.Digits;
    if IsTag(tag) {
      TagRunStep(Start, tag);
      if tag != "" {
        RejectStays(tag[1..]);
        var major, rest := RestOfBegin(1, tag[1..]);
        var minor, more := RestOfBegin(2, rest[1..]);
        var patch, suffix := RestOfBegin(3, more[1..]);
        assert rest == "." + (minor + more) && more == "." + (patch + suffix);
        assert tag == "v" + (major + ("." + (minor + ("." + (patch + suffix)))));
        assert Spells(tag, major, minor, patch, suffix);
      }
    }
    forall major, minor, patch, suffix | Spells(tag, major, minor, patch, suffix) ensures IsTag(tag) {
      SpelledIsTag(tag, major, minor, patch, suffix);
    }
  }

  lemma SuffixFront(s: string)
    ensures IsSuffix(s) ==> s == "" || s[0] in {'.', '-'}
  {
  }

  lemma SpelledIsTag(tag: string, major: string, minor: string, patch: string, suffix: string)
    requires Spells(tag, major, minor, patch, suffix)
    ensures IsTag(tag)
  {
    hide TagRun, IsNumber, IsSuffix;
    var third := patch + suffix;
    var second := minor + ("." + third);
    var first := major + ("." + second);
    TagRunStep(Start, "v" + first);
    assert ("v" + first)[1..] == first;
    TagRunConcat(Begin(1), major, "." + second);
    NumberIsRead(1, major);
    TagRunStep(Number(1), "." + second);
    assert ("." + second)[1..] == second;
    TagRunConcat(Begin(2), minor, "." + third);
    NumberIsRead(2, minor);
    TagRunStep(Number(2), "." + third);
    assert ("." + third)[1..] == third;
    TagRunConcat(Begin(3), patch, suffix);
    NumberIsRead(3, patch);
    SuffixFront(suffix);
    SuffixIsRead(suffix);
  }

  // ---- Tags as they are given ----

  lemma SuffixCharIsNoSpace(c: char)
    ensures IsSuffixChar(c) || c == 'v' ==> !IsSpace(c)
  {
    SuffixChars(c);
  }

  lemma NumberFront(s: string, more: string)
    requires IsNumber(s)
    ensures s + more != "" && IsDigit((s + more)[0]) && IsDigit(s[|s| - 1])
  {
    assert IsDigit(s[0]);
    assert IsDigit(s[|s| - 1]);
  }

  lemma SuffixEnd(s: string)
    requires IsSuffix(s) && s != ""
    ensures IsSuffixChar(s[|s| - 1])
  {
    hide IsSuffixChar;
    assert s[|s| - 1] == s[1..][|s| - 2];
  }

  /** A tag has no white space at its ends, and one `v` only at its front. */
  lemma TagEnds(tag: string)
    requires IsTag(tag)
    ensures tag != "" && Trimmed(tag) && tag[0] == 'v' && !("v" <= tag[1..]) && tag == "v" + tag[1..] && Trimmed(tag[1..])
  {
    hide IsSpace, IsSuffix, IsNumber, IsSuffixChar, IsTag;
    TagIff(tag);
    var major, minor, patch, suffix :| Spells(tag, major, minor, patch, suffix);
    NumberFront(major, "." + (minor + ("." + (patch + suffix))));
    NumberFront(patch, suffix);
    assert tag[1..] == major + ("." + (minor + ("." + (patch + suffix))));
    DigitIsNoSpace(tag[1]);
    SuffixCharIsNoSpace('v');
    if suffix == "" {
      assert tag[|tag| - 1] == patch[|patch| - 1];
      DigitIsNoSpace(tag[|tag| - 1]);
    } else {
      SuffixEnd(suffix);
      SuffixCharIsNoSpace(tag[|tag| - 1]);
    }
  }

  lemma DigitIsNoSpace(c: char)
    requires IsDigit(c)
    ensures !IsSpace(c) && c != 'v'
  {
  }

  /** A tag may have white space around it and may lack its `v`; everything else is refused. */
  lemma NormalizeTagIff(value: string)
    ensures IsTag(Strip(value)) ==> NormalizeTag(value) == Ok(Strip(value))
    ensures IsTag("v" + Strip(value)) ==> NormalizeTag(value) == Ok("v" + Strip(value))
    ensures !IsTag(Strip(value)) && !IsTag("v" + Strip(value)) ==> NormalizeTag(value) == Err(InvalidTag)
  {
    hide IsTag, Strip;
    var t := Strip(value);
    if IsTag(t) {
      TagEnds(t);
    }
    if IsTag("v" + t) {
      TagEnds("v" + t);
      assert ("v" + t)[1..] == t;
    }
  }

  /** The forms of one tag. */
  lemma FormsOfTag(tag: string, before: string, after: string)
    requires IsTag(tag) && Blank(before) && Blank(after)
    ensures NormalizeTag(before + tag + after) == Ok(tag)
    ensures NormalizeTag(before + tag[1..] + after) == Ok(tag)
  {
    hide IsTag, NormalizeTag, Strip, Blank, Trimmed;
    TagEnds(tag);
    StripIs(before, tag, after);
    StripIs(before, tag[1..], after);
    NormalizeTagIff(before + tag + after);
    NormalizeTagIff(before + tag[1..] + after);
  }

  /** Both operations take every form of a tag alike, and refuse exactly what is no form of one. */
  lemma TagsAreTakenAlike(
    changelog: string, tag: string, before: string, after: string, date: string, notes: string, value: string)
    requires IsTag(tag) && Blank(before) && Blank(after)
    ensures Upsert(changelog, before + tag + after, date, notes) == Upsert(changelog, tag, date, notes)
    ensures Upsert(changelog, before + tag[1..] + after, date, notes) == Upsert(changelog, tag, date, notes)
    ensures Extract(changelog, before + tag + after) == Extract(changelog, tag)
    ensures Extract(changelog, before + tag[1..] + after) == Extract(changelog, tag)
    ensures Upsert(changelog, value, date, notes) == Err(InvalidTag) <==> !IsTag(Strip(value)) && !IsTag("v" + Strip(value))
    ensures Extract(changelog, value) == Err(InvalidTag) <==> !IsTag(Strip(value)) && !IsTag("v" + Strip(value))
  {
    hide *;
    TagEnds(tag);
    FormsOfTag(tag, before, after);
    BlankOfEmpty();
    FormsOfTag(tag, "", "");
    assert "" + tag + "" == tag;
    OnlyTheTagMatters(changelog, before + tag + after, tag, date, notes);
    OnlyTheTagMatters(changelog, before + tag[1..] + after, tag, date, notes);
    NormalizeTagIff(value);
    RefusedTag(changelog, value, date, notes);
  }

  lemma OnlyTheTagMatters(changelog: string, one: string, other: string, date: string, notes: string)
    requires NormalizeTag(one) == NormalizeTag(other)
    ensures Upsert(changelog, one, date, notes) == Upsert(changelog, other, date, notes)
    ensures Extract(changelog, one) == Extract(changelog, other)
  {
    hide NormalizeTag, VersionMatches, ValidateNotes, IsIsoDate, Splice, NotesOfBody, CountOccurrences, IndexOfTag, EntryEnd;
  }

  lemma RefusedTag(changelog: string, value: string, date: string, notes: string)
    ensures Upsert(changelog, value, date, notes) == Err(InvalidTag) <==> NormalizeTag(value) == Err(InvalidTag)
    ensures Extract(changelog, value) == Err(InvalidTag) <==> NormalizeTag(value) == Err(InvalidTag)
  {
    hide Matches, FindHeadings, DistinctTags, ValidDates, HasSection, IsIsoDate, Splice, Strip, Shift, CountOccurrences, IndexOfTag, EntryEnd, IsTag;
  }

  // ---- Version headings ----

  /** The line of a version heading with its tag, its date and what trails. */
  predicate Heads(content: string, tag: string, date: string, trail: string) {
    && IsTag(tag) && IsDateShape(date) && IsTabbing(trail)
    && content == "## [" + (tag + ("] - " + (date + trail)))
  }

  lemma HeadingRunStep(st: HeadingState, s: string)
    ensures HeadingRun(st, s) == if s == "" then st else HeadingRun(HeadingStep(st, s[0]), s[1..])
  {
    hide HeadingStep;
  }

  lemma {:induction false} TrailIs(st: HeadingState, s: string)
    requires st.Trail?
    ensures HeadingRun(st, s).Trail? <==> IsTabbing(s)
    ensures IsTabbing(s) ==> HeadingRun(st, s) == st
    decreases |s|
  {
    hide HeadingRun;
    HeadingRunStep(st, s);
    if s != "" {
      assert IsTabbing(s) <==> s[0] in {' ', '\t'} && IsTabbing(s[1..]) by {
        assert s == [s[0]] + s[1..];
      }
      if s[0] in {' ', '\t'} {
        TrailIs(st, s[1..]);
      } else {
        MismatchStays(s[1..]);
      }
    }
  }

  lemma {:induction false} DateRest(tag: string, read: string, s: string) returns (date: string, trail: string)
    requires |read| < 10 && (forall i :: 0 <= i < |read| ==> DateCharAt(i, read[i]))
    requires HeadingRun(InDate(tag, read), s).Trail?
    ensures IsDateShape(date) && IsTabbing(trail) && read + s == date + trail
    ensures HeadingRun(InDate(tag, read), s) == Trail(tag, date)
    decreases |s|
  {
    hide HeadingRun, IsTabbing, DateCharAt;
    HeadingRunStep(InDate(tag, read), s);
    if s != "" {
      MismatchStays(s[1..]);
      var more := read + [s[0]];
      assert read + s == more + s[1..];
      if |read| < 9 {
        date, trail := DateRest(tag, more, s[1..]);
      } else {
        TrailIs(Trail(tag, more), s[1..]);
        date, trail := more, s[1..];
      }
    }
  }

  lemma {:induction false} MiddleRest(k: nat, tag: string, s: string)
    requires k < 3 && HeadingRun(Middle(k, tag), s).Trail?
    ensures |s| >= 3 - k && s == " - "[k..] + s[3 - k..]
    ensures HeadingRun(Middle(k, tag), s) == HeadingRun(InDate(tag, ""), s[3 - k..])
    decreases 3 - k
  {
    hide HeadingRun;
    HeadingRunStep(Middle(k, tag), s);
    if s != "" {
      MismatchStays(s[1..]);
      if k < 2 {
        MiddleRest(k + 1, tag, s[1..]);
        assert s[1..][2 - k..] == s[3 - k..];
      }
      assert " - "[k..] == [s[0]] + " - "[k + 1..];
    }
  }

  lemma {:induction false} TagRest(st: TagState, read: string, s: string) returns (more: string, rest: string)
    requires HeadingRun(InTag(st, read), s).Trail?
    ensures s == more + "]" + rest && AcceptsTag(TagRun(st, more))
    ensures HeadingRun(InTag(st, read), s) == HeadingRun(Middle(0, read + more), rest)
    decreases |s|
  {
    hide HeadingRun, TagRun, AcceptsTag, TagStep;
    HeadingRunStep(InTag(st, read), s);
    if s != "" {
      if s[0] == ']' && AcceptsTag(st) {
        more, rest := "", s[1..];
        TagRunStep(st, "");
        assert read + "" == read;
      } else {
        more, rest := TagRest(TagStep(st, s[0]), read + [s[0]], s[1..]);
        TagRunStep(st, [s[0]] + more);
        assert ([s[0]] + more)[1..] == more;
        assert read + [s[0]] + more == read + ([s[0]] + more);
        more := [s[0]] + more;
      }
    }
  }

  lemma PrefixRest(s: string)
    requires HeadingRun(Prefix(0), s).Trail?
    ensures |s| >= 4 && s == "## [" + s[4..] && HeadingRun(Prefix(0), s) == HeadingRun(InTag(Start, ""), s[4..])
  {
    hide HeadingRun;
    PrefixShape(0, s);
    assert "## ["[0..] == "## [";
    assert s == s[..4] + s[4..];
    PrefixIsRead();
    HeadingRunConcat(Prefix(0), "## [", s[4..]);
  }

  /** A line is a version heading exactly when it is spelled as one, white space at its end allowed. */
  lemma VersionHeadingIff(line: string, tag: string, date: string)
    ensures VersionHeading(line) == Some(Heading(tag, date)) <==> exists trail :: Heads(Content(line), tag, date, trail)
  {
    hide HeadingRun, Content, IsTag, IsDateShape, IsTabbing;
    var c := Content(line);
    if VersionHeading(line) == Some(Heading(tag, date)) {
      var trail := HeadedBy(c, tag, date);
      assert Heads(c, tag, date, trail);
    }
    forall trail | Heads(c, tag, date, trail) ensures VersionHeading(line) == Some(Heading(tag, date)) {
      HeadingTextRuns(tag, date);
      HeadingRunConcat(Prefix(0), HeadingText(tag, date), trail);
      TrailIs(Trail(tag, date), trail);
      assert "## [" + (tag + ("] - " + (date + trail))) == HeadingText(tag, date) + trail;
    }
  }

  lemma HeadedBy(c: string, tag: string, date: string) returns (trail: string)
    requires HeadingRun(Prefix(0), c) == Trail(tag, date)
    ensures Heads(c, tag, date, trail)
  {
    hide HeadingRun, TagRun, IsDateShape, IsTabbing, AcceptsTag, HeadingStep, TagStep;
    PrefixRest(c);
    var more, rest := TagRest(Start, "", c[4..]);
    assert "" + more == more;
    MiddleRest(0, more, rest);
    var read;
    read, trail := DateRest(more, "", rest[3..]);
    assert "" + rest[3..] == rest[3..] && " - "[0..] == " - ";
    Reassembled(c, more, rest, read, trail);
  }

  lemma Reassembled(c: string, tag: string, rest: string, date: string, trail: string)
    requires |c| >= 4 && c == "## [" + c[4..] && c[4..] == tag + "]" + rest
    requires |rest| >= 3 && rest == " - " + rest[3..] && rest[3..] == date + trail
    ensures c == "## [" + (tag + ("] - " + (date + trail)))
  {
    assert "]" + (" - " + (date + trail)) == "] - " + (date + trail);
    assert c[4..] == tag + ("]" + rest);
  }

  // ---- Dates ----

  predicate LeapYear(year: nat) {
    year % 400 == 0 || (year % 4 == 0 && year % 100 != 0)
  }

  function MonthLengths(year: nat): (lengths: seq<nat>)
    ensures |lengths| == 12
  {
    [31, if LeapYear(year) then 29 else 28, 31, 30, 31, 30, 31, 31, 30, 31, 30, 31]
  }

  /** A number in so many decimal digits, with zeros in front. */
  function Zeroed(n: nat, width: nat): (s: string)
    ensures |s| == width
  {
    if width == 0 then "" else Zeroed(n / 10, width - 1) + [NaturalOrder.Digit(n % 10)]
  }

  /** A day of the calendar as it is written. */
  predicate IsDay(d: string, year: nat, month: nat, day: nat) {
    && 1 <= year <= 9999 && 1 <= month <= 12 && 1 <= day <= MonthLengths(year)[month - 1]
    && d == Zeroed(year, 4) + "-" + Zeroed(month, 2) + "-" + Zeroed(day, 2)
  }

  predicate AllDigits(s: string) {
    forall i :: 0 <= i < |s| ==> IsDigit(s[i])
  }

  function ValueOf(s: string): nat {
    if AllDigits(s) then DigitsValue(s) else 0
  }

  lemma {:induction false} ZeroedOfValue(s: string)
    requires AllDigits(s)
    ensures Zeroed(ValueOf(s), |s|) == s && ValueOf(s) < NaturalOrder.Power10(|s|)
  {
    if s != "" {
      var last := |s| - 1;
      assert IsDigit(s[last]);
      ZeroedOfValue(s[..last]);
      assert s == s[..last] + [s[last]];
    }
  }

  lemma {:induction false} ValueOfZeroed(n: nat, width: nat)
    requires n < NaturalOrder.Power10(width)
    ensures AllDigits(Zeroed(n, width)) && ValueOf(Zeroed(n, width)) == n
  {
    if width > 0 {
      ValueOfZeroed(n / 10, width - 1);
      var s := Zeroed(n, width);
      assert s[..width - 1] == Zeroed(n / 10, width - 1);
      assert s[width - 1] == NaturalOrder.Digit(n % 10);
    }
  }

  lemma DateParts(d: string)
    ensures IsDateShape(d) <==>
      |d| == 10 && AllDigits(d[..4]) && d[4] == '-' && AllDigits(d[5..7]) && d[7] == '-' && AllDigits(d[8..])
  {
    if |d| == 10 {
      if IsDateShape(d) {
        assert forall i :: 0 <= i < 10 ==> DateCharAt(i, d[i]);
      } else if AllDigits(d[..4]) && d[4] == '-' && AllDigits(d[5..7]) && d[7] == '-' && AllDigits(d[8..]) {
        assert d[0] == d[..4][0] && d[1] == d[..4][1] && d[2] == d[..4][2] && d[3] == d[..4][3];
        assert d[5] == d[5..7][0] && d[6] == d[5..7][1] && d[8] == d[8..][0] && d[9] == d[8..][1];
        assert forall i :: 0 <= i < 10 ==> DateCharAt(i, d[i]);
      }
    }
  }

  lemma Powers()
    ensures NaturalOrder.Power10(2) == 100 && NaturalOrder.Power10(4) == 10000
  {
  }

  lemma DaysAre(year: nat, month: nat)
    requires 1 <= month <= 12
    ensures DaysInMonth(year, month) == MonthLengths(year)[month - 1]
  {
    LeapRule(year);
    hide LeapYear;
  }

  lemma LeapRule(year: nat)
    ensures LeapYear(year) <==> year % 4 == 0 && (year % 100 != 0 || year % 400 == 0)
  {
    if year % 400 == 0 {
      assert year == 4 * (100 * (year / 400));
    }
  }

  lemma IsIsoDateParts(d: string)
    ensures IsIsoDate(d) <==>
      && IsDateShape(d) && |d| == 10 && AllDigits(d[..4]) && AllDigits(d[5..7]) && AllDigits(d[8..])
      && var year, month, day := ValueOf(d[..4]), ValueOf(d[5..7]), ValueOf(d[8..]);
         1 <= year && 1 <= month <= 12 && 1 <= day <= DaysInMonth(year, month)
  {
    hide DigitsValue, DaysInMonth;
    DateParts(d);
  }

  /** A date is accepted exactly when it writes a day of the calendar, from year 1 to year 9999. */
  lemma IsoDateIff(d: string)
    ensures IsIsoDate(d) <==> exists year: nat, month: nat, day: nat :: IsDay(d, year, month, day)
  {
    hide ValueOf, DaysInMonth, MonthLengths, IsIsoDate, IsDateShape, Zeroed, AllDigits, NaturalOrder.Power10;
    IsIsoDateParts(d);
    Powers();
    if IsIsoDate(d) {
      var year, month, day := ValueOf(d[..4]), ValueOf(d[5..7]), ValueOf(d[8..]);
      DateParts(d);
      ZeroedOfValue(d[..4]);
      ZeroedOfValue(d[5..7]);
      ZeroedOfValue(d[8..]);
      DaysAre(year, month);
      assert d == d[..4] + "-" + d[5..7] + "-" + d[8..];
      assert IsDay(d, year, month, day);
    }
    forall year: nat, month: nat, day: nat | IsDay(d, year, month, day) ensures IsIsoDate(d) {
      MonthsAreShort(year, month);
      ValueOfZeroed(year, 4);
      ValueOfZeroed(month, 2);
      ValueOfZeroed(day, 2);
      DaysAre(year, month);
      assert d[..4] == Zeroed(year, 4) && d[5..7] == Zeroed(month, 2) && d[8..] == Zeroed(day, 2);
      DateParts(d);
    }
  }

  lemma MonthsAreShort(year: nat, month: nat)
    requires 1 <= month <= 12
    ensures MonthLengths(year)[month - 1] <= 31
  {
  }

  // ---- Sections ----

  /** The line of a section heading, with what precedes and what follows it. */
  predicate HasLine(notes: string, title: string, before: string, trail: string, after: string) {
    && Complete(before) && (forall i :: 0 <= i < |trail| ==> trail[i] == ' ' || trail[i] == '\t')
    && (after == "" || after[0] == '\n')
    && notes == before + ("## " + title + trail) + after
  }

  lemma SectionLineIff(line: string, title: string)
    requires IsLine(line) && '\n' !in title
    ensures IsSectionLine(line, title) <==> exists trail, after :: HasLine(line, title, "", trail, after) && |after| <= 1
  {
    hide IsTabbing;
    var c := Content(line);
    if IsSectionLine(line, title) {
      var trail, after := c[3 + |title|..], line[|c|..];
      TabbingIs(trail);
      assert c == "## " + title + trail;
      assert line == "" + ("## " + title + trail) + after;
      assert HasLine(line, title, "", trail, after);
    }
    forall trail, after | HasLine(line, title, "", trail, after) && |after| <= 1 ensures IsSectionLine(line, title) {
      TabbingIs(trail);
      assert line == ("## " + title + trail) + after;
      if after != "" {
        assert after == "\n";
        assert c == "## " + title + trail;
      } else {
        assert line == "## " + title + trail;
        EndIsNoNewline(title, trail);
        assert c == line;
      }
      assert c[3 + |title|..] == trail;
      assert c[..3 + |title|] == "## " + title;
    }
  }

  lemma EndIsNoNewline(title: string, trail: string)
    requires '\n' !in title && forall i :: 0 <= i < |trail| ==> trail[i] == ' ' || trail[i] == '\t'
    ensures var s := "## " + title + trail; s != "" && s[|s| - 1] != '\n' && forall i :: 0 <= i < |s| ==> s[i] != '\n'
  {
  }

  lemma TabbingIs(s: string)
    ensures IsTabbing(s) <==> forall i :: 0 <= i < |s| ==> s[i] == ' ' || s[i] == '\t'
  {
  }

  lemma SectionOfLine(line: string, rest: string, title: string) returns (trail: string, after: string)
    requires IsLine(line) && (rest != "" ==> Complete(line)) && IsSectionLine(line, title) && '\n' !in title
    ensures HasLine(line + rest, title, "", trail, after)
  {
    hide IsSectionLine;
    SectionLineIff(line, title);
    var short;
    trail, short :| HasLine(line, title, "", trail, short) && |short| <= 1;
    if short == "" {
      EndIsNoNewline(title, trail);
      assert line == "## " + title + trail;
    }
    after := short + rest;
    assert line == "" + ("## " + title + trail) + short;
    assert line + rest == "" + ("## " + title + trail) + (short + rest);
  }

  lemma LineBefore(line: string, notes: string, title: string, before: string, trail: string, after: string)
    requires Complete(line) && HasLine(notes, title, before, trail, after)
    ensures HasLine(line + notes, title, line + before, trail, after)
  {
    assert line + notes == (line + before) + ("## " + title + trail) + after;
  }

  lemma LineEndsBefore(notes: string, title: string, before: string, trail: string, after: string)
    requires HasLine(notes, title, before, trail, after)
    ensures notes != ""
  {
  }

  lemma {:induction false} SectionIsFound(notes: string, title: string) returns (before: string, trail: string, after: string)
    requires HasSection(notes, title) && '\n' !in title
    ensures HasLine(notes, title, before, trail, after)
    decreases |notes|
  {
    hide *;
    HasSectionStep(notes, title);
    HeadIsLine(notes);
    var line, rest := Head(notes), Tail(notes);
    LineIsNotEmpty(line);
    if IsSectionLine(line, title) {
      trail, after := SectionOfLine(line, rest, title);
      before := "";
    } else {
      before, trail, after := SectionIsFound(rest, title);
      LineEndsBefore(rest, title, before, trail, after);
      LineBefore(line, rest, title, before, trail, after);
      before := line + before;
    }
  }

  lemma LineIsNotEmpty(line: string)
    requires IsLine(line)
    ensures line != ""
  {
  }

  lemma LineIsSection(notes: string, title: string, trail: string, after: string) returns (line: string, rest: string)
    requires HasLine(notes, title, "", trail, after) && '\n' !in title
    ensures notes == line + rest && IsLine(line) && (Complete(line) || rest == "") && IsSectionLine(line, title)
  {
    hide IsSectionLine;
    var section := "## " + title + trail;
    EndIsNoNewline(title, trail);
    assert notes == section + after;
    var short := after[..if after == "" then 0 else 1];
    line, rest := section + short, after[|short|..];
    assert after == short + rest;
    assert line == "" + ("## " + title + trail) + short;
    assert HasLine(line, title, "", trail, short);
    SectionLineIff(line, title);
  }

  lemma {:induction false} SectionBehind(before: string, notes: string, title: string)
    requires Complete(before) && HasSection(notes, title)
    ensures HasSection(before + notes, title)
    decreases |before|
  {
    hide *;
    if before == "" {
      assert before + notes == notes;
    } else {
      CompleteTail(before);
      HeadIsLine(before);
      LineIsNotEmpty(Head(before));
      HeadConcat(before, notes);
      SectionBehind(Tail(before), notes, title);
      HasSectionStep(before + notes, title);
    }
  }

  lemma FoundIsSection(notes: string, title: string, before: string, trail: string, after: string)
    requires HasLine(notes, title, before, trail, after) && '\n' !in title
    ensures HasSection(notes, title)
  {
    var behind := ("## " + title + trail) + after;
    assert notes == before + behind;
    hide *;
    WithoutBefore(notes, title, before, trail, after);
    var line, rest := LineIsSection(behind, title, trail, after);
    HeadOfLine(line, rest);
    LineIsNotEmpty(line);
    HasSectionStep(behind, title);
    SectionBehind(before, behind, title);
  }

  lemma WithoutBefore(notes: string, title: string, before: string, trail: string, after: string)
    requires HasLine(notes, title, before, trail, after)
    ensures Complete(before) && HasLine(("## " + title + trail) + after, title, "", trail, after)
  {
    assert ("## " + title + trail) + after == "" + ("## " + title + trail) + after;
  }

  lemma HasSectionStep(notes: string, title: string)
    ensures HasSection(notes, title) <==> notes != "" && (IsSectionLine(Head(notes), title) || HasSection(Tail(notes), title))
  {
    hide IsSectionLine, Head, Tail;
  }

  /** Notes have a section exactly when one of their lines is its heading, spaces and tabs at its end allowed. */
  lemma HasSectionIff(notes: string, title: string)
    requires '\n' !in title
    ensures HasSection(notes, title) <==> exists before, trail, after :: HasLine(notes, title, before, trail, after)
  {
    hide HasSection, HasLine;
    if HasSection(notes, title) {
      var before, trail, after := SectionIsFound(notes, title);
    }
    forall before, trail, after | HasLine(notes, title, before, trail, after) ensures HasSection(notes, title) {
      FoundIsSection(notes, title, before, trail, after);
    }
  }

  /** Notes are valid exactly when they have both sections, which are named here; blank notes have none. */
  lemma ValidNotesIff(notes: string)
    ensures ValidateNotes(notes).None? <==> HasSection(notes, "\U{4E2D}\U{6587}") && HasSection(notes, "English")
    ensures ValidateNotes(notes) == Some(EmptyNotes) <==> Blank(notes)
    ensures ValidateNotes(notes) != Some(EmptyNotes) && ValidateNotes(notes).Some? ==> ValidateNotes(notes) == Some(MissingSection)
  {
    hide HasSection, Strip;
    StripBlank(notes);
    if HasSection(notes, "English") {
      var before, trail, after := SectionIsFound(notes, "English");
      HashIsNotBlank(before, trail, after);
    }
  }

  lemma HashIsNotBlank(before: string, trail: string, after: string)
    ensures !Blank(before + ("## " + "English" + trail) + after)
  {
    hide IsSpace;
    var s := before + ("## " + "English" + trail) + after;
    assert s[|before|] == '#';
    HashIsSolid();
  }

  lemma HashIsSolid()
    ensures !IsSpace('#')
  {
  }
}
