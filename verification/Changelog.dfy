/**
 The release changelog of script/changelog.py: version headings, `extract_release_notes`
 and `upsert_release`.
 */
module Changelog {
  import opened Results
  import opened Text
  import opened Headings

  datatype Error =
    | InvalidTag
    | InvalidDate
    | EmptyNotes
    | MissingSection
    | MissingMarker
    | RepeatedMarker
    | DuplicateEntries
    | EmptyEntry
    | NoEntry

  const INSERTION_MARKER := "<!-- NAVOP_RELEASES -->"
  const CHINESE := "\U{4E2D}\U{6587}"
  const ENGLISH := "English"

  // ---- Tags and dates ----

  predicate IsTagChar(c: char) {
    IsDigit(c) || 'A' <= c <= 'Z' || 'a' <= c <= 'z' || c == '.' || c == '-'
  }

  /**
   The states in which a tag can be while it is read from left to right: `Number(k)` inside the
   `k`th number, `Begin(k)` before its first digit, then the optional suffix.
   */
  datatype TagState = Start | Begin(k: nat) | Number(k: nat) | SuffixStart | Suffix | Reject

  function TagStep(st: TagState, c: char): TagState {
    match st
    case Start => if c == 'v' then Begin(1) else Reject
    case Begin(k) => if IsDigit(c) then Number(k) else Reject
    case Number(k) =>
      if IsDigit(c) then st
      else if k < 3 then (if c == '.' then Begin(k + 1) else Reject)
      else if c in {'.', '-'} then SuffixStart else Reject
    case SuffixStart => if IsTagChar(c) then Suffix else Reject
    case Suffix => if IsTagChar(c) then Suffix else Reject
    case Reject => Reject
  }

  function TagRun(st: TagState, t: string): TagState
    decreases |t|
  {
    if t == "" then st else TagRun(TagStep(st, t[0]), t[1..])
  }

  /** `vX.Y.Z`, then optionally a dot or dash and a non-empty run of tag characters. */
  predicate IsTag(t: string) {
    AcceptsTag(TagRun(Start, t))
  }

  predicate AcceptsTag(st: TagState) {
    st == Number(3) || st == Suffix
  }

  function NormalizeTag(value: string): Result<string, Error> {
    var stripped := Strip(value);
    var tag := if "v" <= stripped then stripped else "v" + stripped;
    if IsTag(tag) then Ok(tag) else Err(InvalidTag)
  }

  predicate DateCharAt(i: nat, c: char) {
    if i == 4 || i == 7 then c == '-' else IsDigit(c)
  }

  /** Four, two and two digits separated by dashes. */
  predicate IsDateShape(d: string) {
    |d| == 10 && forall i :: 0 <= i < 10 ==> DateCharAt(i, d[i])
  }

  function DigitsValue(s: string): nat
    requires forall i :: 0 <= i < |s| ==> IsDigit(s[i])
  {
    if s == "" then 0
    else
      assert IsDigit(s[|s| - 1]);
      10 * DigitsValue(s[..|s| - 1]) + (s[|s| - 1] as int - '0' as int)
  }

  function DaysInMonth(year: nat, month: nat): nat {
    if month == 2 then (if year % 4 == 0 && (year % 100 != 0 || year % 400 == 0) then 29 else 28)
    else if month in {4, 6, 9, 11} then 30
    else 31
  }

  /** A calendar date in the one form that `datetime.date.isoformat` produces. */
  predicate IsIsoDate(d: string) {
    && IsDateShape(d)
    && var year, month, day := DigitsValue(d[..4]), DigitsValue(d[5..7]), DigitsValue(d[8..]);
    && year >= 1 && 1 <= month <= 12 && 1 <= day <= DaysInMonth(year, month)
  }

  // ---- Version headings ----

  datatype Heading = Heading(tag: string, date: string)

  /** A line without its newline. */
  function Content(line: string): string {
    if line != "" && Complete(line) then line[..|line| - 1] else line
  }

  /** How far the version heading pattern has matched, and what its groups hold so far. */
  datatype HeadingState =
    | Prefix(k: nat)
    | InTag(st: TagState, tag: string)
    | Middle(k: nat, tag: string)
    | InDate(tag: string, date: string)
    | Trail(tag: string, date: string)
    | Mismatch

  function HeadingStep(st: HeadingState, c: char): HeadingState {
    match st
    case Prefix(k) =>
      if k < 4 && c == "## ["[k] then (if k == 3 then InTag(Start, "") else Prefix(k + 1)) else Mismatch
    case InTag(t, tag) =>
      if c == ']' && AcceptsTag(t) then Middle(0, tag) else InTag(TagStep(t, c), tag + [c])
    case Middle(k, tag) =>
      if k < 3 && c == " - "[k] then (if k == 2 then InDate(tag, "") else Middle(k + 1, tag)) else Mismatch
    case InDate(tag, date) =>
      if !DateCharAt(|date|, c) then Mismatch
      else if |date| < 9 then InDate(tag, date + [c])
      else Trail(tag, date + [c])
    case Trail(_, _) => if c in {' ', '\t'} then st else Mismatch
    case Mismatch => Mismatch
  }

  function HeadingRun(st: HeadingState, s: string): HeadingState
    decreases |s|
  {
    if s == "" then st else HeadingRun(HeadingStep(st, s[0]), s[1..])
  }

  /** The tag and date of a line that the version heading pattern matches from end to end. */
  function VersionHeading(line: string): Option<Heading> {
    match HeadingRun(Prefix(0), Content(line))
    case Trail(tag, date) => Some(Heading(tag, date))
    case _ => None
  }

  function HeadingText(tag: string, date: string): string {
    "## [" + tag + "] - " + date
  }

  datatype Match = Match(tag: string, date: string, start: nat, end: nat)

  /** A first line's match, if it is a heading with this much content, before the later matches. */
  function Prepend(h: Option<Heading>, offset: nat, content: nat, rest: seq<Match>): seq<Match> {
    match h
    case None => rest
    case Some(h) => [Match(h.tag, h.date, offset, offset + content)] + rest
  }

  /** The pattern's matches in a masked text whose first character has offset `offset`. */
  function FindHeadings(masked: string, offset: nat): seq<Match>
    decreases |masked|
  {
    if masked == "" then []
    else
      var line := Head(masked);
      Prepend(VersionHeading(line), offset, |Content(line)|, FindHeadings(Tail(masked), offset + |line|))
  }

  /** The heading of the first line of a text, if that line is visible. */
  function TopHeading(s: string, st: Fence): Option<Heading> {
    if s != "" && st.Closed? then VersionHeading(Head(s)) else None
  }

  /** The same matches found without masking, by tracking fences. */
  function Matches(s: string, st: Fence, offset: nat): seq<Match>
    decreases |s|
  {
    if s == "" then []
    else
      var line := Head(s);
      Prepend(TopHeading(s, st), offset, |Content(line)|, Matches(Tail(s), FenceStep(st, line), offset + |line|))
  }

  lemma {:induction false} MismatchStays(s: string)
    ensures HeadingRun(Mismatch, s) == Mismatch
    decreases |s|
  {
    if s != "" {
      MismatchStays(s[1..]);
    }
  }

  lemma {:induction false} PrefixShape(k: nat, s: string)
    requires k < 4 && HeadingRun(Prefix(k), s).Trail?
    ensures |s| >= 4 - k && s[..4 - k] == "## ["[k..]
    decreases |s|
  {
    if s != "" {
      if s[0] != "## ["[k] {
        MismatchStays(s[1..]);
      } else if k < 3 {
        PrefixShape(k + 1, s[1..]);
        assert s[..4 - k] == [s[0]] + s[1..][..3 - k];
      }
    }
  }

  lemma HeadingIsVisible(line: string)
    requires VersionHeading(line).Some?
    ensures |Content(line)| >= 4 && Content(line)[..4] == "## ["
    ensures FenceMarker(line).None? && IsHeading(line, 2, 2)
  {
    var c := Content(line);
    PrefixShape(0, c);
    assert c[0] == c[..4][0] && c[1] == c[..4][1] && c[2] == c[..4][2];
    HashIsNoFence(line);
    LeadingRunIs(line, '#', 2);
  }

  lemma MaskedHeading(st: Fence, line: string)
    requires line != ""
    ensures VersionHeading(MaskHidden(st, line)) == if st.Closed? then VersionHeading(line) else None
    ensures |Content(MaskHidden(st, line))| == |Content(line)|
  {
    if VersionHeading(line).Some? {
      HeadingIsVisible(line);
    }
    if !Visible(st, line) && VersionHeading(MaskLine(line)).Some? {
      HeadingIsVisible(MaskLine(line));
      assert false;
    }
  }

  lemma MaskedTop(s: string, st: Fence)
    requires s != ""
    ensures VersionHeading(MaskHidden(st, Head(s))) == TopHeading(s, st)
    ensures |Content(MaskHidden(st, Head(s)))| == |Content(Head(s))|
  {
    MaskedHeading(st, Head(s));
  }

  lemma FindHeadingsStep(masked: string, offset: nat)
    ensures masked == "" ==> FindHeadings(masked, offset) == []
    ensures masked != "" ==>
              && var rest := FindHeadings(Tail(masked), offset + |Head(masked)|);
              && FindHeadings(masked, offset)
              == Prepend(VersionHeading(Head(masked)), offset, |Content(Head(masked))|, rest)
  {
  }

  lemma MatchesStep(s: string, st: Fence, offset: nat)
    ensures s == "" ==> Matches(s, st, offset) == []
    ensures s != "" ==>
              && var rest := Matches(Tail(s), FenceStep(st, Head(s)), offset + |Head(s)|);
              && Matches(s, st, offset) == Prepend(TopHeading(s, st), offset, |Content(Head(s))|, rest)
  {
    hide Head, Tail, FenceStep, TopHeading, Content, Prepend;
  }

  /** Masking first and matching afterwards finds exactly the headings outside fences. */
  lemma {:induction false} MaskedMatches(s: string, st: Fence, offset: nat)
    ensures FindHeadings(Mask(s, st), offset) == Matches(s, st, offset)
    decreases |s|
  {
    hide *;
    MatchesStep(s, st, offset);
    FindHeadingsStep(Mask(s, st), offset);
    if s != "" {
      MaskHead(s, st);
      MaskedTop(s, st);
      MaskedMatches(Tail(s), FenceStep(st, Head(s)), offset + |Head(s)|);
    }
  }

  /** Matches lie inside the text, in order and without overlap. */
  predicate InOrder(ms: seq<Match>, low: nat, high: nat) {
    && (forall i :: 0 <= i < |ms| ==> low <= ms[i].start < ms[i].end <= high)
    && (forall i, j :: 0 <= i < j < |ms| ==> ms[i].end <= ms[j].start)
  }

  lemma InOrderPrepend(h: Option<Heading>, content: nat, ms: seq<Match>, low: nat, mid: nat, high: nat)
    requires InOrder(ms, mid, high) && low <= mid && (h.Some? ==> 0 < content && low + content <= mid <= high)
    ensures InOrder(Prepend(h, low, content, ms), low, high)
  {
  }

  lemma EmptyInOrder(low: nat, high: nat)
    ensures InOrder([], low, high)
  {
  }

  lemma TopHeadingContent(s: string, st: Fence)
    requires TopHeading(s, st).Some?
    ensures 0 < |Content(Head(s))| <= |Head(s)| && FenceStep(st, Head(s)) == st == Closed
  {
    HeadingIsVisible(Head(s));
  }

  lemma {:induction false} MatchesInOrder(s: string, st: Fence, offset: nat)
    ensures InOrder(Matches(s, st, offset), offset, offset + |s|)
    decreases |s|
  {
    hide *;
    MatchesStep(s, st, offset);
    EmptyInOrder(offset, offset + |s|);
    if s != "" {
      if TopHeading(s, st).Some? {
        TopHeadingContent(s, st);
      }
      var ms := Matches(Tail(s), FenceStep(st, Head(s)), offset + |Head(s)|);
      MatchesInOrder(Tail(s), FenceStep(st, Head(s)), offset + |Head(s)|);
      InOrderPrepend(TopHeading(s, st), |Content(Head(s))|, ms, offset, offset + |Head(s)|, offset + |s|);
    }
  }

  predicate DistinctTags(ms: seq<Match>) {
    forall i, j :: 0 <= i < j < |ms| ==> ms[i].tag != ms[j].tag
  }

  predicate ValidDates(ms: seq<Match>) {
    forall i :: 0 <= i < |ms| ==> IsIsoDate(ms[i].date)
  }

  function VersionMatches(changelog: string): (r: Result<seq<Match>, Error>)
    ensures r.Ok? ==> r.value == Matches(changelog, Closed, 0) && InOrder(r.value, 0, |changelog|)
  {
    var ms := FindHeadings(Mask(changelog, Closed), 0);
    MaskedMatches(changelog, Closed, 0);
    MatchesInOrder(changelog, Closed, 0);
    if !DistinctTags(ms) then Err(DuplicateEntries)
    else if !ValidDates(ms) then Err(InvalidDate)
    else Ok(ms)
  }

  function IndexOfTag(ms: seq<Match>, tag: string): (i: nat)
    ensures i <= |ms|
    ensures forall j :: 0 <= j < i ==> ms[j].tag != tag
    ensures i < |ms| ==> ms[i].tag == tag
  {
    if ms == [] || ms[0].tag == tag then 0 else 1 + IndexOfTag(ms[1..], tag)
  }

  /** Where the entry of match `i` ends: at the next heading or at the end of the file. */
  function EntryEnd(changelog: string, ms: seq<Match>, i: nat): nat
    requires i < |ms|
  {
    if i + 1 < |ms| then ms[i + 1].start else |changelog|
  }

  // ---- Release notes ----

  predicate IsTabbing(s: string) {
    forall i :: 0 <= i < |s| ==> s[i] in {' ', '\t'}
  }

  /** A line that consists of a level-2 heading with exactly this title. */
  predicate IsSectionLine(line: string, title: string) {
    var c := Content(line);
    "## " + title <= c && IsTabbing(c[3 + |title|..])
  }

  predicate HasSection(notes: string, title: string)
    decreases |notes|
  {
    notes != "" && (IsSectionLine(Head(notes), title) || HasSection(Tail(notes), title))
  }

  function ValidateNotes(notes: string): Option<Error> {
    if Strip(notes) == "" then Some(EmptyNotes)
    else if !HasSection(notes, CHINESE) || !HasSection(notes, ENGLISH) then Some(MissingSection)
    else None
  }

  /** What an entry's text turns into when its headings are pulled back up. */
  function NotesOfBody(body: string): Result<string, Error> {
    if Strip(body) == "" then Err(EmptyEntry)
    else
      var notes := Strip(Shift(Strip(body), -1, Closed)) + "\n";
      match ValidateNotes(notes)
      case Some(e) => Err(e)
      case None => Ok(notes)
  }

  function Extract(changelog: string, tag: string): Result<string, Error> {
    match NormalizeTag(tag)
    case Err(e) => Err(e)
    case Ok(t) =>
      match VersionMatches(changelog)
      case Err(e) => Err(e)
      case Ok(ms) =>
        var i := IndexOfTag(ms, t);
        if i == |ms| then Err(NoEntry)
        else NotesOfBody(changelog[ms[i].end..EntryEnd(changelog, ms, i)])
  }

  // ---- Inserting and replacing ----

  function LStripNewlines(s: string): string {
    if s != "" && s[0] == '\n' then LStripNewlines(s[1..]) else s
  }

  /** The text of an entry: heading, blank line, shifted notes. */
  function EntryText(tag: string, date: string, notes: string): string {
    HeadingText(tag, date) + "\n\n" + Strip(Shift(notes, 1, Closed)) + "\n"
  }

  /** An entry put between what precedes and what follows it. */
  function Splice(before: string, entry: string, after: string): string {
    var prefix := RStrip(before);
    var suffix := LStripNewlines(after);
    RStrip(prefix + "\n\n" + entry + (if suffix != "" then "\n" + suffix else "")) + "\n"
  }

  function Upsert(changelog: string, tag: string, date: string, notes: string): Result<string, Error> {
    match NormalizeTag(tag)
    case Err(e) => Err(e)
    case Ok(t) =>
      var normalized := Strip(notes) + "\n";
      if !IsIsoDate(date) then Err(InvalidDate)
      else if ValidateNotes(normalized).Some? then Err(ValidateNotes(normalized).value)
      else if CountOccurrences(changelog, INSERTION_MARKER) == 0 then Err(MissingMarker)
      else if CountOccurrences(changelog, INSERTION_MARKER) != 1 then Err(RepeatedMarker)
      else
        match VersionMatches(changelog)
        case Err(e) => Err(e)
        case Ok(ms) =>
          var entry := EntryText(t, date, normalized);
          var i := IndexOfTag(ms, t);
          if i < |ms| then Ok(Splice(changelog[..ms[i].start], entry, changelog[EntryEnd(changelog, ms, i)..]))
          else
            var markerEnd := IndexOf(changelog, INSERTION_MARKER) + |INSERTION_MARKER|;
            Ok(Splice(changelog[..markerEnd], entry, changelog[markerEnd..]))
  }
}
