/**
 The loops of script/changelog.py, with its own variables, against the functions that specify them.
 */
module ChangelogScript {
  import opened Results
  import opened Text
  import opened Headings
  import opened Changelog
  import opened ChangelogSplice

  /** `"".join(parts)`. */
  function Joined(parts: seq<string>): string {
    if parts == [] then "" else Joined(parts[..|parts| - 1]) + parts[|parts| - 1]
  }

  lemma JoinedAppend(parts: seq<string>, part: string)
    ensures Joined(parts + [part]) == Joined(parts) + part
  {
    assert (parts + [part])[..|parts|] == parts;
  }

  /** The fence state that the script keeps in `fence_character` and `fence_length`. */
  function FenceState(character: Option<char>, length: nat): Fence {
    match character
    case None => Closed
    case Some(c) => Open(c, length)
  }

  lemma MaskStep(s: string, st: Fence)
    ensures s == "" ==> Mask(s, st) == ""
    ensures s != "" ==> Mask(s, st) == MaskHidden(st, Head(s)) + Mask(Tail(s), FenceStep(st, Head(s)))
  {
  }

  /** One line of `transform_headings`: the line to append and the next fence variables. */
  method TransformLine(line: string, delta: int, character: Option<char>, length: nat)
    returns (out: string, character': Option<char>, length': nat)
    requires line != ""
    ensures out == ShiftVisible(FenceState(character, length), line, delta)
    ensures FenceState(character', length') == FenceStep(FenceState(character, length), line)
  {
    hide LeadingRun, LStrip;
    out, character', length' := line, character, length;
    var fence := FenceMarker(line);
    if fence.Some? {
      var marker := fence.value;
      if character.None? {
        character', length' := Some(marker.ch), marker.len;
      } else if marker.ch == character.value && marker.len >= length {
        character', length' := None, 0;
      }
    } else if character.None? {
      if delta < 0 {
        if IsHeading(line, 3, 6) {
          out := line[1..];
        }
      } else if delta > 0 {
        if IsHeading(line, 2, 5) {
          out := "#" + line;
        }
      }
    }
  }

  method TransformHeadings(markdown: string, delta: int) returns (r: string)
    ensures r == Shift(markdown, delta, Closed)
  {
    hide FenceMarker, ShiftVisible, Head, Joined, Shift, FenceStep;
    var transformed: seq<string> := [];
    var character: Option<char> := None;
    var length := 0;
    var rest := markdown;
    JoinedNothing();
    while rest != ""
      invariant Joined(transformed) + Shift(rest, delta, FenceState(character, length)) == Shift(markdown, delta, Closed)
      decreases |rest|
    {
      ShiftStep(rest, delta, FenceState(character, length));
      var line := Head(rest);
      var out;
      out, character, length := TransformLine(line, delta, character, length);
      JoinedAppend(transformed, out);
      transformed := transformed + [out];
      rest := Tail(rest);
    }
    ShiftStep("", delta, FenceState(character, length));
    r := Joined(transformed);
  }

  lemma JoinedNothing()
    ensures Joined([]) == ""
  {
  }

  /** One line of `mask_fenced_blocks`; a closing fence still counts as inside its block. */
  method MaskOneLine(line: string, character: Option<char>, length: nat)
    returns (out: string, character': Option<char>, length': nat)
    requires line != ""
    ensures out == MaskHidden(FenceState(character, length), line)
    ensures FenceState(character', length') == FenceStep(FenceState(character, length), line)
  {
    hide LeadingRun, LStrip, MaskLine;
    character', length' := character, length;
    var fence := FenceMarker(line);
    var insideFence := character.Some?;
    if fence.Some? && !insideFence {
      character', length' := Some(fence.value.ch), fence.value.len;
      insideFence := true;
    } else if fence.Some? && insideFence && fence.value.ch == character.value && fence.value.len >= length {
      character', length' := None, 0;
    }
    out := if insideFence then MaskLine(line) else line;
  }

  method MaskFencedBlocks(markdown: string) returns (r: string)
    ensures r == Mask(markdown, Closed)
  {
    hide FenceMarker, MaskHidden, Head, Joined, Mask, FenceStep;
    var masked: seq<string> := [];
    var character: Option<char> := None;
    var length := 0;
    var rest := markdown;
    JoinedNothing();
    while rest != ""
      invariant Joined(masked) + Mask(rest, FenceState(character, length)) == Mask(markdown, Closed)
      decreases |rest|
    {
      MaskStep(rest, FenceState(character, length));
      var line := Head(rest);
      var out;
      out, character, length := MaskOneLine(line, character, length);
      JoinedAppend(masked, out);
      masked := masked + [out];
      rest := Tail(rest);
    }
    MaskStep("", FenceState(character, length));
    r := Joined(masked);
  }

  /** `extract_release_notes`: look through the matches for the tag. */
  method ExtractReleaseNotes(changelog: string, tag: string) returns (r: Result<string, Error>)
    ensures r == Extract(changelog, tag)
  {
    hide VersionMatches, NormalizeTag, IndexOfTag, NotesOfBody, Matches, InOrder;
    var normalized := NormalizeTag(tag);
    if normalized.Err? {
      return Err(normalized.error);
    }
    var found := VersionMatches(changelog);
    if found.Err? {
      return Err(found.error);
    }
    var t, ms := normalized.value, found.value;
    var index := 0;
    while index < |ms|
      invariant 0 <= index <= |ms|
      invariant forall j :: 0 <= j < index ==> ms[j].tag != t
    {
      if ms[index].tag == t {
        FirstIndex(ms, t, index);
        InOrderEnd(changelog, ms, index);
        r := NotesOfBody(changelog[ms[index].end..EntryEnd(changelog, ms, index)]);
        return;
      }
      index := index + 1;
    }
    FirstIndex(ms, t, |ms|);
    r := Err(NoEntry);
  }

  lemma {:induction false} FirstIndex(ms: seq<Match>, tag: string, i: nat)
    requires i <= |ms| && (forall j :: 0 <= j < i ==> ms[j].tag != tag) && (i < |ms| ==> ms[i].tag == tag)
    ensures IndexOfTag(ms, tag) == i
  {
    if i > 0 {
      FirstIndex(ms[1..], tag, i - 1);
    }
  }

  lemma InOrderEnd(changelog: string, ms: seq<Match>, i: nat)
    requires InOrder(ms, 0, |changelog|) && i < |ms|
    ensures ms[i].start <= |changelog| && ms[i].end <= EntryEnd(changelog, ms, i) <= |changelog|
  {
  }

  /** `upsert_release`: check everything, then splice the entry in. */
  method UpsertRelease(changelog: string, tag: string, date: string, notes: string) returns (r: Result<string, Error>)
    ensures r == Upsert(changelog, tag, date, notes)
  {
    hide VersionMatches, NormalizeTag, IndexOfTag, Matches, InOrder, IsIsoDate, ValidateNotes, CountOccurrences,
      IndexOf, EntryText, Splice, EntryEnd, Strip;
    var normalized := NormalizeTag(tag);
    if normalized.Err? {
      return Err(normalized.error);
    }
    if !IsIsoDate(date) {
      return Err(InvalidDate);
    }
    var normalizedNotes := Strip(notes) + "\n";
    var invalid := ValidateNotes(normalizedNotes);
    if invalid.Some? {
      return Err(invalid.value);
    }
    if CountOccurrences(changelog, INSERTION_MARKER) == 0 {
      return Err(MissingMarker);
    }
    if CountOccurrences(changelog, INSERTION_MARKER) != 1 {
      return Err(RepeatedMarker);
    }
    var found := VersionMatches(changelog);
    if found.Err? {
      return Err(found.error);
    }
    var t, ms := normalized.value, found.value;
    var entry := EntryText(t, date, normalizedNotes);
    var index := 0;
    while index < |ms|
      invariant 0 <= index <= |ms|
      invariant forall j :: 0 <= j < index ==> ms[j].tag != t
    {
      if ms[index].tag == t {
        FirstIndex(ms, t, index);
        InOrderEnd(changelog, ms, index);
        r := Ok(Splice(changelog[..ms[index].start], entry, changelog[EntryEnd(changelog, ms, index)..]));
        return;
      }
      index := index + 1;
    }
    FirstIndex(ms, t, |ms|);
    var markerEnd := IndexOf(changelog, INSERTION_MARKER) + |INSERTION_MARKER|;
    r := Ok(Splice(changelog[..markerEnd], entry, changelog[markerEnd..]));
  }
}
