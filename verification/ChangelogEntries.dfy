/**
 A changelog as a preamble and a sequence of entries: the reading against which the offset
 arithmetic of script/changelog.py is proved.
 */
module ChangelogEntries {
  import opened Results
  import opened Text
  import opened Headings
  import opened Changelog

  datatype Entry = Entry(tag: string, date: string, body: string)

  /** Everything before the first visible version heading. */
  function Preamble(s: string, st: Fence): string
    decreases |s|
  {
    if s == "" || TopHeading(s, st).Some? then ""
    else Head(s) + Preamble(Tail(s), FenceStep(st, Head(s)))
  }

  /** What follows the content of a line on that line: its newline, if it has one. */
  function LineEnd(line: string): string {
    line[|Content(line)|..]
  }

  /** An entry for a first line that is a heading, before the entries of the rest of the text. */
  function AddEntry(h: Option<Heading>, body: string, rest: seq<Entry>): seq<Entry> {
    match h
    case None => rest
    case Some(h) => [Entry(h.tag, h.date, body)] + rest
  }

  /** One entry for each visible version heading, each running up to the next. */
  function Entries(s: string, st: Fence): seq<Entry>
    decreases |s|
  {
    if s == "" then []
    else
      AddEntry(TopHeading(s, st), LineEnd(Head(s)) + Preamble(Tail(s), st), Entries(Tail(s), FenceStep(st, Head(s))))
  }

  lemma EntriesStep(s: string, st: Fence)
    ensures s == "" ==> Entries(s, st) == [] && Preamble(s, st) == "" && FenceAfter(s, st) == st
    ensures s != "" ==>
              && Entries(s, st)
              == AddEntry(TopHeading(s, st), LineEnd(Head(s)) + Preamble(Tail(s), st), Entries(Tail(s), FenceStep(st, Head(s))))
              && Preamble(s, st)
              == (if TopHeading(s, st).Some? then "" else Head(s) + Preamble(Tail(s), FenceStep(st, Head(s))))
              && FenceAfter(s, st) == FenceAfter(Tail(s), FenceStep(st, Head(s)))
  {
  }

  // ---- The offsets of the matches delimit the entries ----

  /** Match `i` and the one after it cut entry `i` out of `s`, whose first character has this offset. */
  predicate Cuts(s: string, offset: nat, ms: seq<Match>, es: seq<Entry>, i: nat)
    requires |ms| == |es| && i < |ms| && InOrder(ms, offset, offset + |s|)
  {
    && ms[i].tag == es[i].tag && ms[i].date == es[i].date
    && var end := if i + 1 < |ms| then ms[i + 1].start - offset else |s|;
    && ms[i].end - offset <= end && s[ms[i].end - offset..end] == es[i].body
  }

  /** The matches cut all the entries out of `s`, and the first match ends the preamble. */
  predicate Delimit(s: string, offset: nat, ms: seq<Match>, es: seq<Entry>, preamble: string) {
    && InOrder(ms, offset, offset + |s|)
    && |ms| == |es|
    && (forall i :: 0 <= i < |es| ==> Cuts(s, offset, ms, es, i))
    && preamble == s[..if ms == [] then |s| else ms[0].start - offset]
  }

  lemma CutsLater(line: string, t: string, offset: nat, ms: seq<Match>, es: seq<Entry>, i: nat)
    requires |ms| == |es| && i < |ms|
    requires InOrder(ms, offset + |line|, offset + |line| + |t|)
    requires Cuts(t, offset + |line|, ms, es, i)
    ensures InOrder(ms, offset, offset + |line + t|) && Cuts(line + t, offset, ms, es, i)
  {
    var end := if i + 1 < |ms| then ms[i + 1].start - offset else |line| + |t|;
    assert (line + t)[ms[i].end - offset..end] == t[ms[i].end - offset - |line|..end - |line|];
  }

  /** Putting a line that is no heading in front of a delimited text. */
  lemma DelimitSkip(line: string, t: string, offset: nat, ms: seq<Match>, es: seq<Entry>, preamble: string)
    requires Delimit(t, offset + |line|, ms, es, preamble)
    ensures Delimit(line + t, offset, ms, es, line + preamble)
  {
    forall i | 0 <= i < |es| ensures Cuts(line + t, offset, ms, es, i) {
      CutsLater(line, t, offset, ms, es, i);
    }
    var k := if ms == [] then |t| else ms[0].start - offset - |line|;
    assert (line + t)[..|line| + k] == line + t[..k];
  }

  lemma CutsFirst(line: string, t: string, offset: nat, h: Heading, ms: seq<Match>, es: seq<Entry>, preamble: string)
    requires |ms| == |es| && 0 < |Content(line)| <= |line|
    requires var ms' := Prepend(Some(h), offset, |Content(line)|, ms); InOrder(ms', offset, offset + |line + t|)
    requires var k := if ms == [] then |t| else ms[0].start - offset - |line|; 0 <= k <= |t| && preamble == t[..k]
    ensures Cuts(line + t, offset, Prepend(Some(h), offset, |Content(line)|, ms),
                 AddEntry(Some(h), LineEnd(line) + preamble, es), 0)
  {
    hide Content, InOrder;
    assert (line + t)[|Content(line)|..|line| + |preamble|] == LineEnd(line) + preamble;
  }

  /** Putting a heading line in front of a delimited text. */
  lemma DelimitHeading(line: string, t: string, offset: nat, h: Heading, ms: seq<Match>, es: seq<Entry>, preamble: string)
    requires Delimit(t, offset + |line|, ms, es, preamble) && 0 < |Content(line)| <= |line|
    ensures Delimit(line + t, offset, Prepend(Some(h), offset, |Content(line)|, ms),
                    AddEntry(Some(h), LineEnd(line) + preamble, es), "")
  {
    hide Content, Cuts, LineEnd;
    var ms', es' := Prepend(Some(h), offset, |Content(line)|, ms), AddEntry(Some(h), LineEnd(line) + preamble, es);
    InOrderPrepend(Some(h), |Content(line)|, ms, offset, offset + |line|, offset + |line + t|);
    forall i | 0 <= i < |es'| ensures Cuts(line + t, offset, ms', es', i) {
      if i > 0 {
        CutsLater(line, t, offset, ms, es, i - 1);
        CutsBehind(line + t, offset, ms, es, i - 1, ms'[0], es'[0]);
      } else {
        CutsFirst(line, t, offset, h, ms, es, preamble);
      }
    }
  }

  lemma CutsBehind(s: string, offset: nat, ms: seq<Match>, es: seq<Entry>, i: nat, m: Match, e: Entry)
    requires |ms| == |es| && i < |ms|
    requires InOrder(ms, offset, offset + |s|) && InOrder([m] + ms, offset, offset + |s|)
    requires Cuts(s, offset, ms, es, i)
    ensures Cuts(s, offset, [m] + ms, [e] + es, i + 1)
  {
    hide InOrder;
  }

  lemma DelimitEmpty(offset: nat)
    ensures Delimit("", offset, [], [], "")
  {
  }

  /** The offsets that the script computes delimit the entries. */
  lemma {:induction false} MatchesDelimitEntries(s: string, st: Fence, offset: nat)
    ensures Delimit(s, offset, Matches(s, st, offset), Entries(s, st), Preamble(s, st))
    decreases |s|
  {
    hide *;
    MatchesStep(s, st, offset);
    EntriesStep(s, st);
    if s == "" {
      DelimitEmpty(offset);
    } else {
      var line, next := Head(s), FenceStep(st, Head(s));
      HeadTail(s);
      MatchesDelimitEntries(Tail(s), next, offset + |line|);
      var ms, es, pre := Matches(Tail(s), next, offset + |line|), Entries(Tail(s), next), Preamble(Tail(s), next);
      match TopHeading(s, st) {
        case None =>
          NothingAdded(offset, |Content(line)|, ms, LineEnd(line) + Preamble(Tail(s), st), es);
          DelimitSkip(line, Tail(s), offset, ms, es, pre);
        case Some(h) =>
          TopHeadingContent(s, st);
          DelimitHeading(line, Tail(s), offset, h, ms, es, pre);
      }
    }
  }

  lemma NothingAdded(offset: nat, content: nat, ms: seq<Match>, body: string, es: seq<Entry>)
    ensures Prepend(None, offset, content, ms) == ms && AddEntry(None, body, es) == es
  {
  }

  // ---- Concatenation ----

  /** The entries with more text at the end of the last one. */
  function Extend(es: seq<Entry>, more: string): seq<Entry> {
    if es == [] then [] else es[..|es| - 1] + [es[|es| - 1].(body := es[|es| - 1].body + more)]
  }

  lemma TopHeadingOfConcat(a: string, c: string, st: Fence)
    requires a != "" && Head(a + c) == Head(a)
    ensures TopHeading(a + c, st) == TopHeading(a, st)
  {
  }

  lemma {:induction false} PreambleConcat(a: string, c: string, st: Fence)
    requires Complete(a)
    ensures Entries(a, st) == [] ==> Preamble(a, st) == a && Preamble(a + c, st) == a + Preamble(c, FenceAfter(a, st))
    ensures Entries(a, st) != [] ==> Preamble(a + c, st) == Preamble(a, st)
    decreases |a|
  {
    hide *;
    EntriesStep(a, st);
    EntriesStep(a + c, st);
    if a == "" {
      assert a + c == c;
    } else {
      CompleteTail(a);
      HeadConcat(a, c);
      HeadTail(a);
      TopHeadingOfConcat(a, c, st);
      PreambleConcat(Tail(a), c, FenceStep(st, Head(a)));
      AddEntryShape(TopHeading(a, st), LineEnd(Head(a)) + Preamble(Tail(a), st), Entries(Tail(a), FenceStep(st, Head(a))));
    }
  }

  lemma AddEntryShape(h: Option<Heading>, body: string, es: seq<Entry>)
    ensures h.None? ==> AddEntry(h, body, es) == es
    ensures h.Some? ==> AddEntry(h, body, es) == [Entry(h.value.tag, h.value.date, body)] + es
  {
  }

  /** Extending after adding an entry in front, in terms of the entries behind it. */
  lemma ExtendAdded(h: Option<Heading>, body: string, es: seq<Entry>, more: string)
    ensures Extend(AddEntry(h, body, es), more)
         == AddEntry(h, if es == [] then body + more else body, Extend(es, more))
  {
    if h.Some? && es != [] {
      assert AddEntry(h, body, es)[..|es|] == AddEntry(h, body, es[..|es| - 1]);
    }
  }

  lemma ExtendNone(more: string)
    ensures Extend([], more) == []
  {
  }

  lemma AddEntryConcat(h: Option<Heading>, body: string, es: seq<Entry>, fs: seq<Entry>)
    ensures AddEntry(h, body, es + fs) == AddEntry(h, body, es) + fs
  {
  }

  lemma {:induction false} EntriesConcat(a: string, c: string, st: Fence)
    requires Complete(a)
    ensures Entries(a + c, st) == Extend(Entries(a, st), Preamble(c, FenceAfter(a, st))) + Entries(c, FenceAfter(a, st))
    decreases |a|
  {
    hide *;
    EntriesStep(a, st);
    EntriesStep(a + c, st);
    if a == "" {
      assert a + c == c;
      ExtendNone(Preamble(c, FenceAfter(a, st)));
    } else {
      var more, fs := Preamble(c, FenceAfter(a, st)), Entries(c, FenceAfter(a, st));
      var h, line, next := TopHeading(a, st), Head(a), FenceStep(st, Head(a));
      CompleteTail(a);
      HeadConcat(a, c);
      TopHeadingOfConcat(a, c, st);
      EntriesConcat(Tail(a), c, next);
      PreambleConcat(Tail(a), c, next);
      if h.Some? {
        TopHeadingContent(a, st);
      }
      var es := Entries(Tail(a), next);
      var body, body' := LineEnd(line) + Preamble(Tail(a), st), LineEnd(line) + Preamble(Tail(a) + c, st);
      ExtendAdded(h, body, es, more);
      AddEntryConcat(h, body', Extend(es, more), fs);
      AddEntryBody(h, body', if es == [] then body + more else body, Extend(es, more));
    }
  }

  lemma AddEntryBody(h: Option<Heading>, x: string, y: string, es: seq<Entry>)
    requires h.Some? ==> x == y
    ensures AddEntry(h, x, es) == AddEntry(h, y, es)
  {
  }
}
