/**
 The fenced code blocks that crates/ai_chat_view/src/code_block_parse.rs extracts from a reply.
 Positions count characters.
 */
module FencedBlocks {
  import opened Results
  import opened Text

  const FENCE: string := "```"
  const CLOSING: string := "\n```"

  // ---- Searching ----

  predicate At(s: string, p: string, k: nat) {
    k <= |s| && p <= s[k..]
  }

  /** The first place where `p` occurs. */
  function Find(s: string, p: string): Option<nat> {
    if p <= s then Some(0)
    else if s == "" then None
    else
      match Find(s[1..], p)
      case Some(k) => Some(k + 1)
      case None => None
  }

  lemma {:induction false} FindIff(s: string, p: string)
    ensures match Find(s, p)
            case Some(k) => At(s, p, k) && forall j: nat :: j < k ==> !At(s, p, j)
            case None => forall j: nat :: !At(s, p, j)
  {
    assert s[0..] == s;
    if !(p <= s) && s != "" {
      var t := s[1..];
      FindIff(t, p);
      assert forall j: nat :: 0 < j <= |s| ==> s[j..] == t[j - 1..];
      assert forall j: nat :: 0 < j ==> (At(s, p, j) <==> At(t, p, j - 1));
    }
  }

  lemma FindIs(s: string, p: string, k: nat)
    requires At(s, p, k) && forall j: nat :: j < k ==> !At(s, p, j)
    ensures Find(s, p) == Some(k)
  {
    FindIff(s, p);
  }

  // ---- A text as blocks with text between ----

  /** The text before a block, the rest of the line of its opening fence, and its code up to the closing fence. */
  datatype Part = Part(text: string, info: string, code: string)

  datatype Document = Document(parts: seq<Part>, tail: string)

  function RenderPart(part: Part): string {
    part.text + (FENCE + (part.info + ("\n" + (part.code + FENCE))))
  }

  function RenderAll(parts: seq<Part>, tail: string): string {
    if parts == [] then tail else RenderPart(parts[0]) + RenderAll(parts[1..], tail)
  }

  function Render(d: Document): string {
    RenderAll(d.parts, d.tail)
  }

  /** A part at the beginning of a text, and its length. */
  datatype Leading = Leading(part: Part, length: nat)

  /** The first block with the text before it. */
  function FirstPart(s: string): (r: Option<Leading>)
    ensures r.Some? ==> 0 < r.value.length <= |s|
  {
    var start := Find(s, FENCE);
    FindIff(s, FENCE);
    if start.None? then None
    else
      var afterFence := s[start.value + 3..];
      var newline := Find(afterFence, "\n");
      FindIff(afterFence, "\n");
      if newline.None? then None
      else
        var afterInfo := afterFence[newline.value + 1..];
        var close := Find(afterInfo, CLOSING);
        FindIff(afterInfo, CLOSING);
        if close.None? then None
        else
          var part := Part(s[..start.value], afterFence[..newline.value], afterInfo[..close.value + 1]);
          Some(Leading(part, start.value + 3 + newline.value + 1 + close.value + 4))
  }

  function Decompose(s: string): Document
    decreases |s|
  {
    match FirstPart(s)
    case None => Document([], s)
    case Some(first) =>
      var rest := Decompose(s[first.length..]);
      Document([first.part] + rest.parts, rest.tail)
  }

  /** No fence in the text, nor across the join with the fence after it. */
  predicate TextOk(text: string) {
    forall j: nat :: j < |text| ==> !At(text + FENCE, FENCE, j)
  }

  /** The code ends its last line, and no earlier line end is followed by a fence. */
  predicate CodeOk(code: string) {
    && code != "" && code[|code| - 1] == '\n'
    && forall j: nat :: j < |code| - 1 ==> !At(code + FENCE, CLOSING, j)
  }

  predicate PartOk(part: Part) {
    TextOk(part.text) && '\n' !in part.info && CodeOk(part.code)
  }

  /** No fence that is followed by a line end and then by a later line end with a fence. */
  ghost predicate TailOk(tail: string) {
    forall k: nat, n: nat, c: nat ::
      At(tail, FENCE, k) && At(tail, "\n", n) && At(tail, CLOSING, c) ==> !(k + 3 <= n < c)
  }

  ghost predicate WellFormed(d: Document) {
    (forall i :: 0 <= i < |d.parts| ==> PartOk(d.parts[i])) && TailOk(d.tail)
  }

  // ---- Decomposing and rendering are inverse ----

  lemma AtShift(s: string, p: string, k: nat, j: nat)
    requires k <= |s|
    ensures At(s[k..], p, j) <==> At(s, p, k + j)
  {
    if k + j <= |s| {
      assert s[k..][j..] == s[k + j..];
    }
  }

  lemma AtPrefix(s: string, t: string, p: string, k: nat)
    requires k + |p| <= |s|
    ensures At(s + t, p, k) <==> At(s, p, k)
  {
    assert (s + t)[k..] == s[k..] + t;
    PrefixOfSum(s[k..], t, p);
  }

  lemma PrefixOfSum(s: string, t: string, p: string)
    requires |p| <= |s|
    ensures p <= s + t <==> p <= s
  {
    assert p <= s + t <==> (s + t)[..|p|] == p;
    assert (s + t)[..|p|] == s[..|p|];
  }

  /** The first of the three searches on a rendered block stops at the end of its text. */
  lemma FindText(text: string, more: string)
    requires TextOk(text)
    ensures Find(text + (FENCE + more), FENCE) == Some(|text|)
  {
    hide Find;
    var s := text + (FENCE + more);
    assert s == (text + FENCE) + more;
    forall j: nat | j < |text| ensures !At(s, FENCE, j) {
      AtPrefix(text + FENCE, more, FENCE, j);
    }
    assert s[|text|..] == FENCE + more;
    FindIs(s, FENCE, |text|);
  }

  lemma FindInfo(info: string, more: string)
    requires '\n' !in info
    ensures Find(info + ("\n" + more), "\n") == Some(|info|)
  {
    hide Find;
    var s := info + ("\n" + more);
    forall j: nat | j < |info| ensures !At(s, "\n", j) {
      assert s[j..][0] == info[j];
    }
    assert s[|info|..] == "\n" + more;
    FindIs(s, "\n", |info|);
  }

  lemma FindCode(code: string, more: string)
    requires CodeOk(code)
    ensures Find(code + FENCE + more, CLOSING) == Some(|code| - 1)
  {
    hide Find;
    var s := code + FENCE + more;
    forall j: nat | j < |code| - 1 ensures !At(s, CLOSING, j) {
      AtPrefix(code + FENCE, more, CLOSING, j);
    }
    assert s[|code| - 1..] == CLOSING + more;
    FindIs(s, CLOSING, |code| - 1);
  }

  /** Where the text and the opening line end is known, the search for the closing fence decides the rest. */
  lemma FirstPartBehind(text: string, info: string, afterInfo: string)
    requires TextOk(text) && '\n' !in info
    ensures var s := text + (FENCE + (info + ("\n" + afterInfo)));
            match Find(afterInfo, CLOSING)
            case None => FirstPart(s).None?
            case Some(c) =>
              && c + 4 <= |afterInfo|
              && FirstPart(s) == Some(Leading(Part(text, info, afterInfo[..c + 1]), |text| + 3 + |info| + 1 + c + 4))
  {
    hide *;
    Lengths();
    var afterFence := info + ("\n" + afterInfo);
    FindText(text, afterFence);
    SlicesOfSum(text, FENCE, afterFence);
    FindInfo(info, afterInfo);
    SlicesOfSum(info, "\n", afterInfo);
    FirstPartCases(text + (FENCE + afterFence), |text|);
  }

  lemma FirstOfRendered(part: Part, more: string)
    requires PartOk(part)
    ensures FirstPart(RenderPart(part) + more) == Some(Leading(part, |RenderPart(part)|))
  {
    hide *;
    PartIsOk(part);
    CodeIsNotEmpty(part.code);
    RenderPartWith(part, more);
    FirstPartBehind(part.text, part.info, part.code + (FENCE + more));
    FindCode(part.code, more);
    assert part.code + FENCE + more == part.code + (FENCE + more);
    SlicesOfSum(part.code, FENCE, more);
    RenderPartLength(part);
  }

  lemma RenderPartLength(part: Part)
    ensures |RenderPart(part)| == |part.text| + 3 + |part.info| + 1 + |part.code| + 3
  {
  }

  lemma SlicesOfSum(a: string, b: string, c: string)
    ensures |a + (b + c)| == |a| + |b| + |c|
    ensures (a + (b + c))[..|a|] == a && (a + (b + c))[|a| + |b|..] == c
  {
  }

  lemma CodeIsNotEmpty(code: string)
    requires CodeOk(code)
    ensures code != ""
  {
  }

  /** A search in the rest of a text, told in positions of the whole. */
  lemma FindFrom(s: string, p: string, from: nat)
    requires from <= |s|
    ensures match Find(s[from..], p)
            case Some(k) => At(s, p, from + k) && forall n: nat :: from <= n < from + k ==> !At(s, p, n)
            case None => forall n: nat :: from <= n ==> !At(s, p, n)
  {
    hide Find, At;
    FindIff(s[from..], p);
    forall n: nat | from <= n ensures At(s, p, n) <==> At(s[from..], p, n - from) {
      AtShift(s, p, from, n - from);
    }
  }

  /** A block is found exactly where there is one. */
  lemma NoPartIff(s: string)
    ensures FirstPart(s).None? <==> TailOk(s)
  {
    hide Find, At;
    FindIff(s, FENCE);
    var start := Find(s, FENCE);
    if start.Some? {
      var k := start.value;
      FenceHasThree(s, k);
      FindFrom(s, "\n", k + 3);
      var newline := Find(s[k + 3..], "\n");
      if newline.Some? {
        var n := k + 3 + newline.value;
        NewlineIff(s, n);
        assert s[k + 3..][newline.value + 1..] == s[n + 1..];
        FindFrom(s, CLOSING, n + 1);
        NoPartFrom(s, k, n);
      }
    }
  }

  lemma FenceHasThree(s: string, k: nat)
    requires At(s, FENCE, k)
    ensures k + 3 <= |s| && s[k..k + 3] == FENCE
  {
    assert s[k..][..3] == FENCE;
  }

  lemma NoPartFrom(s: string, k: nat, n: nat)
    requires At(s, FENCE, k) && forall j: nat :: j < k ==> !At(s, FENCE, j)
    requires k + 3 <= n && At(s, "\n", n) && forall j: nat :: k + 3 <= j < n ==> !At(s, "\n", j)
    ensures TailOk(s) <==> forall c: nat :: n < c ==> !At(s, CLOSING, c)
  {
    hide At;
  }

  lemma AtTake(s: string, p: string, n: nat, k: nat)
    requires k + |p| <= n <= |s|
    ensures At(s[..n], p, k) <==> At(s, p, k)
  {
    AtPrefix(s[..n], s[n..], p, k);
    assert s[..n] + s[n..] == s;
  }

  lemma TextBefore(s: string, k: nat)
    requires Find(s, FENCE) == Some(k)
    ensures k + 3 <= |s| && TextOk(s[..k]) && s == s[..k] + (FENCE + s[k + 3..])
  {
    hide *;
    FindIff(s, FENCE);
    FenceHasThree(s, k);
    Lengths();
    TextSlices(s, k);
    NoneBefore(s, FENCE, k + 3, k);
    TextIsOk(s[..k]);
  }

  lemma TextSlices(s: string, k: nat)
    requires k + 3 <= |s|
    ensures s[..k + 3] == s[..k] + s[k..k + 3]
    ensures s == s[..k] + (s[k..k + 3] + s[k + 3..])
    ensures |s[..k]| == k
  {
  }

  lemma TextIsOk(text: string)
    requires forall j: nat :: j < |text| ==> !At(text + FENCE, FENCE, j)
    ensures TextOk(text)
  {
    hide At;
  }

  lemma InfoBefore(s: string, k: nat)
    requires Find(s, "\n") == Some(k)
    ensures k + 1 <= |s| && '\n' !in s[..k] && s == s[..k] + ("\n" + s[k + 1..])
  {
    hide *;
    FindIff(s, "\n");
    NewlineIff(s, k);
    forall j: nat | j < k ensures s[j] != '\n' {
      NewlineIff(s, j);
    }
    assert s == s[..k] + ([s[k]] + s[k + 1..]);
  }

  lemma NewlineIff(s: string, k: nat)
    ensures At(s, "\n", k) <==> k < |s| && s[k] == '\n'
  {
    if k < |s| {
      assert s[k..][0] == s[k];
    }
  }

  lemma NoneBefore(s: string, p: string, n: nat, k: nat)
    requires k + |p| <= n + 1 && n <= |s| && forall j: nat :: j < k ==> !At(s, p, j)
    ensures forall j: nat :: j < k ==> !At(s[..n], p, j)
  {
    hide At;
    forall j: nat | j < k ensures !At(s[..n], p, j) {
      AtTake(s, p, n, j);
    }
  }

  lemma Lengths()
    ensures |CLOSING| == 4 && |FENCE| == 3
  {
  }

  lemma CodeBefore(s: string, k: nat)
    requires Find(s, CLOSING) == Some(k)
    ensures k + 4 <= |s| && CodeOk(s[..k + 1]) && s == s[..k + 1] + (FENCE + s[k + 4..])
  {
    hide *;
    FindIff(s, CLOSING);
    ClosingHasFour(s, k);
    Lengths();
    CodeSlices(s, k);
    NoneBefore(s, CLOSING, k + 4, k);
    CodeIsOk(s[..k + 1]);
  }

  lemma CodeSlices(s: string, k: nat)
    requires k + 4 <= |s|
    ensures s[..k + 4] == s[..k + 1] + s[k + 1..k + 4]
    ensures s == s[..k + 1] + (s[k + 1..k + 4] + s[k + 4..])
    ensures |s[..k + 1]| == k + 1 && s[..k + 1][k] == s[k]
  {
  }

  lemma CodeIsOk(code: string)
    requires code != "" && code[|code| - 1] == '\n'
    requires forall j: nat :: j < |code| - 1 ==> !At(code + FENCE, CLOSING, j)
    ensures CodeOk(code)
  {
    hide At;
  }

  lemma ClosingHasFour(s: string, k: nat)
    requires At(s, CLOSING, k)
    ensures k + 4 <= |s| && s[k] == '\n' && s[k + 1..k + 4] == FENCE
  {
    assert s[k..][0] == CLOSING[0] && s[k..][1..4] == CLOSING[1..];
  }

  lemma FirstPartRenders(s: string)
    requires FirstPart(s).Some?
    ensures var first := FirstPart(s).value; PartOk(first.part) && s == RenderPart(first.part) + s[first.length..]
  {
    hide *;
    FirstPartSearches(s);
    var start := Find(s, FENCE).value;
    FirstPartCases(s, start);
    TextBefore(s, start);
    var afterFence := s[start + 3..];
    var newline := Find(afterFence, "\n").value;
    InfoBefore(afterFence, newline);
    var afterInfo := afterFence[newline + 1..];
    var close := Find(afterInfo, CLOSING).value;
    CodeBefore(afterInfo, close);
    RestOfRest(s, start + 3, newline + 1, close + 4);
    var part := Part(s[..start], afterFence[..newline], afterInfo[..close + 1]);
    PartIsOk(part);
    RenderIs(s, part, afterFence, afterInfo, afterInfo[close + 4..]);
  }

  lemma RenderIs(s: string, part: Part, afterFence: string, afterInfo: string, more: string)
    requires s == part.text + (FENCE + afterFence)
    requires afterFence == part.info + ("\n" + afterInfo)
    requires afterInfo == part.code + (FENCE + more)
    ensures s == RenderPart(part) + more
  {
    hide RenderPart;
    RenderPartWith(part, more);
  }

  lemma RestOfRest(s: string, a: nat, b: nat, c: nat)
    requires a + b + c <= |s|
    ensures s[a..][b..][c..] == s[a + b + c..]
  {
  }

  lemma RenderPartWith(part: Part, more: string)
    ensures RenderPart(part) + more == part.text + (FENCE + (part.info + ("\n" + (part.code + (FENCE + more)))))
  {
  }

  lemma PartIsOk(part: Part)
    ensures PartOk(part) <==> TextOk(part.text) && '\n' !in part.info && CodeOk(part.code)
  {
    hide TextOk, CodeOk;
  }

  lemma WellFormedCons(part: Part, parts: seq<Part>, tail: string)
    ensures WellFormed(Document([part] + parts, tail)) <==> PartOk(part) && WellFormed(Document(parts, tail))
  {
    hide PartOk, TailOk;
    var all := [part] + parts;
    assert all[0] == part;
    assert forall i :: 0 < i < |all| ==> all[i] == parts[i - 1];
    assert forall i :: 0 <= i < |parts| ==> parts[i] == all[i + 1];
  }

  lemma WellFormedNil(tail: string)
    ensures WellFormed(Document([], tail)) <==> TailOk(tail)
  {
    hide TailOk;
  }

  lemma RenderCons(part: Part, parts: seq<Part>, tail: string)
    ensures Render(Document([part] + parts, tail)) == RenderPart(part) + Render(Document(parts, tail))
    ensures Render(Document([], tail)) == tail
  {
    assert ([part] + parts)[1..] == parts;
  }

  lemma DecomposeStep(s: string)
    ensures match FirstPart(s)
            case None => Decompose(s) == Document([], s)
            case Some(first) =>
              var rest := Decompose(s[first.length..]); Decompose(s) == Document([first.part] + rest.parts, rest.tail)
  {
    hide FirstPart;
  }

  lemma {:induction false} DecomposeRenders(s: string)
    ensures WellFormed(Decompose(s)) && Render(Decompose(s)) == s
    decreases |s|
  {
    hide *;
    DecomposeStep(s);
    if FirstPart(s).None? {
      NoPartIff(s);
      WellFormedNil(s);
      RenderCons(Part("", "", ""), [], s);
    } else {
      var first := FirstPart(s).value;
      FirstPartRenders(s);
      var rest := Decompose(s[first.length..]);
      DecomposeRenders(s[first.length..]);
      WellFormedCons(first.part, rest.parts, rest.tail);
      RenderCons(first.part, rest.parts, rest.tail);
    }
  }

  lemma {:induction false} RenderDecomposes(d: Document)
    requires WellFormed(d)
    ensures Decompose(Render(d)) == d
    decreases |d.parts|
  {
    hide *;
    DecomposeStep(Render(d));
    if d.parts == [] {
      RenderCons(Part("", "", ""), [], d.tail);
      WellFormedNil(d.tail);
      NoPartIff(d.tail);
    } else {
      var part, rest := d.parts[0], Document(d.parts[1..], d.tail);
      assert d.parts == [part] + rest.parts;
      WellFormedCons(part, rest.parts, rest.tail);
      RenderCons(part, rest.parts, rest.tail);
      FirstOfRendered(part, Render(rest));
      RenderDecomposes(rest);
    }
  }

  /** Every text is one well-formed document and no other: the decomposition is the only way to read it. */
  lemma DecomposeIff(s: string, d: Document)
    ensures WellFormed(d) && Render(d) == s <==> d == Decompose(s)
  {
    hide *;
    DecomposeRenders(s);
    if WellFormed(d) && Render(d) == s {
      RenderDecomposes(d);
    }
  }

  // ---- The extracted blocks ----

  datatype Block = Block(language: Option<string>, code: string, start: nat, end: nat)

  /** The characters up to the first white space. */
  function Token(s: string): string {
    if s == "" || IsWhiteSpace(s[0]) then "" else [s[0]] + Token(s[1..])
  }

  function SkipWhiteSpace(s: string): string {
    if s != "" && IsWhiteSpace(s[0]) then SkipWhiteSpace(s[1..]) else s
  }

  function FirstInfoToken(info: string): Option<string> {
    var token := Token(SkipWhiteSpace(info));
    if token == "" then None else Some(Lowered(token))
  }

  ghost predicate FirstWord(info: string, before: string, word: string, after: string) {
    && info == before + word + after
    && AllWhiteSpace(before)
    && word != "" && (forall i :: 0 <= i < |word| ==> !IsWhiteSpace(word[i]))
    && (after == "" || IsWhiteSpace(after[0]))
  }

  lemma {:induction false} TokenOf(word: string, after: string)
    requires forall i :: 0 <= i < |word| ==> !IsWhiteSpace(word[i])
    requires after == "" || IsWhiteSpace(after[0])
    ensures Token(word + after) == word
  {
    hide IsWhiteSpace;
    if word == "" {
      assert word + after == after;
    } else {
      assert (word + after)[1..] == word[1..] + after;
      TokenOf(word[1..], after);
    }
  }

  lemma {:induction false} SkipOf(before: string, s: string)
    requires AllWhiteSpace(before) && (s == "" || !IsWhiteSpace(s[0]))
    ensures SkipWhiteSpace(before + s) == s
  {
    hide IsWhiteSpace;
    if before == "" {
      assert before + s == s;
    } else {
      assert (before + s)[1..] == before[1..] + s;
      SkipOf(before[1..], s);
    }
  }

  /** The language is the first word of the line of the opening fence, in lower case. */
  lemma LanguageIsFirstWord(info: string, before: string, word: string, after: string)
    requires FirstWord(info, before, word, after)
    ensures FirstInfoToken(info) == Some(Lowered(word))
  {
    hide Token, SkipWhiteSpace, IsWhiteSpace;
    assert info == before + (word + after);
    SkipOf(before, word + after);
    TokenOf(word, after);
  }

  lemma NoLanguageIff(info: string)
    ensures FirstInfoToken(info).None? <==> AllWhiteSpace(info)
  {
    hide IsWhiteSpace;
    SkipIff(info);
  }

  lemma {:induction false} SkipIff(s: string)
    ensures SkipWhiteSpace(s) == "" <==> AllWhiteSpace(s)
    ensures SkipWhiteSpace(s) != "" ==> !IsWhiteSpace(SkipWhiteSpace(s)[0])
  {
    hide IsWhiteSpace;
    if s != "" && IsWhiteSpace(s[0]) {
      SkipIff(s[1..]);
      assert s == [s[0]] + s[1..];
    }
  }

  function Blocks(parts: seq<Part>, from: nat): seq<Block> {
    if parts == [] then []
    else
      var start := from + |parts[0].text|;
      var end := from + |RenderPart(parts[0])|;
      [Block(FirstInfoToken(parts[0].info), parts[0].code, start, end)] + Blocks(parts[1..], end)
  }

  /** The block lies within the text, between two fences, and its code stands before the second. */
  predicate Delimited(s: string, b: Block) {
    && b.start + 4 + |b.code| + 3 <= b.end <= |s|
    && s[b.start..b.start + 3] == FENCE
    && s[b.end - 3..b.end] == FENCE
    && s[b.end - 3 - |b.code|..b.end - 3] == b.code
  }

  predicate InOrder(blocks: seq<Block>, from: nat) {
    && (blocks != [] ==> from <= blocks[0].start)
    && forall i :: 0 < i < |blocks| ==> blocks[i - 1].end <= blocks[i].start
  }

  lemma FirstIsDelimited(before: string, part: Part, more: string)
    ensures var s := before + RenderPart(part) + more;
            Delimited(s, Block(FirstInfoToken(part.info), part.code, |before| + |part.text|, |before| + |RenderPart(part)|))
  {
    hide FirstInfoToken;
    var s := before + RenderPart(part) + more;
    var start, end := |before| + |part.text|, |before| + |RenderPart(part)|;
    assert s == (before + part.text) + FENCE + (part.info + "\n" + part.code + FENCE + more);
    assert s == (before + part.text + FENCE + part.info + "\n") + part.code + (FENCE + more);
    assert s == (before + part.text + FENCE + part.info + "\n" + part.code) + FENCE + more;
  }

  lemma {:induction false} BlocksAreDelimitedFrom(before: string, parts: seq<Part>, tail: string)
    ensures var blocks := Blocks(parts, |before|);
            && (forall i :: 0 <= i < |blocks| ==> Delimited(before + RenderAll(parts, tail), blocks[i]))
            && InOrder(blocks, |before|)
    decreases |parts|
  {
    hide *;
    BlocksStep(parts, |before|);
    if parts == [] {
      NoneInOrder(|before|);
    } else {
      var s, more := before + RenderAll(parts, tail), RenderAll(parts[1..], tail);
      var next := before + RenderPart(parts[0]);
      RenderAllStep(parts, tail);
      assert s == next + more;
      FirstIsDelimited(before, parts[0], more);
      BlocksAreDelimitedFrom(next, parts[1..], tail);
      PartIsLonger(parts[0]);
      OneMoreInOrder(Blocks(parts, |before|)[0], Blocks(parts[1..], |next|), |before|);
    }
  }

  lemma BlocksStep(parts: seq<Part>, from: nat)
    ensures parts == [] ==> Blocks(parts, from) == []
    ensures parts != [] ==>
      var end := from + |RenderPart(parts[0])|;
      Blocks(parts, from)
      == [Block(FirstInfoToken(parts[0].info), parts[0].code, from + |parts[0].text|, end)] + Blocks(parts[1..], end)
  {
    hide RenderPart, FirstInfoToken;
  }

  lemma RenderAllStep(parts: seq<Part>, tail: string)
    requires parts != []
    ensures RenderAll(parts, tail) == RenderPart(parts[0]) + RenderAll(parts[1..], tail)
  {
    hide RenderPart;
  }

  lemma NoneInOrder(from: nat)
    ensures InOrder([], from)
  {
  }

  lemma OneMoreInOrder(first: Block, others: seq<Block>, from: nat)
    requires from <= first.start && InOrder(others, first.end)
    ensures InOrder([first] + others, from)
  {
    var all := [first] + others;
    forall i | 0 < i < |all| ensures all[i - 1].end <= all[i].start {
      if i > 1 {
        assert all[i] == others[i - 1] && all[i - 1] == others[i - 2];
      }
    }
  }

  lemma PartIsLonger(part: Part)
    ensures |part.text| <= |RenderPart(part)|
  {
  }

  /** On any text: the blocks are in bounds, between fences, disjoint and in order. */
  lemma BlocksAreDelimited(s: string)
    ensures var blocks := Blocks(Decompose(s).parts, 0);
            && (forall i :: 0 <= i < |blocks| ==> Delimited(s, blocks[i]))
            && InOrder(blocks, 0)
  {
    hide Decompose, Blocks, Delimited, InOrder, RenderAll;
    DecomposeRenders(s);
    BlocksAreDelimitedFrom("", Decompose(s).parts, Decompose(s).tail);
    assert "" + RenderAll(Decompose(s).parts, Decompose(s).tail) == s;
  }

  // ---- The loop ----

  lemma BlocksFrom(s: string, cursor: nat)
    requires cursor <= |s|
    ensures match FirstPart(s[cursor..])
            case None => Blocks(Decompose(s[cursor..]).parts, cursor) == []
            case Some(first) =>
              var next := cursor + first.length;
              var block := Block(FirstInfoToken(first.part.info), first.part.code, cursor + |first.part.text|, next);
              && next <= |s| && first.length == |RenderPart(first.part)|
              && Blocks(Decompose(s[cursor..]).parts, cursor) == [block] + Blocks(Decompose(s[next..]).parts, next)
  {
    hide FirstPart, RenderPart, FirstInfoToken;
    var rest := s[cursor..];
    DecomposeStep(rest);
    if FirstPart(rest).Some? {
      var first := FirstPart(rest).value;
      FirstPartRenders(rest);
      assert rest[first.length..] == s[cursor + first.length..];
      var more := Decompose(s[cursor + first.length..]).parts;
      assert ([first.part] + more)[1..] == more;
    }
  }

  /** What the search for the closing fence decides, in positions of the whole text. */
  predicate CodeSearch(s: string, cursor: nat, start: nat, infoStart: nat, infoEnd: nat)
    requires cursor <= start <= infoStart <= infoEnd < |s|
  {
    match Find(s[infoEnd + 1..], CLOSING)
    case None => FirstPart(s[cursor..]).None?
    case Some(c) =>
      var end := infoEnd + 1 + c + 4;
      && end <= |s|
      && var part := Part(s[cursor..start], s[infoStart..infoEnd], s[infoEnd + 1..end - 3]);
         FirstPart(s[cursor..]) == Some(Leading(part, end - cursor))
  }

  /** What the search for the end of the opening line decides. */
  predicate InfoSearch(s: string, cursor: nat, start: nat, infoStart: nat)
    requires cursor <= start <= infoStart <= |s|
  {
    match Find(s[infoStart..], "\n")
    case None => FirstPart(s[cursor..]).None?
    case Some(b) => infoStart + b < |s| && CodeSearch(s, cursor, start, infoStart, infoStart + b)
  }

  lemma FirstPartCases(s: string, a: nat)
    requires Find(s, FENCE) == Some(a) && a + 3 <= |s|
    ensures match Find(s[a + 3..], "\n")
            case None => FirstPart(s).None?
            case Some(b) =>
              && a + 3 + b + 1 <= |s|
              && var afterInfo := s[a + 3..][b + 1..];
                 match Find(afterInfo, CLOSING)
                 case None => FirstPart(s).None?
                 case Some(c) =>
                   && c + 4 <= |afterInfo|
                   && var part := Part(s[..a], s[a + 3..][..b], afterInfo[..c + 1]);
                      FirstPart(s) == Some(Leading(part, a + 3 + b + 1 + c + 4))
  {
    hide Find;
    FindIff(s[a + 3..], "\n");
    if Find(s[a + 3..], "\n").Some? {
      FindIff(s[a + 3..][Find(s[a + 3..], "\n").value + 1..], CLOSING);
    }
  }

  lemma FirstPartSearches(s: string)
    ensures Find(s, FENCE).None? ==> FirstPart(s).None?
    ensures Find(s, FENCE).Some? ==>
      var a := Find(s, FENCE).value;
      && a + 3 <= |s| && InfoSearch(s, 0, a, a + 3)
  {
    hide Find;
    if Find(s, FENCE).Some? {
      hide *;
      var a := Find(s, FENCE).value;
      FindIff(s, FENCE);
      FenceHasThree(s, a);
      FirstPartCases(s, a);
      InfoSearchIs(s, a);
    }
  }

  lemma InfoSearchIs(s: string, a: nat)
    requires a + 3 <= |s|
    requires match Find(s[a + 3..], "\n")
             case None => FirstPart(s).None?
             case Some(b) =>
               && a + 3 + b + 1 <= |s|
               && var afterInfo := s[a + 3..][b + 1..];
                  match Find(afterInfo, CLOSING)
                  case None => FirstPart(s).None?
                  case Some(c) =>
                    && c + 4 <= |afterInfo|
                    && var part := Part(s[..a], s[a + 3..][..b], afterInfo[..c + 1]);
                       FirstPart(s) == Some(Leading(part, a + 3 + b + 1 + c + 4))
    ensures InfoSearch(s, 0, a, a + 3)
  {
    hide Find, FirstPart;
    assert s[0..] == s;
    if Find(s[a + 3..], "\n").Some? {
      var n := a + 3 + Find(s[a + 3..], "\n").value;
      assert s[a + 3..][n - a - 3 + 1..] == s[n + 1..] && s[a + 3..][..n - a - 3] == s[a + 3..n];
      if Find(s[n + 1..], CLOSING).Some? {
        var c := Find(s[n + 1..], CLOSING).value;
        assert s[n + 1..][..c + 1] == s[n + 1..n + 1 + c + 1];
      }
    }
  }

  lemma CodeSearchShift(s: string, cursor: nat, start: nat, infoStart: nat, infoEnd: nat)
    requires start <= infoStart <= infoEnd && cursor + infoEnd < |s|
    requires CodeSearch(s[cursor..], 0, start, infoStart, infoEnd)
    ensures CodeSearch(s, cursor, cursor + start, cursor + infoStart, cursor + infoEnd)
  {
    hide Find, FirstPart;
    var rest := s[cursor..];
    assert rest[0..] == rest && rest[infoEnd + 1..] == s[cursor + infoEnd + 1..];
    assert rest[0..start] == s[cursor..cursor + start];
    assert rest[infoStart..infoEnd] == s[cursor + infoStart..cursor + infoEnd];
    if Find(rest[infoEnd + 1..], CLOSING).Some? {
      var end := infoEnd + 1 + Find(rest[infoEnd + 1..], CLOSING).value + 4;
      assert rest[infoEnd + 1..end - 3] == s[cursor + infoEnd + 1..cursor + end - 3];
    }
  }

  /** The three searches from a cursor decide what the next block is. */
  lemma Searches(s: string, cursor: nat)
    requires cursor <= |s|
    ensures match Find(s[cursor..], FENCE)
            case None => FirstPart(s[cursor..]).None?
            case Some(a) => cursor + a + 3 <= |s| && InfoSearch(s, cursor, cursor + a, cursor + a + 3)
  {
    hide Find, FirstPart, CodeSearch;
    var rest := s[cursor..];
    FirstPartSearches(rest);
    if Find(rest, FENCE).Some? {
      var a := Find(rest, FENCE).value;
      assert rest[0..] == rest && rest[a + 3..] == s[cursor + a + 3..];
      if Find(rest[a + 3..], "\n").Some? {
        CodeSearchShift(s, cursor, a, a + 3, a + 3 + Find(rest[a + 3..], "\n").value);
      }
    }
  }

  method ExtractFencedCodeBlocks(markdown: string) returns (blocks: seq<Block>)
    ensures blocks == Blocks(Decompose(markdown).parts, 0)
  {
    hide Find, FirstPart, FirstInfoToken, Decompose, Blocks, RenderPart;
    blocks := [];
    var cursor := 0;
    assert markdown[0..] == markdown;
    assert blocks + Blocks(Decompose(markdown).parts, 0) == Blocks(Decompose(markdown).parts, 0);
    while true
      invariant cursor <= |markdown|
      invariant Blocks(Decompose(markdown).parts, 0) == blocks + Blocks(Decompose(markdown[cursor..]).parts, cursor)
      decreases |markdown| - cursor
    {
      BlocksFrom(markdown, cursor);
      Searches(markdown, cursor);
      var relativeStart := Find(markdown[cursor..], FENCE);
      if relativeStart.None? {
        break;
      }
      var start := cursor + relativeStart.value;
      var infoStart := start + 3;
      var offset := Find(markdown[infoStart..], "\n");
      if offset.None? {
        break;
      }
      var infoEnd := infoStart + offset.value;
      var codeStart := infoEnd + 1;
      var relativeEnd := Find(markdown[codeStart..], CLOSING);
      if relativeEnd.None? {
        break;
      }
      var codeEnd := codeStart + relativeEnd.value + 1;
      var end := codeEnd + 3;
      var block := Block(FirstInfoToken(markdown[infoStart..infoEnd]), markdown[codeStart..codeEnd], start, end);
      assert blocks + ([block] + Blocks(Decompose(markdown[end..]).parts, end))
          == blocks + [block] + Blocks(Decompose(markdown[end..]).parts, end);
      blocks := blocks + [block];
      cursor := end;
    }
  }

  /**
   A block without a line of code is not closed by the fence that follows at once: that fence
   belongs to its code, and without a later one there is no block.
   */
  lemma EmptyBlockIsNotClosed(text: string, info: string, rest: string)
    requires TextOk(text) && '\n' !in info
    ensures var first := FirstPart(text + (FENCE + (info + ("\n" + (FENCE + rest)))));
            match Find(FENCE + rest, CLOSING)
            case None => first.None?
            case Some(c) =>
              && first.Some? && 3 <= c < |FENCE + rest|
              && first.value.part == Part(text, info, (FENCE + rest)[..c + 1]) && FENCE <= first.value.part.code
  {
    hide *;
    FirstPartBehind(text, info, FENCE + rest);
    FindIff(FENCE + rest, CLOSING);
    if Find(FENCE + rest, CLOSING).Some? {
      var c := Find(FENCE + rest, CLOSING).value;
      ClosingHasFour(FENCE + rest, c);
      FenceComesFirst(rest, c);
    }
  }

  lemma FenceComesFirst(rest: string, c: nat)
    requires c < |FENCE + rest| && (FENCE + rest)[c] == '\n'
    ensures 3 <= c && FENCE <= (FENCE + rest)[..c + 1]
  {
    assert forall k :: 0 <= k < 3 ==> (FENCE + rest)[k] != '\n';
    assert (FENCE + rest)[..c + 1] == FENCE + rest[..c - 2];
  }

  // ---- A block in plain characters ----

  predicate NoBacktick(s: string) {
    forall i :: 0 <= i < |s| ==> s[i] != '`'
  }

  lemma PlainPartIsOk(text: string, info: string, code: string)
    requires NoBacktick(text) && NoBacktick(code) && '\n' !in info && code != "" && code[|code| - 1] == '\n'
    ensures PartOk(Part(text, info, code))
  {
    forall j: nat | j < |text| ensures !At(text + FENCE, FENCE, j) {
      assert (text + FENCE)[j..][0] == text[j];
    }
    forall j: nat | j < |code| - 1 ensures !At(code + FENCE, CLOSING, j) {
      assert (code + FENCE)[j..][1] == code[j + 1];
    }
  }

  lemma PlainTailIsOk(tail: string)
    requires NoBacktick(tail)
    ensures TailOk(tail)
  {
    forall k: nat ensures !At(tail, FENCE, k) {
      if k < |tail| {
        assert tail[k..][0] == tail[k];
      }
    }
  }

  /**
   Three backticks open a block and three at the beginning of a line close it: the rest of the
   opening line tells the language, what is between the lines is the code, and both fences are
   within the block's bounds.
   */
  lemma PlainBlock(text: string, info: string, code: string, tail: string)
    requires NoBacktick(text) && NoBacktick(code) && NoBacktick(tail)
    requires '\n' !in info && code != "" && code[|code| - 1] == '\n'
    ensures Blocks(Decompose(text + ("```" + (info + ("\n" + (code + "```")))) + tail).parts, 0)
         == [Block(FirstInfoToken(info), code, |text|, |text| + 3 + |info| + 1 + |code| + 3)]
  {
    hide *;
    PlainPartIsOk(text, info, code);
    PlainTailIsOk(tail);
    RenderPartIs(Part(text, info, code));
    BlockOfPart(Part(text, info, code), tail);
  }

  lemma BlockOfPart(part: Part, tail: string)
    requires PartOk(part) && TailOk(tail)
    ensures Blocks(Decompose(RenderPart(part) + tail).parts, 0)
         == [Block(FirstInfoToken(part.info), part.code, |part.text|, |part.text| + 3 + |part.info| + 1 + |part.code| + 3)]
  {
    hide *;
    OnePart(part, tail);
    BlocksOfOne(part);
    DecomposeIff(RenderPart(part) + tail, Document([part], tail));
    RenderPartLength(part);
  }

  lemma RenderPartIs(part: Part)
    ensures RenderPart(part) == part.text + ("```" + (part.info + ("\n" + (part.code + "```"))))
  {
  }

  lemma OnePart(part: Part, tail: string)
    requires PartOk(part) && TailOk(tail)
    ensures WellFormed(Document([part], tail)) && Render(Document([part], tail)) == RenderPart(part) + tail
  {
    hide PartOk, TailOk, RenderPart;
    assert RenderAll([part][1..], tail) == tail;
  }

  lemma BlocksOfOne(part: Part)
    ensures Blocks([part], 0) == [Block(FirstInfoToken(part.info), part.code, |part.text|, |RenderPart(part)|)]
  {
    hide FirstInfoToken, RenderPart;
    assert Blocks([part][1..], |RenderPart(part)|) == [];
  }
}
