/**
 The natural order of connection names of main/src/connection_sort.rs: digit runs compare as
 numbers, other characters without regard to ASCII case.
 */
module NaturalOrder {
  import opened Results
  import opened Text

  /** The largest value a 128-bit unsigned number holds. */
  const LARGEST: nat := 0xFFFF_FFFF_FFFF_FFFF_FFFF_FFFF_FFFF_FFFF

  predicate Digits(s: string) {
    forall i :: 0 <= i < |s| ==> IsDigit(s[i])
  }

  function Min(a: nat, b: nat): nat {
    if a <= b then a else b
  }

  function Compare(a: int, b: int): Ordering {
    if a < b then Less else if a == b then Equal else Greater
  }

  function Then(first: Ordering, second: Ordering): Ordering {
    if first == Equal then second else first
  }

  /** How many digits a text begins with. */
  function RunLength(s: string): (n: nat)
    ensures n <= |s| && Digits(s[..n])
    ensures n < |s| ==> !IsDigit(s[n])
  {
    if s == [] || !IsDigit(s[0]) then 0 else
      assert forall i :: 0 < i < 1 + RunLength(s[1..]) ==> s[i] == s[1..][i - 1];
      1 + RunLength(s[1..])
  }

  /** The number that digits spell, without bound. */
  function Decimal(s: string): nat
    requires Digits(s)
  {
    if s == [] then 0 else Decimal(s[..|s| - 1]) * 10 + (s[|s| - 1] as int - '0' as int)
  }

  // ---- Names as lists of tokens ----

  /** A digit run by its length and its value cut off at the largest one, or any other character in lower case. */
  datatype Token = Number(length: nat, value: nat) | Letter(code: char)

  function RunToken(run: string): Token
    requires Digits(run)
  {
    Number(|run|, Min(Decimal(run), LARGEST))
  }

  function Tokens(s: string): seq<Token> {
    if s == [] then []
    else if IsDigit(s[0]) then
      var n := RunLength(s);
      [RunToken(s[..n])] + Tokens(s[n..])
    else [Letter(Lower(s[0]))] + Tokens(s[1..])
  }

  /** Letters before the digits come first, then numbers, then letters after the digits. */
  function Class(t: Token): nat {
    if t.Letter? then (if t.code < '0' then 0 else 2) else 1
  }

  function Major(t: Token): nat {
    if t.Letter? then t.code as nat else t.length
  }

  function Minor(t: Token): nat {
    if t.Letter? then 0 else t.value
  }

  function CompareToken(a: Token, b: Token): Ordering {
    Then(Compare(Class(a), Class(b)), Then(Compare(Major(a), Major(b)), Compare(Minor(a), Minor(b))))
  }

  function CompareTokens(a: seq<Token>, b: seq<Token>): Ordering {
    if a == [] && b == [] then Equal
    else if a == [] then Less
    else if b == [] then Greater
    else Then(CompareToken(a[0], b[0]), CompareTokens(a[1..], b[1..]))
  }

  function Order(left: string, right: string): Ordering {
    CompareTokens(Tokens(left), Tokens(right))
  }

  // ---- The order is a total preorder ----

  predicate Proper(tokens: seq<Token>) {
    forall i :: 0 <= i < |tokens| ==> tokens[i].Letter? ==> !IsDigit(tokens[i].code)
  }

  lemma {:induction false} TokensAreProper(s: string)
    ensures Proper(Tokens(s))
    decreases |s|
  {
    if s != [] {
      TokensAreProper(s[if IsDigit(s[0]) then RunLength(s) else 1..]);
    }
  }

  lemma CompareTokenEqual(a: Token, b: Token)
    requires a.Letter? ==> !IsDigit(a.code)
    requires b.Letter? ==> !IsDigit(b.code)
    ensures CompareToken(a, b) == Equal <==> a == b
  {
  }

  lemma CompareTokenReversed(a: Token, b: Token)
    ensures CompareToken(b, a) == CompareToken(a, b).Reverse()
  {
  }

  lemma CompareTokenTransitive(a: Token, b: Token, c: Token)
    requires CompareToken(a, b) != Greater && CompareToken(b, c) != Greater
    ensures CompareToken(a, c) == Then(CompareToken(a, b), CompareToken(b, c))
  {
  }

  lemma {:induction false} TokensEqual(a: seq<Token>, b: seq<Token>)
    requires Proper(a) && Proper(b)
    ensures CompareTokens(a, b) == Equal <==> a == b
  {
    if a != [] && b != [] {
      CompareTokenEqual(a[0], b[0]);
      TokensEqual(a[1..], b[1..]);
      assert a == [a[0]] + a[1..] && b == [b[0]] + b[1..];
    }
  }

  lemma {:induction false} TokensReversed(a: seq<Token>, b: seq<Token>)
    ensures CompareTokens(b, a) == CompareTokens(a, b).Reverse()
  {
    hide CompareToken;
    if a != [] && b != [] {
      CompareTokenReversed(a[0], b[0]);
      TokensReversed(a[1..], b[1..]);
    }
  }

  lemma {:induction false} TokensTransitive(a: seq<Token>, b: seq<Token>, c: seq<Token>)
    requires CompareTokens(a, b) != Greater && CompareTokens(b, c) != Greater
    ensures CompareTokens(a, c) == Then(CompareTokens(a, b), CompareTokens(b, c))
  {
    hide CompareToken;
    if a != [] && b != [] && c != [] {
      CompareTokenTransitive(a[0], b[0], c[0]);
      if CompareToken(a[0], b[0]) == Equal && CompareToken(b[0], c[0]) == Equal {
        TokensTransitive(a[1..], b[1..], c[1..]);
      }
    }
  }

  /** Names compare equal exactly when their tokens agree; in particular every name equals itself. */
  lemma EqualIffSameTokens(left: string, right: string)
    ensures Order(left, right) == Equal <==> Tokens(left) == Tokens(right)
  {
    TokensAreProper(left);
    TokensAreProper(right);
    TokensEqual(Tokens(left), Tokens(right));
  }

  lemma Reversed(left: string, right: string)
    ensures Order(right, left) == Order(left, right).Reverse()
  {
    TokensReversed(Tokens(left), Tokens(right));
  }

  /** Not greater twice is not greater, and it is strictly less as soon as one of the two steps is. */
  lemma Transitive(left: string, middle: string, right: string)
    requires Order(left, middle) != Greater && Order(middle, right) != Greater
    ensures Order(left, right) == if Order(left, middle) == Equal then Order(middle, right) else Less
  {
    TokensTransitive(Tokens(left), Tokens(middle), Tokens(right));
  }

  lemma LoweredRun(s: string)
    ensures var n := RunLength(s);
            && n <= |Lowered(s)| && RunLength(Lowered(s)) == n
            && Lowered(s)[..n] == s[..n] && Lowered(s)[n..] == Lowered(s[n..])
  {
    hide RunLength;
    var n, t := RunLength(s), Lowered(s);
    DigitsOf(s[..n]);
    forall i | 0 <= i < n ensures t[i] == s[i] {
      assert IsDigit(s[..n][i]);
    }
    assert t == s[..n] + t[n..];
    assert n < |s| ==> !IsDigit(t[n]);
    RunLengthOf(s[..n], t[n..]);
    assert t[n..] == Lowered(s[n..]);
  }

  lemma DigitsOf(run: string)
    ensures Digits(run) <==> forall i :: 0 <= i < |run| ==> IsDigit(run[i])
  {
  }

  lemma {:induction false} TokensOfLowered(s: string)
    ensures Tokens(Lowered(s)) == Tokens(s)
    decreases |s|
  {
    hide RunToken, RunLength;
    if s != "" {
      if IsDigit(s[0]) {
        TokensOfRun(s);
        LoweredRun(s);
        TokensOfRun(Lowered(s));
        TokensOfLowered(s[RunLength(s)..]);
      } else {
        TokensOfLowered(s[1..]);
        assert Lowered(s)[1..] == Lowered(s[1..]);
      }
    }
  }

  /** The case of ASCII letters makes no difference. */
  lemma CaseIsIgnored(left: string, right: string)
    ensures Order(Lowered(left), right) == Order(left, right) == Order(left, Lowered(right))
  {
    TokensOfLowered(left);
    TokensOfLowered(right);
  }

  // ---- The comparison loops ----

  /** A peekable iterator over the characters of a text. */
  class Chars {
    const text: string
    var position: nat

    ghost predicate Valid()
      reads this
    {
      position <= |text|
    }

    ghost function Rest(): string
      requires Valid()
      reads this
    {
      text[position..]
    }

    constructor (text: string)
      ensures Valid() && Rest() == text
    {
      this.text := text;
      position := 0;
    }

    method Peek() returns (c: Option<char>)
      requires Valid()
      ensures c == if Rest() == [] then None else Some(Rest()[0])
    {
      c := if position < |text| then Some(text[position]) else None;
    }

    method Next()
      requires Valid() && Rest() != []
      modifies this
      ensures Valid() && Rest() == old(Rest())[1..]
    {
      position := position + 1;
    }
  }

  datatype NumberRun = NumberRun(length: nat, value: nat)

  function SaturatingMul(a: nat, b: nat): nat {
    Min(a * b, LARGEST)
  }

  function SaturatingAdd(a: nat, b: nat): nat {
    Min(a + b, LARGEST)
  }

  lemma DecimalOfNext(s: string, n: nat)
    requires n < |s| && Digits(s[..n + 1])
    ensures Digits(s[..n]) && Decimal(s[..n + 1]) == Decimal(s[..n]) * 10 + (s[n] as int - '0' as int)
  {
    var t := s[..n + 1];
    assert t[..|t| - 1] == s[..n];
    assert forall i :: 0 <= i < n ==> s[..n][i] == t[i];
  }

  lemma NoDigits(s: string)
    ensures Digits(s[..0]) && Min(Decimal(s[..0]), LARGEST) == 0
  {
  }

  lemma SaturatingStep(a: nat, d: nat)
    ensures SaturatingAdd(SaturatingMul(Min(a, LARGEST), 10), d) == Min(a * 10 + d, LARGEST)
  {
  }

  /** Consumes exactly the digits that come first and reports how many there are and what they spell, cut off at the largest value. */
  method TakeNumberRun(chars: Chars) returns (run: NumberRun)
    requires chars.Valid()
    modifies chars
    ensures chars.Valid()
    ensures run.length == RunLength(old(chars.Rest()))
    ensures run.value == Min(Decimal(old(chars.Rest())[..run.length]), LARGEST)
    ensures chars.Rest() == old(chars.Rest())[run.length..]
  {
    hide RunLength, Decimal, Digits, SaturatingAdd, SaturatingMul, Min;
    ghost var s := chars.Rest();
    var length, value := 0, 0;
    NoDigits(s);
    var digit := chars.Peek();
    while digit.Some? && IsDigit(digit.value)
      invariant chars.Valid() && length <= RunLength(s) && chars.Rest() == s[length..]
      invariant digit == if chars.Rest() == [] then None else Some(chars.Rest()[0])
      invariant Digits(s[..length]) && value == Min(Decimal(s[..length]), LARGEST)
      decreases |chars.Rest()|
    {
      RunGoesOn(s, length);
      DecimalOfNext(s, length);
      SaturatingStep(Decimal(s[..length]), digit.value as int - '0' as int);
      length := length + 1;
      value := SaturatingAdd(SaturatingMul(value, 10), digit.value as int - '0' as int);
      chars.Next();
      digit := chars.Peek();
    }
    RunEnds(s, length);
    run := NumberRun(length, value);
  }

  lemma RunEnds(s: string, n: nat)
    requires n <= RunLength(s) && (n < |s| ==> !IsDigit(s[n]))
    ensures n == RunLength(s)
  {
    hide RunLength;
    var run := s[..RunLength(s)];
    assert forall i :: 0 <= i < |run| ==> IsDigit(run[i]) && run[i] == s[i];
  }

  lemma RunGoesOn(s: string, n: nat)
    requires n < |s| && n <= RunLength(s) && IsDigit(s[n])
    ensures n < RunLength(s) && Digits(s[..n + 1])
  {
    hide RunLength;
    PrefixOfDigits(s, n + 1, RunLength(s));
  }

  lemma PrefixOfDigits(s: string, m: nat, n: nat)
    requires m <= n <= |s| && Digits(s[..n])
    ensures Digits(s[..m])
  {
    forall i | 0 <= i < m ensures IsDigit(s[..m][i]) {
      assert s[..m][i] == s[..n][i];
    }
  }

  /** Consumes both runs whole and compares their lengths, then their values. */
  method CompareNumberRuns(left: Chars, right: Chars) returns (order: Ordering)
    requires left != right && left.Valid() && right.Valid()
    modifies left, right
    ensures left.Valid() && right.Valid()
    ensures var s, t := old(left.Rest()), old(right.Rest());
            && left.Rest() == s[RunLength(s)..] && right.Rest() == t[RunLength(t)..]
            && order == CompareToken(RunToken(s[..RunLength(s)]), RunToken(t[..RunLength(t)]))
  {
    var leftRun := TakeNumberRun(left);
    var rightRun := TakeNumberRun(right);
    order := Then(Compare(leftRun.length, rightRun.length), Compare(leftRun.value, rightRun.value));
  }

  lemma TokensOfRun(s: string)
    requires s != [] && IsDigit(s[0])
    ensures 0 < RunLength(s)
    ensures Tokens(s) == [RunToken(s[..RunLength(s)])] + Tokens(s[RunLength(s)..])
  {
  }

  lemma OrderOfRuns(s: string, t: string)
    requires s != [] && t != [] && IsDigit(s[0]) && IsDigit(t[0])
    ensures RunLength(s) > 0 && RunLength(t) > 0
    ensures Order(s, t) == Then(CompareToken(RunToken(s[..RunLength(s)]), RunToken(t[..RunLength(t)])),
                                Order(s[RunLength(s)..], t[RunLength(t)..]))
  {
    hide Tokens, CompareToken, RunToken;
    TokensOfRun(s);
    TokensOfRun(t);
  }

  /** Where a digit meets another character, the characters alone decide, since the digits are consecutive codes. */
  lemma OrderOfMixed(s: string, t: string)
    requires s != [] && t != [] && !(IsDigit(s[0]) && IsDigit(t[0]))
    ensures Order(s, t) == Then(Compare(Lower(s[0]) as int, Lower(t[0]) as int), Order(s[1..], t[1..]))
  {
    hide RunToken;
    assert Tokens(s)[0] == if IsDigit(s[0]) then RunToken(s[..RunLength(s)]) else Letter(Lower(s[0]));
    assert Tokens(t)[0] == if IsDigit(t[0]) then RunToken(t[..RunLength(t)]) else Letter(Lower(t[0]));
    RunTokenIsNumber(s[..RunLength(s)]);
    RunTokenIsNumber(t[..RunLength(t)]);
  }

  lemma RunTokenIsNumber(run: string)
    requires Digits(run)
    ensures RunToken(run).Number?
  {
  }

  lemma OrderAtEnd(s: string, t: string)
    requires s == [] || t == []
    ensures Order(s, t) == if s == [] && t == [] then Equal else if s == [] then Less else Greater
  {
  }

  /** The loop over two iterators computes the token order. */
  method NaturalCmp(left: string, right: string) returns (order: Ordering)
    ensures order == Order(left, right)
  {
    hide Order;
    var leftChars := new Chars(left);
    var rightChars := new Chars(right);
    while true
      invariant fresh(leftChars) && fresh(rightChars) && leftChars != rightChars
      invariant leftChars.Valid() && rightChars.Valid()
      invariant Order(left, right) == Order(leftChars.Rest(), rightChars.Rest())
      decreases |leftChars.Rest()|
    {
      ghost var s, t := leftChars.Rest(), rightChars.Rest();
      var l := leftChars.Peek();
      var r := rightChars.Peek();
      if l.None? || r.None? {
        OrderAtEnd(s, t);
        return if l.None? && r.None? then Equal else if l.None? then Less else Greater;
      }
      if IsDigit(l.value) && IsDigit(r.value) {
        OrderOfRuns(s, t);
        var runs := CompareNumberRuns(leftChars, rightChars);
        if runs != Equal {
          return runs;
        }
      } else {
        OrderOfMixed(s, t);
        var letters := Compare(Lower(l.value) as int, Lower(r.value) as int);
        if letters != Equal {
          return letters;
        }
        leftChars.Next();
        rightChars.Next();
      }
    }
  }

  // ---- Numeric order ----

  function Power10(n: nat): (p: nat)
    ensures p > 0
  {
    if n == 0 then 1 else 10 * Power10(n - 1)
  }

  lemma {:induction false} DecimalBelow(s: string)
    requires Digits(s)
    ensures Decimal(s) < Power10(|s|)
  {
    if s != [] {
      DecimalBelow(s[..|s| - 1]);
    }
  }

  predicate Zeros(s: string) {
    forall i :: 0 <= i < |s| ==> s[i] == '0'
  }

  /** Digits after a prefix: worth at least a power of ten more unless the prefix is all zeros, when they count alone. */
  lemma {:induction false} DecimalOfSplit(s: string, k: nat)
    requires Digits(s) && k <= |s|
    ensures Digits(s[k..]) && Digits(s[..k])
    ensures if Zeros(s[..k]) then Decimal(s) == Decimal(s[k..]) else Decimal(s) >= Power10(|s| - k)
    decreases |s|
  {
    if k < |s| {
      var t := s[..|s| - 1];
      DecimalOfSplit(t, k);
      assert t[..k] == s[..k] && s[k..][..|s| - k - 1] == t[k..];
    } else {
      assert s[..k] == s && s[k..] == [];
      ZerosIffNothing(s);
    }
  }

  lemma {:induction false} ZerosIffNothing(s: string)
    requires Digits(s)
    ensures Decimal(s) == 0 <==> Zeros(s)
  {
    if s != [] {
      var t := s[..|s| - 1];
      ZerosIffNothing(t);
      assert s == t + [s[|s| - 1]];
    }
  }

  function CompareRuns(x: string, y: string): Ordering
    requires Digits(x) && Digits(y)
  {
    CompareToken(RunToken(x), RunToken(y))
  }

  /**
   A longer run is put after a shorter one although it is worth no more exactly when its extra
   digits are leading zeros and the rest is worth no more.
   */
  predicate Padded(x: string, y: string)
    requires Digits(x) && Digits(y)
  {
    |x| > |y| && Zeros(x[..|x| - |y|]) && Decimal(x[|x| - |y|..]) <= Decimal(y)
  }

  predicate BothCutOff(x: string, y: string)
    requires Digits(x) && Digits(y)
  {
    |x| == |y| && Decimal(x) != Decimal(y) && Decimal(x) >= LARGEST && Decimal(y) >= LARGEST
  }

  lemma LongerRun(x: string, y: string)
    requires Digits(x) && Digits(y) && |x| > |y|
    ensures CompareRuns(x, y) == Greater && CompareRuns(y, x) == Less
    ensures Decimal(x) > Decimal(y) <==> !Padded(x, y)
  {
    DecimalOfSplit(x, |x| - |y|);
    DecimalBelow(y);
  }

  /** Runs compare as the numbers they spell, except for leading zeros and for two numbers that are both cut off. */
  lemma NumericOrderIff(x: string, y: string)
    requires Digits(x) && Digits(y)
    ensures CompareRuns(x, y) == Compare(Decimal(x), Decimal(y)) <==> !Padded(x, y) && !Padded(y, x) && !BothCutOff(x, y)
  {
    hide Decimal;
    if |x| > |y| {
      LongerRun(x, y);
    } else if |x| < |y| {
      LongerRun(y, x);
    }
  }

  function TwoTo(n: nat): (p: nat)
    ensures p > 0
  {
    if n == 0 then 1 else 2 * TwoTo(n - 1)
  }

  lemma {:induction false} TwoToSum(m: nat, n: nat)
    ensures TwoTo(m + n) == TwoTo(m) * TwoTo(n)
  {
    if m > 0 {
      TwoToSum(m - 1, n);
    }
  }

  lemma TwoTo32()
    ensures TwoTo(32) == 0x1_0000_0000
  {
    assert TwoTo(8) == 0x100;
    TwoToSum(8, 8);
    TwoToSum(16, 16);
  }

  lemma TwoTo128(p: nat)
    requires p == TwoTo(32)
    ensures TwoTo(128) == p * p * (p * p)
  {
    hide TwoTo;
    TwoToSum(32, 32);
    TwoToSum(64, 64);
  }

  lemma LargestIs()
    ensures LARGEST == TwoTo(128) - 1
  {
    hide TwoTo;
    TwoTo32();
    TwoTo128(0x1_0000_0000);
  }

  /** Runs of one length compare as the numbers they spell, except that from the last below the 128th power of two on all are alike. */
  lemma RunsOfOneLength(x: string, y: string)
    requires Digits(x) && Digits(y) && |x| == |y|
    ensures CompareRuns(x, y) == Less <==> Decimal(x) < Decimal(y) && Decimal(x) < TwoTo(128) - 1
    ensures CompareRuns(x, y) == Greater <==> Decimal(y) < Decimal(x) && Decimal(y) < TwoTo(128) - 1
  {
    hide Decimal, TwoTo;
    LargestIs();
  }

  // ---- Lists of numbers with dots between ----

  function Digit(d: nat): (c: char)
    requires d < 10
    ensures IsDigit(c) && c as int - '0' as int == d
  {
    '0' + d as char
  }

  function Print(n: nat): (s: string)
    ensures s != [] && Digits(s) && Decimal(s) == n
    ensures s[0] == '0' ==> |s| == 1
  {
    if n < 10 then
      assert [Digit(n)][..0] == [];
      [Digit(n)]
    else
      var s := Print(n / 10) + [Digit(n % 10)];
      assert s[..|s| - 1] == Print(n / 10);
      s
  }

  lemma PrintedCompare(m: nat, n: nat)
    requires m <= LARGEST && n <= LARGEST
    ensures CompareRuns(Print(m), Print(n)) == Compare(m, n)
  {
    hide *;
    var x, y := Print(m), Print(n);
    NotPadded(x, y);
    NotPadded(y, x);
    NotCutOff(x, y);
    NumericOrderIff(x, y);
  }

  lemma NotPadded(x: string, y: string)
    requires x != [] && y != [] && Digits(x) && Digits(y) && (x[0] == '0' ==> |x| == 1)
    ensures !Padded(x, y)
  {
    if |x| > |y| {
      assert x[..|x| - |y|][0] != '0';
    }
  }

  lemma NotCutOff(x: string, y: string)
    requires Digits(x) && Digits(y) && Decimal(x) <= LARGEST && Decimal(y) <= LARGEST
    ensures !BothCutOff(x, y)
  {
  }

  function Dotted(numbers: seq<nat>): string {
    if numbers == [] then []
    else if |numbers| == 1 then Print(numbers[0])
    else Print(numbers[0]) + "." + Dotted(numbers[1..])
  }

  predicate Bounded(numbers: seq<nat>) {
    forall i :: 0 <= i < |numbers| ==> numbers[i] <= LARGEST
  }

  function CompareLists(xs: seq<nat>, ys: seq<nat>): Ordering {
    if xs == [] && ys == [] then Equal
    else if xs == [] then Less
    else if ys == [] then Greater
    else Then(Compare(xs[0], ys[0]), CompareLists(xs[1..], ys[1..]))
  }

  function DottedTokens(numbers: seq<nat>): seq<Token> {
    if numbers == [] then []
    else if |numbers| == 1 then [RunToken(Print(numbers[0]))]
    else [RunToken(Print(numbers[0])), Letter('.')] + DottedTokens(numbers[1..])
  }

  lemma {:induction false} RunLengthOf(run: string, rest: string)
    requires Digits(run) && (rest == [] || !IsDigit(rest[0]))
    ensures RunLength(run + rest) == |run|
  {
    if run != [] {
      assert (run + rest)[1..] == run[1..] + rest;
      RunLengthOf(run[1..], rest);
    } else {
      assert run + rest == rest;
    }
  }

  lemma SlicesOfSum(a: string, b: string)
    ensures (a + b)[..|a|] == a && (a + b)[|a|..] == b
  {
  }

  lemma TokensOfDot(rest: string)
    ensures Tokens("." + rest) == [Letter('.')] + Tokens(rest)
  {
    assert ("." + rest)[1..] == rest;
  }

  lemma TokensOfRunAndMore(run: string, more: string)
    requires run != [] && Digits(run) && (more == [] || !IsDigit(more[0]))
    ensures Tokens(run + more) == [RunToken(run)] + Tokens(more)
  {
    hide RunToken, RunLength, Tokens;
    RunLengthOf(run, more);
    SlicesOfSum(run, more);
    assert IsDigit((run + more)[0]);
    TokensOfRun(run + more);
  }

  lemma TokensOfDotted(run: string, rest: string)
    requires run != [] && Digits(run)
    ensures Tokens(run) == [RunToken(run)]
    ensures Tokens(run + "." + rest) == [RunToken(run), Letter('.')] + Tokens(rest)
  {
    hide RunToken, Tokens;
    TokensOfNothing();
    TokensOfRunAndMore(run, []);
    assert run + [] == run && [RunToken(run)] + [] == [RunToken(run)];
    TokensOfRunAndMore(run, "." + rest);
    assert run + "." + rest == run + ("." + rest);
    TokensOfDot(rest);
  }

  lemma {:induction false} TokensOfList(numbers: seq<nat>)
    ensures Tokens(Dotted(numbers)) == DottedTokens(numbers)
  {
    hide Tokens, RunToken, Print;
    if numbers == [] {
      TokensOfNothing();
    } else {
      TokensOfDotted(Print(numbers[0]), Dotted(numbers[1..]));
      TokensOfList(numbers[1..]);
    }
  }

  lemma TokensOfNothing()
    ensures Tokens([]) == []
  {
  }

  lemma DotEqual()
    ensures CompareToken(Letter('.'), Letter('.')) == Equal
  {
  }

  lemma {:induction false} DottedTokensCompare(xs: seq<nat>, ys: seq<nat>)
    requires Bounded(xs) && Bounded(ys)
    ensures CompareTokens(DottedTokens(xs), DottedTokens(ys)) == CompareLists(xs, ys)
  {
    hide CompareToken, RunToken, Print;
    if xs != [] && ys != [] {
      PrintedCompare(xs[0], ys[0]);
      DottedTokensCompare(xs[1..], ys[1..]);
      DotEqual();
    }
  }

  /** Lists of numbers up to the largest, printed in decimal with dots between, compare as the lists do. */
  lemma DottedOrder(xs: seq<nat>, ys: seq<nat>)
    requires Bounded(xs) && Bounded(ys)
    ensures Order(Dotted(xs), Dotted(ys)) == CompareLists(xs, ys)
  {
    TokensOfList(xs);
    TokensOfList(ys);
    DottedTokensCompare(xs, ys);
  }
}
