/**
 The startup request that main/src/windows_single_instance.rs sends to the running instance: a
 length-prefixed list of paths, in the form of Windows, where a path is a list of 16-bit units.
 */
module SingleInstance {
  import opened Results

  const MAX_PATH_COUNT: nat := 256
  const MAX_PATH_BYTES: nat := 32 * 1024
  const MAX_PAYLOAD_BYTES: nat := 4 * 1024 * 1024

  type Byte = x: int | 0 <= x < 0x100
  type Unit = x: int | 0 <= x < 0x1_0000
  type U32 = x: int | 0 <= x < 0x1_0000_0000

  type Path = seq<Unit>

  datatype Error =
    | TooManyPaths
    | PathTooLong
    | RequestTooLarge
    | TruncatedRequest
    | TruncatedPath
    | TruncatedUnit
    | TrailingData

  // ---- Numbers and paths as bytes ----

  function ToBytes(n: U32): (bytes: seq<Byte>)
    ensures |bytes| == 4
  {
    var high := n / 0x100;
    var higher := high / 0x100;
    [n % 0x100, high % 0x100, higher % 0x100, higher / 0x100]
  }

  function Pair(low: nat, high: nat): nat {
    low + 0x100 * high
  }

  function FromBytes(bytes: seq<Byte>): U32
    requires |bytes| == 4
  {
    Pair(bytes[0], bytes[1]) + 0x1_0000 * Pair(bytes[2], bytes[3])
  }

  lemma BytesOfNumber(n: U32)
    ensures FromBytes(ToBytes(n)) == n
  {
    var high := n / 0x100;
    var higher := high / 0x100;
    assert n == Pair(n % 0x100, high) && high == Pair(high % 0x100, higher);
    assert higher == Pair(higher % 0x100, higher / 0x100);
  }

  lemma PairParts(low: Byte, high: nat)
    ensures Pair(low, high) % 0x100 == low && Pair(low, high) / 0x100 == high
  {
  }

  lemma NumberOfBytes(bytes: seq<Byte>)
    requires |bytes| == 4
    ensures ToBytes(FromBytes(bytes)) == bytes
  {
    hide Pair;
    var upper := Pair(bytes[2], bytes[3]);
    var high := Pair(bytes[1], upper);
    PairOfPairs(bytes[0], bytes[1], upper);
    PairParts(bytes[2], bytes[3]);
    PairParts(bytes[1], upper);
    PairParts(bytes[0], high);
  }

  lemma PairOfPairs(low: Byte, middle: Byte, high: nat)
    ensures Pair(low, Pair(middle, high)) == Pair(low, middle) + 0x1_0000 * high
  {
  }

  function EncodePath(path: Path): (bytes: seq<Byte>)
    ensures |bytes| == 2 * |path|
  {
    if path == [] then [] else [path[0] % 0x100, path[0] / 0x100] + EncodePath(path[1..])
  }

  function Units(bytes: seq<Byte>): (path: Path)
    requires |bytes| % 2 == 0
    ensures 2 * |path| == |bytes|
  {
    if bytes == [] then [] else [Pair(bytes[0], bytes[1])] + Units(bytes[2..])
  }

  function DecodePath(bytes: seq<Byte>): Result<Path, Error> {
    if |bytes| % 2 != 0 then Err(TruncatedUnit) else Ok(Units(bytes))
  }

  lemma {:induction false} UnitsOfEncoded(path: Path)
    ensures Units(EncodePath(path)) == path
  {
    if path != [] {
      UnitsOfEncoded(path[1..]);
      assert EncodePath(path)[2..] == EncodePath(path[1..]);
    }
  }

  lemma {:induction false} EncodedOfUnits(bytes: seq<Byte>)
    requires |bytes| % 2 == 0
    ensures EncodePath(Units(bytes)) == bytes
  {
    if bytes != [] {
      EncodedOfUnits(bytes[2..]);
      assert Units(bytes)[1..] == Units(bytes[2..]);
      assert bytes == bytes[..2] + bytes[2..];
    }
  }

  /** Paths and their bytes correspond one to one. */
  lemma PathBijection(path: Path, bytes: seq<Byte>)
    ensures DecodePath(bytes) == Ok(path) <==> EncodePath(path) == bytes
  {
    if |bytes| % 2 == 0 {
      EncodedOfUnits(bytes);
    }
    UnitsOfEncoded(path);
  }

  // ---- The wire form, without limits ----

  function Frame(path: Path): seq<Byte>
    requires 2 * |path| <= MAX_PATH_BYTES
  {
    ToBytes(2 * |path|) + EncodePath(path)
  }

  predicate AllShort(paths: seq<Path>) {
    forall i :: 0 <= i < |paths| ==> 2 * |paths[i]| <= MAX_PATH_BYTES
  }

  function Frames(paths: seq<Path>): seq<Byte>
    requires AllShort(paths)
  {
    if paths == [] then [] else Frame(paths[0]) + Frames(paths[1..])
  }

  function Wire(paths: seq<Path>): seq<Byte>
    requires |paths| <= MAX_PATH_COUNT && AllShort(paths)
  {
    ToBytes(|paths|) + Frames(paths)
  }

  // ---- Encoding ----

  /** Appends the paths one by one, checking each length before and the total after. */
  function AppendPaths(payload: seq<Byte>, paths: seq<Path>): Result<seq<Byte>, Error>
    decreases |paths|
  {
    if paths == [] then Ok(payload)
    else if 2 * |paths[0]| > MAX_PATH_BYTES then Err(PathTooLong)
    else if |payload + Frame(paths[0])| > MAX_PAYLOAD_BYTES then Err(RequestTooLarge)
    else AppendPaths(payload + Frame(paths[0]), paths[1..])
  }

  function Encode(paths: seq<Path>): Result<seq<Byte>, Error> {
    if |paths| > MAX_PATH_COUNT then Err(TooManyPaths) else AppendPaths(ToBytes(|paths|), paths)
  }

  predicate Encodable(paths: seq<Path>) {
    |paths| <= MAX_PATH_COUNT && AllShort(paths) && |Wire(paths)| <= MAX_PAYLOAD_BYTES
  }

  lemma {:induction false} AppendPathsIff(payload: seq<Byte>, paths: seq<Path>)
    requires |payload| <= MAX_PAYLOAD_BYTES
    ensures AppendPaths(payload, paths).Ok? <==> AllShort(paths) && |payload + Frames(paths)| <= MAX_PAYLOAD_BYTES
    ensures AppendPaths(payload, paths).Ok? ==> AppendPaths(payload, paths).value == payload + Frames(paths)
    decreases |paths|
  {
    hide Frame, EncodePath;
    if paths != [] && 2 * |paths[0]| <= MAX_PATH_BYTES {
      var next := payload + Frame(paths[0]);
      AllShortCons(paths);
      if |next| <= MAX_PAYLOAD_BYTES {
        AppendPathsIff(next, paths[1..]);
      }
      if AllShort(paths) {
        assert next + Frames(paths[1..]) == payload + Frames(paths);
      }
    }
  }

  lemma AllShortCons(paths: seq<Path>)
    requires paths != []
    ensures AllShort(paths) <==> 2 * |paths[0]| <= MAX_PATH_BYTES && AllShort(paths[1..])
  {
    assert paths == [paths[0]] + paths[1..];
  }

  /** A request is encoded exactly when its count, its paths and its total are within their limits. */
  lemma EncodeIff(paths: seq<Path>)
    ensures Encode(paths).Ok? <==> Encodable(paths)
    ensures Encode(paths).Ok? ==> Encode(paths).value == Wire(paths)
  {
    if |paths| <= MAX_PATH_COUNT {
      AppendPathsIff(ToBytes(|paths|), paths);
    }
  }

  /** The error names the first limit that is passed: the count, or else whatever the first offending path passes. */
  lemma {:induction false} EncodeError(paths: seq<Path>, i: nat)
    requires i < |paths| <= MAX_PATH_COUNT
    requires AllShort(paths[..i]) && 4 + |Frames(paths[..i])| <= MAX_PAYLOAD_BYTES
    ensures 2 * |paths[i]| > MAX_PATH_BYTES ==> Encode(paths) == Err(PathTooLong)
    ensures 2 * |paths[i]| <= MAX_PATH_BYTES && 4 + |Frames(paths[..i])| + 4 + 2 * |paths[i]| > MAX_PAYLOAD_BYTES ==>
      Encode(paths) == Err(RequestTooLarge)
  {
    hide Encode, AppendPaths, ToBytes, Frames, AllShort;
    EncodeStarts(paths);
    AppendPathsSkips(ToBytes(|paths|), paths, i);
    AppendPathsStep(ToBytes(|paths|) + Frames(paths[..i]), paths[i..]);
  }

  lemma EncodeStarts(paths: seq<Path>)
    requires |paths| <= MAX_PATH_COUNT
    ensures Encode(paths) == AppendPaths(ToBytes(|paths|), paths)
  {
  }

  lemma AppendPathsStep(payload: seq<Byte>, paths: seq<Path>)
    requires paths != []
    ensures 2 * |paths[0]| > MAX_PATH_BYTES ==> AppendPaths(payload, paths) == Err(PathTooLong)
    ensures 2 * |paths[0]| <= MAX_PATH_BYTES ==>
      if |payload| + 4 + 2 * |paths[0]| > MAX_PAYLOAD_BYTES then AppendPaths(payload, paths) == Err(RequestTooLarge)
      else AppendPaths(payload, paths) == AppendPaths(payload + Frame(paths[0]), paths[1..])
  {
  }

  lemma {:induction false} AppendPathsSkips(payload: seq<Byte>, paths: seq<Path>, i: nat)
    requires i <= |paths| && AllShort(paths[..i]) && |payload| + |Frames(paths[..i])| <= MAX_PAYLOAD_BYTES
    ensures AppendPaths(payload, paths) == AppendPaths(payload + Frames(paths[..i]), paths[i..])
    decreases i
  {
    hide AppendPaths, Frame;
    if i == 0 {
      assert payload + Frames(paths[..0]) == payload && paths[0..] == paths;
    } else {
      AppendPathsStep(payload, paths);
      FrameLength(paths[0]);
      var next := payload + Frame(paths[0]);
      assert paths[..i][1..] == paths[1..][..i - 1];
      AllShortCons(paths[..i]);
      assert payload + Frames(paths[..i]) == next + Frames(paths[1..][..i - 1]);
      AppendPathsSkips(next, paths[1..], i - 1);
      assert paths[1..][i - 1..] == paths[i..];
    }
  }

  lemma FrameLength(path: Path)
    requires 2 * |path| <= MAX_PATH_BYTES
    ensures |Frame(path)| == 4 + 2 * |path|
  {
  }

  // ---- Decoding ----

  datatype Read<T> = Read(value: T, rest: seq<Byte>)

  function TakeU32(s: seq<Byte>): Result<Read<U32>, Error> {
    if |s| < 4 then Err(TruncatedRequest) else Ok(Read(FromBytes(s[..4]), s[4..]))
  }

  function TakePath(s: seq<Byte>): (r: Result<Read<Path>, Error>)
    ensures r.Ok? ==> |r.value.rest| < |s|
  {
    var length :- TakeU32(s);
    if length.value > MAX_PATH_BYTES then Err(PathTooLong)
    else if length.value > |length.rest| then Err(TruncatedPath)
    else
      var path :- DecodePath(length.rest[..length.value]);
      Ok(Read(path, length.rest[length.value..]))
  }

  function TakePaths(s: seq<Byte>, count: nat): Result<seq<Path>, Error>
    decreases count
  {
    if count == 0 then (if s == [] then Ok([]) else Err(TrailingData))
    else
      var first :- TakePath(s);
      var others :- TakePaths(first.rest, count - 1);
      Ok([first.value] + others)
  }

  function Decode(payload: seq<Byte>): Result<seq<Path>, Error> {
    if |payload| > MAX_PAYLOAD_BYTES then Err(RequestTooLarge)
    else
      var count :- TakeU32(payload);
      if count.value > MAX_PATH_COUNT then Err(TooManyPaths) else TakePaths(count.rest, count.value)
  }

  lemma TakenStandsThere(s: seq<Byte>)
    requires TakePath(s).Ok?
    ensures var path := TakePath(s).value.value;
            2 * |path| <= MAX_PATH_BYTES && s == Frame(path) + TakePath(s).value.rest
  {
    hide EncodePath, Units, ToBytes, FromBytes;
    var length := FromBytes(s[..4]);
    NumberOfBytes(s[..4]);
    PathBijection(TakePath(s).value.value, s[4..][..length]);
    assert s == s[..4] + (s[4..][..length] + s[4..][length..]);
  }

  lemma FrameIsTaken(path: Path, rest: seq<Byte>)
    requires 2 * |path| <= MAX_PATH_BYTES
    ensures TakePath(Frame(path) + rest) == Ok(Read(path, rest))
  {
    hide EncodePath, Units, ToBytes, FromBytes;
    var s := Frame(path) + rest;
    BytesOfNumber(2 * |path|);
    assert s[..4] == ToBytes(2 * |path|) && s[4..] == EncodePath(path) + rest;
    assert s[4..][..2 * |path|] == EncodePath(path) && s[4..][2 * |path|..] == rest;
    PathBijection(path, EncodePath(path));
  }

  /** A path is read from the front exactly when its frame stands there. */
  lemma TakePathIff(s: seq<Byte>, path: Path, rest: seq<Byte>)
    ensures TakePath(s) == Ok(Read(path, rest)) <==> 2 * |path| <= MAX_PATH_BYTES && s == Frame(path) + rest
  {
    hide TakePath, Frame;
    if TakePath(s).Ok? {
      TakenStandsThere(s);
    }
    if 2 * |path| <= MAX_PATH_BYTES {
      FrameIsTaken(path, rest);
    }
  }

  lemma TakePathsStep(s: seq<Byte>, count: nat)
    requires count > 0
    ensures TakePath(s).Err? ==> TakePaths(s, count) == Err(TakePath(s).error)
    ensures TakePath(s).Ok? ==>
      var others := TakePaths(TakePath(s).value.rest, count - 1);
      && (others.Err? ==> TakePaths(s, count) == others)
      && (others.Ok? ==> TakePaths(s, count) == Ok([TakePath(s).value.value] + others.value))
  {
    hide TakePath;
  }

  lemma {:induction false} TakePathsIff(s: seq<Byte>, paths: seq<Path>)
    ensures TakePaths(s, |paths|) == Ok(paths) <==> AllShort(paths) && s == Frames(paths)
    decreases |paths|
  {
    hide TakePath, TakePaths, Frame;
    if paths == [] {
      TakeNoPaths(s);
    } else {
      TakePathsStep(s, |paths|);
      AllShortCons(paths);
      assert paths == [paths[0]] + paths[1..];
      if TakePath(s).Ok? {
        var first := TakePath(s).value;
        TakePathIff(s, first.value, first.rest);
        TakePathsIff(first.rest, paths[1..]);
        TakenIsFirst(s, first, paths);
      }
      if AllShort(paths) {
        TakePathIff(s, paths[0], Frames(paths[1..]));
      }
    }
  }

  lemma TakeNoPaths(s: seq<Byte>)
    ensures TakePaths(s, 0) == if s == [] then Ok([]) else Err(TrailingData)
  {
  }

  lemma TakenIsFirst(s: seq<Byte>, first: Read<Path>, paths: seq<Path>)
    requires TakePath(s) == Ok(first) && paths != []
    ensures TakePaths(s, |paths|) == Ok(paths) <==>
      first.value == paths[0] && TakePaths(first.rest, |paths| - 1) == Ok(paths[1..])
  {
    hide TakePath, TakePaths;
    TakePathsStep(s, |paths|);
    var others := TakePaths(first.rest, |paths| - 1);
    assert paths == [paths[0]] + paths[1..];
    if others.Ok? {
      var all := [first.value] + others.value;
      assert all[0] == first.value && all[1..] == others.value;
    }
  }

  lemma {:induction false} TakePathsCount(s: seq<Byte>, count: nat)
    requires TakePaths(s, count).Ok?
    ensures |TakePaths(s, count).value| == count
    decreases count
  {
    hide TakePath;
    if count > 0 {
      TakePathsCount(TakePath(s).value.rest, count - 1);
    }
  }

  lemma DecodeIff(payload: seq<Byte>, paths: seq<Path>)
    ensures Decode(payload) == Ok(paths) <==> Encodable(paths) && payload == Wire(paths)
  {
    hide TakePaths, Frames, ToBytes, FromBytes;
    if |payload| >= 4 {
      NumberOfBytes(payload[..4]);
      if TakePaths(payload[4..], FromBytes(payload[..4])).Ok? {
        TakePathsCount(payload[4..], FromBytes(payload[..4]));
      }
      TakePathsIff(payload[4..], paths);
      assert payload == payload[..4] + payload[4..];
    }
    if Encodable(paths) && payload == Wire(paths) {
      BytesOfNumber(|paths|);
      assert payload[..4] == ToBytes(|paths|) && payload[4..] == Frames(paths);
    }
  }

  /** A payload is accepted as a request exactly when the request is encoded as that payload. */
  lemma Bijection(payload: seq<Byte>, paths: seq<Path>)
    ensures Decode(payload) == Ok(paths) <==> Encode(paths) == Ok(payload)
  {
    hide *;
    DecodeIff(payload, paths);
    EncodeIff(paths);
  }

  // ---- The loops ----

  /** Four bytes more, which read as the value, behind an unchanged buffer. */
  method AppendU32(buffer: seq<Byte>, value: U32) returns (r: seq<Byte>)
    ensures |r| == |buffer| + 4 && r[..|buffer|] == buffer
    ensures FromBytes(r[|buffer|..]) == value
    ensures r == buffer + ToBytes(value)
  {
    BytesOfNumber(value);
    r := buffer + ToBytes(value);
  }

  method EncodeRequest(paths: seq<Path>) returns (r: Result<seq<Byte>, Error>)
    ensures r == Encode(paths)
  {
    hide AppendPaths, ToBytes, FromBytes, EncodePath;
    if |paths| > MAX_PATH_COUNT {
      return Err(TooManyPaths);
    }
    var payload := AppendU32([], |paths|);
    assert payload == ToBytes(|paths|);
    for i := 0 to |paths|
      invariant Encode(paths) == AppendPaths(payload, paths[i..])
    {
      AppendPathsStep(payload, paths[i..]);
      assert paths[i..][1..] == paths[i + 1..];
      var bytes := EncodePath(paths[i]);
      if |bytes| > MAX_PATH_BYTES {
        return Err(PathTooLong);
      }
      var framed := AppendU32(payload, |bytes|);
      framed := framed + bytes;
      assert framed == payload + Frame(paths[i]);
      payload := framed;
      if |payload| > MAX_PAYLOAD_BYTES {
        return Err(RequestTooLarge);
      }
    }
    AppendNothing(payload, paths[|paths|..]);
    return Ok(payload);
  }

  lemma AppendNothing(payload: seq<Byte>, paths: seq<Path>)
    requires paths == []
    ensures AppendPaths(payload, paths) == Ok(payload)
  {
  }

  /** Moves the cursor on only when there are four bytes to read. */
  method ReadU32(payload: seq<Byte>, cursor: nat) returns (value: Result<U32, Error>, next: nat)
    requires cursor <= |payload|
    ensures cursor <= next <= |payload|
    ensures match TakeU32(payload[cursor..])
            case Err(error) => value == Err(error) && next == cursor
            case Ok(read) => value == Ok(read.value) && payload[next..] == read.rest
  {
    var end := cursor + 4;
    if end > |payload| {
      return Err(TruncatedRequest), cursor;
    }
    assert payload[cursor..][..4] == payload[cursor..end];
    return Ok(FromBytes(payload[cursor..end])), end;
  }

  function WithBefore(paths: seq<Path>, r: Result<seq<Path>, Error>): Result<seq<Path>, Error> {
    if r.Ok? then Ok(paths + r.value) else r
  }

  lemma TakePathsAfter(paths: seq<Path>, s: seq<Byte>, count: nat)
    requires count > 0
    ensures match TakePath(s)
            case Err(error) => WithBefore(paths, TakePaths(s, count)) == Err(error)
            case Ok(read) =>
              WithBefore(paths, TakePaths(s, count)) == WithBefore(paths + [read.value], TakePaths(read.rest, count - 1))
  {
    hide TakePath, TakePaths;
    TakePathsStep(s, count);
    if TakePath(s).Ok? && TakePaths(TakePath(s).value.rest, count - 1).Ok? {
      var others := TakePaths(TakePath(s).value.rest, count - 1).value;
      assert paths + ([TakePath(s).value.value] + others) == paths + [TakePath(s).value.value] + others;
    }
  }

  method DecodeRequest(payload: seq<Byte>) returns (r: Result<seq<Path>, Error>)
    ensures r == Decode(payload)
  {
    hide TakePaths, FromBytes, Units;
    if |payload| > MAX_PAYLOAD_BYTES {
      return Err(RequestTooLarge);
    }
    assert payload[0..] == payload;
    var count, cursor := ReadU32(payload, 0);
    if count.Err? {
      return Err(count.error);
    }
    if count.value > MAX_PATH_COUNT {
      return Err(TooManyPaths);
    }
    var paths: seq<Path> := [];
    BeforeNothing(TakePaths(payload[cursor..], count.value));
    for i := 0 to count.value
      invariant cursor <= |payload|
      invariant Decode(payload) == WithBefore(paths, TakePaths(payload[cursor..], count.value - i))
    {
      TakePathsAfter(paths, payload[cursor..], count.value - i);
      var length, start := ReadU32(payload, cursor);
      if length.Err? {
        return Err(length.error);
      }
      if length.value > MAX_PATH_BYTES {
        return Err(PathTooLong);
      }
      var end := start + length.value;
      if end > |payload| {
        return Err(TruncatedPath);
      }
      assert payload[start..][..length.value] == payload[start..end];
      assert payload[start..][length.value..] == payload[end..];
      var path := DecodePath(payload[start..end]);
      if path.Err? {
        return Err(path.error);
      }
      paths := paths + [path.value];
      cursor := end;
    }
    TakeNoPaths(payload[cursor..]);
    if cursor != |payload| {
      return Err(TrailingData);
    }
    assert paths + [] == paths;
    return Ok(paths);
  }

  lemma BeforeNothing(r: Result<seq<Path>, Error>)
    ensures WithBefore([], r) == r
  {
    if r.Ok? {
      assert [] + r.value == r.value;
    }
  }

  // ---- The limits and the layout in figures ----

  /** The bytes that paths take, each behind its length. */
  function TotalBytes(paths: seq<Path>): nat {
    if paths == [] then 0 else 4 + 2 * |paths[0]| + TotalBytes(paths[1..])
  }

  lemma {:induction false} FramesTake(paths: seq<Path>)
    requires AllShort(paths)
    ensures |Frames(paths)| == TotalBytes(paths)
  {
    hide EncodePath, Frame;
    if paths != [] {
      AllShortCons(paths);
      FrameLength(paths[0]);
      FramesTake(paths[1..]);
    }
  }

  /** At most 256 paths, each of at most 16384 units, and at most 4194304 bytes in all. */
  lemma LimitsAre(paths: seq<Path>)
    ensures Encode(paths).Ok? <==>
      |paths| <= 256 && (forall i :: 0 <= i < |paths| ==> |paths[i]| <= 16384) && 4 + TotalBytes(paths) <= 4194304
    ensures |paths| > 256 ==> Encode(paths) == Err(TooManyPaths)
    ensures Encode(paths).Ok? ==> |Encode(paths).value| == 4 + TotalBytes(paths)
  {
    hide Encode, Frames, TotalBytes;
    EncodeIff(paths);
    EncodeTooMany(paths);
    if AllShort(paths) {
      FramesTake(paths);
    }
  }

  lemma EncodeTooMany(paths: seq<Path>)
    ensures |paths| > MAX_PATH_COUNT ==> Encode(paths) == Err(TooManyPaths)
  {
  }

  function Weighed(b0: nat, b1: nat, b2: nat, b3: nat): nat {
    b0 + 0x100 * b1 + 0x1_0000 * b2 + 0x100_0000 * b3
  }

  /** Numbers are written with their lowest byte first. */
  lemma LowestByteFirst(n: U32)
    ensures var b := ToBytes(n); Weighed(b[0], b[1], b[2], b[3]) == n
  {
    var high := n / 0x100;
    var higher := high / 0x100;
    assert n == n % 0x100 + 0x100 * high && high == high % 0x100 + 0x100 * higher;
    assert higher == higher % 0x100 + 0x100 * (higher / 0x100);
  }

  /** A unit is written with its lower byte first, at twice its place. */
  lemma {:induction false} UnitsInPlace(path: Path, i: nat)
    requires i < |path|
    ensures Weighed(EncodePath(path)[2 * i], EncodePath(path)[2 * i + 1], 0, 0) == path[i]
  {
    if i > 0 {
      UnitsInPlace(path[1..], i - 1);
      assert EncodePath(path)[2..] == EncodePath(path[1..]);
    }
  }

  // ---- The first flaw of a payload ----

  lemma {:induction false} TakePathsSkips(paths: seq<Path>, rest: seq<Byte>, count: nat)
    requires AllShort(paths) && |paths| <= count && TakePaths(rest, count - |paths|).Err?
    ensures TakePaths(Frames(paths) + rest, count) == TakePaths(rest, count - |paths|)
    decreases |paths|
  {
    hide TakePath, TakePaths, Frame;
    if paths == [] {
      assert Frames(paths) + rest == rest;
    } else {
      AllShortCons(paths);
      var s := Frames(paths) + rest;
      assert s == Frame(paths[0]) + (Frames(paths[1..]) + rest);
      TakePathIff(s, paths[0], Frames(paths[1..]) + rest);
      TakePathsStep(s, count);
      TakePathsSkips(paths[1..], rest, count - 1);
    }
  }

  /** A length that stands at the front of what is left. */
  lemma LengthDecides(rest: seq<Byte>, count: nat)
    requires count > 0
    ensures |rest| < 4 ==> TakePaths(rest, count) == Err(TruncatedRequest)
    ensures |rest| >= 4 ==>
      var length := FromBytes(rest[..4]);
      && (length > 32768 ==> TakePaths(rest, count) == Err(PathTooLong))
      && (length <= 32768 && length > |rest| - 4 ==> TakePaths(rest, count) == Err(TruncatedPath))
      && (length <= 32768 && length <= |rest| - 4 && length % 2 != 0 ==> TakePaths(rest, count) == Err(TruncatedUnit))
  {
    hide FromBytes, Units;
    TakePathsStep(rest, count);
  }

  /**
   Behind the count and the paths that are in order, what is left decides the error: nothing may be
   left when all paths have been read, and otherwise a length must stand there that fits.
   */
  lemma FirstFlawDecides(count: U32, paths: seq<Path>, rest: seq<Byte>)
    requires |paths| <= count <= 256 && AllShort(paths)
    requires |ToBytes(count) + (Frames(paths) + rest)| <= 4194304
    ensures var r := Decode(ToBytes(count) + (Frames(paths) + rest));
            if |paths| == count then (if rest == [] then r == Ok(paths) else r == Err(TrailingData))
            else if |rest| < 4 then r == Err(TruncatedRequest)
            else
              var length := FromBytes(rest[..4]);
              && (length > 32768 ==> r == Err(PathTooLong))
              && (length <= 32768 && length > |rest| - 4 ==> r == Err(TruncatedPath))
              && (length <= 32768 && length <= |rest| - 4 && length % 2 != 0 ==> r == Err(TruncatedUnit))
  {
    hide TakePaths, TakePath, Frames, ToBytes, FromBytes, AllShort;
    var payload := ToBytes(count) + (Frames(paths) + rest);
    BytesOfNumber(count);
    assert payload[..4] == ToBytes(count) && payload[4..] == Frames(paths) + rest;
    assert Decode(payload) == TakePaths(Frames(paths) + rest, count);
    if |paths| == count {
      TakeNoPaths(rest);
      if rest == [] {
        assert Frames(paths) + rest == Frames(paths);
        TakePathsIff(Frames(paths), paths);
      } else {
        TakePathsSkips(paths, rest, count);
      }
    } else {
      LengthDecides(rest, count - |paths|);
      if TakePaths(rest, count - |paths|).Err? {
        TakePathsSkips(paths, rest, count);
      }
    }
  }

  /** Before any path is read: the size, then the count. */
  lemma PayloadIsChecked(payload: seq<Byte>)
    ensures |payload| > 4194304 ==> Decode(payload) == Err(RequestTooLarge)
    ensures |payload| < 4 ==> Decode(payload) == Err(TruncatedRequest)
    ensures 4 <= |payload| <= 4194304 && FromBytes(payload[..4]) > 256 ==> Decode(payload) == Err(TooManyPaths)
  {
    hide TakePaths, FromBytes;
  }
}
