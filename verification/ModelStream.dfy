/**
 The stream of model events that crates/ai_chat_view/src/bridge.rs unfolds from the chunks of a
 provider, with the merging of tool calls in crates/ai_chat_view/src/bridge/stream_tools.rs.
 */
module ModelStream {
  import opened Results

  datatype ToolCall = ToolCall(index: Option<nat>, id: string, callType: string, name: string, arguments: string)

  /** How the provider's library joins a fragment of arguments to a call. */
  type MergeDelta = (ToolCall, ToolCall) -> ToolCall

  datatype Chunk = Chunk(reasoning: Option<string>, content: Option<string>, toolCalls: Option<seq<ToolCall>>)

  datatype Response = Response(text: Option<string>, toolCalls: seq<ToolCall>)

  datatype Event = ReasoningDelta(text: string) | TextDelta(text: string) | Completed(response: Response)

  type Incoming = Result<Chunk, string>
  type Outgoing = Result<Event, string>

  // ---- Tool calls ----

  /** Two pieces belong to one call: by index when both have one, otherwise by a non-empty id. */
  predicate SameCall(a: ToolCall, b: ToolCall) {
    if a.index.Some? && b.index.Some? then a.index == b.index else a.id != "" && a.id == b.id
  }

  predicate IsArgumentDelta(call: ToolCall) {
    call.id == "" && call.callType == "" && call.name == ""
  }

  function MergeInto(merge: MergeDelta, existing: ToolCall, call: ToolCall): ToolCall {
    if !IsArgumentDelta(call) then call
    else merge(if existing.arguments == "{}" then existing.(arguments := "") else existing, call)
  }

  /** The first call that the piece belongs to takes it; a piece that belongs to none is a new call. */
  function MergeCall(merge: MergeDelta, calls: seq<ToolCall>, call: ToolCall): seq<ToolCall> {
    if calls == [] then [call]
    else if SameCall(calls[0], call) then [MergeInto(merge, calls[0], call)] + calls[1..]
    else [calls[0]] + MergeCall(merge, calls[1..], call)
  }

  function MergeCalls(merge: MergeDelta, calls: seq<ToolCall>, pieces: seq<ToolCall>): seq<ToolCall>
    decreases |pieces|
  {
    if pieces == [] then calls else MergeCalls(merge, MergeCall(merge, calls, pieces[0]), pieces[1..])
  }

  function MergeChunk(merge: MergeDelta, calls: seq<ToolCall>, chunk: Chunk): seq<ToolCall> {
    if chunk.toolCalls.Some? then MergeCalls(merge, calls, chunk.toolCalls.value) else calls
  }

  /** Where a piece goes: either it is appended and no call took it, or one call changes, the first that it belongs to. */
  lemma {:induction false} MergeCallAt(merge: MergeDelta, calls: seq<ToolCall>, call: ToolCall, i: nat)
    requires i <= |calls| && (i < |calls| ==> SameCall(calls[i], call))
    requires forall j :: 0 <= j < i ==> !SameCall(calls[j], call)
    ensures MergeCall(merge, calls, call)
         == if i == |calls| then calls + [call] else calls[i := MergeInto(merge, calls[i], call)]
  {
    hide *;
    MergeCallStep(merge, calls, call);
    if calls != [] {
      assert calls == [calls[0]] + calls[1..];
      if !SameCall(calls[0], call) {
        MergeCallAt(merge, calls[1..], call, i - 1);
      }
    }
  }

  lemma MergeCallStep(merge: MergeDelta, calls: seq<ToolCall>, call: ToolCall)
    ensures MergeCall(merge, calls, call)
         == if calls == [] then [call]
            else if SameCall(calls[0], call) then [MergeInto(merge, calls[0], call)] + calls[1..]
            else [calls[0]] + MergeCall(merge, calls[1..], call)
  {
    hide SameCall, MergeInto;
  }

  lemma {:induction false} FirstSame(calls: seq<ToolCall>, call: ToolCall) returns (i: nat)
    ensures i <= |calls| && (i < |calls| ==> SameCall(calls[i], call))
    ensures forall j :: 0 <= j < i ==> !SameCall(calls[j], call)
  {
    if calls == [] || SameCall(calls[0], call) {
      i := 0;
    } else {
      i := FirstSame(calls[1..], call);
      i := i + 1;
    }
  }

  /** Sending a whole snapshot of a call again changes nothing, exactly when the call has an index or an id. */
  lemma SnapshotAgainIff(merge: MergeDelta, calls: seq<ToolCall>, call: ToolCall)
    requires !IsArgumentDelta(call)
    ensures MergeCall(merge, MergeCall(merge, calls, call), call) == MergeCall(merge, calls, call)
       <==> call.index.Some? || call.id != ""
  {
    hide MergeCall, IsArgumentDelta;
    var i := FirstSame(calls, call);
    MergeCallAt(merge, calls, call, i);
    var once := MergeCall(merge, calls, call);
    assert MergeInto(merge, call, call) == call by { MergeSnapshot(merge, call, call); }
    if i < |calls| {
      MergeSnapshot(merge, calls[i], call);
    }
    assert once[i] == call;
    if call.index.Some? || call.id != "" {
      MergeCallAt(merge, once, call, i);
    } else {
      assert i == |calls|;
      MergeCallAt(merge, once, call, |once|);
    }
  }

  lemma MergeSnapshot(merge: MergeDelta, existing: ToolCall, call: ToolCall)
    requires !IsArgumentDelta(call)
    ensures MergeInto(merge, existing, call) == call
  {
  }

  // ---- Arguments that arrive in fragments ----

  /** The library puts the arguments of a fragment behind those that have arrived. */
  ghost predicate Appends(merge: MergeDelta) {
    forall existing, fragment :: IsArgumentDelta(fragment) ==>
      merge(existing, fragment) == existing.(arguments := existing.arguments + fragment.arguments)
  }

  predicate Fragments(pieces: seq<ToolCall>, index: Option<nat>) {
    forall i :: 0 <= i < |pieces| ==> IsArgumentDelta(pieces[i]) && pieces[i].index == index
  }

  function Arguments(pieces: seq<ToolCall>): string {
    if pieces == [] then "" else Arguments(pieces[..|pieces| - 1]) + pieces[|pieces| - 1].arguments
  }

  /** No fragment arrives when what has arrived so far spells an empty object. */
  predicate NeverEmptyObject(pieces: seq<ToolCall>) {
    forall k :: 0 < k < |pieces| ==> Arguments(pieces[..k]) != "{}"
  }

  lemma {:induction false} MergeCallsLast(merge: MergeDelta, calls: seq<ToolCall>, pieces: seq<ToolCall>)
    requires pieces != []
    ensures var last := |pieces| - 1;
            MergeCalls(merge, calls, pieces) == MergeCall(merge, MergeCalls(merge, calls, pieces[..last]), pieces[last])
    decreases |pieces|
  {
    hide MergeCall;
    if |pieces| > 1 {
      var last := |pieces| - 1;
      MergeCallsLast(merge, MergeCall(merge, calls, pieces[0]), pieces[1..]);
      assert pieces[1..][..last - 1] == pieces[..last][1..];
    }
  }

  /** Every call has an index of its own. */
  predicate Indexed(calls: seq<ToolCall>) {
    && (forall i :: 0 <= i < |calls| ==> calls[i].index.Some?)
    && (forall i, j :: 0 <= i < j < |calls| ==> calls[i].index != calls[j].index)
  }

  predicate AllIndexed(pieces: seq<ToolCall>) {
    forall i :: 0 <= i < |pieces| ==> pieces[i].index.Some?
  }

  /** The pieces with one index, in their order. */
  function Of(pieces: seq<ToolCall>, index: Option<nat>): seq<ToolCall> {
    if pieces == [] then []
    else
      var last := |pieces| - 1;
      Of(pieces[..last], index) + (if pieces[last].index == index then [pieces[last]] else [])
  }

  /** One call merged with pieces that all belong to it. */
  function MergeEach(merge: MergeDelta, call: ToolCall, pieces: seq<ToolCall>): ToolCall {
    if pieces == [] then call
    else MergeInto(merge, MergeEach(merge, call, pieces[..|pieces| - 1]), pieces[|pieces| - 1])
  }

  lemma MergeIntoKeepsIndex(merge: MergeDelta, call: ToolCall, piece: ToolCall)
    requires Appends(merge) && call.index == piece.index
    ensures MergeInto(merge, call, piece).index == call.index
  {
  }

  /** A piece with an index changes the call with that index and no other. */
  lemma MergeByIndex(merge: MergeDelta, calls: seq<ToolCall>, piece: ToolCall)
    requires Appends(merge) && Indexed(calls) && piece.index.Some?
    ensures var merged := MergeCall(merge, calls, piece);
            && Indexed(merged) && |calls| <= |merged|
            && forall i :: 0 <= i < |calls| ==>
                 && merged[i].index == calls[i].index
                 && merged[i] == if calls[i].index == piece.index then MergeInto(merge, calls[i], piece) else calls[i]
  {
    hide MergeCall, MergeInto, IsArgumentDelta;
    var i := FirstSame(calls, piece);
    MergeCallAt(merge, calls, piece, i);
    if i < |calls| {
      MergeIntoKeepsIndex(merge, calls[i], piece);
    }
  }

  /** Pieces of several calls may arrive interleaved: each call is merged with the pieces that have its index. */
  lemma {:induction false} MergedCallByCall(merge: MergeDelta, calls: seq<ToolCall>, pieces: seq<ToolCall>)
    requires Appends(merge) && Indexed(calls) && AllIndexed(pieces)
    ensures var merged := MergeCalls(merge, calls, pieces);
            && Indexed(merged) && |calls| <= |merged|
            && forall i :: 0 <= i < |calls| ==>
                 && merged[i].index == calls[i].index
                 && merged[i] == MergeEach(merge, calls[i], Of(pieces, calls[i].index))
    decreases |pieces|
  {
    hide MergeCall, MergeCalls, MergeInto, Appends, Indexed, MergeEach, Of;
    if pieces == [] {
      MergeNothing(merge, calls);
      forall i | 0 <= i < |calls| ensures MergeEach(merge, calls[i], Of([], calls[i].index)) == calls[i] {
        MergeEachNothing(merge, calls[i]);
      }
    } else {
      var last := |pieces| - 1;
      var before := MergeCalls(merge, calls, pieces[..last]);
      MergeCallsLast(merge, calls, pieces);
      MergedCallByCall(merge, calls, pieces[..last]);
      MergeByIndex(merge, before, pieces[last]);
      forall i | 0 <= i < |calls|
        ensures MergeEach(merge, calls[i], Of(pieces, calls[i].index))
             == if calls[i].index == pieces[last].index then MergeInto(merge, before[i], pieces[last]) else before[i]
      {
        MergeEachLast(merge, calls[i], pieces);
      }
    }
  }

  lemma MergeEachNothing(merge: MergeDelta, call: ToolCall)
    ensures MergeEach(merge, call, Of([], call.index)) == call
  {
  }

  lemma MergeEachLast(merge: MergeDelta, call: ToolCall, pieces: seq<ToolCall>)
    requires pieces != []
    ensures var last := |pieces| - 1;
            var before := MergeEach(merge, call, Of(pieces[..last], call.index));
            MergeEach(merge, call, Of(pieces, call.index))
            == if call.index == pieces[last].index then MergeInto(merge, before, pieces[last]) else before
  {
    hide MergeInto;
    var last := |pieces| - 1;
    var earlier, mine := Of(pieces[..last], call.index), Of(pieces, call.index);
    if call.index == pieces[last].index {
      assert mine == earlier + [pieces[last]] && mine[..|mine| - 1] == earlier;
    } else {
      assert mine == earlier + [] == earlier;
    }
  }

  lemma OneFragment(merge: MergeDelta, call: ToolCall, fragment: ToolCall)
    requires Appends(merge) && IsArgumentDelta(fragment)
    ensures var before := if call.arguments == "{}" then "" else call.arguments;
            MergeInto(merge, call, fragment) == call.(arguments := before + fragment.arguments)
  {
  }

  /** What fragments leave of a call: the call with other arguments, never longer than all of them together. */
  lemma {:induction false} FragmentsLeave(merge: MergeDelta, call: ToolCall, pieces: seq<ToolCall>) returns (arguments: string)
    requires Appends(merge) && Fragments(pieces, call.index) && pieces != []
    requires call.arguments == "" || call.arguments == "{}"
    ensures MergeEach(merge, call, pieces) == call.(arguments := arguments)
    ensures |arguments| <= |Arguments(pieces)|
    ensures arguments == Arguments(pieces) <==> NeverEmptyObject(pieces)
    decreases |pieces|
  {
    hide Appends, MergeInto;
    var last := |pieces| - 1;
    if last == 0 {
      assert pieces[..0] == [];
      OneFragment(merge, call, pieces[0]);
      arguments := pieces[0].arguments;
      assert Arguments(pieces[..0]) == "" && "" + pieces[0].arguments == pieces[0].arguments;
    } else {
      var before := FragmentsLeave(merge, call, pieces[..last]);
      OneFragment(merge, call.(arguments := before), pieces[last]);
      arguments := (if before == "{}" then "" else before) + pieces[last].arguments;
      NeverEmptyObjectStep(pieces);
      SumsDiffer(before, Arguments(pieces[..last]), pieces[last].arguments);
    }
  }

  lemma MergeNothing(merge: MergeDelta, calls: seq<ToolCall>)
    ensures MergeCalls(merge, calls, []) == calls
  {
  }

  lemma NeverEmptyObjectStep(pieces: seq<ToolCall>)
    requires |pieces| > 1
    ensures var last := |pieces| - 1;
            NeverEmptyObject(pieces) <==> NeverEmptyObject(pieces[..last]) && Arguments(pieces[..last]) != "{}"
  {
    hide Arguments;
    var last := |pieces| - 1;
    assert forall k :: 0 < k < last ==> pieces[..last][..k] == pieces[..k];
  }

  lemma SumsDiffer(a: string, b: string, c: string)
    requires |a| <= |b|
    ensures |a + c| <= |b + c| && (a + c == b + c <==> a == b)
  {
    if a + c == b + c {
      assert a == (a + c)[..|a|] && b == (b + c)[..|b|];
    }
  }

  /**
   Among calls with indexes of their own, one that begins without arguments, or with an empty object
   in their place, ends with all its fragments put together exactly when none of them follows on
   what spells an empty object. Pieces of other calls may arrive between.
   */
  lemma FragmentsAssembleIff(merge: MergeDelta, calls: seq<ToolCall>, pieces: seq<ToolCall>, i: nat)
    requires Appends(merge) && Indexed(calls) && AllIndexed(pieces) && i < |calls|
    requires var mine := Of(pieces, calls[i].index); mine != [] && Fragments(mine, calls[i].index)
    requires calls[i].arguments == "" || calls[i].arguments == "{}"
    ensures |MergeCalls(merge, calls, pieces)| > i
    ensures var mine := Of(pieces, calls[i].index);
            MergeCalls(merge, calls, pieces)[i] == calls[i].(arguments := Arguments(mine)) <==> NeverEmptyObject(mine)
  {
    hide *;
    var mine := Of(pieces, calls[i].index);
    MergedCallByCall(merge, calls, pieces);
    var arguments := FragmentsLeave(merge, calls[i], mine);
    assert calls[i].(arguments := arguments).arguments == arguments;
  }

  /**
   A piece becomes a new call exactly when no call has its index, where both have one, or else its
   id; otherwise it is merged, and neither the number of calls nor any other call changes.
   */
  lemma AppendedIff(merge: MergeDelta, calls: seq<ToolCall>, piece: ToolCall)
    ensures MergeCall(merge, calls, piece) == calls + [piece]
       <==> forall i :: 0 <= i < |calls| ==>
              if calls[i].index.Some? && piece.index.Some? then calls[i].index != piece.index
              else calls[i].id != piece.id || piece.id == ""
    ensures |MergeCall(merge, calls, piece)| == |calls| || MergeCall(merge, calls, piece) == calls + [piece]
  {
    hide MergeCall, MergeInto;
    var i := FirstSame(calls, piece);
    MergeCallAt(merge, calls, piece, i);
    if i < |calls| {
      assert |MergeCall(merge, calls, piece)| != |calls + [piece]|;
    }
  }

  /** A piece with an id, a type or a name replaces the call it belongs to; one with arguments only is joined to it. */
  lemma ReplacedOrJoined(merge: MergeDelta, calls: seq<ToolCall>, piece: ToolCall, i: nat)
    requires i < |calls| && SameCall(calls[i], piece) && forall j :: 0 <= j < i ==> !SameCall(calls[j], piece)
    ensures var merged := MergeCall(merge, calls, piece);
            && |merged| == |calls| && (forall j :: 0 <= j < |calls| && j != i ==> merged[j] == calls[j])
            && (piece.id != "" || piece.callType != "" || piece.name != "" ==> merged[i] == piece)
            && (piece.id == "" && piece.callType == "" && piece.name == "" ==>
                  merged[i] == merge(if calls[i].arguments == "{}" then calls[i].(arguments := "") else calls[i], piece))
  {
    hide MergeCall, SameCall;
    MergeCallAt(merge, calls, piece, i);
  }

  // ---- From the first piece of a stream ----

  /** The indexes of the pieces in the order of their first appearance. */
  function Indexes(pieces: seq<ToolCall>): seq<Option<nat>> {
    if pieces == [] then []
    else
      var last := |pieces| - 1;
      var before := Indexes(pieces[..last]);
      if pieces[last].index in before then before else before + [pieces[last].index]
  }

  /** A call is its first piece merged with the later ones of its index. */
  predicate MadeFrom(merge: MergeDelta, call: ToolCall, pieces: seq<ToolCall>, index: Option<nat>) {
    var mine := Of(pieces, index);
    call.index == index && mine != [] && call == MergeEach(merge, mine[0], mine[1..])
  }

  /** What a stream of indexed pieces makes: one call for each index, in order of first appearance. */
  lemma {:induction false} CallsOfStream(merge: MergeDelta, pieces: seq<ToolCall>)
    requires Appends(merge) && AllIndexed(pieces)
    ensures var calls := MergeCalls(merge, [], pieces);
            && Indexed(calls) && |calls| == |Indexes(pieces)|
            && forall i :: 0 <= i < |calls| ==> MadeFrom(merge, calls[i], pieces, Indexes(pieces)[i])
    decreases |pieces|
  {
    hide MergeCall, MergeCalls, MergeInto, Appends, Indexed, Indexes, MadeFrom, SameCall;
    if pieces == [] {
      MergeNothing(merge, []);
      NoIndexes();
    } else {
      var last := |pieces| - 1;
      var piece := pieces[last];
      var before := MergeCalls(merge, [], pieces[..last]);
      CallsOfStream(merge, pieces[..last]);
      MergeCallsLast(merge, [], pieces);
      MergeByIndex(merge, before, piece);
      var i := FirstSame(before, piece);
      MergeCallAt(merge, before, piece, i);
      IndexesLast(pieces);
      forall k | 0 <= k < |before| ensures before[k].index == Indexes(pieces[..last])[k] && before[k].index.Some? {
        MadeHasIndex(merge, before[k], pieces[..last], Indexes(pieces[..last])[k]);
        IndexedAt(before, k);
      }
      SameByIndex(before, piece);
      if i == |before| {
        NotMadeYet(merge, pieces);
      }
      forall k | 0 <= k < |before|
        ensures MadeFrom(merge, MergeCall(merge, before, piece)[k], pieces, Indexes(pieces[..last])[k])
      {
        MadeLast(merge, before[k], pieces);
      }
    }
  }

  lemma NoIndexes()
    ensures Indexes([]) == [] && Indexed([])
  {
  }

  lemma IndexesLast(pieces: seq<ToolCall>)
    requires pieces != []
    ensures var before := Indexes(pieces[..|pieces| - 1]);
            var index := pieces[|pieces| - 1].index;
            Indexes(pieces) == if index in before then before else before + [index]
  {
  }

  lemma IndexedAt(calls: seq<ToolCall>, k: nat)
    requires Indexed(calls) && k < |calls|
    ensures calls[k].index.Some?
  {
  }

  lemma SameByIndex(calls: seq<ToolCall>, piece: ToolCall)
    requires piece.index.Some? && forall k :: 0 <= k < |calls| ==> calls[k].index.Some?
    ensures forall k :: 0 <= k < |calls| ==> (SameCall(calls[k], piece) <==> calls[k].index == piece.index)
  {
  }

  lemma MadeHasIndex(merge: MergeDelta, call: ToolCall, pieces: seq<ToolCall>, index: Option<nat>)
    requires MadeFrom(merge, call, pieces, index)
    ensures call.index == index
  {
  }

  /** The first piece of an index is the call it makes. */
  lemma NotMadeYet(merge: MergeDelta, pieces: seq<ToolCall>)
    requires pieces != []
    requires pieces[|pieces| - 1].index !in Indexes(pieces[..|pieces| - 1])
    ensures MadeFrom(merge, pieces[|pieces| - 1], pieces, pieces[|pieces| - 1].index)
  {
    var last := |pieces| - 1;
    OfNone(pieces[..last], pieces[last].index);
    assert Of(pieces, pieces[last].index) == [] + [pieces[last]] == [pieces[last]];
    MergeEachOfNone(merge, pieces[last]);
  }

  lemma MergeEachOfNone(merge: MergeDelta, piece: ToolCall)
    ensures MergeEach(merge, piece, [piece][1..]) == piece
  {
  }

  lemma {:induction false} OfNone(pieces: seq<ToolCall>, index: Option<nat>)
    requires index !in Indexes(pieces)
    ensures Of(pieces, index) == []
  {
    if pieces != [] {
      OfNone(pieces[..|pieces| - 1], index);
      assert index == pieces[|pieces| - 1].index ==> index in Indexes(pieces);
    }
  }

  lemma MadeLast(merge: MergeDelta, call: ToolCall, pieces: seq<ToolCall>)
    requires Appends(merge) && pieces != [] && MadeFrom(merge, call, pieces[..|pieces| - 1], call.index)
    ensures var last := |pieces| - 1;
            var after := if call.index == pieces[last].index then MergeInto(merge, call, pieces[last]) else call;
            MadeFrom(merge, after, pieces, call.index)
  {
    hide MergeInto, Appends;
    var last := |pieces| - 1;
    var before, mine := Of(pieces[..last], call.index), Of(pieces, call.index);
    if call.index == pieces[last].index {
      MergeIntoKeepsIndex(merge, call, pieces[last]);
      assert mine == before + [pieces[last]];
      assert mine[1..][..|mine| - 2] == before[1..] && mine[1..][|mine| - 2] == pieces[last];
    } else {
      assert mine == before + [] == before;
    }
  }

  /**
   So a call of a stream that begins without arguments, or with an empty object in their place, ends
   with all its fragments put together exactly when none of them follows on what spells an empty object.
   */
  lemma StreamAssemblesIff(merge: MergeDelta, pieces: seq<ToolCall>, i: nat)
    requires Appends(merge) && AllIndexed(pieces) && i < |Indexes(pieces)|
    requires var mine := Of(pieces, Indexes(pieces)[i]);
             |mine| > 1 && Fragments(mine[1..], Indexes(pieces)[i]) && (mine[0].arguments == "" || mine[0].arguments == "{}")
    ensures |MergeCalls(merge, [], pieces)| > i
    ensures var mine := Of(pieces, Indexes(pieces)[i]);
            MergeCalls(merge, [], pieces)[i] == mine[0].(arguments := Arguments(mine[1..])) <==> NeverEmptyObject(mine[1..])
  {
    hide *;
    var index := Indexes(pieces)[i];
    var mine := Of(pieces, index);
    CallsOfStream(merge, pieces);
    MadeByFirst(merge, MergeCalls(merge, [], pieces)[i], pieces, index);
    var arguments := FragmentsLeave(merge, mine[0], mine[1..]);
    assert mine[0].(arguments := arguments).arguments == arguments;
  }

  lemma MadeByFirst(merge: MergeDelta, call: ToolCall, pieces: seq<ToolCall>, index: Option<nat>)
    requires MadeFrom(merge, call, pieces, index)
    ensures var mine := Of(pieces, index);
            mine != [] && call == MergeEach(merge, mine[0], mine[1..]) && mine[0].index == index
  {
    OfHasIndex(pieces, index);
  }

  lemma {:induction false} OfHasIndex(pieces: seq<ToolCall>, index: Option<nat>)
    ensures forall k :: 0 <= k < |Of(pieces, index)| ==> Of(pieces, index)[k].index == index
  {
    if pieces != [] {
      OfHasIndex(pieces[..|pieces| - 1], index);
    }
  }

  /** A piece with neither index nor id belongs to no call: it becomes one of its own, and no later piece joins it. */
  lemma {:induction false} AnonymousStaysAlone(merge: MergeDelta, calls: seq<ToolCall>, piece: ToolCall, later: seq<ToolCall>)
    requires piece.index.None? && piece.id == ""
    ensures MergeCall(merge, calls, piece) == calls + [piece]
    ensures var merged := MergeCalls(merge, calls, [piece] + later);
            |calls| < |merged| && merged[|calls|] == piece
  {
    hide MergeCall;
    MergeCallAt(merge, calls, piece, |calls|);
    assert ([piece] + later)[1..] == later;
    AnonymousKept(merge, calls + [piece], |calls|, later);
  }

  lemma {:induction false} AnonymousKept(merge: MergeDelta, calls: seq<ToolCall>, k: nat, later: seq<ToolCall>)
    requires k < |calls| && calls[k].index.None? && calls[k].id == ""
    ensures var merged := MergeCalls(merge, calls, later); k < |merged| && merged[k] == calls[k]
    decreases |later|
  {
    hide MergeCall, MergeInto;
    if later != [] {
      var i := FirstSame(calls, later[0]);
      MergeCallAt(merge, calls, later[0], i);
      AnonymousKept(merge, MergeCall(merge, calls, later[0]), k, later[1..]);
    }
  }

  /** How pieces are spread over chunks makes no difference. */
  lemma {:induction false} ChunksDoNotMatter(merge: MergeDelta, calls: seq<ToolCall>, chunks: seq<Chunk>)
    ensures AllMerged(merge, calls, chunks) == MergeCalls(merge, calls, AllPieces(chunks))
    decreases |chunks|
  {
    hide MergeCalls;
    if chunks == [] {
      MergeNothing(merge, calls);
    } else {
      var pieces := PiecesOf(chunks[0]);
      MergeNothing(merge, calls);
      ChunksDoNotMatter(merge, MergeCalls(merge, calls, pieces), chunks[1..]);
      MergeCallsConcat(merge, calls, pieces, AllPieces(chunks[1..]));
    }
  }

  function PiecesOf(chunk: Chunk): seq<ToolCall> {
    if chunk.toolCalls.Some? then chunk.toolCalls.value else []
  }

  function AllPieces(chunks: seq<Chunk>): seq<ToolCall> {
    if chunks == [] then [] else PiecesOf(chunks[0]) + AllPieces(chunks[1..])
  }

  lemma {:induction false} MergeCallsConcat(merge: MergeDelta, calls: seq<ToolCall>, a: seq<ToolCall>, b: seq<ToolCall>)
    ensures MergeCalls(merge, calls, a + b) == MergeCalls(merge, MergeCalls(merge, calls, a), b)
    decreases |a|
  {
    hide MergeCall;
    if a == [] {
      assert a + b == b;
    } else {
      assert (a + b)[1..] == a[1..] + b;
      MergeCallsConcat(merge, MergeCall(merge, calls, a[0]), a[1..], b);
    }
  }

  method MergeStreamToolCalls(merge: MergeDelta, calls: seq<ToolCall>, chunk: Chunk) returns (merged: seq<ToolCall>)
    ensures merged == MergeChunk(merge, calls, chunk)
  {
    hide MergeCall, SameCall, MergeInto;
    merged := calls;
    if chunk.toolCalls.None? {
      return;
    }
    var pieces := chunk.toolCalls.value;
    for n := 0 to |pieces|
      invariant MergeCalls(merge, calls, pieces) == MergeCalls(merge, merged, pieces[n..])
    {
      var i := 0;
      while i < |merged| && !SameCall(merged[i], pieces[n])
        invariant i <= |merged| && forall j :: 0 <= j < i ==> !SameCall(merged[j], pieces[n])
      {
        i := i + 1;
      }
      MergeCallAt(merge, merged, pieces[n], i);
      if i < |merged| {
        merged := merged[i := MergeInto(merge, merged[i], pieces[n])];
      } else {
        merged := merged + [pieces[n]];
      }
      assert pieces[n..][1..] == pieces[n + 1..];
    }
  }

  // ---- What a stream of chunks amounts to ----

  function ChunkEvents(chunk: Chunk): seq<Event> {
    (if chunk.reasoning.Some? then [ReasoningDelta(chunk.reasoning.value)] else [])
    + (if chunk.content.Some? then [TextDelta(chunk.content.value)] else [])
  }

  function AllEvents(chunks: seq<Chunk>): seq<Event> {
    if chunks == [] then [] else ChunkEvents(chunks[0]) + AllEvents(chunks[1..])
  }

  /** The text deltas among events, put together. */
  function TextOf(events: seq<Event>): string {
    if events == [] then "" else (if events[0].TextDelta? then events[0].text else "") + TextOf(events[1..])
  }

  function AllMerged(merge: MergeDelta, calls: seq<ToolCall>, chunks: seq<Chunk>): seq<ToolCall>
    decreases |chunks|
  {
    if chunks == [] then calls else AllMerged(merge, MergeChunk(merge, calls, chunks[0]), chunks[1..])
  }

  function AllOk(events: seq<Event>): (r: seq<Outgoing>)
    ensures |r| == |events| && forall i :: 0 <= i < |events| ==> r[i] == Ok(events[i])
  {
    if events == [] then [] else [Ok(events[0])] + AllOk(events[1..])
  }

  function Arriving(chunks: seq<Chunk>): (r: seq<Incoming>)
    ensures |r| == |chunks| && forall i :: 0 <= i < |chunks| ==> r[i] == Ok(chunks[i])
  {
    if chunks == [] then [] else [Ok(chunks[0])] + Arriving(chunks[1..])
  }

  function ResponseOf(text: string, calls: seq<ToolCall>): Response {
    Response(if text == "" then None else Some(text), calls)
  }

  // ---- The machine, step by step ----

  datatype State =
    | Streaming(inner: seq<Incoming>, text: string, toolCalls: seq<ToolCall>, pending: seq<Event>)
    | Done

  /** What a state still emits, read chunk by chunk. */
  function Unfolded(merge: MergeDelta, inner: seq<Incoming>, text: string, calls: seq<ToolCall>): seq<Outgoing>
    decreases |inner|
  {
    if inner == [] then [Ok(Completed(ResponseOf(text, calls)))]
    else
      match inner[0]
      case Err(error) => [Err(error)]
      case Ok(chunk) =>
        AllOk(ChunkEvents(chunk))
        + Unfolded(merge, inner[1..], text + TextOf(ChunkEvents(chunk)), MergeChunk(merge, calls, chunk))
  }

  function Remaining(merge: MergeDelta, s: State): seq<Outgoing> {
    if s.Done? then [] else AllOk(s.pending) + Unfolded(merge, s.inner, s.text, s.toolCalls)
  }

  lemma {:induction false} AllOkConcat(a: seq<Event>, b: seq<Event>)
    ensures AllOk(a + b) == AllOk(a) + AllOk(b)
  {
  }

  lemma {:induction false} TextOfConcat(a: seq<Event>, b: seq<Event>)
    ensures TextOf(a + b) == TextOf(a) + TextOf(b)
  {
    hide TextOf;
    if a == [] {
      TextOfNothing();
      assert a + b == b;
    } else {
      TextOfConcat(a[1..], b);
      TextOfStep(a);
      TextOfStep(a + b);
      assert (a + b)[1..] == a[1..] + b;
    }
  }

  lemma TextOfStep(events: seq<Event>)
    requires events != []
    ensures TextOf(events) == (if events[0].TextDelta? then events[0].text else "") + TextOf(events[1..])
  {
  }

  lemma UnfoldedStep(merge: MergeDelta, inner: seq<Incoming>, text: string, calls: seq<ToolCall>)
    ensures inner == [] ==> Unfolded(merge, inner, text, calls) == [Ok(Completed(ResponseOf(text, calls)))]
    ensures inner != [] && inner[0].Err? ==> Unfolded(merge, inner, text, calls) == [Err(inner[0].error)]
    ensures inner != [] && inner[0].Ok? ==>
      var events := ChunkEvents(inner[0].value);
      Unfolded(merge, inner, text, calls)
      == AllOk(events) + Unfolded(merge, inner[1..], text + TextOf(events), MergeChunk(merge, calls, inner[0].value))
  {
    hide ChunkEvents, MergeChunk, TextOf, AllOk, ResponseOf;
  }

  lemma {:induction false} UnfoldedAfter(
    merge: MergeDelta, chunks: seq<Chunk>, after: seq<Incoming>, text: string, calls: seq<ToolCall>)
    ensures Unfolded(merge, Arriving(chunks) + after, text, calls)
         == AllOk(AllEvents(chunks))
            + Unfolded(merge, after, text + TextOf(AllEvents(chunks)), AllMerged(merge, calls, chunks))
    decreases |chunks|
  {
    hide Unfolded, ChunkEvents, MergeChunk, TextOf, AllOk;
    var inner := Arriving(chunks) + after;
    if chunks == [] {
      assert inner == after;
      TextOfNothing();
      assert text + "" == text;
    } else {
      UnfoldedStep(merge, inner, text, calls);
      assert inner[1..] == Arriving(chunks[1..]) + after;
      var first, others := ChunkEvents(chunks[0]), AllEvents(chunks[1..]);
      UnfoldedAfter(merge, chunks[1..], after, text + TextOf(first), MergeChunk(merge, calls, chunks[0]));
      TextOfConcat(first, others);
      AllOkConcat(first, others);
      assert text + TextOf(first) + TextOf(others) == text + (TextOf(first) + TextOf(others));
    }
  }

  lemma TextOfNothing()
    ensures TextOf([]) == "" && AllOk([]) == []
  {
  }

  /** The state that the stream begins in. */
  function Begin(inner: seq<Incoming>): State {
    Streaming(inner, "", [], [])
  }

  /**
   A stream that ends well emits the deltas of its chunks and then one completion, whose text is all
   the text deltas together and whose calls are all the pieces merged.
   */
  lemma CompleteStream(merge: MergeDelta, chunks: seq<Chunk>)
    ensures var events := AllEvents(chunks);
            Remaining(merge, Begin(Arriving(chunks)))
            == AllOk(events) + [Ok(Completed(ResponseOf(TextOf(events), AllMerged(merge, [], chunks))))]
  {
    hide *;
    assert Arriving(chunks) + [] == Arriving(chunks);
    RemainingAtBegin(merge, Arriving(chunks));
    UnfoldedAfter(merge, chunks, [], "", []);
    assert "" + TextOf(AllEvents(chunks)) == TextOf(AllEvents(chunks));
    UnfoldedStep(merge, [], TextOf(AllEvents(chunks)), AllMerged(merge, [], chunks));
  }

  /** The contents of the chunks, put together. */
  function Contents(chunks: seq<Chunk>): string {
    if chunks == [] then ""
    else (if chunks[0].content.Some? then chunks[0].content.value else "") + Contents(chunks[1..])
  }

  lemma {:induction false} TextOfContents(chunks: seq<Chunk>)
    ensures TextOf(AllEvents(chunks)) == Contents(chunks)
  {
    hide TextOf, ChunkEvents;
    if chunks == [] {
      TextOfNothing();
    } else {
      TextOfChunk(chunks[0]);
      TextOfContents(chunks[1..]);
      TextOfConcat(ChunkEvents(chunks[0]), AllEvents(chunks[1..]));
    }
  }

  /** The completion carries the contents of all chunks, or no text if there is none, and all the pieces of calls merged. */
  lemma CompletionIs(merge: MergeDelta, chunks: seq<Chunk>)
    ensures var items := Remaining(merge, Begin(Arriving(chunks)));
            && items != [] && items[|items| - 1].Ok? && items[|items| - 1].value.Completed?
            && var response := items[|items| - 1].value.response;
               && (Contents(chunks) == "" ==> response.text == None)
               && (Contents(chunks) != "" ==> response.text == Some(Contents(chunks)))
               && response.toolCalls == AllMerged(merge, [], chunks)
  {
    hide Remaining, AllEvents, TextOf, Contents, AllMerged, Arriving, AllOk;
    CompleteStream(merge, chunks);
    TextOfContents(chunks);
  }

  lemma {:induction false} AllEventsConcat(a: seq<Chunk>, b: seq<Chunk>)
    ensures AllEvents(a + b) == AllEvents(a) + AllEvents(b)
  {
    hide ChunkEvents;
    if a == [] {
      assert a + b == b;
    } else {
      assert (a + b)[1..] == a[1..] + b;
      AllEventsConcat(a[1..], b);
    }
  }

  /** Chunk by chunk: its reasoning if it has any, then its content if it has any, and nothing else. */
  lemma DeltasOfChunk(merge: MergeDelta, before: seq<Chunk>, chunk: Chunk, after: seq<Chunk>)
    ensures var items := Remaining(merge, Begin(Arriving(before + [chunk] + after)));
            var from, to := |AllEvents(before)|, |AllEvents(before + [chunk])|;
            && from <= to < |items|
            && match (chunk.reasoning, chunk.content)
               case (None, None) => to == from
               case (Some(r), None) => to == from + 1 && items[from] == Ok(ReasoningDelta(r))
               case (None, Some(c)) => to == from + 1 && items[from] == Ok(TextDelta(c))
               case (Some(r), Some(c)) => to == from + 2 && items[from] == Ok(ReasoningDelta(r)) && items[from + 1] == Ok(TextDelta(c))
  {
    hide Remaining, Arriving, AllEvents, AllMerged, TextOf, ResponseOf;
    CompleteStream(merge, before + [chunk] + after);
    AllEventsConcat(before + [chunk], after);
    AllEventsConcat(before, [chunk]);
    EventsOfOne(chunk);
    var first, here := AllEvents(before), ChunkEvents(chunk);
    assert AllEvents(before + [chunk] + after) == first + here + AllEvents(after);
    assert forall i :: 0 <= i < |here| ==> (first + here + AllEvents(after))[|first| + i] == here[i];
  }

  lemma EventsOfOne(chunk: Chunk)
    ensures AllEvents([chunk]) == ChunkEvents(chunk)
  {
    hide ChunkEvents;
    assert AllEvents([chunk][1..]) == [];
  }

  lemma RemainingAtBegin(merge: MergeDelta, inner: seq<Incoming>)
    ensures Remaining(merge, Begin(inner)) == Unfolded(merge, inner, "", [])
  {
    hide Unfolded;
  }

  /** At an error the stream ends with it, after the deltas so far: nothing that follows is read, and there is no completion. */
  lemma FailingStream(merge: MergeDelta, chunks: seq<Chunk>, error: string, unread: seq<Incoming>)
    ensures Remaining(merge, Begin(Arriving(chunks) + [Err(error)] + unread)) == AllOk(AllEvents(chunks)) + [Err(error)]
    ensures forall i :: 0 <= i < |AllEvents(chunks)| ==> !AllEvents(chunks)[i].Completed?
  {
    hide *;
    var after := [Err(error)] + unread;
    assert Arriving(chunks) + [Err(error)] + unread == Arriving(chunks) + after;
    RemainingAtBegin(merge, Arriving(chunks) + after);
    UnfoldedAfter(merge, chunks, after, "", []);
    UnfoldedStep(merge, after, "" + TextOf(AllEvents(chunks)), AllMerged(merge, [], chunks));
    OnlyDeltas(chunks);
  }

  lemma {:induction false} OnlyDeltas(chunks: seq<Chunk>)
    ensures forall i :: 0 <= i < |AllEvents(chunks)| ==> !AllEvents(chunks)[i].Completed?
  {
    if chunks != [] {
      OnlyDeltas(chunks[1..]);
    }
  }

  // ---- The machine as it is polled ----

  class Machine {
    const merge: MergeDelta
    var inner: seq<Incoming>
    var text: string
    var toolCalls: seq<ToolCall>
    var pending: seq<Event>
    var done: bool

    function Value(): State
      reads this
    {
      if done then Done else Streaming(inner, text, toolCalls, pending)
    }

    constructor (merge: MergeDelta, inner: seq<Incoming>)
      ensures Value() == Begin(inner) && this.merge == merge
    {
      this.merge := merge;
      this.inner := inner;
      text, toolCalls, pending, done := "", [], [], false;
    }

    /** Each poll yields the next of what remains, and nothing once nothing does. */
    method Poll() returns (item: Option<Outgoing>)
      modifies this
      ensures var before := old(Remaining(merge, Value()));
              if before == [] then item == None && Value() == old(Value())
              else item == Some(before[0]) && Remaining(merge, Value()) == before[1..]
    {
      hide Unfolded, Remaining, MergeChunk, TextOf, AllOk, ResponseOf, ChunkEvents;
      RemainingOf(merge, inner, text, toolCalls, pending);
      if done {
        return None;
      }
      if pending != [] {
        item := Pop();
        return;
      }
      while true
        invariant !done && pending == []
        invariant Unfolded(merge, inner, text, toolCalls) == old(Remaining(merge, Value()))
        decreases |inner|
      {
        UnfoldedStep(merge, inner, text, toolCalls);
        if inner == [] {
          done := true;
          return Some(Ok(Completed(ResponseOf(text, toolCalls))));
        }
        var next := inner[0];
        inner := inner[1..];
        if next.Err? {
          done := true;
          return Some(Err(next.error));
        }
        Absorb(next.value);
        RemainingOf(merge, inner, text, toolCalls, pending);
        if pending != [] {
          item := Pop();
          return;
        }
      }
    }

    method Absorb(chunk: Chunk)
      requires !done && pending == []
      modifies this`text, this`toolCalls, this`pending
      ensures pending == ChunkEvents(chunk)
      ensures text == old(text) + TextOf(ChunkEvents(chunk)) && toolCalls == MergeChunk(merge, old(toolCalls), chunk)
    {
      hide MergeChunk, TextOf;
      TextOfChunk(chunk);
      toolCalls := MergeStreamToolCalls(merge, toolCalls, chunk);
      if chunk.reasoning.Some? {
        pending := pending + [ReasoningDelta(chunk.reasoning.value)];
      }
      if chunk.content.Some? {
        text := text + chunk.content.value;
        pending := pending + [TextDelta(chunk.content.value)];
      }
    }

    /** Takes the first pending event. */
    method Pop() returns (item: Option<Outgoing>)
      requires !done && pending != []
      modifies this`pending
      ensures item == Some(old(Remaining(merge, Value()))[0])
      ensures Remaining(merge, Value()) == old(Remaining(merge, Value()))[1..]
    {
      hide Unfolded;
      var event := pending[0];
      pending := pending[1..];
      return Some(Ok(event));
    }
  }

  lemma RemainingOf(merge: MergeDelta, inner: seq<Incoming>, text: string, calls: seq<ToolCall>, pending: seq<Event>)
    ensures Remaining(merge, Done) == []
    ensures Remaining(merge, Streaming(inner, text, calls, pending)) == AllOk(pending) + Unfolded(merge, inner, text, calls)
    ensures pending == [] ==> Remaining(merge, Streaming(inner, text, calls, pending)) == Unfolded(merge, inner, text, calls)
  {
    hide Unfolded;
  }

  lemma TextOfChunk(chunk: Chunk)
    ensures TextOf(ChunkEvents(chunk)) == if chunk.content.Some? then chunk.content.value else ""
  {
    if chunk.content.Some? {
      var delta := TextDelta(chunk.content.value);
      assert TextOf([delta]) == chunk.content.value;
      assert ChunkEvents(chunk) == [delta] || ChunkEvents(chunk)[1..] == [delta];
    }
  }

  /** Polling to the end collects everything that a state still emits, in order. */
  method Collect(machine: Machine) returns (items: seq<Outgoing>)
    modifies machine
    ensures items == old(Remaining(machine.merge, machine.Value()))
    ensures Remaining(machine.merge, machine.Value()) == []
  {
    hide Remaining;
    items := [];
    var next := machine.Poll();
    while next.Some?
      invariant next.Some? ==>
        items + [next.value] + Remaining(machine.merge, machine.Value()) == old(Remaining(machine.merge, machine.Value()))
      invariant next.None? ==>
        items == old(Remaining(machine.merge, machine.Value())) && Remaining(machine.merge, machine.Value()) == []
      decreases |Remaining(machine.merge, machine.Value())|, if next.Some? then 1 else 0
    {
      items := items + [next.value];
      next := machine.Poll();
    }
  }
}
