/**
 The session history of crates/agent_runtime/src/history.rs: a bounded list of entries whose old
 prefix can be replaced by a summary without cutting a group of tool calls.
 */
module History {
  import opened Results
  import opened Text

  datatype Item =
    | User(text: string, images: seq<string>)
    | Assistant(text: string)
    | AssistantWithReasoning(text: string, reasoning: string)
    | System(text: string)
    | ContextSummary(text: string, originalItems: nat)
    | ToolCall(callId: string, tool: string)
    | Observation(callId: string, result: string)

  const DEFAULT_MAX_ITEMS: nat := 200
  const DEFAULT_MAX_OBSERVATION_BYTES: nat := 4096

  /** The last `n` entries, or all if there are fewer. */
  function Last(items: seq<Item>, n: nat): (r: seq<Item>)
    ensures |r| == if |items| <= n then |items| else n
    ensures r == items[|items| - |r|..]
  {
    if |items| > n then items[|items| - n..] else items
  }

  // ---- Where a history may be cut ----

  /** Two neighbours that belong to one group of tool calls. */
  predicate Glued(left: Item, right: Item) {
    || (left.ToolCall? && (right.ToolCall? || right.Observation?))
    || (left.Observation? && right.Observation?)
    || (left.AssistantWithReasoning? && (right.ToolCall? || right.Observation?))
  }

  predicate Safe(items: seq<Item>, cut: nat) {
    0 < cut < |items| ==> !Glued(items[cut - 1], items[cut])
  }

  /** The last safe cut up to a given position. */
  function Boundary(items: seq<Item>, split: nat): (cut: nat)
    ensures cut <= split && Safe(items, cut)
    ensures forall other :: cut < other <= split ==> !Safe(items, other)
  {
    if Safe(items, split) then split else Boundary(items, split - 1)
  }

  function Clamped(items: seq<Item>, keep: nat): nat
    requires |items| > 1
  {
    if keep < 1 then 1 else if keep > |items| - 1 then |items| - 1 else keep
  }

  function SplitIndex(items: seq<Item>, keep: nat): Option<nat> {
    if |items| <= 1 then None
    else
      var cut := Boundary(items, |items| - Clamped(items, keep));
      if cut > 0 then Some(cut) else None
  }

  /** What a compaction leaves, if there is anything to compact. */
  function Compacted(items: seq<Item>, summary: string, keep: nat): Option<seq<Item>> {
    var split := SplitIndex(items, keep);
    if AllWhiteSpace(summary) || split.None? then None
    else Some([ContextSummary(summary, split.value)] + items[split.value..])
  }

  lemma BoundaryIsIdempotent(items: seq<Item>, split: nat)
    ensures Boundary(items, Boundary(items, split)) == Boundary(items, split)
  {
  }

  lemma {:induction false} BoundaryIsMonotone(items: seq<Item>, lower: nat, upper: nat)
    requires lower <= upper
    ensures Boundary(items, lower) <= Boundary(items, upper)
  {
    if lower < upper && !Safe(items, upper) {
      BoundaryIsMonotone(items, lower, upper - 1);
    }
  }

  /** How many entries a compaction keeps as they are. */
  function Retained(items: seq<Item>, keep: nat): nat {
    match SplitIndex(items, keep)
    case Some(cut) => if cut <= |items| then |items| - cut else 0
    case None => |items|
  }

  /** Asking for more never keeps less, and at least what was asked for is kept if there is that much and one to spare. */
  lemma KeepingMoreRetainsMore(items: seq<Item>, keep: nat, more: nat)
    requires keep <= more
    ensures Retained(items, keep) <= Retained(items, more)
    ensures keep < |items| ==> Retained(items, keep) >= keep
    ensures keep >= |items| > 0 ==> Retained(items, keep) >= |items| - 1
  {
    if |items| > 1 {
      BoundaryIsMonotone(items, |items| - Clamped(items, more), |items| - Clamped(items, keep));
    }
  }

  /**
   At least what was asked for is kept if there is that much, and no more exactly when a cut there
   splits no group; asking for nothing keeps as much as asking for one entry, and asking for all or
   more as much as asking for all but one.
   */
  lemma RetainedIs(items: seq<Item>, keep: nat)
    ensures |items| <= 1 ==> Retained(items, keep) == |items|
    ensures 1 <= keep < |items| ==>
      && keep <= Retained(items, keep) <= |items|
      && (Retained(items, keep) == keep <==> Safe(items, |items| - keep))
      && (forall cut :: |items| - Retained(items, keep) < cut <= |items| - keep ==> !Safe(items, cut))
    ensures |items| > 1 ==> Retained(items, 0) == Retained(items, 1)
    ensures 1 < |items| <= keep ==> Retained(items, keep) == Retained(items, |items| - 1)
  {
    if 1 <= keep < |items| {
      assert Clamped(items, keep) == keep;
      var cut := Boundary(items, |items| - keep);
    }
  }

  /** A compaction puts one summary before the entries it keeps, and is refused without a summary or without anything to replace. */
  lemma CompactedIs(items: seq<Item>, summary: string, keep: nat)
    ensures var kept := Retained(items, keep);
            && kept <= |items|
            && (AllWhiteSpace(summary) || kept == |items| ==> Compacted(items, summary, keep) == None)
            && (!AllWhiteSpace(summary) && kept < |items| ==>
                  Compacted(items, summary, keep) == Some([ContextSummary(summary, |items| - kept)] + items[|items| - kept..]))
  {
    hide AllWhiteSpace;
  }

  /** Entries of one kind in a row. */
  predicate AllCalls(items: seq<Item>) {
    forall i :: 0 <= i < |items| ==> items[i].ToolCall?
  }

  predicate AllObservations(items: seq<Item>) {
    forall i :: 0 <= i < |items| ==> items[i].Observation?
  }

  /** Reasoning that may lead to calls, the calls, and their observations. */
  predicate IsGroup(reasoning: seq<Item>, calls: seq<Item>, observations: seq<Item>) {
    && |reasoning| <= 1 && (reasoning != [] ==> reasoning[0].AssistantWithReasoning?)
    && AllCalls(calls) && AllObservations(observations) && calls + observations != []
  }

  /** Whether what stands before a group does not belong to it. */
  predicate StartsAnew(head: seq<Item>, first: Item) {
    head == [] ||
    var last := head[|head| - 1];
    || !(first.ToolCall? || first.Observation?)
    || (!last.ToolCall? && !last.AssistantWithReasoning? && !(last.Observation? && first.Observation?))
  }

  lemma GroupIsGlued(reasoning: seq<Item>, calls: seq<Item>, observations: seq<Item>, m: nat)
    requires IsGroup(reasoning, calls, observations) && 0 < m < |reasoning + calls + observations|
    ensures var group := reasoning + calls + observations; Glued(group[m - 1], group[m])
  {
    var r, c := |reasoning|, |reasoning| + |calls|;
    var group := reasoning + calls + observations;
    assert group[m] == if m < c then calls[m - r] else observations[m - c];
    assert group[m - 1] == if m - 1 < r then reasoning[m - 1] else if m - 1 < c then calls[m - 1 - r] else observations[m - 1 - c];
  }

  /** A cut that is wanted inside a group of tool calls is moved to its beginning, whatever precedes and follows. */
  lemma GroupsStayWhole(
    head: seq<Item>, reasoning: seq<Item>, calls: seq<Item>, observations: seq<Item>, tail: seq<Item>, split: nat)
    requires IsGroup(reasoning, calls, observations)
    requires StartsAnew(head, (reasoning + calls + observations)[0])
    requires |head| <= split < |head| + |reasoning + calls + observations|
    ensures Boundary(head + (reasoning + calls + observations) + tail, split) == |head|
  {
    hide Glued;
    var group := reasoning + calls + observations;
    var items := head + group + tail;
    forall cut | |head| < cut <= split ensures !Safe(items, cut) {
      GroupIsGlued(reasoning, calls, observations, cut - |head|);
      assert items[cut] == group[cut - |head|] && items[cut - 1] == group[cut - 1 - |head|];
    }
    if head != [] {
      NotGluedBefore(head, group[0]);
    }
    assert head != [] ==> items[|head|] == group[0] && items[|head| - 1] == head[|head| - 1];
    assert Safe(items, |head|);
  }

  lemma NotGluedBefore(head: seq<Item>, first: Item)
    requires StartsAnew(head, first) && head != []
    ensures !Glued(head[|head| - 1], first)
  {
  }

  /** Outside groups every cut is taken as it is: before a text entry, and behind one. */
  lemma TextMayBeCut(items: seq<Item>, split: nat)
    requires split < |items|
    requires !(items[split].ToolCall? || items[split].Observation?)
             || (split > 0 && (items[split - 1].User? || items[split - 1].Assistant? || items[split - 1].System? || items[split - 1].ContextSummary?))
    ensures Boundary(items, split) == split
  {
  }

  // ---- Tool calls and their observations ----

  /** The observation at `j` follows its call within one uncut group. */
  ghost predicate Answers(items: seq<Item>, i: nat, j: nat)
    requires i < j < |items|
  {
    && items[i].ToolCall? && items[j].Observation? && items[i].callId == items[j].callId
    && forall m :: i < m <= j ==> !Safe(items, m)
  }

  ghost predicate Complete(items: seq<Item>) {
    forall j :: 0 <= j < |items| && items[j].Observation? ==> exists i :: 0 <= i < j && Answers(items, i, j)
  }

  lemma SafeInSuffix(items: seq<Item>, cut: nat, head: Item, m: nat)
    requires cut <= |items| && 1 < m < 1 + |items| - cut
    ensures Safe([head] + items[cut..], m) <==> Safe(items, cut + m - 1)
  {
    var after := [head] + items[cut..];
    assert after[m] == items[cut + m - 1] && after[m - 1] == items[cut + m - 2];
  }

  lemma AnswerIsKept(items: seq<Item>, cut: nat, head: Item, i: nat, j: nat)
    requires cut <= j < |items| && i < j && Safe(items, cut) && Answers(items, i, j)
    ensures cut <= i && Answers([head] + items[cut..], 1 + i - cut, 1 + j - cut)
  {
    hide Safe;
    var after := [head] + items[cut..];
    assert cut <= i;
    forall m | 1 + i - cut < m <= 1 + j - cut ensures !Safe(after, m) {
      SafeInSuffix(items, cut, head, m);
      assert !Safe(items, cut + m - 1);
    }
  }

  /** Cut at a safe place and headed by a summary, a history in which every observation has its call still is one. */
  lemma CutKeepsComplete(items: seq<Item>, cut: nat, head: Item)
    requires Complete(items) && cut <= |items| && Safe(items, cut) && !head.Observation?
    ensures Complete([head] + items[cut..])
  {
    hide Safe, Answers;
    var after := [head] + items[cut..];
    forall j | 0 <= j < |after| && after[j].Observation? ensures exists i :: 0 <= i < j && Answers(after, i, j) {
      var was := cut + j - 1;
      assert items[was] == after[j];
      var i :| 0 <= i < was && Answers(items, i, was);
      AnswerIsKept(items, cut, head, i, was);
      assert Answers(after, 1 + i - cut, j);
    }
  }

  lemma CompactionKeepsComplete(items: seq<Item>, summary: string, keep: nat)
    requires Complete(items) && Compacted(items, summary, keep).Some?
    ensures Complete(Compacted(items, summary, keep).value)
  {
    hide Complete;
    var cut := SplitIndex(items, keep).value;
    CutKeepsComplete(items, cut, ContextSummary(summary, cut));
  }

  lemma SafeInTail(items: seq<Item>, m: nat)
    requires 0 < m < |items| - 1
    ensures Safe(items[1..], m) <==> Safe(items, m + 1)
  {
    assert items[1..][m] == items[m + 1] && items[1..][m - 1] == items[m];
  }

  lemma AnswersInTail(items: seq<Item>, i: nat, j: nat)
    requires items != [] && i < j < |items| - 1
    ensures Answers(items[1..], i, j) <==> Answers(items, i + 1, j + 1)
  {
    hide Safe;
    var tail := items[1..];
    if Answers(tail, i, j) {
      forall m: nat | i + 1 < m <= j + 1 ensures !Safe(items, m) {
        SafeInTail(items, m - 1);
        assert !Safe(tail, m - 1);
      }
    }
    if Answers(items, i + 1, j + 1) {
      forall m: nat | i < m <= j ensures !Safe(tail, m) {
        SafeInTail(items, m);
        assert !Safe(items, m + 1);
      }
    }
  }

  ghost predicate Answered(items: seq<Item>, j: nat)
    requires j < |items|
  {
    exists i :: 0 <= i < j && Answers(items, i, j)
  }

  /** Whatever the first entry answers, another call answers as well. */
  ghost predicate FirstIsSpare(items: seq<Item>) {
    forall j :: 0 < j < |items| && Answers(items, 0, j) ==> exists i :: 0 < i < j && Answers(items, i, j)
  }

  lemma AnsweredInTail(items: seq<Item>, j: nat)
    requires 0 < j < |items|
    ensures Answered(items[1..], j - 1) <==> exists i :: 0 < i < j && Answers(items, i, j)
  {
    hide Answers;
    forall i: nat | 0 < i < j ensures Answers(items[1..], i - 1, j - 1) <==> Answers(items, i, j) {
      AnswersInTail(items, i - 1, j - 1);
    }
    if Answered(items[1..], j - 1) {
      var i :| 0 <= i < j - 1 && Answers(items[1..], i, j - 1);
      assert Answers(items, i + 1, j);
    }
  }

  lemma CompleteIff(items: seq<Item>)
    ensures Complete(items) <==> forall j :: 0 <= j < |items| && items[j].Observation? ==> Answered(items, j)
  {
    hide Answers;
  }

  lemma AnsweredIsObservation(items: seq<Item>, i: nat, j: nat)
    requires i < j < |items| && Answers(items, i, j)
    ensures items[j].Observation?
  {
  }

  lemma TailIsComplete(items: seq<Item>)
    requires Complete(items) && items != [] && FirstIsSpare(items)
    ensures Complete(items[1..])
  {
    hide Answers, Complete, Answered;
    CompleteIff(items);
    forall j | 0 <= j < |items| - 1 && items[1..][j].Observation? ensures Answered(items[1..], j) {
      AnsweredInTail(items, j + 1);
      assert Answered(items, j + 1);
      var i := Answerer(items, j + 1);
      if i == 0 {
        assert Answers(items, 0, j + 1);
      }
    }
    CompleteIff(items[1..]);
  }

  lemma Answerer(items: seq<Item>, j: nat) returns (i: nat)
    requires j < |items| && Answered(items, j)
    ensures i < j && Answers(items, i, j)
  {
    hide Answers;
    i :| 0 <= i < j && Answers(items, i, j);
  }

  lemma TailNeedsSpare(items: seq<Item>)
    requires items != [] && Complete(items[1..])
    ensures FirstIsSpare(items)
  {
    hide Answers, Complete, Answered;
    CompleteIff(items[1..]);
    forall j | 0 < j < |items| && Answers(items, 0, j) ensures exists i :: 0 < i < j && Answers(items, i, j) {
      AnsweredIsObservation(items, 0, j);
      assert items[1..][j - 1].Observation?;
      AnsweredInTail(items, j);
    }
  }

  /** Dropping the first entry keeps every observation's call exactly when that entry is no call, or a spare one. */
  lemma EvictionKeepsCompleteIff(items: seq<Item>)
    requires Complete(items) && items != []
    ensures Complete(items[1..]) <==> FirstIsSpare(items)
  {
    hide *;
    if FirstIsSpare(items) {
      TailIsComplete(items);
    } else if Complete(items[1..]) {
      TailNeedsSpare(items);
    }
  }

  lemma AnswersBefore(items: seq<Item>, item: Item, i: nat, j: nat)
    requires i < j < |items|
    ensures Answers(items + [item], i, j) <==> Answers(items, i, j)
  {
    var all := items + [item];
    assert forall m: nat :: m < |items| ==> all[m] == items[m];
    forall m: nat | 0 < m < |items| ensures Safe(all, m) <==> Safe(items, m) {
    }
    hide Safe;
  }

  /** Appending an entry keeps every observation's call exactly when the entry has its own, if it needs one. */
  lemma AppendKeepsCompleteIff(items: seq<Item>, item: Item)
    requires Complete(items)
    ensures Complete(items + [item]) <==> (item.Observation? ==> Answered(items + [item], |items|))
  {
    hide Answers, Complete, Answered;
    var all := items + [item];
    CompleteIff(items);
    CompleteIff(all);
    forall j | 0 <= j < |items| && all[j].Observation? ensures Answered(all, j) {
      assert items[j].Observation?;
      var i := Answerer(items, j);
      AnswersBefore(items, item, i, j);
      AnsweredBy(all, i, j);
    }
  }

  lemma AnsweredBy(items: seq<Item>, i: nat, j: nat)
    requires i < j < |items| && Answers(items, i, j)
    ensures Answered(items, j)
  {
    hide Answers;
  }

  lemma TailOfIncomplete(items: seq<Item>, item: Item)
    requires items != [] && Complete((items + [item])[1..]) && item.Observation?
    ensures Answered(items + [item], |items|)
  {
    hide Answers, Complete, Answered;
    var all := items + [item];
    CompleteIff(all[1..]);
    assert all[1..][|items| - 1] == item;
    AnsweredInTail(all, |items|);
    var i :| 0 < i < |items| && Answers(all, i, |items|);
    AnsweredBy(all, i, |items|);
  }

  /**
   Recording keeps every observation's call exactly when the new entry has its call, if it needs
   one, and the entry that is evicted, if there is one, is no call or a spare one.
   */
  lemma RecordKeepsCompleteIff(items: seq<Item>, limit: nat, item: Item)
    requires Complete(items) && |items| <= limit && limit > 0
    ensures Complete(Step(items, limit, Record(item))) <==>
      && (item.Observation? ==> Answered(items + [item], |items|))
      && (|items| < limit || FirstIsSpare(items + [item]))
  {
    hide *;
    var all := items + [item];
    AppendKeepsCompleteIff(items, item);
    RecordStep(items, limit, item);
    if |items| == limit {
      if Complete(all) {
        EvictionKeepsCompleteIff(all);
      } else if Complete(all[1..]) {
        TailOfIncomplete(items, item);
      }
    }
  }

  lemma RecordStep(items: seq<Item>, limit: nat, item: Item)
    requires |items| <= limit && limit > 0
    ensures Step(items, limit, Record(item)) == if |items| < limit then items + [item] else (items + [item])[1..]
  {
  }

  /** A concrete history that loses a call to eviction while its observation stays. */
  lemma EvictionOrphans(id: string, tool: string, result: string, text: string)
    ensures var items := [ToolCall(id, tool), Observation(id, result)];
            Complete(items) && !Complete(Last(items + [User(text, [])], 2))
  {
    var items := [ToolCall(id, tool), Observation(id, result)];
    assert Answers(items, 0, 1);
    assert Last(items + [User(text, [])], 2)[0] == Observation(id, result);
  }

  // ---- Whole runs ----

  datatype Event = Record(item: Item) | Compact(summary: string, keep: nat)

  function Step(items: seq<Item>, limit: nat, e: Event): seq<Item> {
    match e
    case Record(item) => Last(items + [item], limit)
    case Compact(summary, keep) =>
      var compacted := Compacted(items, summary, keep);
      if compacted.Some? then compacted.value else items
  }

  function Run(items: seq<Item>, limit: nat, events: seq<Event>): seq<Item>
    decreases |events|
  {
    if events == [] then items else Run(Step(items, limit, events[0]), limit, events[1..])
  }

  function Everything(events: seq<Event>): seq<Item> {
    if events == [] then []
    else (if events[0].Record? then [events[0].item] else []) + Everything(events[1..])
  }

  predicate Plain(events: seq<Event>) {
    forall i :: 0 <= i < |events| ==> events[i].Record? ==> !events[i].item.ContextSummary?
  }

  predicate Behind(items: seq<Item>, recorded: seq<Item>, k: nat) {
    && k <= |recorded|
    && (items == recorded[k..] || (items != [] && items[0].ContextSummary? && items[1..] == recorded[k..]))
  }

  /** The end of what has been recorded, behind at most one summary. */
  ghost predicate Shape(items: seq<Item>, recorded: seq<Item>) {
    exists k: nat :: Behind(items, recorded, k)
  }

  lemma RecordWithinLimit(items: seq<Item>, recorded: seq<Item>, k: nat, item: Item)
    requires Behind(items, recorded, k)
    ensures Behind(items + [item], recorded + [item], k)
  {
    assert (recorded + [item])[k..] == recorded[k..] + [item];
    if items != recorded[k..] {
      assert (items + [item])[1..] == items[1..] + [item];
    }
  }

  lemma DropFirst(items: seq<Item>, recorded: seq<Item>, k: nat)
    requires Behind(items, recorded, k) && items != []
    ensures Shape(items[1..], recorded)
  {
    if items == recorded[k..] {
      assert items[1..] == recorded[k + 1..];
      assert Behind(items[1..], recorded, k + 1);
    } else {
      assert Behind(items[1..], recorded, k);
    }
  }

  lemma RecordKeepsShape(items: seq<Item>, limit: nat, recorded: seq<Item>, item: Item)
    requires Shape(items, recorded) && |items| <= limit && limit > 0
    ensures Shape(Last(items + [item], limit), recorded + [item]) && |Last(items + [item], limit)| <= limit
  {
    hide Behind;
    var k: nat :| Behind(items, recorded, k);
    RecordWithinLimit(items, recorded, k, item);
    if |items| == limit {
      DropFirst(items + [item], recorded + [item], k);
    }
  }

  lemma CompactKeepsShape(items: seq<Item>, limit: nat, recorded: seq<Item>, summary: string, keep: nat)
    requires Shape(items, recorded) && |items| <= limit && Compacted(items, summary, keep).Some?
    ensures Shape(Compacted(items, summary, keep).value, recorded) && |Compacted(items, summary, keep).value| <= limit
  {
    hide Boundary;
    var cut := SplitIndex(items, keep).value;
    var after := Compacted(items, summary, keep).value;
    var k: nat :| Behind(items, recorded, k);
    assert after[1..] == items[cut..];
    if items == recorded[k..] {
      assert items[cut..] == recorded[k + cut..];
      assert Behind(after, recorded, k + cut);
    } else {
      assert items[cut..] == items[1..][cut - 1..];
      assert items[cut..] == recorded[k + cut - 1..];
      assert Behind(after, recorded, k + cut - 1);
    }
  }

  lemma {:induction false} RunKeepsShape(items: seq<Item>, limit: nat, recorded: seq<Item>, events: seq<Event>)
    requires Shape(items, recorded) && |items| <= limit && limit > 0
    ensures Shape(Run(items, limit, events), recorded + Everything(events)) && |Run(items, limit, events)| <= limit
    decreases |events|
  {
    hide *;
    RunStep(items, limit, events);
    EverythingStep(events);
    if events == [] {
      assert recorded + Everything(events) == recorded;
    } else {
      var rest := Everything(events[1..]);
      match events[0] {
        case Record(item) =>
          RecordKeepsShape(items, limit, recorded, item);
          RunKeepsShape(Last(items + [item], limit), limit, recorded + [item], events[1..]);
          assert recorded + Everything(events) == recorded + [item] + rest;
        case Compact(summary, keep) =>
          var compacted := Compacted(items, summary, keep);
          if compacted.Some? {
            CompactKeepsShape(items, limit, recorded, summary, keep);
          }
          RunKeepsShape(if compacted.Some? then compacted.value else items, limit, recorded, events[1..]);
      }
    }
  }

  lemma RunStep(items: seq<Item>, limit: nat, events: seq<Event>)
    ensures events == [] ==> Run(items, limit, events) == items
    ensures events != [] && events[0].Record? ==>
      Run(items, limit, events) == Run(Last(items + [events[0].item], limit), limit, events[1..])
    ensures events != [] && events[0].Compact? ==>
      var compacted := Compacted(items, events[0].summary, events[0].keep);
      Run(items, limit, events) == Run(if compacted.Some? then compacted.value else items, limit, events[1..])
  {
    hide Compacted, Last;
  }

  lemma EverythingStep(events: seq<Event>)
    ensures events == [] ==> Everything(events) == []
    ensures events != [] && events[0].Record? ==> Everything(events) == [events[0].item] + Everything(events[1..])
    ensures events != [] && events[0].Compact? ==> Everything(events) == Everything(events[1..])
  {
  }

  /**
   In every run the history stays within its limit and is the end of everything recorded, behind at
   most one summary: the entries behind the first are no summaries, and none is out of place.
   */
  lemma RunIsSuffix(limit: nat, events: seq<Event>)
    requires limit > 0 && Plain(events)
    ensures |Run([], limit, events)| <= limit && Shape(Run([], limit, events), Everything(events))
    ensures forall i :: 0 < i < |Run([], limit, events)| ==> !Run([], limit, events)[i].ContextSummary?
  {
    hide Run;
    var recorded, items := Everything(events), Run([], limit, events);
    var none: seq<Item> := [];
    assert Behind(none, none, 0);
    RunKeepsShape(none, limit, none, events);
    assert none + recorded == recorded;
    PlainIsFree(events);
    var k: nat :| Behind(items, recorded, k);
    forall i | 0 < i < |items| ensures !items[i].ContextSummary? {
      assert items == recorded[k..] ==> items[i] == recorded[k + i];
      assert items[1..] == recorded[k..] ==> items[1..][i - 1] == recorded[k + i - 1];
    }
  }

  lemma {:induction false} PlainIsFree(events: seq<Event>)
    requires Plain(events)
    ensures forall i :: 0 <= i < |Everything(events)| ==> !Everything(events)[i].ContextSummary?
  {
    if events != [] {
      assert events[0].Record? ==> !events[0].item.ContextSummary?;
      PlainIsFree(events[1..]);
    }
  }

  // ---- The history as the object it is ----

  class RuntimeHistory {
    var items: seq<Item>
    const maxItems: nat
    const maxObservationBytes: nat

    ghost predicate Valid()
      reads this
    {
      maxItems > 0 && |items| <= maxItems
    }

    constructor ()
      ensures Valid() && items == []
      ensures maxItems == 200 && maxObservationBytes == 4096
    {
      items := [];
      maxItems, maxObservationBytes := DEFAULT_MAX_ITEMS, DEFAULT_MAX_OBSERVATION_BYTES;
    }

    constructor WithLimits(maxItems: nat, maxObservationBytes: nat)
      ensures Valid() && items == []
      ensures this.maxItems == (if maxItems == 0 then 1 else maxItems) && this.maxObservationBytes == maxObservationBytes
    {
      items := [];
      this.maxItems := if maxItems > 1 then maxItems else 1;
      this.maxObservationBytes := maxObservationBytes;
    }

    constructor FromItems(saved: seq<Item>)
      ensures Valid() && items == Last(saved, 200)
      ensures maxItems == 200 && maxObservationBytes == 4096
    {
      items := saved;
      maxItems, maxObservationBytes := DEFAULT_MAX_ITEMS, DEFAULT_MAX_OBSERVATION_BYTES;
      new;
      if |items| > maxItems {
        var overflow := |items| - maxItems;
        items := items[overflow..];
      }
    }

    method Record(item: Item)
      requires Valid()
      modifies this
      ensures Valid() && items == Step(old(items), maxItems, Event.Record(item))
    {
      items := items + [item];
      if |items| > maxItems {
        var overflow := |items| - maxItems;
        items := items[overflow..];
      }
    }

    method RecordAssistant(text: string, reasoning: string)
      requires Valid()
      modifies this
      ensures Valid()
      ensures items == Last(old(items) + [if reasoning == "" then Assistant(text) else AssistantWithReasoning(text, reasoning)], maxItems)
    {
      if reasoning == "" {
        Record(Assistant(text));
      } else {
        Record(AssistantWithReasoning(text, reasoning));
      }
    }

    method RecordContextSummary(text: string, originalItems: nat)
      requires Valid()
      modifies this
      ensures Valid()
      ensures items == if AllWhiteSpace(text) then old(items) else Last(old(items) + [ContextSummary(text, originalItems)], maxItems)
    {
      if AllWhiteSpace(text) {
        return;
      }
      Record(ContextSummary(text, originalItems));
    }

    method CompactOldItems(summary: string, keep: nat) returns (compacted: bool)
      requires Valid()
      modifies this
      ensures Valid() && items == Step(old(items), maxItems, Compact(summary, keep))
      ensures compacted == Compacted(old(items), summary, keep).Some?
    {
      hide Boundary;
      if AllWhiteSpace(summary) {
        return false;
      }
      var split := CompactionSplitIndex(keep);
      if split.None? {
        return false;
      }
      var suffix := items[split.value..];
      items := [];
      items := items + [ContextSummary(summary, split.value)];
      items := items + suffix;
      return true;
    }

    /** The entries that a compaction would summarise; with what it retains they are the whole history. */
    method CompactionPrefix(keep: nat) returns (prefix: Option<seq<Item>>)
      requires Valid()
      ensures prefix.Some? == SplitIndex(items, keep).Some?
      ensures prefix.Some? ==> |prefix.value| == SplitIndex(items, keep).value
      ensures prefix.Some? ==>
        forall summary :: !AllWhiteSpace(summary) ==>
          && Compacted(items, summary, keep).Some?
          && Compacted(items, summary, keep).value[0] == ContextSummary(summary, |prefix.value|)
          && prefix.value + Compacted(items, summary, keep).value[1..] == items
    {
      var split := CompactionSplitIndex(keep);
      if split.None? {
        return None;
      }
      prefix := Some(items[..split.value]);
    }

    method CompactionSplitIndex(keep: nat) returns (split: Option<nat>)
      requires Valid()
      ensures split == SplitIndex(items, keep)
      ensures split.Some? ==> 0 < split.value < |items|
    {
      if |items| <= 1 {
        return None;
      }
      var kept := if keep < 1 then 1 else keep;
      kept := if kept > |items| - 1 then |items| - 1 else kept;
      var cut := CompactionToolBoundary(|items| - kept);
      if cut > 0 {
        split := Some(cut);
      } else {
        split := None;
      }
    }

    /** Steps back over observations, then calls, then a reasoning reply: together to the last safe cut. */
    method CompactionToolBoundary(start: nat) returns (split: nat)
      requires Valid()
      ensures split == Boundary(items, start)
    {
      split := start;
      if split >= |items| {
        return;
      }
      match items[split] {
        case Observation(_, _) =>
          while split > 0 && items[split - 1].Observation?
            invariant split <= start < |items| && items[split].Observation?
            invariant Boundary(items, start) == Boundary(items, split)
          {
            split := split - 1;
          }
          while split > 0 && items[split - 1].ToolCall?
            invariant split <= start < |items| && (items[split].Observation? || items[split].ToolCall?)
            invariant items[split].Observation? ==> split == 0 || !items[split - 1].Observation?
            invariant Boundary(items, start) == Boundary(items, split)
          {
            split := split - 1;
          }
        case ToolCall(_, _) =>
          while split > 0 && items[split - 1].ToolCall?
            invariant split <= start < |items| && items[split].ToolCall?
            invariant Boundary(items, start) == Boundary(items, split)
          {
            split := split - 1;
          }
        case _ =>
      }
      if split > 0 && (items[split].ToolCall? || items[split].Observation?) && items[split - 1].AssistantWithReasoning? {
        split := split - 1;
      }
    }
  }
}
