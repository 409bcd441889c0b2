/**
 The ids and environments of agents in main/src/ai_chat_acp.rs: every entry gets an id of its own,
 and the user's variables are merged into an agent's environment.
 */
module AgentIds {
  import opened Results
  import opened Text
  import NaturalOrder

  datatype Config = Config(id: string, name: string, command: string)

  datatype Entry = Entry(id: string, name: string, config: Option<Config>, diagnostic: Option<string>)

  // ---- Trimming ----

  function TrimStart(s: string): (r: string)
    ensures r != "" ==> !IsWhiteSpace(r[0])
  {
    if s != "" && IsWhiteSpace(s[0]) then TrimStart(s[1..]) else s
  }

  function TrimEnd(s: string): (r: string)
    ensures r <= s
    ensures r != "" ==> !IsWhiteSpace(r[|r| - 1])
  {
    if s != "" && IsWhiteSpace(s[|s| - 1]) then TrimEnd(s[..|s| - 1]) else s
  }

  /** An id that has something in it and no white space at its ends. */
  predicate Tidy(id: string) {
    id != "" && !IsWhiteSpace(id[0]) && !IsWhiteSpace(id[|id| - 1])
  }

  function NonEmptyOrElse(value: string, fallback: string): (r: string)
    ensures Tidy(fallback) ==> Tidy(r)
    ensures Tidy(value) ==> r == value
  {
    var trimmed := TrimEnd(TrimStart(value));
    if trimmed == "" then fallback else trimmed
  }

  lemma {:induction false} TrimStartOf(before: string, s: string)
    requires AllWhiteSpace(before) && (s != "" ==> !IsWhiteSpace(s[0]))
    ensures TrimStart(before + s) == s
  {
    hide IsWhiteSpace;
    if before == "" {
      assert before + s == s;
    } else {
      assert (before + s)[1..] == before[1..] + s;
      TrimStartOf(before[1..], s);
    }
  }

  lemma {:induction false} TrimEndOf(s: string, after: string)
    requires AllWhiteSpace(after) && (s != "" ==> !IsWhiteSpace(s[|s| - 1]))
    ensures TrimEnd(s + after) == s
  {
    hide IsWhiteSpace;
    if after == "" {
      assert s + after == s;
    } else {
      var last := |after| - 1;
      assert (s + after)[..|s + after| - 1] == s + after[..last];
      TrimEndOf(s, after[..last]);
    }
  }

  /** White space around a value is cut off, and a value of white space alone is replaced. */
  lemma PaddedOrBlank(before: string, core: string, after: string, fallback: string)
    requires AllWhiteSpace(before) && AllWhiteSpace(after) && (core == "" || Tidy(core))
    ensures NonEmptyOrElse(before + core + after, fallback) == if core == "" then fallback else core
  {
    hide IsWhiteSpace, TrimStart, TrimEnd;
    if core == "" {
      var all := before + core + after;
      assert forall i :: 0 <= i < |all| ==> IsWhiteSpace(all[i]);
      TrimStartOf(all, "");
      TrimEndOf("", "");
      assert all + "" == all;
    } else {
      assert before + core + after == before + (core + after);
      TrimStartOf(before, core + after);
      TrimEndOf(core, after);
    }
  }

  /** Every value is white space around a core that is empty or tidy. */
  lemma CoreOf(value: string) returns (before: string, core: string, after: string)
    ensures AllWhiteSpace(before) && AllWhiteSpace(after) && (core == "" || Tidy(core)) && value == before + core + after
  {
    hide IsWhiteSpace;
    before := StartOf(value);
    core := TrimEnd(TrimStart(value));
    after := EndOf(TrimStart(value));
    assert value == before + (core + after);
  }

  lemma {:induction false} StartOf(s: string) returns (before: string)
    ensures AllWhiteSpace(before) && s == before + TrimStart(s)
  {
    hide IsWhiteSpace;
    if s != "" && IsWhiteSpace(s[0]) {
      var more := StartOf(s[1..]);
      before := [s[0]] + more;
    } else {
      before := "";
    }
  }

  lemma {:induction false} EndOf(s: string) returns (after: string)
    ensures AllWhiteSpace(after) && s == TrimEnd(s) + after
  {
    hide IsWhiteSpace;
    if s != "" && IsWhiteSpace(s[|s| - 1]) {
      var more := EndOf(s[..|s| - 1]);
      after := more + [s[|s| - 1]];
      assert s == s[..|s| - 1] + [s[|s| - 1]];
    } else {
      after := "";
    }
  }

  // ---- One id that is not in use ----

  function Candidate(base: string, suffix: nat): string {
    base + "-" + NaturalOrder.Print(suffix)
  }

  lemma CandidatesDiffer(base: string, j: nat, k: nat)
    requires Candidate(base, j) == Candidate(base, k)
    ensures j == k
  {
    hide *;
    PrintedOf(base, j);
    PrintedOf(base, k);
    DecimalOfPrinted(j);
    DecimalOfPrinted(k);
  }

  lemma PrintedOf(base: string, k: nat)
    ensures Candidate(base, k) != base && |base| + 1 <= |Candidate(base, k)|
    ensures Candidate(base, k)[|base| + 1..] == NaturalOrder.Print(k)
  {
  }

  lemma DecimalOfPrinted(k: nat)
    ensures NaturalOrder.Digits(NaturalOrder.Print(k)) && NaturalOrder.Decimal(NaturalOrder.Print(k)) == k
  {
  }

  function CandidatesTo(base: string, k: nat): set<string> {
    if k < 2 then {} else CandidatesTo(base, k - 1) + {Candidate(base, k)}
  }

  lemma {:induction false} CandidatesCount(base: string, k: nat)
    ensures |CandidatesTo(base, k)| == (if k < 2 then 0 else k - 1)
    ensures forall id :: id in CandidatesTo(base, k) ==> exists j :: 2 <= j <= k && id == Candidate(base, j)
  {
    hide Candidate;
    if k >= 2 {
      CandidatesCount(base, k - 1);
      if Candidate(base, k) in CandidatesTo(base, k - 1) {
        var j :| 2 <= j <= k - 1 && Candidate(base, k) == Candidate(base, j);
        CandidatesDiffer(base, j, k);
        assert false;
      }
      forall id | id in CandidatesTo(base, k) ensures exists j :: 2 <= j <= k && id == Candidate(base, j) {
        if id in CandidatesTo(base, k - 1) {
          var j :| 2 <= j <= k - 1 && id == Candidate(base, j);
        }
      }
    }
  }

  /** If the base and the candidates up to `k` are all in use, then at least `k` ids are. */
  lemma Pigeonhole(base: string, used: set<string>, k: nat)
    requires base in used && k >= 2 && forall j :: 2 <= j <= k ==> Candidate(base, j) in used
    ensures k <= |used|
  {
    hide Candidate, CandidatesTo;
    CandidatesCount(base, k);
    var taken := CandidatesTo(base, k);
    forall id | id in taken ensures id in used && id != base {
      var j :| 2 <= j <= k && id == Candidate(base, j);
      PrintedOf(base, j);
    }
    assert |taken + {base}| == |taken| + 1;
    Smaller(taken + {base}, used);
  }

  lemma {:induction false} Smaller(a: set<string>, b: set<string>)
    requires a <= b
    ensures |a| <= |b|
  {
    if a != {} {
      var x :| x in a;
      Smaller(a - {x}, b - {x});
    }
  }

  /** The least suffix from `k` on whose candidate is not in use; there is one within as many tries as there are ids. */
  function FirstFree(base: string, used: set<string>, k: nat): (suffix: nat)
    requires base in used && k >= 2 && forall j :: 2 <= j < k ==> Candidate(base, j) in used
    ensures k <= suffix && Candidate(base, suffix) !in used
    ensures forall j :: 2 <= j < suffix ==> Candidate(base, j) in used
    ensures suffix <= |used| + 1
    decreases |used| + 1 - k
  {
    assert k > 2 ==> k - 1 <= |used| by {
      if k > 2 {
        Pigeonhole(base, used, k - 1);
      }
    }
    assert |used| >= 1 by {
      Smaller({base}, used);
    }
    if Candidate(base, k) !in used then k
    else
      Pigeonhole(base, used, k);
      FirstFree(base, used, k + 1)
  }

  function UniqueId(base: string, used: set<string>): (id: string)
    ensures id !in used
    ensures id == base <==> base !in used
  {
    if base !in used then base
    else
      var suffix := FirstFree(base, used, 2);
      PrintedOf(base, suffix);
      Candidate(base, suffix)
  }

  /** The first id that is free, found with no more candidates tried than ids in use. */
  method MakeUnique(base: string, used: set<string>) returns (id: string, nowUsed: set<string>, ghost tries: nat)
    ensures id == UniqueId(base, used) && nowUsed == used + {id}
    ensures tries <= |used|
  {
    hide Candidate;
    tries := 0;
    if base !in used {
      return base, used + {base}, 0;
    }
    var suffix := 2;
    while true
      invariant suffix == tries + 2 && suffix <= FirstFree(base, used, 2)
      invariant forall j :: 2 <= j < suffix ==> Candidate(base, j) in used
      decreases FirstFree(base, used, 2) - suffix
    {
      var candidate := Candidate(base, suffix);
      tries := tries + 1;
      if candidate !in used {
        return candidate, used + {candidate}, tries;
      }
      suffix := suffix + 1;
    }
  }

  // ---- All entries ----

  function Fallback(index: nat): string {
    "acp-agent-" + NaturalOrder.Print(index + 1)
  }

  lemma DigitsAreTidy(prefix: string, n: nat)
    requires prefix != "" && !IsWhiteSpace(prefix[0])
    ensures Tidy(prefix + NaturalOrder.Print(n))
  {
    hide NaturalOrder.Print;
    var digits := NaturalOrder.Print(n);
    assert IsDigit(digits[|digits| - 1]);
  }

  function Base(entry: Entry, index: nat): (base: string)
    ensures Tidy(base)
    ensures Tidy(entry.id) ==> base == entry.id
  {
    DigitsAreTidy("acp-agent-", index + 1);
    NonEmptyOrElse(entry.id, Fallback(index))
  }

  function WithId(entry: Entry, id: string): Entry {
    entry.(id := id, config := if entry.config.Some? then Some(entry.config.value.(id := id)) else None)
  }

  function Ids(entries: seq<Entry>): set<string> {
    set entry | entry in entries :: entry.id
  }

  /** Entries from the last to the first: each takes an id that none before it has. */
  function Normalized(entries: seq<Entry>): (r: seq<Entry>)
    ensures |r| == |entries|
  {
    if entries == [] then []
    else
      var last := |entries| - 1;
      var before := Normalized(entries[..last]);
      before + [WithId(entries[last], UniqueId(Base(entries[last], last), Ids(before)))]
  }

  lemma UniqueIdIsTidy(base: string, used: set<string>)
    requires Tidy(base)
    ensures Tidy(UniqueId(base, used))
  {
    hide IsWhiteSpace, FirstFree;
    if base in used {
      DigitsAreTidy(base + "-", FirstFree(base, used, 2));
    }
  }

  lemma {:induction false} NormalizedPrefix(entries: seq<Entry>, n: nat)
    requires n <= |entries|
    ensures Normalized(entries)[..n] == Normalized(entries[..n])
    decreases |entries|
  {
    hide UniqueId, Base, Ids, WithId;
    if n < |entries| {
      var last := |entries| - 1;
      NormalizedPrefix(entries[..last], n);
      assert entries[..last][..n] == entries[..n];
    } else {
      assert entries[..n] == entries;
    }
  }

  lemma NormalizedAt(entries: seq<Entry>, i: nat)
    requires i < |entries|
    ensures var before := Normalized(entries[..i]);
            Normalized(entries)[i] == WithId(entries[i], UniqueId(Base(entries[i], i), Ids(before)))
            && before == Normalized(entries)[..i]
  {
    hide UniqueId, Base, Ids, WithId;
    NormalizedPrefix(entries, i + 1);
    NormalizedPrefix(entries, i);
    var upTo := entries[..i + 1];
    assert upTo[..i] == entries[..i];
    assert Normalized(entries)[i] == Normalized(entries)[..i + 1][i];
  }

  predicate Distinct(entries: seq<Entry>) {
    forall i, j :: 0 <= i < j < |entries| ==> entries[i].id != entries[j].id
  }

  lemma IdIsAmong(entries: seq<Entry>, i: nat)
    requires i < |entries|
    ensures entries[i].id in Ids(entries)
  {
  }

  /** Afterwards no two entries share an id, every id is tidy, a config has its entry's id, and nothing else has changed. */
  lemma IdsAreDistinct(entries: seq<Entry>)
    ensures var r := Normalized(entries);
            && Distinct(r)
            && (forall i :: 0 <= i < |r| ==> Tidy(r[i].id))
            && (forall i :: 0 <= i < |r| && r[i].config.Some? ==> r[i].config.value.id == r[i].id)
            && (forall i :: 0 <= i < |r| ==> r[i] == WithId(entries[i], r[i].id))
  {
    hide Normalized, UniqueId, Tidy, Base, Ids, Distinct;
    var r := Normalized(entries);
    forall i | 0 <= i < |r|
      ensures Tidy(r[i].id) && (r[i].config.Some? ==> r[i].config.value.id == r[i].id) && r[i] == WithId(entries[i], r[i].id)
      ensures r[i].id !in Ids(r[..i])
    {
      NormalizedAt(entries, i);
      UniqueIdIsTidy(Base(entries[i], i), Ids(r[..i]));
    }
    NoneBefore(r);
  }

  lemma NoneBefore(entries: seq<Entry>)
    requires forall i :: 0 <= i < |entries| ==> entries[i].id !in Ids(entries[..i])
    ensures Distinct(entries)
  {
    hide Ids;
    forall i, j | 0 <= i < j < |entries| ensures entries[i].id != entries[j].id {
      IdIsAmong(entries[..j], i);
    }
  }

  /** An entry keeps its own id exactly when no entry before it ends up with that id. */
  lemma KeepsBaseIff(entries: seq<Entry>, i: nat)
    requires i < |entries|
    ensures Normalized(entries)[i].id == Base(entries[i], i) <==> Base(entries[i], i) !in Ids(Normalized(entries)[..i])
  {
    hide Normalized, Base, Ids;
    NormalizedAt(entries, i);
  }

  /** With a collision the id is the base and the least suffix from 2 on that is free. */
  lemma CollisionTakesLeastSuffix(entries: seq<Entry>, i: nat) returns (suffix: nat)
    requires i < |entries| && Base(entries[i], i) in Ids(Normalized(entries)[..i])
    ensures 2 <= suffix <= i + 1 && Normalized(entries)[i].id == Candidate(Base(entries[i], i), suffix)
    ensures forall k :: 2 <= k < suffix ==> Candidate(Base(entries[i], i), k) in Ids(Normalized(entries)[..i])
  {
    hide Normalized, Base, Ids, Candidate, FirstFree;
    NormalizedAt(entries, i);
    var before := Normalized(entries)[..i];
    suffix := FirstFree(Base(entries[i], i), Ids(before), 2);
    IdsAtMost(before);
  }

  lemma {:induction false} IdsAtMost(entries: seq<Entry>)
    ensures |Ids(entries)| <= |entries|
  {
    if entries != [] {
      var last := |entries| - 1;
      IdsAtMost(entries[..last]);
      assert Ids(entries) == Ids(entries[..last]) + {entries[last].id} by {
        assert entries == entries[..last] + [entries[last]];
      }
    }
  }

  /** Nothing but the ids of an entry and of its config is touched. */
  lemma OnlyIdsChange(entries: seq<Entry>, i: nat)
    requires i < |entries|
    ensures var e, r := entries[i], Normalized(entries)[i];
            && r.name == e.name && r.diagnostic == e.diagnostic && r.config.Some? == e.config.Some?
            && (e.config.Some? ==> r.config.value == Config(r.id, e.config.value.name, e.config.value.command))
  {
    hide Normalized;
    IdsAreDistinct(entries);
  }

  /** What an entry's id is made of: itself without the white space around it, or its place in the list counted from one. */
  lemma BaseIs(entry: Entry, index: nat, before: string, core: string, after: string)
    requires AllWhiteSpace(before) && AllWhiteSpace(after) && (core == "" || Tidy(core)) && entry.id == before + core + after
    ensures Base(entry, index) == if core == "" then "acp-agent-" + NaturalOrder.Print(index + 1) else core
  {
    hide IsWhiteSpace, Tidy, NonEmptyOrElse, NaturalOrder.Print;
    PaddedOrBlank(before, core, after, Fallback(index));
  }

  /** The ids in plain characters: the first entry of a base has it, the next with the same base gets `-2` behind it. */
  lemma SecondOfABase(first: Entry, second: Entry)
    ensures var ids := Normalized([first, second]);
            && ids[0].id == Base(first, 0)
            && ids[1].id == if Base(second, 1) == Base(first, 0) then Base(second, 1) + "-2" else Base(second, 1)
  {
    hide Normalized, Base, UniqueId;
    var entries := [first, second];
    NormalizedAt(entries, 0);
    NormalizedAt(entries, 1);
    assert entries[..0] == [] && entries[..1] == [first];
    NothingNormalized();
    NormalizedAt([first], 0);
    assert [first][..0] == [];
    assert Normalized([first])[0].id == Base(first, 0);
    OneId(Normalized([first]));
    if Base(second, 1) == Base(first, 0) {
      SecondId(Base(first, 0));
    }
  }

  lemma OneId(entries: seq<Entry>)
    requires |entries| == 1
    ensures Ids(entries) == {entries[0].id}
  {
    assert entries == [entries[0]];
  }

  lemma SecondId(base: string)
    ensures UniqueId(base, {base}) == base + "-2"
  {
    hide FirstFree;
    PrintedOf(base, 2);
    var suffix := FirstFree(base, {base}, 2);
    assert suffix == 2;
    assert NaturalOrder.Print(2) == [NaturalOrder.Digit(2)] == "2";
    assert base + "-" + "2" == base + "-2";
  }

  /** Doing it again changes nothing. */
  lemma NormalizedIsIdempotent(entries: seq<Entry>)
    ensures Normalized(Normalized(entries)) == Normalized(entries)
  {
    hide Normalized;
    IdsAreDistinct(entries);
    SettledStays(Normalized(entries));
  }

  predicate Settled(entries: seq<Entry>) {
    && Distinct(entries)
    && (forall i :: 0 <= i < |entries| ==> Tidy(entries[i].id))
    && (forall i :: 0 <= i < |entries| && entries[i].config.Some? ==> entries[i].config.value.id == entries[i].id)
  }

  lemma {:induction false} SettledStays(entries: seq<Entry>)
    requires Settled(entries)
    ensures Normalized(entries) == entries
  {
    hide *;
    if entries == [] {
      NothingNormalized();
    } else {
      var last := |entries| - 1;
      SettledLast(entries);
      SettledStays(entries[..last]);
      NormalizedNext(entries, last);
      assert entries[..last + 1] == entries == entries[..last] + [entries[last]];
    }
  }

  lemma SettledLast(entries: seq<Entry>)
    requires Settled(entries) && entries != []
    ensures var last := |entries| - 1;
            && Settled(entries[..last])
            && WithId(entries[last], UniqueId(Base(entries[last], last), Ids(entries[..last]))) == entries[last]
  {
    hide Tidy;
    var last := |entries| - 1;
    assert entries[last].id !in Ids(entries[..last]);
  }

  method NormalizeEntryIds(entries: array<Entry>)
    modifies entries
    ensures entries[..] == Normalized(old(entries[..]))
  {
    hide Normalized, UniqueId, Base, Ids;
    var used: set<string> := {};
    ghost var was := entries[..];
    NothingNormalized();
    assert was[..0] == [];
    for index := 0 to entries.Length
      invariant entries[..index] == Normalized(was[..index]) && entries[index..] == was[index..]
      invariant used == Ids(Normalized(was[..index]))
    {
      var entry := entries[index];
      assert entry == was[index] by { assert entries[index..][0] == was[index..][0]; }
      var base := Base(entry, index);
      ghost var tries;
      var id: string;
      NormalizedNext(was, index);
      id, used, tries := MakeUnique(base, used);
      entries[index] := entries[index].(id := id);
      match entry.config {
        case Some(config) => entries[index] := entries[index].(config := Some(config.(id := id)));
        case None =>
      }
      assert entries[index] == WithId(entry, id);
      assert entries[..index + 1] == Normalized(was[..index]) + [WithId(entry, id)];
      assert entries[index + 1..] == was[index + 1..];
    }
    assert entries[..] == entries[..entries.Length] && was[..entries.Length] == was;
  }

  lemma NothingNormalized()
    ensures Normalized([]) == [] && Ids([]) == {}
  {
  }

  lemma NormalizedNext(entries: seq<Entry>, index: nat)
    requires index < |entries|
    ensures var before := Normalized(entries[..index]);
            var id := UniqueId(Base(entries[index], index), Ids(before));
            && Normalized(entries[..index + 1]) == before + [WithId(entries[index], id)]
            && Ids(Normalized(entries[..index + 1])) == Ids(before) + {id}
  {
    hide UniqueId, Base;
    var upTo := entries[..index + 1];
    assert upTo[..index] == entries[..index] && upTo[index] == entries[index];
  }

  // ---- Environments ----

  datatype Variable = Variable(name: string, value: string)

  function Lookup(env: seq<Variable>, name: string): Option<string> {
    if env == [] then None
    else if env[0].name == name then Some(env[0].value)
    else Lookup(env[1..], name)
  }

  function Names(env: seq<Variable>): (names: seq<string>)
    ensures |names| == |env| && forall i :: 0 <= i < |env| ==> names[i] == env[i].name
  {
    if env == [] then [] else [env[0].name] + Names(env[1..])
  }

  function Assign(env: seq<Variable>, addition: Variable): seq<Variable> {
    if env == [] then [addition]
    else if env[0].name == addition.name then [addition] + env[1..]
    else [env[0]] + Assign(env[1..], addition)
  }

  function Merged(env: seq<Variable>, additions: seq<Variable>): seq<Variable>
    decreases |additions|
  {
    if additions == [] then env else Merged(Assign(env, additions[0]), additions[1..])
  }

  lemma {:induction false} AssignAt(env: seq<Variable>, addition: Variable, i: nat)
    requires i <= |env| && (i < |env| ==> env[i].name == addition.name)
    requires forall j :: 0 <= j < i ==> env[j].name != addition.name
    ensures Assign(env, addition) == if i == |env| then env + [addition] else env[i := addition]
  {
    if env != [] && env[0].name != addition.name {
      AssignAt(env[1..], addition, i - 1);
    }
  }

  lemma {:induction false} AssignLookup(env: seq<Variable>, addition: Variable, name: string)
    ensures Lookup(Assign(env, addition), name) == if name == addition.name then Some(addition.value) else Lookup(env, name)
  {
    if env != [] && env[0].name != addition.name {
      AssignLookup(env[1..], addition, name);
    }
  }

  predicate DistinctNames(env: seq<Variable>) {
    forall i, j :: 0 <= i < j < |env| ==> env[i].name != env[j].name
  }

  lemma {:induction false} LookupNone(env: seq<Variable>, name: string)
    ensures Lookup(env, name).None? <==> forall i :: 0 <= i < |env| ==> env[i].name != name
  {
    if env != [] {
      LookupNone(env[1..], name);
      assert env == [env[0]] + env[1..];
    }
  }

  /** Every variable that the user gives has the user's value, and every other its own. */
  lemma {:induction false} MergedLookup(env: seq<Variable>, additions: seq<Variable>, name: string)
    requires DistinctNames(additions)
    ensures Lookup(Merged(env, additions), name)
         == if Lookup(additions, name).Some? then Lookup(additions, name) else Lookup(env, name)
    decreases |additions|
  {
    hide Assign;
    if additions != [] {
      AssignLookup(env, additions[0], name);
      MergedLookup(Assign(env, additions[0]), additions[1..], name);
      LookupNone(additions[1..], name);
    }
  }

  lemma {:induction false} AssignNames(env: seq<Variable>, addition: Variable)
    ensures Names(Assign(env, addition)) == if Lookup(env, addition.name).Some? then Names(env) else Names(env) + [addition.name]
  {
    if env != [] && env[0].name != addition.name {
      AssignNames(env[1..], addition);
    }
  }

  /** The variables stay where they are, and no merge makes a name occur twice. */
  lemma {:induction false} MergedKeepsOrder(env: seq<Variable>, additions: seq<Variable>)
    ensures Names(env) <= Names(Merged(env, additions))
    ensures DistinctNames(env) ==> DistinctNames(Merged(env, additions))
    decreases |additions|
  {
    hide Assign;
    if additions != [] {
      AssignNames(env, additions[0]);
      AssignKeepsDistinct(env, additions[0]);
      MergedKeepsOrder(Assign(env, additions[0]), additions[1..]);
    }
  }

  lemma AssignKeepsDistinct(env: seq<Variable>, addition: Variable)
    ensures DistinctNames(env) ==> DistinctNames(Assign(env, addition))
  {
    hide Assign;
    AssignNames(env, addition);
    LookupNone(env, addition.name);
    var names := Names(Assign(env, addition));
    assert forall i :: 0 <= i < |names| ==> names[i] == Assign(env, addition)[i].name;
  }

  /** The names that are new, in the order in which they are given. */
  function NewNames(env: seq<Variable>, additions: seq<Variable>): seq<string> {
    if additions == [] then []
    else (if Lookup(env, additions[0].name).None? then [additions[0].name] else []) + NewNames(env, additions[1..])
  }

  lemma {:induction false} NewNamesStay(env: seq<Variable>, addition: Variable, more: seq<Variable>)
    requires forall i :: 0 <= i < |more| ==> more[i].name != addition.name
    ensures NewNames(Assign(env, addition), more) == NewNames(env, more)
  {
    hide Assign, Lookup;
    if more != [] {
      AssignLookup(env, addition, more[0].name);
      NewNamesStay(env, addition, more[1..]);
    }
  }

  /** The variables that there were keep their order, and the new ones follow in theirs. */
  lemma {:induction false} MergedNames(env: seq<Variable>, additions: seq<Variable>)
    requires DistinctNames(additions)
    ensures Names(Merged(env, additions)) == Names(env) + NewNames(env, additions)
    decreases |additions|
  {
    hide *;
    MergedStep(env, additions);
    if additions != [] {
      AssignNames(env, additions[0]);
      DistinctRest(additions);
      NewNamesStay(env, additions[0], additions[1..]);
      MergedNames(Assign(env, additions[0]), additions[1..]);
    } else {
      assert Names(env) + [] == Names(env);
    }
  }

  lemma DistinctRest(additions: seq<Variable>)
    requires DistinctNames(additions) && additions != []
    ensures DistinctNames(additions[1..])
    ensures forall i :: 0 <= i < |additions[1..]| ==> additions[1..][i].name != additions[0].name
  {
  }

  lemma MergedStep(env: seq<Variable>, additions: seq<Variable>)
    ensures additions == [] ==> Merged(env, additions) == env && NewNames(env, additions) == []
    ensures additions != [] ==>
      && Merged(env, additions) == Merged(Assign(env, additions[0]), additions[1..])
      && NewNames(env, additions)
      == (if Lookup(env, additions[0].name).None? then [additions[0].name] else []) + NewNames(env, additions[1..])
  {
    hide Assign, Lookup;
  }

  /** `additions` are the entries of a sorted map, in its order. */
  method MergeEnv(env: seq<Variable>, additions: seq<Variable>) returns (merged: seq<Variable>)
    ensures merged == Merged(env, additions)
  {
    merged := env;
    for n := 0 to |additions|
      invariant Merged(env, additions) == Merged(merged, additions[n..])
    {
      var i := 0;
      while i < |merged| && merged[i].name != additions[n].name
        invariant i <= |merged| && forall j :: 0 <= j < i ==> merged[j].name != additions[n].name
      {
        i := i + 1;
      }
      AssignAt(merged, additions[n], i);
      if i < |merged| {
        merged := merged[i := merged[i].(value := additions[n].value)];
      } else {
        merged := merged + [additions[n]];
      }
      assert additions[n..][1..] == additions[n + 1..];
    }
  }
}
