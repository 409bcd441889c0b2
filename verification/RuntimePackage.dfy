/**
 The runtime bundle of script/package-linux-portable.py: the worklist that follows the shared
 libraries a binary needs, the roots added by name, and the final checks.
 */
module RuntimePackage {
  import opened Results

  type File = string

  const REQUIRED_LIBRARIES: seq<string> := ["libwayland-client.so.0", "libwayland-cursor.so.0", "libwayland-egl.so.1"]

  /**
   What the script reads from the machine it runs on: how a path resolves to a file, which of the
   resolved files are regular ones, and what the ELF headers and the loader cache say.
   */
  datatype World = World(
    binary: File,
    interpreterName: string,
    interpreter: File,
    machine: string,
    files: set<File>,
    locate: string -> Option<File>,
    join: (string, string) -> string,
    machineOf: File -> Option<string>,
    needed: File -> Option<seq<string>>,
    searchPaths: File -> seq<string>,
    cache: map<string, seq<string>>,
    directories: seq<string>,
    optional: seq<string>,
    isHostDriver: string -> bool,
    sha: File -> string)

  datatype Error =
    | Unreadable(file: File)
    | WrongMachine(file: File)
    | HostDriver(consumer: File, soname: string)
    | Missing(soname: string, consumer: File)
    | Conflict(soname: string, previous: File, source: File)
    | NoLibc

  /** The binary has been checked to be a file before the bundle is built. */
  predicate ValidWorld(w: World) {
    w.binary in w.files
  }

  // ---- Finding a library ----

  function Joined(w: World, paths: seq<string>, soname: string): (joined: seq<string>)
    ensures |joined| == |paths|
    ensures forall i :: 0 <= i < |paths| ==> joined[i] == w.join(paths[i], soname)
  {
    if paths == [] then [] else [w.join(paths[0], soname)] + Joined(w, paths[1..], soname)
  }

  function Candidates(w: World, paths: seq<string>, soname: string): seq<string> {
    Joined(w, paths, soname)
    + (if soname in w.cache then w.cache[soname] else [])
    + Joined(w, w.directories, soname)
  }

  /** A candidate that resolves to a regular file for the right machine. */
  predicate Suitable(w: World, candidate: string) {
    var file := w.locate(candidate);
    file.Some? && file.value in w.files && w.machineOf(file.value) == Some(w.machine)
  }

  function FirstSuitable(w: World, candidates: seq<string>): Option<File> {
    if candidates == [] then None
    else if Suitable(w, candidates[0]) then w.locate(candidates[0])
    else FirstSuitable(w, candidates[1..])
  }

  function Resolve(w: World, paths: seq<string>, soname: string): Option<File> {
    FirstSuitable(w, Candidates(w, paths, soname))
  }

  /** Nothing is found exactly when no candidate is suitable; otherwise it is the file of the first one that is. */
  lemma {:induction false} FirstSuitableIff(w: World, candidates: seq<string>)
    ensures FirstSuitable(w, candidates).None? <==> forall i :: 0 <= i < |candidates| ==> !Suitable(w, candidates[i])
    ensures FirstSuitable(w, candidates).Some? ==>
      exists i ::
        && 0 <= i < |candidates| && Suitable(w, candidates[i]) && FirstSuitable(w, candidates) == w.locate(candidates[i])
        && forall j :: 0 <= j < i ==> !Suitable(w, candidates[j])
  {
    hide Suitable;
    if candidates != [] {
      var rest := candidates[1..];
      SuitableIsFound(w, candidates[0]);
      FirstSuitableIff(w, rest);
      if Suitable(w, candidates[0]) {
        assert FirstSuitable(w, candidates) == w.locate(candidates[0]);
      } else {
        assert forall j :: 0 < j < |candidates| ==> candidates[j] == rest[j - 1];
        assert FirstSuitable(w, candidates) == FirstSuitable(w, rest);
        assert (forall j :: 0 <= j < |candidates| ==> !Suitable(w, candidates[j])) <==>
          forall j :: 0 <= j < |rest| ==> !Suitable(w, rest[j]);
        if FirstSuitable(w, rest).Some? {
          var i :|
            && 0 <= i < |rest| && Suitable(w, rest[i]) && FirstSuitable(w, rest) == w.locate(rest[i])
            && forall j :: 0 <= j < i ==> !Suitable(w, rest[j]);
          assert Suitable(w, candidates[i + 1]);
        }
      }
    }
  }

  lemma SuitableIsFound(w: World, candidate: string)
    ensures Suitable(w, candidate) ==> w.locate(candidate).Some?
  {
  }

  lemma {:induction false} FoundIsSuitable(w: World, candidates: seq<string>)
    requires FirstSuitable(w, candidates).Some?
    ensures var file := FirstSuitable(w, candidates).value; file in w.files && w.machineOf(file) == Some(w.machine)
  {
    if !Suitable(w, candidates[0]) {
      FoundIsSuitable(w, candidates[1..]);
    }
  }

  /** The loop passes over files it has already turned down, which cannot make a difference. */
  method ResolveLibrary(w: World, paths: seq<string>, soname: string) returns (found: Option<File>)
    ensures found == Resolve(w, paths, soname)
  {
    var candidates := Candidates(w, paths, soname);
    var seen: set<File> := {};
    for i := 0 to |candidates|
      invariant FirstSuitable(w, candidates) == FirstSuitable(w, candidates[i..])
      invariant forall file :: file in seen ==> w.machineOf(file) != Some(w.machine)
    {
      assert candidates[i..][0] == candidates[i] && candidates[i..][1..] == candidates[i + 1..];
      var resolved := w.locate(candidates[i]);
      if resolved.None? {
        continue;
      }
      if resolved.value in seen || resolved.value !in w.files {
        continue;
      }
      seen := seen + {resolved.value};
      if w.machineOf(resolved.value) == Some(w.machine) {
        return resolved;
      }
    }
    return None;
  }

  // ---- The worklist ----

  datatype State = State(queue: seq<File>, scanned: set<File>, sources: map<string, File>)

  function Needed(w: World, consumer: File): seq<string> {
    if w.needed(consumer).Some? then w.needed(consumer).value else []
  }

  function Source(w: World, consumer: File, soname: string): (source: Option<File>)
    ensures source.Some? ==> source.value in w.files && w.machineOf(source.value) == Some(w.machine)
  {
    var source := Resolve(w, w.searchPaths(consumer), soname);
    if source.Some? then
      FoundIsSuitable(w, Candidates(w, w.searchPaths(consumer), soname));
      source
    else None
  }

  /** A library that is wanted by name alone, without the search paths of a consumer. */
  function RootSource(w: World, soname: string): (source: Option<File>)
    ensures source.Some? ==> source.value in w.files && w.machineOf(source.value) == Some(w.machine)
  {
    var source := Resolve(w, [], soname);
    if source.Some? then
      FoundIsSuitable(w, Candidates(w, [], soname));
      source
    else None
  }

  /** An entry is written once; a second file for the same name must have the same contents. */
  function Bind(w: World, sources: map<string, File>, soname: string, source: File): Result<map<string, File>, Error> {
    if soname in sources && sources[soname] != source then
      if w.sha(sources[soname]) != w.sha(source) then Err(Conflict(soname, sources[soname], source)) else Ok(sources)
    else Ok(sources[soname := source])
  }

  function Elements(queue: seq<File>): set<File> {
    set file | file in queue
  }

  function AddSource(w: World, s: State, soname: string, source: File): (r: Result<State, Error>)
    ensures r.Ok? ==> r.value.scanned == s.scanned && r.value.queue == s.queue + [source]
  {
    var sources :- Bind(w, s.sources, soname, source);
    Ok(State(s.queue + [source], s.scanned, sources))
  }

  function Discover(w: World, s: State, consumer: File, sonames: seq<string>): (r: Result<State, Error>)
    ensures r.Ok? ==> r.value.scanned == s.scanned
    ensures r.Ok? ==> Elements(r.value.queue) <= Elements(s.queue) + w.files
    decreases |sonames|
  {
    if sonames == [] then Ok(s)
    else if w.isHostDriver(sonames[0]) then Err(HostDriver(consumer, sonames[0]))
    else
      var source := Source(w, consumer, sonames[0]);
      if source.None? then Err(Missing(sonames[0], consumer))
      else
        var t :- AddSource(w, s, sonames[0], source.value);
        Discover(w, t, consumer, sonames[1..])
  }

  function MachineError(w: World, file: File): Error {
    if w.machineOf(file).None? then Unreadable(file) else WrongMachine(file)
  }

  /** Takes any one entry off the queue and scans it unless that has been done. */
  function Scan(w: World, s: State, k: nat): (r: Result<State, Error>)
    requires k < |s.queue|
    ensures r.Ok? && Elements(s.queue) <= w.files ==> Elements(r.value.queue) <= w.files
    ensures r.Ok? ==>
      if s.queue[k] in s.scanned then r.value.scanned == s.scanned && |r.value.queue| < |s.queue|
      else r.value.scanned == s.scanned + {s.queue[k]}
  {
    var consumer := s.queue[k];
    var rest := State(s.queue[..k] + s.queue[k + 1..], s.scanned, s.sources);
    assert Elements(rest.queue) <= Elements(s.queue);
    if consumer in s.scanned then Ok(rest)
    else if w.machineOf(consumer) != Some(w.machine) then Err(MachineError(w, consumer))
    else if w.needed(consumer).None? then Err(Unreadable(consumer))
    else Discover(w, rest.(scanned := s.scanned + {consumer}), consumer, Needed(w, consumer))
  }

  /** Which entry of the queue is taken next. */
  type Schedule = State -> nat

  /** The order of the script: first in, first out. */
  const FIFO: Schedule := s => 0

  function Pick(schedule: Schedule, s: State): (k: nat)
    requires s.queue != []
    ensures k < |s.queue|
  {
    if schedule(s) < |s.queue| then schedule(s) else 0
  }

  function Drain(w: World, schedule: Schedule, s: State): Result<State, Error>
    requires Elements(s.queue) <= w.files
    decreases |w.files - s.scanned|, |s.queue|
  {
    if s.queue == [] then Ok(s)
    else
      var k := Pick(schedule, s);
      var t :- Scan(w, s, k);
      assert s.queue[k] in Elements(s.queue);
      assert s.queue[k] !in s.scanned ==> w.files - t.scanned == (w.files - s.scanned) - {s.queue[k]};
      Drain(w, schedule, t)
  }

  // ---- Where a library is found ----

  predicate NoneUnder(w: World, directories: seq<string>, soname: string) {
    forall i :: 0 <= i < |directories| ==> !Suitable(w, w.join(directories[i], soname))
  }

  /** The first of these directories under which the name is a suitable file. */
  predicate FirstUnder(w: World, directories: seq<string>, soname: string, i: nat) {
    && i < |directories| && Suitable(w, w.join(directories[i], soname))
    && forall j :: 0 <= j < i ==> !Suitable(w, w.join(directories[j], soname))
  }

  predicate NoneCached(w: World, soname: string) {
    soname in w.cache ==> forall i :: 0 <= i < |w.cache[soname]| ==> !Suitable(w, w.cache[soname][i])
  }

  predicate FirstCached(w: World, soname: string, i: nat) {
    && soname in w.cache && i < |w.cache[soname]| && Suitable(w, w.cache[soname][i])
    && forall j :: 0 <= j < i ==> !Suitable(w, w.cache[soname][j])
  }

  lemma {:induction false} FirstOfSum(w: World, a: seq<string>, b: seq<string>)
    ensures FirstSuitable(w, a + b) == if FirstSuitable(w, a).Some? then FirstSuitable(w, a) else FirstSuitable(w, b)
  {
    hide Suitable;
    if a == [] {
      assert a + b == b;
    } else {
      SuitableIsFound(w, a[0]);
      assert (a + b)[0] == a[0] && (a + b)[1..] == a[1..] + b;
      FirstOfSum(w, a[1..], b);
    }
  }

  lemma {:induction false} FirstIs(w: World, candidates: seq<string>, i: nat)
    requires i < |candidates| && Suitable(w, candidates[i]) && forall j :: 0 <= j < i ==> !Suitable(w, candidates[j])
    ensures FirstSuitable(w, candidates) == w.locate(candidates[i])
  {
    hide Suitable;
    if i > 0 {
      FirstIs(w, candidates[1..], i - 1);
    }
  }

  lemma SearchUnder(w: World, directories: seq<string>, soname: string)
    ensures FirstSuitable(w, Joined(w, directories, soname)).None? <==> NoneUnder(w, directories, soname)
    ensures forall i: nat :: FirstUnder(w, directories, soname, i) ==>
      FirstSuitable(w, Joined(w, directories, soname)) == w.locate(w.join(directories[i], soname))
  {
    hide Suitable, FirstSuitable;
    var joined := Joined(w, directories, soname);
    FirstSuitableIff(w, joined);
    forall i: nat | FirstUnder(w, directories, soname, i)
      ensures FirstSuitable(w, joined) == w.locate(w.join(directories[i], soname))
    {
      FirstIs(w, joined, i);
    }
  }

  lemma SearchCached(w: World, soname: string)
    requires soname in w.cache
    ensures FirstSuitable(w, w.cache[soname]).None? <==> NoneCached(w, soname)
    ensures forall i: nat :: FirstCached(w, soname, i) ==>
      FirstSuitable(w, w.cache[soname]) == w.locate(w.cache[soname][i])
  {
    hide Suitable, FirstSuitable;
    FirstSuitableIff(w, w.cache[soname]);
    forall i: nat | FirstCached(w, soname, i)
      ensures FirstSuitable(w, w.cache[soname]) == w.locate(w.cache[soname][i])
    {
      FirstIs(w, w.cache[soname], i);
    }
  }

  /**
   A library is looked for under the consumer's search paths first, then in the loader cache, then
   in the system's directories; the first suitable file wins, and none is found exactly when none
   of the three has one.
   */
  lemma ResolveBySource(w: World, paths: seq<string>, soname: string)
    ensures forall i: nat :: FirstUnder(w, paths, soname, i) ==>
      Resolve(w, paths, soname) == w.locate(w.join(paths[i], soname))
    ensures forall i: nat :: NoneUnder(w, paths, soname) && FirstCached(w, soname, i) ==>
      Resolve(w, paths, soname) == w.locate(w.cache[soname][i])
    ensures forall i: nat :: NoneUnder(w, paths, soname) && NoneCached(w, soname) && FirstUnder(w, w.directories, soname, i) ==>
      Resolve(w, paths, soname) == w.locate(w.join(w.directories[i], soname))
    ensures Resolve(w, paths, soname).None?
       <==> NoneUnder(w, paths, soname) && NoneCached(w, soname) && NoneUnder(w, w.directories, soname)
  {
    hide Suitable, FirstSuitable, Joined;
    var a, c := Joined(w, paths, soname), Joined(w, w.directories, soname);
    var b := if soname in w.cache then w.cache[soname] else [];
    FirstOfSum(w, a + b, c);
    FirstOfSum(w, a, b);
    SearchUnder(w, paths, soname);
    SearchUnder(w, w.directories, soname);
    if soname in w.cache {
      SearchCached(w, soname);
    } else {
      NothingSuitable(w);
    }
    UnderIsNotNone(w, paths, soname);
    CachedIsNotNone(w, soname);
    UnderIsNotNone(w, w.directories, soname);
  }

  lemma NothingSuitable(w: World)
    ensures FirstSuitable(w, []).None?
  {
  }

  lemma UnderIsNotNone(w: World, directories: seq<string>, soname: string)
    ensures forall i: nat :: FirstUnder(w, directories, soname, i) ==> !NoneUnder(w, directories, soname)
  {
    hide Suitable;
  }

  lemma CachedIsNotNone(w: World, soname: string)
    ensures forall i: nat :: FirstCached(w, soname, i) ==> !NoneCached(w, soname)
  {
    hide Suitable;
  }

  /** What a consumer asks for is looked for under its own search paths; a root has none. */
  lemma SourceBySource(w: World, consumer: File, soname: string)
    ensures Source(w, consumer, soname) == Resolve(w, w.searchPaths(consumer), soname)
    ensures forall i: nat :: FirstUnder(w, w.searchPaths(consumer), soname, i) ==>
      Source(w, consumer, soname) == w.locate(w.join(w.searchPaths(consumer)[i], soname))
    ensures NoneUnder(w, w.searchPaths(consumer), soname) ==> Source(w, consumer, soname) == RootSource(w, soname)
    ensures forall i: nat :: FirstCached(w, soname, i) ==> RootSource(w, soname) == w.locate(w.cache[soname][i])
    ensures forall i: nat :: NoneCached(w, soname) && FirstUnder(w, w.directories, soname, i) ==>
      RootSource(w, soname) == w.locate(w.join(w.directories[i], soname))
    ensures RootSource(w, soname).None? <==> NoneCached(w, soname) && NoneUnder(w, w.directories, soname)
  {
    hide *;
    SourceIs(w, consumer, soname);
    ResolveBySource(w, w.searchPaths(consumer), soname);
    ResolveBySource(w, [], soname);
    NoPathsNone(w, soname);
    if NoneUnder(w, w.searchPaths(consumer), soname) {
      WithoutPaths(w, w.searchPaths(consumer), soname);
    }
  }

  lemma SourceIs(w: World, consumer: File, soname: string)
    ensures Source(w, consumer, soname) == Resolve(w, w.searchPaths(consumer), soname)
    ensures RootSource(w, soname) == Resolve(w, [], soname)
  {
    hide Resolve;
  }

  lemma NoPathsNone(w: World, soname: string)
    ensures NoneUnder(w, [], soname)
  {
  }

  lemma WithoutPaths(w: World, paths: seq<string>, soname: string)
    requires NoneUnder(w, paths, soname)
    ensures Resolve(w, paths, soname) == Resolve(w, [], soname)
  {
    hide Suitable, FirstSuitable, NoneUnder;
    var b := if soname in w.cache then w.cache[soname] else [];
    var c := Joined(w, w.directories, soname);
    SearchUnder(w, paths, soname);
    FirstOfSum(w, Joined(w, paths, soname) + b, c);
    FirstOfSum(w, Joined(w, paths, soname), b);
    FirstOfSum(w, b, c);
    assert Joined(w, [], soname) + b == b;
  }

  // ---- The whole bundle ----

  function Start(w: World): State {
    State([w.binary], {}, map[w.interpreterName := w.interpreter])
  }

  function AddRequired(w: World, s: State, sonames: seq<string>): (r: Result<State, Error>)
    ensures r.Ok? && Elements(s.queue) <= w.files ==> Elements(r.value.queue) <= w.files
    decreases |sonames|
  {
    if sonames == [] then Ok(s)
    else
      var source := RootSource(w, sonames[0]);
      if source.None? then Err(Missing(sonames[0], w.binary))
      else
        var t :- AddSource(w, s, sonames[0], source.value);
        AddRequired(w, t, sonames[1..])
  }

  function AddOptional(w: World, s: State, sonames: seq<string>): (r: State)
    ensures Elements(s.queue) <= w.files ==> Elements(r.queue) <= w.files
    decreases |sonames|
  {
    if sonames == [] then s
    else
      var source := RootSource(w, sonames[0]);
      if sonames[0] in s.sources || source.None? then AddOptional(w, s, sonames[1..])
      else
        AddOptional(w, State(s.queue + [source.value], s.scanned, s.sources[sonames[0] := source.value]), sonames[1..])
  }

  predicate RightMachines(w: World, sources: map<string, File>) {
    forall soname :: soname in sources ==> w.machineOf(sources[soname]) == Some(w.machine)
  }

  /** Of the bundled files only the interpreter can be for another machine, since the others were found by `Resolve`. */
  function Check(w: World, s: State): Result<State, Error> {
    if !RightMachines(w, s.sources) then Err(MachineError(w, w.interpreter))
    else if "libc.so.6" !in s.sources then Err(NoLibc)
    else Ok(s)
  }

  function Bundle(w: World, first: Schedule, second: Schedule): Result<State, Error>
    requires ValidWorld(w)
  {
    var closed :- Drain(w, first, Start(w));
    DrainEmpties(w, first, Start(w));
    var required :- AddRequired(w, closed, REQUIRED_LIBRARIES);
    var all :- Drain(w, second, AddOptional(w, required, w.optional));
    Check(w, all)
  }

  lemma {:induction false} DrainEmpties(w: World, schedule: Schedule, s: State)
    requires Elements(s.queue) <= w.files && Drain(w, schedule, s).Ok?
    ensures Drain(w, schedule, s).value.queue == []
    decreases |w.files - s.scanned|, |s.queue|
  {
    if s.queue != [] {
      var k := Pick(schedule, s);
      var t := Scan(w, s, k).value;
      assert s.queue[k] in Elements(s.queue);
      assert s.queue[k] !in s.scanned ==> w.files - t.scanned == (w.files - s.scanned) - {s.queue[k]};
      DrainEmpties(w, schedule, t);
    }
  }
}
