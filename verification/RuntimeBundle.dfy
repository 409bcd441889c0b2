/**
 The whole bundle: which machines it can be built on, what it then contains, and the script's
 loops, which compute it.
 */
module RuntimeBundle {
  import opened Results
  import opened RuntimePackage
  import opened RuntimeClosure

  // ---- Without running anything: the roots, the closure and the requests ----

  function InterpreterAsk(w: World): Ask {
    (w.interpreterName, w.interpreter)
  }

  function RequiredBase(w: World): set<Ask> {
    {InterpreterAsk(w)} + RootAsks(w, REQUIRED_LIBRARIES)
  }

  function RequiredSeeds(w: World): set<File> {
    {w.binary} + Files(RootAsks(w, REQUIRED_LIBRARIES))
  }

  /** The names that are taken before the optional roots are looked at. */
  ghost function TakenNames(w: World): set<string> {
    Names(Asked(w, RequiredBase(w), Reach(w, {w.binary})))
  }

  ghost function Optionals(w: World): set<Ask> {
    OptionalAsks(w, TakenNames(w), w.optional)
  }

  ghost function AllBase(w: World): set<Ask> {
    RequiredBase(w) + Optionals(w)
  }

  ghost function AllSeeds(w: World): set<File> {
    RequiredSeeds(w) + Files(Optionals(w))
  }

  ghost function Closure(w: World): set<File> {
    Reach(w, AllSeeds(w))
  }

  ghost function AllRequests(w: World): set<Ask> {
    Asked(w, AllBase(w), Closure(w))
  }

  ghost predicate Packagable(w: World) {
    && AllFound(w, REQUIRED_LIBRARIES)
    && Acceptable(w, AllBase(w), AllSeeds(w))
    && w.machineOf(w.interpreter) == Some(w.machine)
    && "libc.so.6" in Names(AllRequests(w))
  }

  /** Every request is bound to its contents, and every bundled file but the interpreter has been scanned. */
  ghost predicate Complete(w: World, t: State) {
    && t.queue == [] && t.scanned == Closure(w)
    && t.sources.Keys == Names(AllRequests(w))
    && Bound(w, AllRequests(w), t.sources)
    && w.interpreterName in t.sources && t.sources[w.interpreterName] == w.interpreter
    && forall soname :: soname in t.sources && soname != w.interpreterName ==> t.sources[soname] in t.scanned
  }

  // ---- Requests come from the interpreter, from roots or from scanned files ----

  /** A request that is not the interpreter's is for a file of the right machine that belongs to the given ones. */
  predicate Proper(w: World, files: set<File>, ask: Ask) {
    ask == InterpreterAsk(w) || (ask.1 in files && w.machineOf(ask.1) == Some(w.machine))
  }

  lemma RequestsAreRight(w: World, consumer: File, ask: Ask)
    requires ask in Requests(w, consumer)
    ensures w.machineOf(ask.1) == Some(w.machine)
  {
    hide Resolve;
  }

  lemma RootAsksAreRight(w: World, sonames: seq<string>, ask: Ask)
    requires ask in RootAsks(w, sonames)
    ensures w.machineOf(ask.1) == Some(w.machine) && ask.1 in w.files
  {
    hide Resolve;
  }

  lemma OptionalAsksAreRight(w: World, bound: set<string>, sonames: seq<string>, ask: Ask)
    requires ask in OptionalAsks(w, bound, sonames)
    ensures w.machineOf(ask.1) == Some(w.machine) && ask.1 in w.files
  {
    hide Resolve;
  }

  lemma BaseIsProper(w: World, ask: Ask)
    requires ask in AllBase(w)
    ensures Proper(w, AllSeeds(w), ask) && (ask != InterpreterAsk(w) ==> ask.1 in w.files)
  {
    hide RootAsks, OptionalAsks, TakenNames;
    if ask in RootAsks(w, REQUIRED_LIBRARIES) {
      RootAsksAreRight(w, REQUIRED_LIBRARIES, ask);
    } else if ask in Optionals(w) {
      OptionalAsksAreRight(w, TakenNames(w), w.optional, ask);
    }
  }

  lemma SeedsAreFiles(w: World)
    requires ValidWorld(w)
    ensures AllSeeds(w) <= w.files
  {
    hide RootAsks, OptionalAsks, TakenNames;
    forall file | file in AllSeeds(w) ensures file in w.files {
      if file in Files(RootAsks(w, REQUIRED_LIBRARIES)) {
        var ask :| ask in RootAsks(w, REQUIRED_LIBRARIES) && ask.1 == file;
        RootAsksAreRight(w, REQUIRED_LIBRARIES, ask);
      } else if file in Files(Optionals(w)) {
        var ask :| ask in Optionals(w) && ask.1 == file;
        OptionalAsksAreRight(w, TakenNames(w), w.optional, ask);
      }
    }
  }

  lemma RequestsAreProper(w: World, ask: Ask)
    requires ValidWorld(w) && ask in AllRequests(w)
    ensures Proper(w, Closure(w), ask)
  {
    hide AllBase, AllSeeds, Reach, Requests;
    SeedsAreFiles(w);
    SeedsAreReached(w, AllSeeds(w));
    if ask in AllBase(w) {
      BaseIsProper(w, ask);
    } else {
      var consumer :| consumer in Closure(w) && ask in Requests(w, consumer);
      RequestsAreRight(w, consumer, ask);
      EdgesAreReached(w, AllSeeds(w), consumer);
      assert ask.1 in Files(Requests(w, consumer));
    }
  }

  // ---- The phases ----

  lemma StartKeepsInv(w: World)
    requires ValidWorld(w)
    ensures Inv(w, {InterpreterAsk(w)}, {w.binary}, Start(w)) && Elements(Start(w).queue) <= w.files
  {
    hide Reach, Fine, Requests;
    SeedsAreReached(w, {w.binary});
    assert Asked(w, {InterpreterAsk(w)}, {}) == {InterpreterAsk(w)};
  }

  lemma StartIsFiles(w: World)
    requires ValidWorld(w)
    ensures Elements(Start(w).queue) <= w.files
  {
  }

  lemma FirstDrain(w: World, first: Schedule)
    requires ValidWorld(w)
    ensures var r := Drain(w, first, Start(w));
            && (r.Ok? <==> Acceptable(w, {InterpreterAsk(w)}, {w.binary}))
            && (r.Ok? ==>
                  && Inv(w, {InterpreterAsk(w)}, {w.binary}, r.value) && Kept(Start(w).sources, r.value.sources)
                  && r.value.scanned == Reach(w, {w.binary}))
  {
    hide Inv, Acceptable, Reach, Drain, Elements, Start, Kept;
    StartKeepsInv(w);
    DrainIff(w, {InterpreterAsk(w)}, {w.binary}, first, Start(w));
  }

  lemma Roots(w: World, closed: State)
    requires Inv(w, {InterpreterAsk(w)}, {w.binary}, closed) && closed.scanned == Reach(w, {w.binary})
    ensures var r := AddRequired(w, closed, REQUIRED_LIBRARIES);
            && (r.Ok? <==> AllFound(w, REQUIRED_LIBRARIES) && Consistent(w, Asked(w, RequiredBase(w), Reach(w, {w.binary}))))
            && (r.Ok? ==>
                  var t := AddOptional(w, r.value, w.optional);
                  Inv(w, AllBase(w), AllSeeds(w), t) && Kept(closed.sources, t.sources))
  {
    hide *;
    RequiredAre(w);
    AddRequiredIff(w, {InterpreterAsk(w)}, {w.binary}, closed, REQUIRED_LIBRARIES);
    var r := AddRequired(w, closed, REQUIRED_LIBRARIES);
    if r.Ok? {
      InvIff(w, RequiredBase(w), RequiredSeeds(w), r.value);
      BoundIsConsistent(w, Asked(w, RequiredBase(w), r.value.scanned), r.value.sources);
      OptionalsAre(w);
      AddOptionalKeepsInv(w, RequiredBase(w), RequiredSeeds(w), r.value, w.optional);
      KeptTransitive(closed.sources, r.value.sources, AddOptional(w, r.value, w.optional).sources);
    }
  }

  lemma RequiredAre(w: World)
    ensures RequiredBase(w) == {InterpreterAsk(w)} + RootAsks(w, REQUIRED_LIBRARIES)
    ensures RequiredSeeds(w) == {w.binary} + Files(RootAsks(w, REQUIRED_LIBRARIES))
  {
    hide RootAsks, Files;
  }

  lemma OptionalsAre(w: World)
    ensures var optionals := OptionalAsks(w, Names(Asked(w, RequiredBase(w), Reach(w, {w.binary}))), w.optional);
            AllBase(w) == RequiredBase(w) + optionals && AllSeeds(w) == RequiredSeeds(w) + Files(optionals)
  {
    hide RequiredBase, RequiredSeeds, OptionalAsks, Names, Asked, Reach, Files;
  }

  lemma SmallerParts(w: World)
    requires ValidWorld(w) && Acceptable(w, AllBase(w), AllSeeds(w))
    ensures Acceptable(w, {InterpreterAsk(w)}, {w.binary})
    ensures Consistent(w, Asked(w, RequiredBase(w), Reach(w, {w.binary})))
  {
    hide *;
    RequiredAre(w);
    OptionalsAre(w);
    AcceptableParts(w, {InterpreterAsk(w)}, {w.binary}, AllBase(w), AllSeeds(w));
    AcceptableParts(w, RequiredBase(w), {w.binary}, AllBase(w), AllSeeds(w));
    AcceptableIsConsistent(w, RequiredBase(w), {w.binary});
  }

  lemma AcceptableIsConsistent(w: World, base: set<Ask>, seeds: set<File>)
    requires Acceptable(w, base, seeds)
    ensures Consistent(w, Asked(w, base, Reach(w, seeds)))
  {
  }

  lemma KeepsInterpreter(w: World, s: State)
    requires Kept(Start(w).sources, s.sources)
    ensures w.interpreterName in s.sources && s.sources[w.interpreterName] == w.interpreter
  {
    assert w.interpreterName in Start(w).sources;
  }

  /** The machine check can only fail on the interpreter. */
  lemma RightMachinesIff(w: World, sources: map<string, File>)
    requires ValidWorld(w) && Bound(w, AllRequests(w), sources)
    requires w.interpreterName in sources && sources[w.interpreterName] == w.interpreter
    ensures RightMachines(w, sources) <==> w.machineOf(w.interpreter) == Some(w.machine)
    ensures forall soname :: soname in sources && soname != w.interpreterName ==> sources[soname] in Closure(w)
    ensures forall soname :: soname in sources ==>
      sources[soname] == w.interpreter || w.machineOf(sources[soname]) == Some(w.machine)
  {
    hide AllRequests, Closure;
    forall soname | soname in sources ensures Proper(w, Closure(w), (soname, sources[soname])) {
      RequestsAreProper(w, (soname, sources[soname]));
    }
  }

  lemma DrainedIsComplete(w: World, t: State)
    requires ValidWorld(w) && Inv(w, AllBase(w), AllSeeds(w), t) && Kept(Start(w).sources, t.sources)
    requires t.queue == [] && t.scanned == Closure(w)
    ensures Complete(w, t)
  {
    hide *;
    InvIff(w, AllBase(w), AllSeeds(w), t);
    AllRequestsAre(w);
    BoundIsConsistent(w, AllRequests(w), t.sources);
    KeepsInterpreter(w, t);
    RightMachinesIff(w, t.sources);
    CompleteIff(w, t);
  }

  lemma AllRequestsAre(w: World)
    ensures AllRequests(w) == Asked(w, AllBase(w), Closure(w)) && Closure(w) == Reach(w, AllSeeds(w))
  {
    hide AllBase, AllSeeds, Reach, Asked;
  }

  lemma CompleteIff(w: World, t: State)
    ensures Complete(w, t) <==>
      && t.queue == [] && t.scanned == Closure(w)
      && t.sources.Keys == Names(AllRequests(w))
      && Bound(w, AllRequests(w), t.sources)
      && w.interpreterName in t.sources && t.sources[w.interpreterName] == w.interpreter
      && forall soname :: soname in t.sources && soname != w.interpreterName ==> t.sources[soname] in t.scanned
  {
    hide Closure, AllRequests, Names, Bound;
  }

  lemma PackagableIff(w: World)
    ensures Packagable(w) <==>
      && AllFound(w, REQUIRED_LIBRARIES)
      && Acceptable(w, AllBase(w), AllSeeds(w))
      && w.machineOf(w.interpreter) == Some(w.machine)
      && "libc.so.6" in Names(AllRequests(w))
  {
    hide AllFound, Acceptable, AllBase, AllSeeds, Names, AllRequests;
  }

  /** The second drain and the final check. */
  lemma LastPhase(w: World, second: Schedule, s: State)
    requires ValidWorld(w) && Inv(w, AllBase(w), AllSeeds(w), s) && Kept(Start(w).sources, s.sources)
    requires Elements(s.queue) <= w.files && AllFound(w, REQUIRED_LIBRARIES)
    ensures var r := Drain(w, second, s);
            && (r.Ok? && Check(w, r.value).Ok? <==> Packagable(w))
            && (r.Ok? <==> Acceptable(w, AllBase(w), AllSeeds(w)))
            && (r.Ok? ==> Complete(w, r.value) && Check(w, r.value) == Verdict(w, r.value))
            && (r.Ok? && Check(w, r.value).Ok? ==> Check(w, r.value).value == r.value)
  {
    hide *;
    AllRequestsAre(w);
    PackagableIff(w);
    DrainIff(w, AllBase(w), AllSeeds(w), second, s);
    var r := Drain(w, second, s);
    if r.Ok? {
      KeptTransitive(Start(w).sources, s.sources, r.value.sources);
      DrainedIsComplete(w, r.value);
      CompleteIff(w, r.value);
      RightMachinesIff(w, r.value.sources);
      CheckIff(w, r.value);
      VerdictOf(w, r.value);
    }
  }

  /** What the final checks come to: the interpreter's machine first, then the C library. */
  ghost function Verdict(w: World, t: State): Result<State, Error> {
    if w.machineOf(w.interpreter).None? then Err(Unreadable(w.interpreter))
    else if w.machineOf(w.interpreter).value != w.machine then Err(WrongMachine(w.interpreter))
    else if "libc.so.6" !in Names(AllRequests(w)) then Err(NoLibc)
    else Ok(t)
  }

  lemma VerdictOf(w: World, t: State)
    requires RightMachines(w, t.sources) <==> w.machineOf(w.interpreter) == Some(w.machine)
    requires t.sources.Keys == Names(AllRequests(w))
    ensures Check(w, t) == Verdict(w, t)
  {
    hide RightMachines, Names, AllRequests;
  }

  lemma CheckIff(w: World, s: State)
    ensures Check(w, s).Ok? <==> RightMachines(w, s.sources) && "libc.so.6" in s.sources.Keys
    ensures Check(w, s).Ok? ==> Check(w, s).value == s
  {
    hide RightMachines;
  }

  lemma OnlyInterpreterFails(w: World, closed: State, rooted: State, all: State)
    requires ValidWorld(w) && Elements(Start(w).queue) <= w.files && Drain(w, FIFO, Start(w)) == Ok(closed)
    requires AddRequired(w, closed, REQUIRED_LIBRARIES).Ok?
    requires rooted == AddOptional(w, AddRequired(w, closed, REQUIRED_LIBRARIES).value, w.optional)
    requires Elements(rooted.queue) <= w.files && Drain(w, FIFO, rooted) == Ok(all)
    ensures forall soname :: soname in all.sources ==>
      all.sources[soname] == w.interpreter || w.machineOf(all.sources[soname]) == Some(w.machine)
  {
    hide *;
    FirstDrain(w, FIFO);
    Roots(w, closed);
    KeptTransitive(Start(w).sources, closed.sources, rooted.sources);
    DrainIff(w, AllBase(w), AllSeeds(w), FIFO, rooted);
    KeptTransitive(Start(w).sources, rooted.sources, all.sources);
    AllRequestsAre(w);
    DrainedIsComplete(w, all);
    CompleteIff(w, all);
    RightMachinesIff(w, all.sources);
  }

  lemma BundleSteps(w: World, first: Schedule, second: Schedule)
    requires ValidWorld(w)
    ensures Elements(Start(w).queue) <= w.files
    ensures var closed := Drain(w, first, Start(w));
            && (closed.Err? ==> Bundle(w, first, second).Err?)
            && (closed.Ok? ==>
                  var required := AddRequired(w, closed.value, REQUIRED_LIBRARIES);
                  && (required.Err? ==> Bundle(w, first, second).Err?)
                  && (required.Ok? ==>
                        var s := AddOptional(w, required.value, w.optional);
                        && Elements(s.queue) <= w.files
                        && var all := Drain(w, second, s);
                           && (all.Err? ==> Bundle(w, first, second).Err?)
                           && (all.Ok? ==> Bundle(w, first, second) == Check(w, all.value))))
  {
    hide Drain, AddRequired, AddOptional, Check;
    StartIsFiles(w);
    if Drain(w, first, Start(w)).Ok? {
      DrainEmpties(w, first, Start(w));
    }
  }

  /** Whatever the schedules: there is a bundle exactly on a machine that allows one, and then it is complete. */
  lemma BundleIff(w: World, first: Schedule, second: Schedule)
    requires ValidWorld(w)
    ensures Bundle(w, first, second).Ok? <==> Packagable(w)
    ensures Bundle(w, first, second).Ok? ==> Complete(w, Bundle(w, first, second).value)
  {
    hide *;
    BundleSteps(w, first, second);
    FirstDrain(w, first);
    PackagableIff(w);
    if Packagable(w) {
      SmallerParts(w);
    }
    var closed := Drain(w, first, Start(w));
    if closed.Ok? {
      Roots(w, closed.value);
      var required := AddRequired(w, closed.value, REQUIRED_LIBRARIES);
      if required.Ok? {
        var s := AddOptional(w, required.value, w.optional);
        KeptTransitive(Start(w).sources, closed.value.sources, s.sources);
        LastPhase(w, second, s);
      }
    }
  }

  /** When everything is found and fits together, the interpreter's machine is checked first, and then that there is a C library. */
  lemma LastErrors(w: World, first: Schedule, second: Schedule)
    requires ValidWorld(w) && AllFound(w, REQUIRED_LIBRARIES) && Acceptable(w, AllBase(w), AllSeeds(w))
    ensures var r := Bundle(w, first, second);
            if w.machineOf(w.interpreter).None? then r == Err(Unreadable(w.interpreter))
            else if w.machineOf(w.interpreter).value != w.machine then r == Err(WrongMachine(w.interpreter))
            else if "libc.so.6" !in Names(AllRequests(w)) then r == Err(NoLibc)
            else r.Ok?
  {
    hide *;
    BundleSteps(w, first, second);
    FirstDrain(w, first);
    SmallerParts(w);
    var closed := Drain(w, first, Start(w));
    Roots(w, closed.value);
    var required := AddRequired(w, closed.value, REQUIRED_LIBRARIES);
    var s := AddOptional(w, required.value, w.optional);
    KeptTransitive(Start(w).sources, closed.value.sources, s.sources);
    LastPhase(w, second, s);
    VerdictIs(w, Drain(w, second, s).value);
  }

  lemma VerdictIs(w: World, t: State)
    ensures w.machineOf(w.interpreter).None? ==> Verdict(w, t) == Err(Unreadable(w.interpreter))
    ensures w.machineOf(w.interpreter).Some? && w.machineOf(w.interpreter).value != w.machine ==>
      Verdict(w, t) == Err(WrongMachine(w.interpreter))
    ensures w.machineOf(w.interpreter) == Some(w.machine) ==>
      Verdict(w, t) == if "libc.so.6" in Names(AllRequests(w)) then Ok(t) else Err(NoLibc)
  {
    hide Names, AllRequests;
  }

  /** The order in which either queue is processed changes neither the outcome nor the contents of the bundle. */
  lemma OrderIsIrrelevant(w: World, first: Schedule, second: Schedule, otherFirst: Schedule, otherSecond: Schedule)
    requires ValidWorld(w)
    ensures var r, q := Bundle(w, first, second), Bundle(w, otherFirst, otherSecond);
            && r.Ok? == q.Ok?
            && (r.Ok? ==> r.value.scanned == q.value.scanned && SameContents(w, r.value.sources, q.value.sources))
  {
    hide *;
    BundleIff(w, first, second);
    BundleIff(w, otherFirst, otherSecond);
    var r, q := Bundle(w, first, second), Bundle(w, otherFirst, otherSecond);
    if r.Ok? {
      CompleteIff(w, r.value);
      CompleteIff(w, q.value);
      BoundAlike(w, AllRequests(w), r.value.sources, q.value.sources);
    }
  }

  // ---- Which names a bundle has, and which errors there are ----

  lemma RequiredAreRequested(w: World, soname: string)
    requires soname in REQUIRED_LIBRARIES && RootSource(w, soname).Some?
    ensures (soname, RootSource(w, soname).value) in RootAsks(w, REQUIRED_LIBRARIES)
  {
  }

  lemma BaseIsRequested(w: World, ask: Ask)
    requires ask in RootAsks(w, REQUIRED_LIBRARIES) || ask in Optionals(w)
    ensures ask in AllRequests(w)
  {
    hide RootAsks, Optionals, Closure, Requests;
  }

  lemma OptionalIsRequested(w: World, soname: string)
    requires soname in w.optional && RootSource(w, soname).Some?
    ensures soname in TakenNames(w) || (soname, RootSource(w, soname).value) in Optionals(w)
  {
    hide TakenNames;
  }

  lemma TakenAreRequested(w: World, soname: string)
    requires soname in TakenNames(w)
    ensures soname in Names(AllRequests(w))
  {
    hide *;
    var ask := TakenAsk(w, soname);
    if ask in RequiredBase(w) {
      RequiredBaseIn(w, ask);
    } else {
      BinaryReaches(w);
      ClosureAsks(w, ask);
    }
    NameOf(AllRequests(w), ask);
  }

  lemma NameOf(asks: set<Ask>, ask: Ask)
    requires ask in asks
    ensures ask.0 in Names(asks)
  {
  }

  lemma TakenAsk(w: World, soname: string) returns (ask: Ask)
    requires soname in TakenNames(w)
    ensures ask.0 == soname
    ensures ask in RequiredBase(w) || exists consumer :: consumer in Reach(w, {w.binary}) && ask in Requests(w, consumer)
  {
    hide RequiredBase, Reach, Requests;
    var asks := Asked(w, RequiredBase(w), Reach(w, {w.binary}));
    ask :| ask in asks && ask.0 == soname;
  }

  lemma RequiredBaseIn(w: World, ask: Ask)
    requires ask in RequiredBase(w)
    ensures ask in AllRequests(w)
  {
    hide RequiredBase, Optionals, Closure, Requests;
  }

  lemma BinaryReaches(w: World)
    ensures Reach(w, {w.binary}) <= Closure(w)
  {
    hide Optionals, Files, RootAsks, Edge;
    forall file | file in Reach(w, {w.binary}) ensures file in Closure(w) {
      var path :| IsPath(w, path) && path[0] in {w.binary} && path[|path| - 1] == file;
      assert path[0] in AllSeeds(w);
    }
  }

  lemma ClosureAsks(w: World, ask: Ask)
    requires exists consumer :: consumer in Closure(w) && ask in Requests(w, consumer)
    ensures ask in AllRequests(w)
  {
    hide AllBase, Closure, Requests;
  }

  lemma BoundName(w: World, asks: set<Ask>, sources: map<string, File>, ask: Ask)
    requires Bound(w, asks, sources) && ask in asks
    ensures ask.0 in sources && w.sha(sources[ask.0]) == w.sha(ask.1)
  {
  }

  lemma RequiredNames()
    ensures forall soname :: soname in REQUIRED_LIBRARIES <==>
      soname in {"libwayland-client.so.0", "libwayland-cursor.so.0", "libwayland-egl.so.1"}
  {
  }

  /**
   A bundle holds the C library, the interpreter, the three libraries that are loaded at run time,
   as they are found without search paths, and every optional one that is found so.
   */
  lemma NamedLibraries(w: World, first: Schedule, second: Schedule)
    requires ValidWorld(w) && Bundle(w, first, second).Ok?
    ensures var sources := Bundle(w, first, second).value.sources;
            && "libc.so.6" in sources
            && w.interpreterName in sources && sources[w.interpreterName] == w.interpreter
            && (forall soname :: soname in {"libwayland-client.so.0", "libwayland-cursor.so.0", "libwayland-egl.so.1"} ==>
                  && soname in sources && RootSource(w, soname).Some?
                  && w.sha(sources[soname]) == w.sha(RootSource(w, soname).value))
            && (forall soname :: soname in w.optional && RootSource(w, soname).Some? ==> soname in sources)
  {
    hide *;
    var t := Bundle(w, first, second).value;
    BundleIff(w, first, second);
    PackagableIff(w);
    CompleteIff(w, t);
    RequiredNames();
    forall soname | soname in {"libwayland-client.so.0", "libwayland-cursor.so.0", "libwayland-egl.so.1"}
      ensures RootSource(w, soname).Some? && soname in t.sources
           && w.sha(t.sources[soname]) == w.sha(RootSource(w, soname).value)
    {
      FoundOf(w, REQUIRED_LIBRARIES, soname);
      RequiredAreRequested(w, soname);
      BaseIsRequested(w, (soname, RootSource(w, soname).value));
      BoundName(w, AllRequests(w), t.sources, (soname, RootSource(w, soname).value));
    }
    forall soname | soname in w.optional && RootSource(w, soname).Some? ensures soname in t.sources {
      OptionalIsRequested(w, soname);
      if soname in TakenNames(w) {
        TakenAreRequested(w, soname);
      } else {
        BaseIsRequested(w, (soname, RootSource(w, soname).value));
        NameOf(AllRequests(w), (soname, RootSource(w, soname).value));
      }
    }
  }

  lemma FoundOf(w: World, sonames: seq<string>, soname: string)
    requires AllFound(w, sonames) && soname in sonames
    ensures RootSource(w, soname).Some?
  {
    hide RootSource;
  }

  lemma FineInClosure(w: World, file: File)
    requires Acceptable(w, AllBase(w), AllSeeds(w)) && file in Closure(w)
    ensures Fine(w, file)
  {
    hide Fine, AllBase, AllSeeds, Reach, Consistent;
  }

  lemma NeedOfFine(w: World, file: File, soname: string)
    requires Fine(w, file)
    ensures w.machineOf(file) == Some(w.machine) && w.needed(file).Some?
    ensures soname in w.needed(file).value ==>
      && !w.isHostDriver(soname) && Source(w, file, soname).Some?
      && (soname, Source(w, file, soname).value) in Requests(w, file)
  {
    hide Source;
  }

  lemma AskInClosure(w: World, file: File, ask: Ask)
    requires file in Closure(w) && ask in Requests(w, file)
    ensures ask in AllRequests(w) && ask.1 in Closure(w)
  {
    hide AllBase, AllSeeds, Reach, Requests;
    EdgesAreReached(w, AllSeeds(w), file);
    assert ask.1 in Files(Requests(w, file));
  }

  lemma BinaryIsInClosure(w: World)
    requires ValidWorld(w)
    ensures w.binary in Closure(w)
  {
    hide RootAsks, Optionals, Edge;
    assert IsPath(w, [w.binary]) && w.binary in AllSeeds(w);
  }

  /**
   Nothing is missing: of the binary and of every file that has been scanned, every needed name is
   in the bundle with the contents of the file that it stands for there, which has been scanned too.
   */
  lemma NeedsAreBundled(w: World, first: Schedule, second: Schedule, file: File)
    requires ValidWorld(w) && Bundle(w, first, second).Ok? && file in Bundle(w, first, second).value.scanned
    ensures var t := Bundle(w, first, second).value;
            && w.binary in t.scanned
            && w.machineOf(file) == Some(w.machine) && w.needed(file).Some?
            && forall soname :: soname in w.needed(file).value ==>
                 && !w.isHostDriver(soname) && Source(w, file, soname).Some? && Source(w, file, soname).value in t.scanned
                 && soname in t.sources && w.sha(t.sources[soname]) == w.sha(Source(w, file, soname).value)
  {
    hide *;
    var t := Bundle(w, first, second).value;
    BundleIff(w, first, second);
    PackagableIff(w);
    CompleteIff(w, t);
    BinaryIsInClosure(w);
    FineInClosure(w, file);
    NeedOfFine(w, file, "");
    forall soname | soname in w.needed(file).value
      ensures !w.isHostDriver(soname) && Source(w, file, soname).Some? && Source(w, file, soname).value in t.scanned
      ensures soname in t.sources && w.sha(t.sources[soname]) == w.sha(Source(w, file, soname).value)
    {
      NeedOfFine(w, file, soname);
      var ask := (soname, Source(w, file, soname).value);
      AskInClosure(w, file, ask);
      BoundName(w, AllRequests(w), t.sources, ask);
    }
  }

  /** Of the names a file needs, the first that cannot be had decides the error: a host driver before a missing library. */
  lemma {:induction false} FirstFaultDecides(w: World, s: State, consumer: File, sonames: seq<string>, i: nat)
    requires i < |sonames| && Discover(w, s, consumer, sonames[..i]).Ok?
    ensures w.isHostDriver(sonames[i]) ==> Discover(w, s, consumer, sonames) == Err(HostDriver(consumer, sonames[i]))
    ensures !w.isHostDriver(sonames[i]) && Source(w, consumer, sonames[i]).None? ==>
      Discover(w, s, consumer, sonames) == Err(Missing(sonames[i], consumer))
    ensures !w.isHostDriver(sonames[i]) && Source(w, consumer, sonames[i]).Some? ==>
      var sources, source := Discover(w, s, consumer, sonames[..i]).value.sources, Source(w, consumer, sonames[i]).value;
      sonames[i] in sources && w.sha(sources[sonames[i]]) != w.sha(source) ==>
        Discover(w, s, consumer, sonames) == Err(Conflict(sonames[i], sources[sonames[i]], source))
    decreases i
  {
    hide Discover, Source;
    DiscoverStep(w, s, consumer, sonames);
    DiscoverStep(w, s, consumer, sonames[..i]);
    if i > 0 {
      var source := Source(w, consumer, sonames[0]);
      assert sonames[..i][0] == sonames[0] && sonames[..i][1..] == sonames[1..][..i - 1];
      FirstFaultDecides(w, AddSource(w, s, sonames[0], source.value).value, consumer, sonames[1..], i - 1);
    }
  }

  /** A file that the queue holds fails by itself when it is for another machine or cannot be read. */
  lemma ScanFailsBy(w: World, s: State, k: nat)
    requires k < |s.queue| && s.queue[k] !in s.scanned
    ensures var file := s.queue[k];
            && (w.machineOf(file).None? ==> Scan(w, s, k) == Err(Unreadable(file)))
            && (w.machineOf(file).Some? && w.machineOf(file).value != w.machine ==> Scan(w, s, k) == Err(WrongMachine(file)))
            && (w.machineOf(file) == Some(w.machine) && w.needed(file).None? ==> Scan(w, s, k) == Err(Unreadable(file)))
  {
    hide Discover;
  }

  // ---- The loops of the script ----

  method ScanFirst(w: World, queue: seq<File>, scanned: set<File>, sources: map<string, File>) returns (r: Result<State, Error>)
    requires queue != []
    ensures r == Scan(w, State(queue, scanned, sources), 0)
  {
    var consumer, rest := queue[0], queue[1..];
    assert queue[..0] + queue[1..] == rest;
    if consumer in scanned {
      return Ok(State(rest, scanned, sources));
    }
    if w.machineOf(consumer) != Some(w.machine) {
      return Err(MachineError(w, consumer));
    }
    if w.needed(consumer).None? {
      return Err(Unreadable(consumer));
    }
    var needed := w.needed(consumer).value;
    var s := State(rest, scanned + {consumer}, sources);
    ghost var start := s;
    for i := 0 to |needed|
      invariant Discover(w, start, consumer, needed) == Discover(w, s, consumer, needed[i..])
    {
      var soname := needed[i];
      DiscoverStep(w, s, consumer, needed[i..]);
      assert needed[i..][1..] == needed[i + 1..];
      if w.isHostDriver(soname) {
        return Err(HostDriver(consumer, soname));
      }
      var source := ResolveLibrary(w, w.searchPaths(consumer), soname);
      SourceIs(w, consumer, soname);
      if source.None? {
        return Err(Missing(soname, consumer));
      }
      var next := Enqueue(w, s, soname, source.value);
      if next.Err? {
        return next;
      }
      s := next.value;
    }
    DiscoverStep(w, s, consumer, needed[|needed|..]);
    return Ok(s);
  }

  lemma DiscoverStep(w: World, s: State, consumer: File, sonames: seq<string>)
    ensures sonames == [] ==> Discover(w, s, consumer, sonames) == Ok(s)
    ensures sonames != [] ==>
      && (w.isHostDriver(sonames[0]) ==> Discover(w, s, consumer, sonames) == Err(HostDriver(consumer, sonames[0])))
      && (!w.isHostDriver(sonames[0]) ==>
            var source := Source(w, consumer, sonames[0]);
            && (source.None? ==> Discover(w, s, consumer, sonames) == Err(Missing(sonames[0], consumer)))
            && (source.Some? ==>
                  var r := AddSource(w, s, sonames[0], source.value);
                  && (r.Err? ==> Discover(w, s, consumer, sonames) == r)
                  && (r.Ok? ==> Discover(w, s, consumer, sonames) == Discover(w, r.value, consumer, sonames[1..]))))
  {
    hide AddSource, Source;
  }

  method Enqueue(w: World, s: State, soname: string, source: File) returns (r: Result<State, Error>)
    ensures r == AddSource(w, s, soname, source)
  {
    var sources := s.sources;
    if soname in sources && sources[soname] != source {
      if w.sha(sources[soname]) != w.sha(source) {
        return Err(Conflict(soname, sources[soname], source));
      }
    } else {
      sources := sources[soname := source];
    }
    return Ok(State(s.queue + [source], s.scanned, sources));
  }

  method DrainQueue(w: World, start: State) returns (r: Result<State, Error>)
    requires Elements(start.queue) <= w.files
    ensures r == Drain(w, FIFO, start)
  {
    hide Drain, Scan;
    var s := start;
    while s.queue != []
      invariant Elements(s.queue) <= w.files
      invariant Drain(w, FIFO, start) == Drain(w, FIFO, s)
      decreases |w.files - s.scanned|, |s.queue|
    {
      DrainStep(w, FIFO, s);
      DrainFails(w, s);
      var next := ScanFirst(w, s.queue, s.scanned, s.sources);
      assert State(s.queue, s.scanned, s.sources) == s;
      if next.Err? {
        return next;
      }
      s := next.value;
    }
    DrainNothing(w, FIFO, s);
    return Ok(s);
  }

  lemma DrainFails(w: World, s: State)
    requires s.queue != [] && Elements(s.queue) <= w.files
    ensures Pick(FIFO, s) == 0
    ensures Scan(w, s, 0).Err? ==> Drain(w, FIFO, s) == Scan(w, s, 0)
  {
    hide Scan;
  }

  method AddRoots(w: World, start: State) returns (r: Result<State, Error>)
    ensures AddRequired(w, start, REQUIRED_LIBRARIES).Err? ==> r == AddRequired(w, start, REQUIRED_LIBRARIES)
    ensures AddRequired(w, start, REQUIRED_LIBRARIES).Ok? ==>
      r == Ok(AddOptional(w, AddRequired(w, start, REQUIRED_LIBRARIES).value, w.optional))
  {
    hide AddRequired, AddOptional, Resolve, AddSource, RootSource;
    var s := start;
    for i := 0 to |REQUIRED_LIBRARIES|
      invariant AddRequired(w, start, REQUIRED_LIBRARIES) == AddRequired(w, s, REQUIRED_LIBRARIES[i..])
    {
      var soname := REQUIRED_LIBRARIES[i];
      RequiredStep(w, s, REQUIRED_LIBRARIES[i..]);
      assert REQUIRED_LIBRARIES[i..][1..] == REQUIRED_LIBRARIES[i + 1..];
      var source := ResolveLibrary(w, [], soname);
      SourceIs(w, w.binary, soname);
      if source.None? {
        return Err(Missing(soname, w.binary));
      }
      var next := Enqueue(w, s, soname, source.value);
      if next.Err? {
        return next;
      }
      s := next.value;
    }
    RequiredStep(w, s, REQUIRED_LIBRARIES[|REQUIRED_LIBRARIES|..]);
    ghost var required := s;
    for i := 0 to |w.optional|
      invariant AddOptional(w, required, w.optional) == AddOptional(w, s, w.optional[i..])
    {
      var soname := w.optional[i];
      OptionalStep(w, s, w.optional[i..]);
      assert w.optional[i..][1..] == w.optional[i + 1..];
      if soname in s.sources {
        continue;
      }
      var source := ResolveLibrary(w, [], soname);
      SourceIs(w, w.binary, soname);
      if source.None? {
        continue;
      }
      s := State(s.queue + [source.value], s.scanned, s.sources[soname := source.value]);
    }
    OptionalStep(w, s, w.optional[|w.optional|..]);
    return Ok(s);
  }

  lemma RequiredStep(w: World, s: State, sonames: seq<string>)
    ensures sonames == [] ==> AddRequired(w, s, sonames) == Ok(s)
    ensures sonames != [] && RootSource(w, sonames[0]).None? ==>
      AddRequired(w, s, sonames) == Err(Missing(sonames[0], w.binary))
    ensures sonames != [] && RootSource(w, sonames[0]).Some? ==>
      var r := AddSource(w, s, sonames[0], RootSource(w, sonames[0]).value);
      && (r.Err? ==> AddRequired(w, s, sonames) == r)
      && (r.Ok? ==> AddRequired(w, s, sonames) == AddRequired(w, r.value, sonames[1..]))
  {
    hide RootSource, AddSource;
  }

  lemma OptionalStep(w: World, s: State, sonames: seq<string>)
    ensures sonames == [] ==> AddOptional(w, s, sonames) == s
    ensures sonames != [] && (sonames[0] in s.sources || RootSource(w, sonames[0]).None?) ==>
      AddOptional(w, s, sonames) == AddOptional(w, s, sonames[1..])
    ensures sonames != [] && sonames[0] !in s.sources && RootSource(w, sonames[0]).Some? ==>
      var source := RootSource(w, sonames[0]).value;
      var t := State(s.queue + [source], s.scanned, s.sources[sonames[0] := source]);
      AddOptional(w, s, sonames) == AddOptional(w, t, sonames[1..])
  {
    hide RootSource;
  }

  /** The bundle that the script builds, up to copying the files. */
  method BuildBundle(w: World) returns (r: Result<State, Error>)
    requires ValidWorld(w)
    ensures r == Bundle(w, FIFO, FIFO)
  {
    hide Drain, AddRequired, AddOptional, Scan, Bound, Complete, Packagable;
    StartIsFiles(w);
    var closed := DrainQueue(w, Start(w));
    if closed.Err? {
      return closed;
    }
    DrainEmpties(w, FIFO, Start(w));
    var rooted := AddRoots(w, closed.value);
    if rooted.Err? {
      return rooted;
    }
    var all := DrainQueue(w, rooted.value);
    if all.Err? {
      return all;
    }
    var s := all.value;
    OnlyInterpreterFails(w, closed.value, rooted.value, s);
    var remaining := s.sources.Keys;
    while remaining != {}
      invariant remaining <= s.sources.Keys
      invariant forall soname :: soname in s.sources && soname !in remaining ==> w.machineOf(s.sources[soname]) == Some(w.machine)
      decreases |remaining|
    {
      var soname :| soname in remaining;
      if w.machineOf(s.sources[soname]) != Some(w.machine) {
        return Err(MachineError(w, s.sources[soname]));
      }
      remaining := remaining - {soname};
    }
    if "libc.so.6" !in s.sources {
      return Err(NoLibc);
    }
    return Ok(s);
  }
}
