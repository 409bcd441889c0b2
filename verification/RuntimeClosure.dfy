/**
 What the bundle of RuntimePackage contains: everything reachable, whatever the order in which the
 queue is processed, and success exactly when the machine's libraries allow it.
 */
module RuntimeClosure {
  import opened Results
  import opened RuntimePackage

  /** A name that some scanned file or root asked for, with the file it resolves to there. */
  type Ask = (string, File)

  // ---- What is reachable and what it asks for ----

  ghost predicate Edge(w: World, consumer: File, source: File) {
    exists soname :: soname in Needed(w, consumer) && Source(w, consumer, soname) == Some(source)
  }

  ghost predicate IsPath(w: World, path: seq<File>) {
    path != [] && forall i :: 0 < i < |path| ==> Edge(w, path[i - 1], path[i])
  }

  ghost predicate Reachable(w: World, seeds: set<File>, file: File) {
    exists path :: IsPath(w, path) && path[0] in seeds && path[|path| - 1] == file
  }

  ghost function Reach(w: World, seeds: set<File>): set<File> {
    set file | file in w.files && Reachable(w, seeds, file)
  }

  function Asks(w: World, consumer: File, sonames: seq<string>): set<Ask> {
    set soname | soname in sonames && Source(w, consumer, soname).Some? :: (soname, Source(w, consumer, soname).value)
  }

  function Requests(w: World, consumer: File): set<Ask> {
    Asks(w, consumer, Needed(w, consumer))
  }

  function Asked(w: World, base: set<Ask>, scanned: set<File>): set<Ask> {
    base + set consumer, ask | consumer in scanned && ask in Requests(w, consumer) :: ask
  }

  function Files(asks: set<Ask>): set<File> {
    set ask | ask in asks :: ask.1
  }

  function Names(asks: set<Ask>): set<string> {
    set ask | ask in asks :: ask.0
  }

  predicate FineNames(w: World, consumer: File, sonames: seq<string>) {
    forall soname :: soname in sonames ==> !w.isHostDriver(soname) && Source(w, consumer, soname).Some?
  }

  /** A file that can be bundled by itself: readable, for the right machine, and everything it needs is found. */
  predicate Fine(w: World, file: File) {
    && w.machineOf(file) == Some(w.machine)
    && w.needed(file).Some?
    && FineNames(w, file, Needed(w, file))
  }

  /** No name stands for two files with different contents. */
  predicate Consistent(w: World, asks: set<Ask>) {
    forall a, b :: a in asks && b in asks && a.0 == b.0 ==> w.sha(a.1) == w.sha(b.1)
  }

  ghost predicate Acceptable(w: World, base: set<Ask>, seeds: set<File>) {
    && (forall file :: file in Reach(w, seeds) ==> Fine(w, file))
    && Consistent(w, Asked(w, base, Reach(w, seeds)))
  }

  // ---- Reachability is the least closed set ----

  lemma EdgeIffRequest(w: World, consumer: File, source: File)
    ensures Edge(w, consumer, source) <==> source in Files(Requests(w, consumer))
    ensures Edge(w, consumer, source) ==> source in w.files
  {
    if source in Files(Requests(w, consumer)) {
      var ask :| ask in Requests(w, consumer) && ask.1 == source;
      assert ask.0 in Needed(w, consumer);
    }
    if Edge(w, consumer, source) {
      var soname :| soname in Needed(w, consumer) && Source(w, consumer, soname) == Some(source);
      assert (soname, source) in Requests(w, consumer);
    }
  }

  lemma SeedsAreReached(w: World, seeds: set<File>)
    requires seeds <= w.files
    ensures seeds <= Reach(w, seeds)
  {
    forall file | file in seeds ensures file in Reach(w, seeds) {
      assert IsPath(w, [file]);
    }
  }

  lemma EdgesAreReached(w: World, seeds: set<File>, consumer: File)
    requires consumer in Reach(w, seeds)
    ensures Files(Requests(w, consumer)) <= Reach(w, seeds)
  {
    hide Edge, Requests;
    forall file | file in Files(Requests(w, consumer)) ensures file in Reach(w, seeds) {
      EdgeIffRequest(w, consumer, file);
      var path :| IsPath(w, path) && path[0] in seeds && path[|path| - 1] == consumer;
      var longer := path + [file];
      assert IsPath(w, longer) && longer[0] in seeds && longer[|longer| - 1] == file;
    }
  }

  predicate Closed(w: World, files: set<File>) {
    forall file :: file in files ==> Files(Requests(w, file)) <= files
  }

  lemma {:induction false} PathStaysInside(w: World, path: seq<File>, files: set<File>)
    requires IsPath(w, path) && path[0] in files && Closed(w, files)
    ensures path[|path| - 1] in files
  {
    hide Edge, Requests;
    if |path| > 1 {
      PathStaysInside(w, path[..|path| - 1], files);
      EdgeIffRequest(w, path[|path| - 2], path[|path| - 1]);
    }
  }

  lemma ReachIsLeast(w: World, seeds: set<File>, files: set<File>)
    requires seeds <= files && Closed(w, files)
    ensures Reach(w, seeds) <= files
  {
    hide Closed, Edge;
    forall file | file in Reach(w, seeds) ensures file in files {
      var path :| IsPath(w, path) && path[0] in seeds && path[|path| - 1] == file;
      PathStaysInside(w, path, files);
    }
  }

  lemma ReachIsMonotone(w: World, fewer: set<File>, more: set<File>)
    requires fewer <= more
    ensures Reach(w, fewer) <= Reach(w, more)
  {
    hide Edge;
    forall file | file in Reach(w, fewer) ensures file in Reach(w, more) {
      var path :| IsPath(w, path) && path[0] in fewer && path[|path| - 1] == file;
      assert path[0] in more;
    }
  }

  lemma AskedIsMonotone(w: World, base: set<Ask>, more: set<Ask>, files: set<File>, others: set<File>)
    requires base <= more && files <= others
    ensures Asked(w, base, files) <= Asked(w, more, others)
  {
    hide Requests;
  }

  lemma ConsistentParts(w: World, fewer: set<Ask>, more: set<Ask>)
    requires fewer <= more && Consistent(w, more)
    ensures Consistent(w, fewer)
  {
  }

  lemma AcceptableParts(w: World, base: set<Ask>, seeds: set<File>, moreBase: set<Ask>, moreSeeds: set<File>)
    requires base <= moreBase && seeds <= moreSeeds && Acceptable(w, moreBase, moreSeeds)
    ensures Acceptable(w, base, seeds)
  {
    hide Fine, Consistent, Reach, Asked;
    ReachIsMonotone(w, seeds, moreSeeds);
    AskedIsMonotone(w, base, moreBase, Reach(w, seeds), Reach(w, moreSeeds));
    ConsistentParts(w, Asked(w, base, Reach(w, seeds)), Asked(w, moreBase, Reach(w, moreSeeds)));
  }

  // ---- Bindings ----

  /** The bindings are made of what has been asked, and agree in content with all of it. */
  predicate Bound(w: World, asks: set<Ask>, sources: map<string, File>) {
    && (forall soname :: soname in sources ==> (soname, sources[soname]) in asks)
    && (forall ask :: ask in asks ==> ask.0 in sources && w.sha(sources[ask.0]) == w.sha(ask.1))
  }

  predicate Kept(before: map<string, File>, after: map<string, File>) {
    forall soname :: soname in before ==> soname in after && after[soname] == before[soname]
  }

  lemma BoundIsConsistent(w: World, asks: set<Ask>, sources: map<string, File>)
    requires Bound(w, asks, sources)
    ensures Consistent(w, asks) && sources.Keys == Names(asks)
  {
    assert forall ask :: ask in asks ==> ask.0 in sources;
    forall soname | soname in sources ensures soname in Names(asks) {
      assert (soname, sources[soname]) in asks;
    }
  }

  lemma BindKeepsBound(w: World, asks: set<Ask>, sources: map<string, File>, soname: string, source: File)
    requires Bound(w, asks, sources) && Bind(w, sources, soname, source).Ok?
    ensures var after := Bind(w, sources, soname, source).value;
            Bound(w, asks + {(soname, source)}, after) && Kept(sources, after)
  {
  }

  lemma BindIff(w: World, asks: set<Ask>, sources: map<string, File>, soname: string, source: File)
    requires Bound(w, asks, sources)
    ensures var r := Bind(w, sources, soname, source);
            && (r.Ok? <==> Consistent(w, asks + {(soname, source)}))
            && (r.Ok? ==> Bound(w, asks + {(soname, source)}, r.value) && Kept(sources, r.value))
  {
    hide Kept;
    var more := asks + {(soname, source)};
    var r := Bind(w, sources, soname, source);
    if r.Ok? {
      hide *;
      BindKeepsBound(w, asks, sources, soname, source);
      BoundIsConsistent(w, more, r.value);
    } else {
      assert (soname, sources[soname]) in more && (soname, source) in more;
    }
  }

  // ---- One entry of the queue ----

  lemma ElementsOfAppend(queue: seq<File>, file: File)
    ensures Elements(queue + [file]) == Elements(queue) + {file}
  {
  }

  lemma FilesOfSum(a: set<Ask>, b: set<Ask>)
    ensures Files(a + b) == Files(a) + Files(b)
  {
    assert forall ask :: ask in a ==> ask in a + b;
    assert forall ask :: ask in b ==> ask in a + b;
  }

  lemma AsksOfCons(w: World, consumer: File, sonames: seq<string>)
    requires sonames != [] && Source(w, consumer, sonames[0]).Some?
    ensures Asks(w, consumer, sonames)
         == {(sonames[0], Source(w, consumer, sonames[0]).value)} + Asks(w, consumer, sonames[1..])
  {
    hide Source;
    assert sonames == [sonames[0]] + sonames[1..];
  }

  lemma FineNamesOfCons(w: World, consumer: File, sonames: seq<string>)
    requires sonames != []
    ensures FineNames(w, consumer, sonames) <==>
      !w.isHostDriver(sonames[0]) && Source(w, consumer, sonames[0]).Some? && FineNames(w, consumer, sonames[1..])
  {
    hide Source;
    assert sonames == [sonames[0]] + sonames[1..];
  }

  /** What `Discover` promises of one file: success exactly when all its names are fine and contradict nothing asked before. */
  ghost predicate Discovered(w: World, asks: set<Ask>, s: State, consumer: File, sonames: seq<string>) {
    var r := Discover(w, s, consumer, sonames);
    var more := asks + Asks(w, consumer, sonames);
    && (r.Ok? <==> FineNames(w, consumer, sonames) && Consistent(w, more))
    && (r.Ok? ==>
          && Bound(w, more, r.value.sources) && Kept(s.sources, r.value.sources)
          && Elements(r.value.queue) == Elements(s.queue) + Files(Asks(w, consumer, sonames)))
  }

  lemma DiscoverNothing(w: World, asks: set<Ask>, s: State, consumer: File)
    requires Bound(w, asks, s.sources)
    ensures Discovered(w, asks, s, consumer, [])
  {
    BoundIsConsistent(w, asks, s.sources);
    assert asks + Asks(w, consumer, []) == asks;
  }

  lemma DiscoverMore(w: World, asks: set<Ask>, s: State, consumer: File, sonames: seq<string>, t: State)
    requires Bound(w, asks, s.sources) && sonames != []
    requires !w.isHostDriver(sonames[0]) && Source(w, consumer, sonames[0]).Some?
    requires AddSource(w, s, sonames[0], Source(w, consumer, sonames[0]).value) == Ok(t)
    requires Kept(s.sources, t.sources)
    requires Discovered(w, asks + {(sonames[0], Source(w, consumer, sonames[0]).value)}, t, consumer, sonames[1..])
    ensures Discovered(w, asks, s, consumer, sonames)
  {
    hide Source, Bound, Consistent, Asks, FineNames, Elements, Files, AddSource;
    var source := Source(w, consumer, sonames[0]).value;
    var ask := (sonames[0], source);
    var rest := Asks(w, consumer, sonames[1..]);
    AsksOfCons(w, consumer, sonames);
    FineNamesOfCons(w, consumer, sonames);
    assert asks + {ask} + rest == asks + ({ask} + rest);
    assert Discover(w, s, consumer, sonames) == Discover(w, t, consumer, sonames[1..]);
    FilesOfSum({ask}, rest);
    FilesOfOne(ask);
    ElementsOfAppend(s.queue, source);
  }

  lemma FilesOfOne(ask: Ask)
    ensures Files({ask}) == {ask.1}
  {
  }

  lemma {:induction false} DiscoverIff(w: World, asks: set<Ask>, s: State, consumer: File, sonames: seq<string>)
    requires Bound(w, asks, s.sources)
    ensures Discovered(w, asks, s, consumer, sonames)
    decreases |sonames|
  {
    hide Bound, Consistent, Asks, FineNames, Elements, Files, Bind, Discovered, Source;
    if sonames == [] {
      DiscoverNothing(w, asks, s, consumer);
    } else if w.isHostDriver(sonames[0]) || Source(w, consumer, sonames[0]).None? {
      DiscoverFails(w, asks, s, consumer, sonames);
    } else {
      var source := Source(w, consumer, sonames[0]).value;
      BindIff(w, asks, s.sources, sonames[0], source);
      var r := AddSource(w, s, sonames[0], source);
      if r.Ok? {
        DiscoverIff(w, asks + {(sonames[0], source)}, r.value, consumer, sonames[1..]);
        DiscoverMore(w, asks, s, consumer, sonames, r.value);
      } else {
        DiscoverConflicts(w, asks, s, consumer, sonames);
      }
    }
  }

  lemma DiscoverFails(w: World, asks: set<Ask>, s: State, consumer: File, sonames: seq<string>)
    requires sonames != [] && (w.isHostDriver(sonames[0]) || Source(w, consumer, sonames[0]).None?)
    ensures Discovered(w, asks, s, consumer, sonames)
  {
    hide Consistent, Source, Bound;
    FineNamesOfCons(w, consumer, sonames);
  }

  lemma DiscoverConflicts(w: World, asks: set<Ask>, s: State, consumer: File, sonames: seq<string>)
    requires sonames != [] && !w.isHostDriver(sonames[0]) && Source(w, consumer, sonames[0]).Some?
    requires AddSource(w, s, sonames[0], Source(w, consumer, sonames[0]).value).Err?
    requires !Consistent(w, asks + {(sonames[0], Source(w, consumer, sonames[0]).value)})
    ensures Discovered(w, asks, s, consumer, sonames)
  {
    hide Consistent, Source, Bound, AddSource, Asks, FineNames;
    AsksOfCons(w, consumer, sonames);
    var ask := (sonames[0], Source(w, consumer, sonames[0]).value);
    var more := asks + Asks(w, consumer, sonames);
    assert asks + {ask} <= more;
    if Consistent(w, more) {
      ConsistentParts(w, asks + {ask}, more);
    }
    assert Discover(w, s, consumer, sonames).Err?;
  }

  // ---- The worklist invariant ----

  function Known(s: State): set<File> {
    Elements(s.queue) + s.scanned
  }

  /** Known files are reachable, and whatever has been scanned is fine and its needs are known. */
  ghost predicate Progress(w: World, seeds: set<File>, s: State) {
    && Known(s) <= Reach(w, seeds)
    && seeds <= Known(s)
    && (forall file :: file in s.scanned ==> Fine(w, file) && Files(Requests(w, file)) <= Known(s))
  }

  ghost predicate Inv(w: World, base: set<Ask>, seeds: set<File>, s: State) {
    Progress(w, seeds, s) && Bound(w, Asked(w, base, s.scanned), s.sources)
  }

  lemma ReachIsFiles(w: World, seeds: set<File>)
    ensures Reach(w, seeds) <= w.files
  {
  }

  lemma InvIsFiles(w: World, base: set<Ask>, seeds: set<File>, s: State)
    requires Inv(w, base, seeds, s)
    ensures Elements(s.queue) <= w.files
  {
    hide Reach, Bound, Fine, Requests;
    ReachIsFiles(w, seeds);
  }

  lemma ElementsWithout(queue: seq<File>, k: nat)
    requires k < |queue|
    ensures Elements(queue[..k] + queue[k + 1..]) + {queue[k]} == Elements(queue)
  {
    var rest := queue[..k] + queue[k + 1..];
    forall file | file in queue ensures file in rest || file == queue[k] {
      var i :| 0 <= i < |queue| && queue[i] == file;
      assert i < k ==> rest[i] == file;
      assert i > k ==> rest[i - 1] == file;
    }
  }

  lemma AskedWithOne(w: World, base: set<Ask>, scanned: set<File>, file: File)
    ensures Asked(w, base, scanned + {file}) == Asked(w, base, scanned) + Requests(w, file)
  {
    hide Requests;
  }

  function Taken(s: State, k: nat): State
    requires k < |s.queue|
  {
    State(s.queue[..k] + s.queue[k + 1..], s.scanned, s.sources)
  }

  lemma ScanAgain(w: World, base: set<Ask>, seeds: set<File>, s: State, k: nat)
    requires Inv(w, base, seeds, s) && k < |s.queue| && s.queue[k] in s.scanned
    ensures Scan(w, s, k) == Ok(Taken(s, k)) && Inv(w, base, seeds, Taken(s, k))
  {
    hide Reach, Bound, Fine, Requests, Elements;
    ElementsWithout(s.queue, k);
    assert Known(Taken(s, k)) == Known(s);
  }

  lemma ScanNew(w: World, s: State, k: nat)
    requires k < |s.queue| && s.queue[k] !in s.scanned
    ensures var file := s.queue[k];
            var found := Discover(w, Taken(s, k).(scanned := s.scanned + {file}), file, Needed(w, file));
            && (w.machineOf(file) == Some(w.machine) && w.needed(file).Some? ==> Scan(w, s, k) == found)
            && (!(w.machineOf(file) == Some(w.machine) && w.needed(file).Some?) ==> Scan(w, s, k).Err?)
  {
    hide Discover;
  }

  lemma FineIff(w: World, file: File)
    ensures Fine(w, file) <==> w.machineOf(file) == Some(w.machine) && w.needed(file).Some? && FineNames(w, file, Needed(w, file))
  {
    hide FineNames;
  }

  /** Scanning a new file: it succeeds only if the file is fine, and fails only if the whole cannot be accepted. */
  lemma ScanDecides(w: World, base: set<Ask>, seeds: set<File>, s: State, k: nat)
    requires Bound(w, Asked(w, base, s.scanned), s.sources) && k < |s.queue| && s.queue[k] !in s.scanned
    ensures var file, r := s.queue[k], Scan(w, s, k);
            && (r.Ok? <==> Fine(w, file) && Consistent(w, Asked(w, base, s.scanned + {file})))
            && (r.Ok? ==>
                  && r.value.scanned == s.scanned + {file}
                  && Bound(w, Asked(w, base, s.scanned + {file}), r.value.sources) && Kept(s.sources, r.value.sources)
                  && Elements(r.value.queue) == Elements(Taken(s, k).queue) + Files(Requests(w, file)))
  {
    hide *;
    var file := s.queue[k];
    TakenParts(s, k);
    ScanNew(w, s, k);
    FineIff(w, file);
    AskedWithOne(w, base, s.scanned, file);
    RequestsAre(w, file);
    DiscoverIff(w, Asked(w, base, s.scanned), Taken(s, k).(scanned := s.scanned + {file}), file, Needed(w, file));
    DiscoveredMeans(w, Asked(w, base, s.scanned), Taken(s, k).(scanned := s.scanned + {file}), file, Needed(w, file));
  }

  lemma TakenParts(s: State, k: nat)
    requires k < |s.queue|
    ensures Taken(s, k).sources == s.sources && Taken(s, k).scanned == s.scanned
  {
  }

  lemma RequestsAre(w: World, file: File)
    ensures Requests(w, file) == Asks(w, file, Needed(w, file))
  {
  }

  lemma DiscoveredMeans(w: World, asks: set<Ask>, s: State, consumer: File, sonames: seq<string>)
    requires Discovered(w, asks, s, consumer, sonames)
    ensures var r := Discover(w, s, consumer, sonames);
            var more := asks + Asks(w, consumer, sonames);
            && (r.Ok? <==> FineNames(w, consumer, sonames) && Consistent(w, more))
            && (r.Ok? ==>
                  && r.value.scanned == s.scanned
                  && Bound(w, more, r.value.sources) && Kept(s.sources, r.value.sources)
                  && Elements(r.value.queue) == Elements(s.queue) + Files(Asks(w, consumer, sonames)))
  {
    hide Discover, FineNames, Consistent, Bound, Kept, Elements, Files, Asks;
  }

  lemma ProgressOfScan(w: World, seeds: set<File>, s: State, k: nat, t: State)
    requires Progress(w, seeds, s) && k < |s.queue| && Fine(w, s.queue[k])
    requires t.scanned == s.scanned + {s.queue[k]}
    requires Elements(t.queue) == Elements(Taken(s, k).queue) + Files(Requests(w, s.queue[k]))
    ensures Progress(w, seeds, t)
  {
    hide Reach, Fine, Requests, Files, Elements;
    ElementsWithout(s.queue, k);
    TakenQueue(s, k);
    QueueElement(s.queue, k);
    EdgesAreReached(w, seeds, s.queue[k]);
    assert Known(t) == Known(s) + Files(Requests(w, s.queue[k]));
  }

  lemma TakenQueue(s: State, k: nat)
    requires k < |s.queue|
    ensures Taken(s, k).queue == s.queue[..k] + s.queue[k + 1..]
  {
  }

  lemma QueueElement(queue: seq<File>, k: nat)
    requires k < |queue|
    ensures queue[k] in Elements(queue)
  {
  }

  lemma ScanKeepsInv(w: World, base: set<Ask>, seeds: set<File>, s: State, k: nat)
    requires Inv(w, base, seeds, s) && k < |s.queue|
    ensures var r := Scan(w, s, k);
            && (r.Ok? ==> Inv(w, base, seeds, r.value) && Kept(s.sources, r.value.sources))
            && (r.Err? ==> !Acceptable(w, base, seeds))
  {
    hide *;
    InvIff(w, base, seeds, s);
    if s.queue[k] in s.scanned {
      ScanAgain(w, base, seeds, s, k);
      TakenParts(s, k);
      KeptSame(s.sources);
    } else {
      ScanDecides(w, base, seeds, s, k);
      var r := Scan(w, s, k);
      if r.Ok? {
        ProgressOfScan(w, seeds, s, k, r.value);
        InvIff(w, base, seeds, r.value);
      } else {
        RejectedMeansUnacceptable(w, base, seeds, s, k);
      }
    }
  }

  lemma KeptSame(sources: map<string, File>)
    ensures Kept(sources, sources)
  {
  }

  lemma InvIff(w: World, base: set<Ask>, seeds: set<File>, s: State)
    ensures Inv(w, base, seeds, s) <==> Progress(w, seeds, s) && Bound(w, Asked(w, base, s.scanned), s.sources)
  {
    hide Progress, Bound, Asked;
  }

  lemma RejectedMeansUnacceptable(w: World, base: set<Ask>, seeds: set<File>, s: State, k: nat)
    requires Progress(w, seeds, s) && k < |s.queue|
    requires !Fine(w, s.queue[k]) || !Consistent(w, Asked(w, base, s.scanned + {s.queue[k]}))
    ensures !Acceptable(w, base, seeds)
  {
    hide Reach, Fine, Consistent, Asked, Requests;
    var seen := s.scanned + {s.queue[k]};
    QueueElement(s.queue, k);
    assert seen <= Reach(w, seeds);
    AskedIsMonotone(w, base, base, seen, Reach(w, seeds));
    if Consistent(w, Asked(w, base, Reach(w, seeds))) {
      ConsistentParts(w, Asked(w, base, seen), Asked(w, base, Reach(w, seeds)));
    }
  }

  // ---- A whole drain, in any order ----

  lemma EmptyQueueIsDone(w: World, base: set<Ask>, seeds: set<File>, s: State)
    requires Inv(w, base, seeds, s) && s.queue == []
    ensures s.scanned == Reach(w, seeds) && Acceptable(w, base, seeds)
  {
    hide Reach, Fine, Consistent, Asked, Requests, Bound;
    assert Known(s) == s.scanned;
    assert Closed(w, s.scanned);
    ReachIsLeast(w, seeds, s.scanned);
    BoundIsConsistent(w, Asked(w, base, s.scanned), s.sources);
  }

  lemma KeptTransitive(a: map<string, File>, b: map<string, File>, c: map<string, File>)
    requires Kept(a, b) && Kept(b, c)
    ensures Kept(a, c)
  {
  }

  lemma DrainStep(w: World, schedule: Schedule, s: State)
    requires s.queue != [] && Elements(s.queue) <= w.files
    ensures var k := Pick(schedule, s);
            var r := Scan(w, s, k);
            && Drain(w, schedule, s).Ok? == (r.Ok? && Drain(w, schedule, r.value).Ok?)
            && (r.Ok? ==>
                  && Drain(w, schedule, s) == Drain(w, schedule, r.value)
                  && (|w.files - r.value.scanned| < |w.files - s.scanned|
                      || (r.value.scanned == s.scanned && |r.value.queue| < |s.queue|)))
  {
    hide Scan;
    var k := Pick(schedule, s);
    QueueElement(s.queue, k);
    if Scan(w, s, k).Ok? && s.queue[k] !in s.scanned {
      var t := Scan(w, s, k).value;
      assert w.files - t.scanned == (w.files - s.scanned) - {s.queue[k]};
    }
  }

  /**
   Whatever the schedule, a drain succeeds exactly when everything reachable is fine and no name
   stands for two contents; it has then scanned exactly what is reachable.
   */
  lemma {:induction false} DrainIff(w: World, base: set<Ask>, seeds: set<File>, schedule: Schedule, s: State)
    requires Inv(w, base, seeds, s) && Elements(s.queue) <= w.files
    ensures Drain(w, schedule, s).Ok? <==> Acceptable(w, base, seeds)
    ensures Drain(w, schedule, s).Ok? ==>
      var t := Drain(w, schedule, s).value;
      && Inv(w, base, seeds, t) && Kept(s.sources, t.sources) && t.queue == [] && t.scanned == Reach(w, seeds)
    decreases |w.files - s.scanned|, |s.queue|
  {
    hide *;
    if s.queue == [] {
      EmptyQueueIsDone(w, base, seeds, s);
      KeptSame(s.sources);
      DrainNothing(w, schedule, s);
    } else {
      var k := Pick(schedule, s);
      var r := Scan(w, s, k);
      ScanKeepsInv(w, base, seeds, s, k);
      DrainStep(w, schedule, s);
      if r.Ok? {
        InvIsFiles(w, base, seeds, r.value);
        DrainIff(w, base, seeds, schedule, r.value);
        if Drain(w, schedule, r.value).Ok? {
          KeptTransitive(s.sources, r.value.sources, Drain(w, schedule, r.value).value.sources);
        }
      }
    }
  }

  lemma DrainNothing(w: World, schedule: Schedule, s: State)
    requires s.queue == [] && Elements(s.queue) <= w.files
    ensures Drain(w, schedule, s) == Ok(s)
  {
  }

  /** Two orders of the same worklist agree on success, on what is scanned, on the names bound and on their contents. */
  lemma DrainOrderIsIrrelevant(w: World, base: set<Ask>, seeds: set<File>, one: Schedule, other: Schedule, s: State)
    requires Inv(w, base, seeds, s) && Elements(s.queue) <= w.files
    ensures var r, q := Drain(w, one, s), Drain(w, other, s);
            && r.Ok? == q.Ok?
            && (r.Ok? ==>
                  && r.value.scanned == q.value.scanned
                  && SameContents(w, r.value.sources, q.value.sources))
  {
    hide Inv, Acceptable, Reach, Drain, SameContents, Bound, Asked;
    DrainIff(w, base, seeds, one, s);
    DrainIff(w, base, seeds, other, s);
    var r, q := Drain(w, one, s), Drain(w, other, s);
    if r.Ok? {
      InvIff(w, base, seeds, r.value);
      InvIff(w, base, seeds, q.value);
      BoundAlike(w, Asked(w, base, Reach(w, seeds)), r.value.sources, q.value.sources);
    }
  }

  predicate SameContents(w: World, one: map<string, File>, other: map<string, File>) {
    one.Keys == other.Keys && forall soname :: soname in one ==> w.sha(one[soname]) == w.sha(other[soname])
  }

  lemma BoundAlike(w: World, asks: set<Ask>, one: map<string, File>, other: map<string, File>)
    requires Bound(w, asks, one) && Bound(w, asks, other)
    ensures SameContents(w, one, other)
  {
    BoundIsConsistent(w, asks, one);
    BoundIsConsistent(w, asks, other);
    assert forall soname :: soname in one ==> (soname, one[soname]) in asks;
  }

  // ---- Roots asked for by name ----

  function RootAsks(w: World, sonames: seq<string>): set<Ask> {
    set soname | soname in sonames && RootSource(w, soname).Some? :: (soname, RootSource(w, soname).value)
  }

  /** The optional names that nothing has asked for and that are found. */
  function OptionalAsks(w: World, bound: set<string>, sonames: seq<string>): set<Ask> {
    set soname | soname in sonames && soname !in bound && RootSource(w, soname).Some? :: (soname, RootSource(w, soname).value)
  }

  predicate AllFound(w: World, sonames: seq<string>) {
    forall soname :: soname in sonames ==> RootSource(w, soname).Some?
  }

  lemma ReachOfMore(w: World, seeds: set<File>, file: File)
    requires file in w.files
    ensures Reach(w, seeds) + {file} <= Reach(w, seeds + {file})
  {
    hide Edge;
    ReachIsMonotone(w, seeds, seeds + {file});
    assert IsPath(w, [file]);
  }

  lemma AskedOfMore(w: World, base: set<Ask>, scanned: set<File>, ask: Ask)
    ensures Asked(w, base + {ask}, scanned) == Asked(w, base, scanned) + {ask}
  {
    hide Requests;
  }

  lemma RootKeepsProgress(w: World, seeds: set<File>, s: State, file: File, t: State)
    requires Progress(w, seeds, s) && file in w.files
    requires t.queue == s.queue + [file] && t.scanned == s.scanned
    ensures Progress(w, seeds + {file}, t)
  {
    hide Reach, Fine, Requests, Files, Elements;
    ReachOfMore(w, seeds, file);
    ElementsOfAppend(s.queue, file);
    assert Known(t) == Known(s) + {file};
  }

  /** A root is added exactly when it contradicts nothing asked before. */
  lemma AddSourceIff(w: World, base: set<Ask>, seeds: set<File>, s: State, soname: string, source: File)
    requires Inv(w, base, seeds, s) && source in w.files
    ensures var r := AddSource(w, s, soname, source);
            && (r.Ok? <==> Consistent(w, Asked(w, base + {(soname, source)}, s.scanned)))
            && (r.Ok? ==> Inv(w, base + {(soname, source)}, seeds + {source}, r.value) && Kept(s.sources, r.value.sources))
  {
    hide *;
    InvIff(w, base, seeds, s);
    AskedOfMore(w, base, s.scanned, (soname, source));
    BindIff(w, Asked(w, base, s.scanned), s.sources, soname, source);
    AddSourceBinds(w, s, soname, source);
    var r := AddSource(w, s, soname, source);
    if r.Ok? {
      RootKeepsProgress(w, seeds, s, source, r.value);
      InvIff(w, base + {(soname, source)}, seeds + {source}, r.value);
    }
  }

  lemma AddSourceBinds(w: World, s: State, soname: string, source: File)
    ensures var r, b := AddSource(w, s, soname, source), Bind(w, s.sources, soname, source);
            && r.Ok? == b.Ok?
            && (r.Ok? ==> r.value == State(s.queue + [source], s.scanned, b.value))
  {
    hide Bind;
  }

  lemma RootAsksOfCons(w: World, sonames: seq<string>)
    requires sonames != [] && RootSource(w, sonames[0]).Some?
    ensures RootAsks(w, sonames) == {(sonames[0], RootSource(w, sonames[0]).value)} + RootAsks(w, sonames[1..])
  {
    hide RootSource;
    assert sonames == [sonames[0]] + sonames[1..];
  }

  lemma AllFoundOfCons(w: World, sonames: seq<string>)
    requires sonames != []
    ensures AllFound(w, sonames) <==> RootSource(w, sonames[0]).Some? && AllFound(w, sonames[1..])
  {
    hide RootSource;
    assert sonames == [sonames[0]] + sonames[1..];
  }

  lemma AddRequiredStep(w: World, s: State, sonames: seq<string>)
    ensures sonames == [] ==> AddRequired(w, s, sonames) == Ok(s) && AllFound(w, sonames) && RootAsks(w, sonames) == {}
    ensures sonames != [] && RootSource(w, sonames[0]).None? ==> AddRequired(w, s, sonames).Err?
    ensures sonames != [] && RootSource(w, sonames[0]).Some? ==>
      var r := AddSource(w, s, sonames[0], RootSource(w, sonames[0]).value);
      && (r.Err? ==> AddRequired(w, s, sonames).Err?)
      && (r.Ok? ==> AddRequired(w, s, sonames) == AddRequired(w, r.value, sonames[1..]))
  {
    hide RootSource, AddSource;
  }

  lemma FilesWithOne(ask: Ask, rest: set<Ask>)
    ensures Files({ask} + rest) == {ask.1} + Files(rest)
  {
    FilesOfSum({ask}, rest);
  }

  /** The required roots are added exactly when all are found and none contradicts anything. */
  lemma {:induction false} AddRequiredIff(w: World, base: set<Ask>, seeds: set<File>, s: State, sonames: seq<string>)
    requires Inv(w, base, seeds, s)
    ensures var r, asks := AddRequired(w, s, sonames), RootAsks(w, sonames);
            && (r.Ok? <==> AllFound(w, sonames) && Consistent(w, Asked(w, base + asks, s.scanned)))
            && (r.Ok? ==>
                  && Inv(w, base + asks, seeds + Files(asks), r.value)
                  && r.value.scanned == s.scanned && Kept(s.sources, r.value.sources))
    decreases |sonames|
  {
    hide *;
    AddRequiredStep(w, s, sonames);
    var asks := RootAsks(w, sonames);
    if sonames == [] {
      InvIff(w, base, seeds, s);
      BoundIsConsistent(w, Asked(w, base, s.scanned), s.sources);
      assert base + asks == base;
      FilesOfNothing();
      assert seeds + Files(asks) == seeds;
      KeptSame(s.sources);
    } else {
      AllFoundOfCons(w, sonames);
      if RootSource(w, sonames[0]).Some? {
        var source := RootSource(w, sonames[0]).value;
        var ask := (sonames[0], source);
        var rest := RootAsks(w, sonames[1..]);
        RootAsksOfCons(w, sonames);
        AddSourceIff(w, base, seeds, s, sonames[0], source);
        FilesWithOne(ask, rest);
        assert base + asks == base + {ask} + rest;
        assert seeds + Files(asks) == seeds + {source} + Files(rest);
        var r := AddSource(w, s, sonames[0], source);
        if r.Ok? {
          AddRequiredIff(w, base + {ask}, seeds + {source}, r.value, sonames[1..]);
          if AddRequired(w, s, sonames).Ok? {
            KeptTransitive(s.sources, r.value.sources, AddRequired(w, s, sonames).value.sources);
          }
        } else if Consistent(w, Asked(w, base + asks, s.scanned)) {
          AskedIsMonotone(w, base + {ask}, base + asks, s.scanned, s.scanned);
          ConsistentParts(w, Asked(w, base + {ask}, s.scanned), Asked(w, base + asks, s.scanned));
        }
      }
    }
  }

  lemma FilesOfNothing()
    ensures Files({}) == {}
  {
  }

  lemma AddOptionalStep(w: World, s: State, sonames: seq<string>)
    ensures sonames == [] ==> AddOptional(w, s, sonames) == s && OptionalAsks(w, s.sources.Keys, sonames) == {}
    ensures sonames != [] && (sonames[0] in s.sources || RootSource(w, sonames[0]).None?) ==>
      && AddOptional(w, s, sonames) == AddOptional(w, s, sonames[1..])
      && OptionalAsks(w, s.sources.Keys, sonames) == OptionalAsks(w, s.sources.Keys, sonames[1..])
    ensures sonames != [] && sonames[0] !in s.sources && RootSource(w, sonames[0]).Some? ==>
      var r := AddSource(w, s, sonames[0], RootSource(w, sonames[0]).value);
      && r.Ok? && AddOptional(w, s, sonames) == AddOptional(w, r.value, sonames[1..])
      && r.value.sources.Keys == s.sources.Keys + {sonames[0]}
  {
    hide RootSource;
    assert sonames != [] ==> sonames == [sonames[0]] + sonames[1..];
  }

  lemma OptionalAsksOfCons(w: World, bound: set<string>, sonames: seq<string>)
    requires sonames != [] && sonames[0] !in bound && RootSource(w, sonames[0]).Some?
    ensures OptionalAsks(w, bound, sonames)
         == {(sonames[0], RootSource(w, sonames[0]).value)} + OptionalAsks(w, bound + {sonames[0]}, sonames[1..])
  {
    hide RootSource;
    assert sonames == [sonames[0]] + sonames[1..];
  }

  /** The optional roots are those that nothing has asked for yet; adding them never fails. */
  lemma {:induction false} AddOptionalKeepsInv(w: World, base: set<Ask>, seeds: set<File>, s: State, sonames: seq<string>)
    requires Inv(w, base, seeds, s)
    ensures var t, asks := AddOptional(w, s, sonames), OptionalAsks(w, s.sources.Keys, sonames);
            && Inv(w, base + asks, seeds + Files(asks), t)
            && t.scanned == s.scanned && Kept(s.sources, t.sources)
    decreases |sonames|
  {
    hide *;
    AddOptionalStep(w, s, sonames);
    var asks := OptionalAsks(w, s.sources.Keys, sonames);
    if sonames == [] {
      assert base + asks == base;
      FilesOfNothing();
      assert seeds + Files(asks) == seeds;
      KeptSame(s.sources);
    } else if sonames[0] in s.sources || RootSource(w, sonames[0]).None? {
      AddOptionalKeepsInv(w, base, seeds, s, sonames[1..]);
    } else {
      var source := RootSource(w, sonames[0]).value;
      var ask := (sonames[0], source);
      var t := AddSource(w, s, sonames[0], source).value;
      var rest := OptionalAsks(w, t.sources.Keys, sonames[1..]);
      OptionalAsksOfCons(w, s.sources.Keys, sonames);
      AddSourceIff(w, base, seeds, s, sonames[0], source);
      AddOptionalKeepsInv(w, base + {ask}, seeds + {source}, t, sonames[1..]);
      FilesWithOne(ask, rest);
      assert base + asks == base + {ask} + rest;
      assert seeds + Files(asks) == seeds + {source} + Files(rest);
      KeptTransitive(s.sources, t.sources, AddOptional(w, s, sonames).sources);
    }
  }
}
