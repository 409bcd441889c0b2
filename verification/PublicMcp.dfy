/**
 The public MCP runtime of main/src/public_mcp_runtime.rs: starts, stops and permission changes
 fenced by a generation, with discovery documents on disk.
 */
module PublicMcp {
  import opened Results

  datatype Mode = Temporary | Persistent

  datatype Permission = Deny | Ask | Allow

  /** `toolsets` stands for the exposure settings, which are only compared. */
  datatype Config = Config(enabled: bool, mode: Mode, permission: Permission, toolsets: int)

  predicate RequiresRestart(active: Config, next: Config) {
    active.enabled != next.enabled || active.mode != next.mode || active.toolsets != next.toolsets
  }

  datatype Runtime = Runtime(addr: string, token: string, mode: Mode, permission: Permission, toolsets: int)

  datatype Document = Document(app: string, addr: string, token: string, mode: Mode)

  /** The document a runtime stages when it starts. */
  function DocumentOf(runtime: Runtime): Document {
    Document("navop", runtime.addr, runtime.token, runtime.mode)
  }

  function LegacyCompatible(document: Document): Document {
    document.(app := "onetcli")
  }

  datatype Status =
    | Disabled
    | Starting(generation: nat)
    | Running(generation: nat, addr: string, mode: Mode)
    | Failed(generation: nat, message: string)

  function SetFailed(status: Status, generation: nat, message: string): Status {
    if !status.Disabled? && status.generation == generation then Failed(generation, message) else status
  }

  /** How far `publish_discovery_documents` gets. */
  datatype Publication = Published | ReadFailed(error: string) | CanonicalFailed(error: string) | LegacyFailed(error: string)

  /**
   The global state with the two documents on disk, the starts in flight by generation, and for
   the statements below the configuration last reconciled and the generations activated so far.
   */
  datatype State = State(
    runtime: Option<Runtime>,
    activeConfig: Option<Config>,
    status: Status,
    generation: nat,
    canonical: Option<Document>,
    legacy: Option<Document>,
    inFlight: map<nat, Config>,
    latest: Option<Config>,
    activated: seq<nat>)

  /** Removing a document can fail; the runtime goes on. */
  datatype Removal = Removal(canonical: bool, legacy: bool)

  datatype Event =
    | Reconcile(config: Config, registryError: Option<string>, removal: Removal)
    | StartSucceeded(generation: nat, addr: string, token: string, publication: Publication)
    | StartFailed(generation: nat, message: string)

  /** The state after `init` has tried to remove the documents of an earlier process. */
  function Init(canonical: Option<Document>, legacy: Option<Document>): State {
    State(None, None, Disabled, 0, canonical, legacy, map[], None, [])
  }

  // ---- The handlers ----

  function RemoveDocuments(s: State, removal: Removal): State {
    s.(canonical := if removal.canonical then None else s.canonical,
       legacy := if removal.legacy then None else s.legacy)
  }

  function NextGeneration(s: State, removal: Removal): State {
    RemoveDocuments(
      s.(generation := s.generation + 1, runtime := None, activeConfig := None, status := Starting(s.generation + 1)),
      removal)
  }

  function StopRuntime(s: State, removal: Removal): State {
    RemoveDocuments(
      s.(generation := s.generation + 1, runtime := None, activeConfig := None, status := Disabled),
      removal)
  }

  function StartRuntime(s: State, config: Config, registryError: Option<string>, removal: Removal): State {
    var next := NextGeneration(s, removal);
    match registryError
    case Some(message) => next.(status := SetFailed(next.status, next.generation, message))
    case None => next.(inFlight := next.inFlight[next.generation := config])
  }

  predicate CanUpdate(s: State, config: Config) {
    s.activeConfig.Some? && !RequiresRestart(s.activeConfig.value, config) && s.runtime.Some?
  }

  function UpdateRuntime(s: State, config: Config): State
    requires CanUpdate(s, config)
  {
    s.(runtime := Some(s.runtime.value.(permission := config.permission)), activeConfig := Some(config))
  }

  function ReconcileStep(s: State, config: Config, registryError: Option<string>, removal: Removal): State {
    var noted := s.(latest := Some(config));
    if !config.enabled then StopRuntime(noted, removal)
    else if CanUpdate(noted, config) then UpdateRuntime(noted, config)
    else StartRuntime(noted, config, registryError, removal)
  }

  function Publish(s: State, document: Document, publication: Publication): State {
    match publication
    case Published => s.(canonical := Some(document), legacy := Some(LegacyCompatible(document)))
    case LegacyFailed(_) => s.(canonical := Some(document))
    case _ => s
  }

  function Activate(s: State, generation: nat, config: Config, runtime: Runtime, publication: Publication): State {
    if s.generation != generation then s
    else
      var written := Publish(s, DocumentOf(runtime), publication);
      if !publication.Published? then
        written.(status := SetFailed(s.status, generation, "Failed to publish discovery: " + publication.error))
      else
        written.(status := Running(generation, runtime.addr, config.mode),
                 activeConfig := Some(config), runtime := Some(runtime), activated := s.activated + [generation])
  }

  predicate Enabled(s: State, e: Event) {
    !e.Reconcile? ==> e.generation in s.inFlight
  }

  function Step(s: State, e: Event): State
    requires Enabled(s, e)
  {
    match e
    case Reconcile(config, registryError, removal) => ReconcileStep(s, config, registryError, removal)
    case StartSucceeded(generation, addr, token, publication) =>
      var config := s.inFlight[generation];
      var runtime := Runtime(addr, token, config.mode, config.permission, config.toolsets);
      Activate(s.(inFlight := s.inFlight - {generation}), generation, config, runtime, publication)
    case StartFailed(generation, message) =>
      s.(inFlight := s.inFlight - {generation}, status := SetFailed(s.status, generation, message))
  }

  predicate Possible(s: State, events: seq<Event>)
    decreases |events|
  {
    events != [] ==> Enabled(s, events[0]) && Possible(Step(s, events[0]), events[1..])
  }

  function Run(s: State, events: seq<Event>): State
    requires Possible(s, events)
    decreases |events|
  {
    if events == [] then s else Run(Step(s, events[0]), events[1..])
  }

  // ---- What every run keeps ----

  /** A live runtime is the one that the latest reconcile asked for, and both documents describe it. */
  predicate LiveIsCurrent(s: State) {
    && (s.runtime.Some? <==> s.activeConfig.Some?)
    && (s.runtime.Some? <==> s.status.Running?)
    && (s.runtime.Some? ==>
          var r, c := s.runtime.value, s.activeConfig.value;
          && s.latest == Some(c) && c.enabled
          && r.mode == c.mode && r.permission == c.permission && r.toolsets == c.toolsets
          && s.status == Running(s.generation, r.addr, r.mode)
          && s.canonical == Some(DocumentOf(r)) && s.legacy == Some(LegacyCompatible(DocumentOf(r))))
  }

  /** Only the start that holds the current generation can still become live, and it was begun by the latest reconcile. */
  predicate StartsAreFenced(s: State) {
    && (forall g :: g in s.inFlight ==> g <= s.generation)
    && (s.generation in s.inFlight ==>
          && s.runtime.None?
          && s.latest == Some(s.inFlight[s.generation]) && s.latest.value.enabled)
    && (s.status.Starting? ==> s.generation in s.inFlight)
    && (!s.status.Disabled? ==> s.status.generation == s.generation)
    && (s.status.Disabled? <==> s.latest.None? || !s.latest.value.enabled)
  }

  predicate Increasing(xs: seq<nat>) {
    forall i, j :: 0 <= i < j < |xs| ==> xs[i] < xs[j]
  }

  predicate ActivationsInOrder(s: State) {
    && Increasing(s.activated)
    && (forall i :: 0 <= i < |s.activated| ==> s.activated[i] <= s.generation)
    && (s.generation in s.inFlight ==> s.generation !in s.activated)
    && (s.runtime.Some? ==> s.activated != [] && s.activated[|s.activated| - 1] == s.generation)
  }

  predicate Sound(s: State) {
    LiveIsCurrent(s) && StartsAreFenced(s) && ActivationsInOrder(s)
  }

  lemma ReconcileKeepsLive(s: State, e: Event)
    requires LiveIsCurrent(s) && e.Reconcile?
    ensures LiveIsCurrent(Step(s, e))
  {
  }

  lemma StopKeepsFence(s: State, config: Config, removal: Removal)
    requires StartsAreFenced(s) && !config.enabled
    ensures var t := StopRuntime(s.(latest := Some(config)), removal);
            StartsAreFenced(t) && t.generation > s.generation
  {
  }

  lemma StartKeepsFence(s: State, config: Config, registryError: Option<string>, removal: Removal)
    requires StartsAreFenced(s) && config.enabled
    ensures var t := StartRuntime(s.(latest := Some(config)), config, registryError, removal);
            StartsAreFenced(t) && t.generation > s.generation
  {
  }

  lemma UpdateKeepsFence(s: State, config: Config)
    requires LiveIsCurrent(s) && StartsAreFenced(s) && config.enabled && CanUpdate(s, config)
    ensures var t := UpdateRuntime(s.(latest := Some(config)), config);
            StartsAreFenced(t) && t.generation == s.generation && t.inFlight == s.inFlight
  {
  }

  lemma ReconcileKeepsFence(s: State, e: Event)
    requires LiveIsCurrent(s) && StartsAreFenced(s) && e.Reconcile?
    ensures StartsAreFenced(Step(s, e)) && Step(s, e).generation >= s.generation
    ensures Step(s, e).generation > s.generation || Step(s, e).inFlight == s.inFlight
  {
    hide LiveIsCurrent, StartsAreFenced, StopRuntime, StartRuntime, UpdateRuntime;
    if !e.config.enabled {
      StopKeepsFence(s, e.config, e.removal);
    } else if CanUpdate(s, e.config) {
      UpdateKeepsFence(s, e.config);
    } else {
      StartKeepsFence(s, e.config, e.registryError, e.removal);
    }
  }

  lemma ReconcileKeepsOrder(s: State, e: Event)
    requires ActivationsInOrder(s) && e.Reconcile?
    ensures ActivationsInOrder(Step(s, e))
  {
    hide Increasing;
    var t := Step(s, e);
    if s.generation < t.generation {
      assert forall i :: 0 <= i < |s.activated| ==> s.activated[i] < t.generation;
    }
  }

  lemma ReconcileKeepsSound(s: State, e: Event)
    requires Sound(s) && e.Reconcile?
    ensures Sound(Step(s, e)) && Step(s, e).generation >= s.generation
  {
    hide Sound, LiveIsCurrent, StartsAreFenced, ActivationsInOrder, Step;
    SoundParts(s);
    ReconcileKeepsLive(s, e);
    ReconcileKeepsFence(s, e);
    ReconcileKeepsOrder(s, e);
    SoundParts(Step(s, e));
  }

  lemma SoundParts(s: State)
    ensures Sound(s) <==> LiveIsCurrent(s) && StartsAreFenced(s) && ActivationsInOrder(s)
  {
    hide LiveIsCurrent, StartsAreFenced, ActivationsInOrder;
  }

  lemma CompletionKeepsSound(s: State, e: Event)
    requires Sound(s) && Enabled(s, e) && !e.Reconcile?
    ensures Sound(Step(s, e)) && Step(s, e).generation == s.generation
  {
    hide Increasing;
    var t := Step(s, e);
    if t.activated != s.activated {
      forall i | 0 <= i < |s.activated| ensures s.activated[i] < s.generation {
        assert s.activated[i] in s.activated;
      }
      IncreasingAppend(s.activated, s.generation);
    }
  }

  lemma IncreasingAppend(xs: seq<nat>, x: nat)
    requires Increasing(xs) && forall i :: 0 <= i < |xs| ==> xs[i] < x
    ensures Increasing(xs + [x])
  {
  }

  /** Every interleaving of reconciles, successful starts and failed starts keeps the runtime sound. */
  lemma {:induction false} RunKeepsSound(s: State, events: seq<Event>)
    requires Sound(s) && Possible(s, events)
    ensures Sound(Run(s, events)) && Run(s, events).generation >= s.generation
    decreases |events|
  {
    hide Sound, Step, Enabled;
    if events != [] {
      StepKeepsSound(s, events[0]);
      RunKeepsSound(Step(s, events[0]), events[1..]);
    }
  }

  lemma StepKeepsSound(s: State, e: Event)
    requires Sound(s) && Enabled(s, e)
    ensures Sound(Step(s, e)) && Step(s, e).generation >= s.generation
  {
    hide Sound, Step;
    if e.Reconcile? {
      ReconcileKeepsSound(s, e);
    } else {
      CompletionKeepsSound(s, e);
    }
  }

  /** From the start of the process on, whatever happens, in whatever order. */
  lemma AlwaysSound(canonical: Option<Document>, legacy: Option<Document>, events: seq<Event>)
    requires Possible(Init(canonical, legacy), events)
    ensures Sound(Run(Init(canonical, legacy), events))
  {
    RunKeepsSound(Init(canonical, legacy), events);
  }

  /** The status never sticks at `Starting`: with no start in flight it is something else. */
  lemma NeverStuckStarting(canonical: Option<Document>, legacy: Option<Document>, events: seq<Event>)
    requires Possible(Init(canonical, legacy), events)
    requires Run(Init(canonical, legacy), events).inFlight == map[]
    ensures !Run(Init(canonical, legacy), events).status.Starting?
  {
    AlwaysSound(canonical, legacy, events);
  }

  /** A start begun before a later start or stop never becomes live, nor does anything else change when it ends. */
  lemma SupersededStartIsIgnored(s: State, e: Event, events: seq<Event>, late: Event)
    requires Sound(s) && e.Reconcile? && Step(s, e).generation > s.generation
    requires Possible(Step(s, e), events) && late.StartSucceeded? && late.generation <= s.generation
    requires Enabled(Run(Step(s, e), events), late)
    ensures var t := Run(Step(s, e), events); Step(t, late) == t.(inFlight := t.inFlight - {late.generation})
  {
    ReconcileKeepsSound(s, e);
    RunKeepsSound(Step(s, e), events);
  }

  /** A start that succeeds becomes live exactly when nothing has been started or stopped since and both documents are written. */
  lemma BecomesLiveIff(s: State, e: Event)
    requires Sound(s) && Enabled(s, e) && e.StartSucceeded?
    ensures var t := Step(s, e);
            && (t.runtime.Some? && t.activated != s.activated <==> e.generation == s.generation && e.publication.Published?)
            && (t.activated != s.activated ==> t.runtime.value.addr == e.addr && t.runtime.value.token == e.token)
  {
    hide Sound;
  }

  // ---- When a live runtime is left alone ----

  /** A change of permission alone reaches the live runtime, and nothing else about it or around it changes. */
  lemma PermissionAlone(s: State, permission: Permission, registryError: Option<string>, removal: Removal)
    requires Sound(s) && s.runtime.Some?
    ensures s.activeConfig.Some?
    ensures var config := s.activeConfig.value.(permission := permission);
            var t := Step(s, Reconcile(config, registryError, removal));
            && t.runtime == Some(s.runtime.value.(permission := permission)) && t.activeConfig == Some(config)
            && t.status == s.status && t.generation == s.generation && t.inFlight == s.inFlight
            && t.canonical == s.canonical && t.legacy == s.legacy && t.activated == s.activated
  {
    hide StartsAreFenced, ActivationsInOrder;
  }

  /** An enabled reconcile keeps the generation exactly when a runtime is live with the same mode and exposure. */
  lemma KeepsGenerationIff(s: State, config: Config, registryError: Option<string>, removal: Removal)
    requires Sound(s)
    ensures Step(s, Reconcile(config, registryError, removal)).generation == s.generation
       <==> config.enabled && s.runtime.Some? && s.runtime.value.mode == config.mode && s.runtime.value.toolsets == config.toolsets
  {
    hide StartsAreFenced, ActivationsInOrder;
  }

  /** Anything else stops what is live, and an enabled configuration is started in a new generation unless the registry fails. */
  lemma OtherwiseRestarts(s: State, config: Config, registryError: Option<string>, removal: Removal)
    requires Sound(s) && Step(s, Reconcile(config, registryError, removal)).generation != s.generation
    ensures var t := Step(s, Reconcile(config, registryError, removal));
            && t.generation == s.generation + 1 && t.runtime.None? && t.activeConfig.None?
            && (!config.enabled ==> t.status == Disabled && t.inFlight == s.inFlight)
            && (config.enabled && registryError.None? ==>
                  t.status == Starting(t.generation) && t.inFlight == s.inFlight[t.generation := config])
            && (config.enabled && registryError.Some? ==>
                  t.status == Failed(t.generation, registryError.value) && t.inFlight == s.inFlight)
            && t.canonical == (if removal.canonical then None else s.canonical)
            && t.legacy == (if removal.legacy then None else s.legacy)
  {
    hide StartsAreFenced, ActivationsInOrder;
  }

  /** What the end of a current start leaves: the runtime it has started, described by two documents, or the reason it failed. */
  lemma EndOfStart(s: State, e: Event)
    requires Sound(s) && Enabled(s, e) && !e.Reconcile? && e.generation == s.generation
    ensures var t, config := Step(s, e), s.inFlight[e.generation];
            match e
            case StartFailed(generation, message) =>
              t == s.(inFlight := s.inFlight - {generation},
                      status := if s.status.Disabled? then Disabled else Failed(generation, message))
            case StartSucceeded(generation, addr, token, Published) =>
              && t.runtime == Some(Runtime(addr, token, config.mode, config.permission, config.toolsets))
              && t.activeConfig == Some(config) && t.status == Running(generation, addr, config.mode)
              && t.canonical == Some(Document("navop", addr, token, config.mode))
              && t.legacy == Some(Document("onetcli", addr, token, config.mode))
            case StartSucceeded(generation, addr, token, publication) =>
              && t.runtime.None? && t.legacy == s.legacy
              && t.status == Failed(generation, "Failed to publish discovery: " + publication.error)
              && t.canonical == if publication.LegacyFailed? then Some(Document("navop", addr, token, config.mode)) else s.canonical
  {
    hide ActivationsInOrder;
  }

  /** From the start of the process: nothing is live or shown, documents stay until a reconcile, and the first start is number one. */
  lemma FirstReconcile(canonical: Option<Document>, legacy: Option<Document>, config: Config, removal: Removal)
    ensures var s := Init(canonical, legacy);
            && s.status.Disabled? && s.runtime.None? && s.canonical == canonical && s.legacy == legacy
            && var t := Step(s, Reconcile(config, None, removal));
               && t.status == (if config.enabled then Starting(1) else Disabled)
               && t.inFlight == (if config.enabled then map[1 := config] else map[])
  {
  }

  // ---- Discovery documents ----

  /** Both documents exist exactly while a runtime is live. */
  predicate Described(s: State) {
    && (s.canonical.Some? <==> s.runtime.Some?)
    && (s.legacy.Some? <==> s.runtime.Some?)
  }

  /**
   What keeps the documents in step with the runtime: a reconcile that leaves it alone or finds none,
   or whose removals both work; a start that is superseded or does not stop between its two files.
   */
  predicate KeepsDescribed(s: State, e: Event) {
    match e
    case Reconcile(config, _, removal) =>
      (config.enabled && CanUpdate(s, config)) || s.runtime.None? || (removal.canonical && removal.legacy)
    case StartSucceeded(generation, _, _, publication) => generation != s.generation || !publication.LegacyFailed?
    case StartFailed(_, _) => true
  }

  lemma DescribedStepIff(s: State, e: Event)
    requires Sound(s) && Described(s) && Enabled(s, e)
    ensures Described(Step(s, e)) <==> KeepsDescribed(s, e)
  {
    hide Increasing;
  }

  /** The documents are in step with the runtime in every state of a run. */
  predicate AlwaysDescribed(s: State, events: seq<Event>)
    requires Possible(s, events)
    decreases |events|
  {
    Described(s) && (events != [] ==> AlwaysDescribed(Step(s, events[0]), events[1..]))
  }

  predicate AllKeepDescribed(s: State, events: seq<Event>)
    requires Possible(s, events)
    decreases |events|
  {
    events != [] ==> KeepsDescribed(s, events[0]) && AllKeepDescribed(Step(s, events[0]), events[1..])
  }

  /** Over a whole run the documents exist exactly while a runtime is live if and only if every step keeps them so. */
  lemma {:induction false} AlwaysDescribedIff(s: State, events: seq<Event>)
    requires Sound(s) && Described(s) && Possible(s, events)
    ensures AlwaysDescribed(s, events) <==> AllKeepDescribed(s, events)
    decreases |events|
  {
    hide Step, Sound, Described, Enabled, KeepsDescribed;
    if events != [] {
      DescribedStepIff(s, events[0]);
      StepKeepsSound(s, events[0]);
      if Described(Step(s, events[0])) {
        AlwaysDescribedIff(Step(s, events[0]), events[1..]);
      } else {
        NotDescribed(Step(s, events[0]), events[1..]);
      }
    }
  }

  lemma NotDescribed(s: State, events: seq<Event>)
    requires Possible(s, events) && !Described(s)
    ensures !AlwaysDescribed(s, events)
  {
  }

  // ---- The runtime as the global object it is ----

  class PublicMcpRuntime {
    var runtime: Option<Runtime>
    var activeConfig: Option<Config>
    var status: Status
    var generation: nat
    var canonical: Option<Document>
    var legacy: Option<Document>
    var inFlight: map<nat, Config>
    var latest: Option<Config>
    var activated: seq<nat>

    function Value(): State
      reads this
    {
      State(runtime, activeConfig, status, generation, canonical, legacy, inFlight, latest, activated)
    }

    constructor (canonical: Option<Document>, legacy: Option<Document>)
      ensures Value() == Init(canonical, legacy)
    {
      runtime, activeConfig, status, generation := None, None, Disabled, 0;
      this.canonical, this.legacy := canonical, legacy;
      inFlight, latest, activated := map[], None, [];
    }

    method RemoveDiscovery(removal: Removal)
      modifies this`canonical, this`legacy
      ensures Value() == RemoveDocuments(old(Value()), removal)
    {
      if removal.canonical {
        canonical := None;
      }
      if removal.legacy {
        legacy := None;
      }
    }

    method Advance(removal: Removal) returns (next: nat)
      modifies this
      ensures Value() == NextGeneration(old(Value()), removal) && next == generation
    {
      generation := generation + 1;
      runtime, activeConfig := None, None;
      status := Starting(generation);
      RemoveDiscovery(removal);
      next := generation;
    }

    method Stop(removal: Removal)
      modifies this
      ensures Value() == StopRuntime(old(Value()), removal)
    {
      generation := generation + 1;
      runtime, activeConfig := None, None;
      status := Disabled;
      RemoveDiscovery(removal);
    }

    method UpdateWithoutRestart(config: Config) returns (updated: bool)
      modifies this`runtime, this`activeConfig
      ensures updated == CanUpdate(old(Value()), config)
      ensures updated ==> Value() == UpdateRuntime(old(Value()), config)
      ensures !updated ==> Value() == old(Value())
    {
      if activeConfig.None? {
        return false;
      }
      if RequiresRestart(activeConfig.value, config) || runtime.None? {
        return false;
      }
      runtime := Some(runtime.value.(permission := config.permission));
      activeConfig := Some(config);
      return true;
    }

    method Start(config: Config, registryError: Option<string>, removal: Removal)
      modifies this
      ensures Value() == StartRuntime(old(Value()), config, registryError, removal)
    {
      var next := Advance(removal);
      match registryError {
        case Some(message) =>
          status := SetFailed(status, next, message);
        case None =>
          inFlight := inFlight[next := config];
      }
    }

    method ReconcileRuntime(config: Config, registryError: Option<string>, removal: Removal)
      modifies this
      ensures Value() == Step(old(Value()), Reconcile(config, registryError, removal))
    {
      latest := Some(config);
      if !config.enabled {
        Stop(removal);
        return;
      }
      var updated := UpdateWithoutRestart(config);
      if updated {
        return;
      }
      Start(config, registryError, removal);
    }

    method PublishDocuments(document: Document, publication: Publication) returns (ok: bool)
      modifies this`canonical, this`legacy
      ensures ok == publication.Published? && Value() == Publish(old(Value()), document, publication)
    {
      if publication.ReadFailed? || publication.CanonicalFailed? {
        return false;
      }
      canonical := Some(document);
      if publication.LegacyFailed? {
        return false;
      }
      legacy := Some(LegacyCompatible(document));
      return true;
    }

    method OnStarted(started: nat, addr: string, token: string, publication: Publication)
      requires started in inFlight
      modifies this
      ensures Value() == Step(old(Value()), StartSucceeded(started, addr, token, publication))
    {
      var config := inFlight[started];
      var live := Runtime(addr, token, config.mode, config.permission, config.toolsets);
      inFlight := inFlight - {started};
      if generation != started {
        return;
      }
      var ok := PublishDocuments(DocumentOf(live), publication);
      if !ok {
        status := SetFailed(status, started, "Failed to publish discovery: " + publication.error);
        return;
      }
      status := Running(started, addr, config.mode);
      activeConfig := Some(config);
      runtime := Some(live);
      activated := activated + [started];
    }

    method OnStartFailed(started: nat, message: string)
      requires started in inFlight
      modifies this
      ensures Value() == Step(old(Value()), StartFailed(started, message))
    {
      inFlight := inFlight - {started};
      status := SetFailed(status, started, message);
    }
  }
}
