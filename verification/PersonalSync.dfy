/**
 The personal sync runtime of main/src/personal_sync_runtime.rs: a generation token, a status and
 a pending flag shared by asynchronous operations that complete in any order.
 */
module PersonalSync {
  import opened Results
  import opened SyncWorker

  /** Health and message of a status are not told apart. */
  datatype Status = Disabled | Ready(detail: string) | Syncing | Failed(detail: string)

  datatype Config = Config(backend: int, root: string, autoSync: bool, gitAutoPush: bool)

  /** `built` is what `build_personal_sync_runtime_config` makes of the personal settings. */
  datatype Settings = Settings(syncEnabled: bool, personalProvider: bool, autoSync: bool, built: Option<Config>)

  /** How far a drain has come: not yet begun, in a pass over the worker's events, or done with it. */
  datatype Phase = Waiting | Working | Done

  datatype Kind = Plain | Drain(worker: nat, phase: Phase)

  /**
   The global state with the tasks in flight, the number of drains started by watchers, and all
   workers there have been: `runtime` is the current one, but a drain goes on with its own.
   */
  datatype State = State(
    settings: Settings,
    activeConfig: Option<Config>,
    runtime: Option<nat>,
    status: Status,
    generation: nat,
    pending: bool,
    inFlight: map<Task, Kind>,
    watches: nat,
    workers: seq<Worker>)

  datatype Event =
    | ChangeSettings(settings: Settings)
    | Reconcile(startError: Option<string>)
    | TestConnection
    | ResolveConflicts(missing: Option<string>)
    | SyncNow(missing: Option<string>)
    | AutoSyncEvent
    | WatcherEvent
    | BeginPass(task: Task)
    | EndPass(task: Task)
    | Complete(task: Task, result: Status)

  function Init(settings: Settings): State {
    State(settings, None, None, Disabled, 0, false, map[], 0, [])
  }

  predicate SettingsActive(settings: Settings) {
    settings.syncEnabled && settings.personalProvider
  }

  function CurrentConfig(settings: Settings): Option<Config> {
    if SettingsActive(settings) then settings.built else None
  }

  // ---- The handlers ----

  function BeginOperation(s: State, kind: Kind): State {
    s.(generation := s.generation + 1, status := Syncing, inFlight := s.inFlight[Operation(s.generation + 1) := kind])
  }

  function StartDrain(s: State): State {
    if !SettingsActive(s.settings) || s.status.Syncing? || s.runtime.None? then s
    else BeginOperation(s, Drain(s.runtime.value, Waiting))
  }

  function FinishOperation(s: State, task: Task, result: Status): State {
    s.(inFlight := s.inFlight - {task}, status := if task == Operation(s.generation) then result else s.status)
  }

  function FinishAndMaybeDrain(s: State, task: Task, result: Status): State {
    var done := FinishOperation(s, task, result).(pending := false);
    if s.pending then StartDrain(done) else done
  }

  /** A drain that the runtime has started, and that may start another when it completes. */
  predicate DrainsRuntime(s: State, task: Task) {
    task.Operation? && task in s.inFlight && s.inFlight[task].Drain?
  }

  function CompleteStep(s: State, task: Task, result: Status): State {
    if DrainsRuntime(s, task) then FinishAndMaybeDrain(s, task, result) else FinishOperation(s, task, result)
  }

  function ReconcileStep(s: State, startError: Option<string>): State {
    match CurrentConfig(s.settings)
    case None =>
      s.(generation := s.generation + 1, activeConfig := None, runtime := None, status := Disabled, pending := false)
    case Some(config) =>
      if s.activeConfig == Some(config) && s.runtime.Some? then s
      else if startError.Some? then
        s.(activeConfig := Some(config), runtime := None, status := Failed(startError.value))
      else
        s.(activeConfig := Some(config), runtime := Some(|s.workers|), status := Ready(""),
           workers := s.workers + [IDLE_WORKER])
  }

  function TestStep(s: State): State {
    if CurrentConfig(s.settings).None? then s.(status := Disabled) else BeginOperation(s, Plain)
  }

  /** `missing` is the storage that `build_local_source` or `build_conflict_repository` does not find. */
  function ResolveStep(s: State, missing: Option<string>): State {
    if CurrentConfig(s.settings).None? then s.(status := Disabled)
    else if missing.Some? then s.(status := Failed(missing.value))
    else BeginOperation(s, Plain)
  }

  /** Puts an event into the current worker, if there is one. */
  function Enqueue(s: State): State {
    if s.runtime.Some? && s.runtime.value < |s.workers| then
      s.(workers := s.workers[s.runtime.value := Enqueued(s.workers[s.runtime.value])])
    else s
  }

  function SyncNowStep(s: State, missing: Option<string>): State {
    var config := CurrentConfig(s.settings);
    if config.None? then s.(status := Disabled)
    else if s.activeConfig == config && s.runtime.Some? then StartDrain(Enqueue(s))
    else if missing.Some? then s.(status := Failed(missing.value))
    else BeginOperation(s, Plain)
  }

  function AutoSyncStep(s: State): State {
    if !SettingsActive(s.settings) || !s.settings.autoSync || s.runtime.None? then s
    else if s.status.Syncing? then Enqueue(s).(pending := true)
    else StartDrain(Enqueue(s))
  }

  /** A runtime that syncs by itself has a watcher, which enqueues and drains whatever the status is. */
  function WatcherStep(s: State): State {
    if s.runtime.None? || s.activeConfig.None? || !s.activeConfig.value.autoSync then s
    else
      Enqueue(s).(watches := s.watches + 1,
                  inFlight := s.inFlight[Watch(s.watches + 1) := Drain(s.runtime.value, Waiting)])
  }

  /** A drain in flight on a worker that there is. */
  predicate IsDrain(s: State, task: Task, phase: Phase) {
    && task in s.inFlight && s.inFlight[task].Drain?
    && s.inFlight[task].worker < |s.workers| && s.inFlight[task].phase == phase
  }

  function BeginPassStep(s: State, task: Task): State
    requires IsDrain(s, task, Waiting)
  {
    var w := s.inFlight[task].worker;
    var phase := if Takes(s.workers[w]) then Working else Done;
    s.(inFlight := s.inFlight[task := Drain(w, phase)], workers := s.workers[w := Begun(s.workers[w], task)])
  }

  function EndPassStep(s: State, task: Task): State
    requires IsDrain(s, task, Working)
  {
    var w := s.inFlight[task].worker;
    s.(inFlight := s.inFlight[task := Drain(w, Done)], workers := s.workers[w := Ended(s.workers[w])])
  }

  /** Only a task in flight completes, a drain when it is done, and its result is `Ready` or `Failed`. */
  predicate Enabled(s: State, e: Event) {
    match e
    case BeginPass(task) => IsDrain(s, task, Waiting)
    case EndPass(task) => IsDrain(s, task, Working)
    case Complete(task, result) =>
      && task in s.inFlight && (s.inFlight[task].Drain? ==> s.inFlight[task].phase.Done?)
      && (result.Ready? || result.Failed?)
    case _ => true
  }

  function Step(s: State, e: Event): State
    requires Enabled(s, e)
  {
    match e
    case ChangeSettings(settings) => s.(settings := settings)
    case Reconcile(startError) => ReconcileStep(s, startError)
    case TestConnection => TestStep(s)
    case ResolveConflicts(missing) => ResolveStep(s, missing)
    case SyncNow(missing) => SyncNowStep(s, missing)
    case AutoSyncEvent => AutoSyncStep(s)
    case WatcherEvent => WatcherStep(s)
    case BeginPass(task) => BeginPassStep(s, task)
    case EndPass(task) => EndPassStep(s, task)
    case Complete(task, result) => CompleteStep(s, task, result)
  }

  predicate Possible(s: State, events: seq<Event>)
    decreases |events|
  {
    events != [] ==> Enabled(s, events[0]) && Possible(Step(s, events[0]), events[1..])
  }

  function Run(s: State, events: seq<Event>): State
    requires Possible(s, events)
    decreases |events|
  {
    if events == [] then s else Run(Step(s, events[0]), events[1..])
  }

  // ---- Status and generation ----

  predicate HasStarted(s: State, task: Task) {
    match task
    case Operation(generation) => generation <= s.generation
    case Watch(number) => number <= s.watches
  }

  /** Tasks in flight have been started, only drains by watchers, and `Syncing` has its operation. */
  predicate Fenced(s: State) {
    && (forall task :: task in s.inFlight ==> HasStarted(s, task) && (task.Watch? ==> s.inFlight[task].Drain?))
    && (s.status.Syncing? ==> Operation(s.generation) in s.inFlight)
  }

  /** Drains and workers agree on which drain is in a pass. */
  predicate Staffed(s: State) {
    && (s.runtime.Some? ==> s.runtime.value < |s.workers|)
    && (forall w :: 0 <= w < |s.workers| ==> ValidWorker(s.workers[w]))
    && (forall w :: 0 <= w < |s.workers| && s.workers[w].active.Some? ==>
          var task := s.workers[w].active.value; task in s.inFlight && s.inFlight[task] == Drain(w, Working))
    && (forall task :: task in s.inFlight && s.inFlight[task].Drain? ==>
          && s.inFlight[task].worker < |s.workers|
          && (s.inFlight[task].phase.Working? ==> s.workers[s.inFlight[task].worker].active == Some(task)))
  }

  predicate Consistent(s: State) {
    Fenced(s) && Staffed(s)
  }

  lemma BeginKeepsConsistent(s: State, kind: Kind)
    requires Consistent(s) && (kind.Drain? ==> kind.worker < |s.workers| && kind.phase.Waiting?)
    ensures Consistent(BeginOperation(s, kind))
  {
  }

  lemma StartDrainKeepsConsistent(s: State)
    requires Consistent(s)
    ensures Consistent(StartDrain(s)) && StartDrain(s).generation >= s.generation
  {
    hide Consistent, BeginOperation;
    if StartDrain(s) != s {
      RuntimeInRange(s);
      BeginKeepsConsistent(s, Drain(s.runtime.value, Waiting));
      BeginAdvances(s, Drain(s.runtime.value, Waiting));
    }
  }

  lemma BeginAdvances(s: State, kind: Kind)
    ensures BeginOperation(s, kind).generation == s.generation + 1
  {
  }

  lemma RuntimeInRange(s: State)
    requires Consistent(s) && s.runtime.Some?
    ensures s.runtime.value < |s.workers|
  {
  }

  lemma EnqueueKeepsConsistent(s: State)
    requires Consistent(s)
    ensures Consistent(Enqueue(s)) && Enqueue(s).generation == s.generation
    ensures Consistent(Enqueue(s).(pending := true))
  {
  }

  lemma ReconcileKeepsConsistent(s: State, startError: Option<string>)
    requires Consistent(s)
    ensures Consistent(ReconcileStep(s, startError)) && ReconcileStep(s, startError).generation >= s.generation
  {
  }

  lemma WatcherKeepsConsistent(s: State)
    requires Consistent(s)
    ensures Consistent(WatcherStep(s)) && WatcherStep(s).generation == s.generation
  {
  }

  lemma BeginPassKeepsConsistent(s: State, task: Task)
    requires Consistent(s) && Enabled(s, BeginPass(task))
    ensures Consistent(BeginPassStep(s, task))
  {
  }

  lemma EndPassKeepsConsistent(s: State, task: Task)
    requires Consistent(s) && Enabled(s, EndPass(task))
    ensures Consistent(EndPassStep(s, task))
  {
  }

  lemma PassKeepsConsistent(s: State, e: Event)
    requires Consistent(s) && Enabled(s, e) && (e.BeginPass? || e.EndPass?)
    ensures Consistent(Step(s, e)) && Step(s, e).generation == s.generation
  {
    hide Consistent, IsDrain, Begun, Ended;
    if e.BeginPass? {
      BeginPassKeepsConsistent(s, e.task);
    } else {
      EndPassKeepsConsistent(s, e.task);
    }
  }

  lemma FinishKeepsConsistent(s: State, task: Task, result: Status)
    requires Consistent(s) && Enabled(s, Complete(task, result))
    ensures Consistent(FinishOperation(s, task, result))
    ensures Consistent(FinishOperation(s, task, result).(pending := false))
  {
  }

  lemma CompletionKeepsConsistent(s: State, task: Task, result: Status)
    requires Consistent(s) && Enabled(s, Complete(task, result))
    ensures var t := CompleteStep(s, task, result); Consistent(t) && t.generation >= s.generation
  {
    hide Consistent, StartDrain;
    FinishKeepsConsistent(s, task, result);
    StartDrainKeepsConsistent(FinishOperation(s, task, result).(pending := false));
  }

  lemma NewSettingsKeepConsistent(s: State, settings: Settings, status: Status)
    requires Consistent(s) && !status.Syncing?
    ensures Consistent(s.(settings := settings)) && Consistent(s.(status := status))
  {
  }

  lemma StepKeepsConsistent(s: State, e: Event)
    requires Consistent(s) && Enabled(s, e)
    ensures Consistent(Step(s, e)) && Step(s, e).generation >= s.generation
  {
    hide Consistent, CompleteStep, ReconcileStep, StartDrain, Enqueue, WatcherStep, BeginPassStep, EndPassStep, CurrentConfig;
    match e {
      case ChangeSettings(settings) => NewSettingsKeepConsistent(s, settings, Disabled);
      case Reconcile(startError) => ReconcileKeepsConsistent(s, startError);
      case TestConnection =>
        NewSettingsKeepConsistent(s, s.settings, Disabled);
        BeginKeepsConsistent(s, Plain);
      case ResolveConflicts(missing) =>
        NewSettingsKeepConsistent(s, s.settings, Disabled);
        NewSettingsKeepConsistent(s, s.settings, Failed(if missing.Some? then missing.value else ""));
        BeginKeepsConsistent(s, Plain);
      case SyncNow(missing) =>
        NewSettingsKeepConsistent(s, s.settings, Disabled);
        NewSettingsKeepConsistent(s, s.settings, Failed(if missing.Some? then missing.value else ""));
        BeginKeepsConsistent(s, Plain);
        EnqueueKeepsConsistent(s);
        StartDrainKeepsConsistent(Enqueue(s));
      case AutoSyncEvent =>
        EnqueueKeepsConsistent(s);
        StartDrainKeepsConsistent(Enqueue(s));
      case BeginPass(_) => PassKeepsConsistent(s, e);
      case EndPass(_) => PassKeepsConsistent(s, e);
      case WatcherEvent => WatcherKeepsConsistent(s);
      case Complete(task, result) => CompletionKeepsConsistent(s, task, result);
    }
  }

  lemma {:induction false} RunKeepsConsistent(s: State, events: seq<Event>)
    requires Consistent(s) && Possible(s, events)
    ensures Consistent(Run(s, events)) && Run(s, events).generation >= s.generation
    decreases |events|
  {
    hide Step, Enabled, Consistent;
    if events != [] {
      StepKeepsConsistent(s, events[0]);
      RunKeepsConsistent(Step(s, events[0]), events[1..]);
    }
  }

  /** In every run the status is `Syncing` only while the operation that holds the current generation is in flight. */
  lemma NeverStuckSyncing(settings: Settings, events: seq<Event>)
    requires Possible(Init(settings), events)
    ensures var s := Run(Init(settings), events);
            && (s.status.Syncing? ==> Operation(s.generation) in s.inFlight)
            && (s.inFlight == map[] ==> !s.status.Syncing?)
  {
    RunKeepsConsistent(Init(settings), events);
  }

  lemma {:induction false} DisabledStays(s: State, events: seq<Event>)
    requires CurrentConfig(s.settings).None? && s.status.Disabled? && s.runtime.None? && !s.pending
    requires forall task :: task in s.inFlight && task.Operation? ==> task.generation < s.generation
    requires Possible(s, events) && forall i :: 0 <= i < |events| ==> !events[i].ChangeSettings?
    ensures Run(s, events).status.Disabled? && Run(s, events).runtime.None?
    decreases |events|
  {
    if events != [] {
      assert !events[0].ChangeSettings?;
      DisabledStays(Step(s, events[0]), events[1..]);
    }
  }

  /** After a disable, nothing that happens without a change of settings, no late completion either, revives the status. */
  lemma DisableIsFinal(s: State, startError: Option<string>, events: seq<Event>)
    requires Consistent(s) && CurrentConfig(s.settings).None?
    requires Possible(Step(s, Reconcile(startError)), events)
    requires forall i :: 0 <= i < |events| ==> !events[i].ChangeSettings?
    ensures Run(Step(s, Reconcile(startError)), events).status.Disabled?
  {
    DisabledStays(Step(s, Reconcile(startError)), events);
  }

  /** Even when sync is enabled again later, an operation begun before a disable never writes its result. */
  lemma DisableFencesOlder(s: State, startError: Option<string>, events: seq<Event>, earlier: Task, result: Status)
    requires Consistent(s) && CurrentConfig(s.settings).None? && HasStarted(s, earlier)
    requires Possible(Step(s, Reconcile(startError)), events)
    requires var t := Run(Step(s, Reconcile(startError)), events); Enabled(t, Complete(earlier, result))
    ensures var t := Run(Step(s, Reconcile(startError)), events);
            var after := Step(t, Complete(earlier, result));
            && (after.status == t.status || (t.pending && after.status.Syncing? && after.generation == t.generation + 1))
            && (!DrainsRuntime(t, earlier) ==> after == t.(inFlight := t.inFlight - {earlier}))
  {
    StepKeepsConsistent(s, Reconcile(startError));
    RunKeepsConsistent(Step(s, Reconcile(startError)), events);
  }

  predicate Reconfigures(s: State) {
    CurrentConfig(s.settings).Some? && !(s.activeConfig == CurrentConfig(s.settings) && s.runtime.Some?)
  }

  /** Whether the completion of this task starts another drain. */
  predicate WakesDrain(s: State, task: Task) {
    && DrainsRuntime(s, task) && s.pending
    && s.runtime.Some? && SettingsActive(s.settings)
    && (task == Operation(s.generation) || !s.status.Syncing?)
  }

  /** The status after any completion: that of the drain it starts, its own result, or the one before. */
  lemma StatusAfterCompletion(s: State, task: Task, result: Status)
    requires Enabled(s, Complete(task, result))
    ensures Step(s, Complete(task, result)).status
         == if WakesDrain(s, task) then Syncing else if task == Operation(s.generation) then result else s.status
  {
  }

  /** A reconcile to a new configuration protects the status it sets from exactly these older operations. */
  lemma ReconfigureFencesIff(s: State, startError: Option<string>, earlier: Task, result: Status)
    requires Reconfigures(s) && Enabled(s, Complete(earlier, result))
    ensures var t := Step(s, Reconcile(startError));
            && t.status == (if startError.Some? then Failed(startError.value) else Ready(""))
            && (Step(t, Complete(earlier, result)).status == t.status <==>
                  && (earlier != Operation(s.generation) || result == t.status)
                  && !(DrainsRuntime(s, earlier) && s.pending && startError.None?))
  {
  }

  /** Nothing begins and nothing is disabled. */
  predicate Quiet(s: State, events: seq<Event>)
    requires Possible(s, events)
    decreases |events|
  {
    events != [] ==> Step(s, events[0]).generation == s.generation && Quiet(Step(s, events[0]), events[1..])
  }

  lemma {:induction false} QuietIff(s: State, events: seq<Event>)
    requires Consistent(s) && Possible(s, events)
    ensures Run(s, events).generation == s.generation <==> Quiet(s, events)
    decreases |events|
  {
    hide Step, Enabled, Consistent;
    if events != [] {
      StepKeepsConsistent(s, events[0]);
      RunKeepsConsistent(Step(s, events[0]), events[1..]);
      QuietIff(Step(s, events[0]), events[1..]);
    }
  }

  /**
   Later on, an operation begun before the reconcile still writes its result exactly when it held
   the generation then and nothing has begun or been disabled since; otherwise it can at most start
   the drain that the flag asks for.
   */
  lemma ReconfigureFencesLater(s: State, startError: Option<string>, events: seq<Event>, earlier: Task, result: Status)
    requires Consistent(s) && Reconfigures(s) && HasStarted(s, earlier)
    requires Possible(Step(s, Reconcile(startError)), events)
    requires Enabled(Run(Step(s, Reconcile(startError)), events), Complete(earlier, result))
    ensures var t := Step(s, Reconcile(startError));
            var u := Run(t, events);
            var holds := earlier == Operation(s.generation) && Quiet(t, events);
            && (earlier == Operation(u.generation) <==> holds)
            && Step(u, Complete(earlier, result)).status
            == if WakesDrain(u, earlier) then Syncing else if holds then result else u.status
  {
    hide Step, Quiet, Run, WakesDrain, Consistent;
    var t := Step(s, Reconcile(startError));
    ReconfigureKeepsGeneration(s, startError);
    StepKeepsConsistent(s, Reconcile(startError));
    RunKeepsConsistent(t, events);
    QuietIff(t, events);
    StatusAfterCompletion(Run(t, events), earlier, result);
  }

  lemma ReconfigureKeepsGeneration(s: State, startError: Option<string>)
    requires Reconfigures(s)
    ensures Step(s, Reconcile(startError)).generation == s.generation
  {
  }

  // ---- What each request needs ----

  /** Sync is on, by the personal provider, and its settings make a configuration. */
  predicate Configured(s: State) {
    s.settings.syncEnabled && s.settings.personalProvider && s.settings.built.Some?
  }

  /** A manual request goes to the runtime's worker only if that has the configuration of the settings. */
  predicate ForWorker(s: State) {
    Configured(s) && s.runtime.Some? && s.activeConfig == s.settings.built
  }

  predicate AutoSyncOn(s: State) {
    s.settings.syncEnabled && s.settings.personalProvider && s.settings.autoSync && s.runtime.Some?
  }

  lemma EnqueueAddsOne(s: State, w: nat)
    requires w < |s.workers|
    ensures w < |Enqueue(s).workers|
    ensures Enqueue(s).workers[w].enqueued == s.workers[w].enqueued + if s.runtime == Some(w) then 1 else 0
    ensures Enqueue(s).settings == s.settings && Enqueue(s).runtime == s.runtime && Enqueue(s).activeConfig == s.activeConfig
  {
  }

  lemma StartDrainKeepsWorkers(s: State)
    ensures StartDrain(s).workers == s.workers
  {
  }

  /** Which requests reach a worker: it gets one event more, and no other worker does. */
  lemma EnqueuesIff(s: State, e: Event, w: nat)
    requires Consistent(s) && Enabled(s, e) && w < |s.workers| && !e.BeginPass? && !e.EndPass? && !e.Complete?
    ensures w < |Step(s, e).workers|
    ensures var more := Step(s, e).workers[w].enqueued - s.workers[w].enqueued;
            match e
            case AutoSyncEvent => more == if AutoSyncOn(s) && s.runtime == Some(w) then 1 else 0
            case SyncNow(_) => more == if ForWorker(s) && s.runtime == Some(w) then 1 else 0
            case WatcherEvent =>
              more == if s.runtime == Some(w) && s.activeConfig.Some? && s.activeConfig.value.autoSync then 1 else 0
            case _ => more == 0
  {
    hide Consistent, StartDrain, Enqueue;
    EnqueueAddsOne(s, w);
    StartDrainKeepsWorkers(Enqueue(s));
  }

  /** The end of a pass adds a scan if anything came in during it; the beginning of one and a completion add nothing. */
  lemma PassEnqueues(s: State, e: Event, w: nat)
    requires Consistent(s) && Enabled(s, e) && w < |s.workers| && (e.BeginPass? || e.EndPass? || e.Complete?)
    ensures w < |Step(s, e).workers|
    ensures Step(s, e).workers[w].enqueued - s.workers[w].enqueued
         == if e.EndPass? && s.inFlight[e.task].worker == w && s.workers[w].dirty then 1 else 0
  {
    hide Consistent;
  }

  /** Which requests begin an operation, and what it is to do. */
  lemma BeginsIff(s: State, e: Event)
    requires Consistent(s) && Enabled(s, e) && !e.Reconcile?
    ensures var t, begun := Step(s, e), Operation(s.generation + 1);
            var plain := match e
                         case TestConnection => Configured(s)
                         case ResolveConflicts(missing) => Configured(s) && missing.None?
                         case SyncNow(missing) => Configured(s) && !ForWorker(s) && missing.None?
                         case _ => false;
            var drain := match e
                         case SyncNow(_) => ForWorker(s) && !s.status.Syncing?
                         case AutoSyncEvent => AutoSyncOn(s) && !s.status.Syncing?
                         case Complete(task, _) => WakesDrain(s, task)
                         case _ => false;
            && (plain ==> begun in t.inFlight && t.inFlight[begun] == Plain)
            && (drain ==> begun in t.inFlight && s.runtime.Some? && t.inFlight[begun] == Drain(s.runtime.value, Waiting))
            && (plain || drain ==> t.status.Syncing? && t.generation == s.generation + 1)
            && (!plain && !drain ==> t.generation == s.generation && begun !in t.inFlight)
  {
  }

  /** What a request does to the status when it begins nothing: without a configuration sync is shown as off, and a missing storage as a failure. */
  lemma RefusedRequests(s: State, e: Event)
    requires Enabled(s, e)
    ensures match e
            case TestConnection => !Configured(s) ==> Step(s, e) == s.(status := Disabled)
            case ResolveConflicts(missing) =>
              && (!Configured(s) ==> Step(s, e) == s.(status := Disabled))
              && (Configured(s) && missing.Some? ==> Step(s, e) == s.(status := Failed(missing.value)))
            case SyncNow(missing) =>
              && (!Configured(s) ==> Step(s, e) == s.(status := Disabled))
              && (Configured(s) && !ForWorker(s) && missing.Some? ==> Step(s, e) == s.(status := Failed(missing.value)))
            case AutoSyncEvent =>
              && (!AutoSyncOn(s) ==> Step(s, e) == s)
              && (AutoSyncOn(s) && s.status.Syncing? ==> Step(s, e).pending && Step(s, e).status == s.status)
            case _ => true
  {
  }

  /** The watcher of a runtime that syncs by itself spawns a drain of its own, and neither status nor flag tell of it. */
  lemma WatcherDrains(s: State)
    ensures var t, spawned := Step(s, WatcherEvent), Watch(s.watches + 1);
            && t.status == s.status && t.generation == s.generation && t.pending == s.pending && t.runtime == s.runtime
            && if s.runtime.Some? && s.activeConfig.Some? && s.activeConfig.value.autoSync
               then t.inFlight == s.inFlight[spawned := Drain(s.runtime.value, Waiting)]
               else t == s
  {
  }

  /** Only an automatic event sets the flag; a drain's completion and a disable clear it. */
  lemma FlagIs(s: State, e: Event)
    requires Enabled(s, e)
    ensures Step(s, e).pending ==
      match e
      case AutoSyncEvent => s.pending || (AutoSyncOn(s) && s.status.Syncing?)
      case Reconcile(_) => s.pending && Configured(s)
      case Complete(task, _) => s.pending && !DrainsRuntime(s, task)
      case _ => s.pending
  {
  }

  /**
   Before anything else nothing syncs, runs or waits, and requests leave it so; the first reconcile
   starts a runtime exactly when sync is configured and nothing fails.
   */
  lemma BeforeTheFirst(settings: Settings, startError: Option<string>)
    ensures var s := Init(settings);
            && s.status.Disabled? && s.runtime.None? && s.generation == 0 && Step(s, AutoSyncEvent) == s && Step(s, WatcherEvent) == s
            && var t := Step(s, Reconcile(startError));
               t.runtime == if Configured(s) && startError.None? then Some(0) else None
  {
  }

  /** What a reconcile leaves: the configuration of the settings if there is one, also when its start fails, and a worker of its own unless nothing is new. */
  lemma ReconcileIs(s: State, startError: Option<string>)
    ensures var t := Step(s, Reconcile(startError));
            && t.activeConfig == (if Configured(s) then s.settings.built else None)
            && t.settings == s.settings && t.inFlight == s.inFlight && t.watches == s.watches
            && (!Configured(s) ==> t.runtime.None? && t.status.Disabled? && t.generation == s.generation + 1 && !t.pending)
            && (ForWorker(s) ==> t == s)
            && (Configured(s) && !ForWorker(s) ==>
                  && t.generation == s.generation && t.pending == s.pending
                  && t.runtime == (if startError.None? then Some(|s.workers|) else None)
                  && t.status == (if startError.None? then Ready("") else Failed(startError.value))
                  && t.workers == s.workers + if startError.None? then [IDLE_WORKER] else [])
  {
  }

  // ---- The runtime as the global object it is ----

  class PersonalSyncRuntime {
    var settings: Settings
    var activeConfig: Option<Config>
    var runtime: Option<nat>
    var status: Status
    var generation: nat
    var pendingAutoDrain: bool
    var inFlight: map<Task, Kind>
    var watches: nat
    var workers: seq<Worker>

    function Value(): State
      reads this
    {
      State(settings, activeConfig, runtime, status, generation, pendingAutoDrain, inFlight, watches, workers)
    }

    constructor (settings: Settings)
      ensures Value() == Init(settings)
    {
      this.settings := settings;
      activeConfig, runtime, status, generation := None, None, Disabled, 0;
      pendingAutoDrain, inFlight, watches, workers := false, map[], 0, [];
    }

    method Begin(kind: Kind)
      modifies this
      ensures Value() == BeginOperation(old(Value()), kind)
    {
      generation := generation + 1;
      status := Syncing;
      inFlight := inFlight[Operation(generation) := kind];
    }

    method EnqueueInWorker()
      modifies this
      ensures Value() == Enqueue(old(Value()))
    {
      if runtime.Some? && runtime.value < |workers| {
        workers := workers[runtime.value := Enqueued(workers[runtime.value])];
      }
    }

    method StartRuntimeDrain()
      modifies this
      ensures Value() == StartDrain(old(Value()))
    {
      if !SettingsActive(settings) {
        return;
      }
      if status.Syncing? {
        return;
      }
      if runtime.None? {
        return;
      }
      Begin(Drain(runtime.value, Waiting));
    }

    method Finish(task: Task, result: Status)
      modifies this
      ensures Value() == FinishOperation(old(Value()), task, result)
    {
      inFlight := inFlight - {task};
      if task == Operation(generation) {
        status := result;
      }
    }

    method FinishAndDrain(task: Task, result: Status)
      modifies this
      ensures Value() == FinishAndMaybeDrain(old(Value()), task, result)
    {
      inFlight := inFlight - {task};
      if task == Operation(generation) {
        status := result;
      }
      var shouldDrain := pendingAutoDrain;
      pendingAutoDrain := false;
      if shouldDrain {
        StartRuntimeDrain();
      }
    }

    method OnCompletion(task: Task, result: Status)
      requires Enabled(Value(), Complete(task, result))
      modifies this
      ensures Value() == Step(old(Value()), Complete(task, result))
    {
      if task.Operation? && inFlight[task].Drain? {
        FinishAndDrain(task, result);
      } else {
        Finish(task, result);
      }
    }

    /** What `drain_once` does before its pass. */
    method BeginDrain(task: Task)
      requires Enabled(Value(), BeginPass(task))
      modifies this
      ensures Value() == Step(old(Value()), BeginPass(task))
    {
      var w := inFlight[task].worker;
      var phase := if Takes(workers[w]) then Working else Done;
      workers := workers[w := Begun(workers[w], task)];
      inFlight := inFlight[task := Drain(w, phase)];
    }

    /** What `drain_once` does after its pass. */
    method FinishDrain(task: Task)
      requires Enabled(Value(), EndPass(task))
      modifies this
      ensures Value() == Step(old(Value()), EndPass(task))
    {
      var w := inFlight[task].worker;
      workers := workers[w := Ended(workers[w])];
      inFlight := inFlight[task := Drain(w, Done)];
    }

    method OnWatcherEvent()
      modifies this
      ensures Value() == Step(old(Value()), WatcherEvent)
    {
      if runtime.None? || activeConfig.None? || !activeConfig.value.autoSync {
        return;
      }
      EnqueueInWorker();
      watches := watches + 1;
      inFlight := inFlight[Watch(watches) := Drain(runtime.value, Waiting)];
    }

    method ReconcileRuntime(startError: Option<string>)
      modifies this
      ensures Value() == Step(old(Value()), Reconcile(startError))
    {
      var config := CurrentConfig(settings);
      match config {
        case Some(c) =>
          if activeConfig == Some(c) && runtime.Some? {
            return;
          }
          activeConfig := Some(c);
          match startError {
            case None =>
              runtime, status := Some(|workers|), Ready("");
              workers := workers + [IDLE_WORKER];
            case Some(message) =>
              runtime, status := None, Failed(message);
          }
        case None =>
          generation := generation + 1;
          activeConfig, runtime := None, None;
          status, pendingAutoDrain := Disabled, false;
      }
    }

    method Test()
      modifies this
      ensures Value() == Step(old(Value()), TestConnection)
    {
      if CurrentConfig(settings).None? {
        status := Disabled;
        return;
      }
      Begin(Plain);
    }

    method Resolve(missing: Option<string>)
      modifies this
      ensures Value() == Step(old(Value()), ResolveConflicts(missing))
    {
      if CurrentConfig(settings).None? {
        status := Disabled;
        return;
      }
      if missing.Some? {
        status := Failed(missing.value);
        return;
      }
      Begin(Plain);
    }

    method Sync(missing: Option<string>)
      modifies this
      ensures Value() == Step(old(Value()), SyncNow(missing))
    {
      var config := CurrentConfig(settings);
      if config.None? {
        status := Disabled;
        return;
      }
      if activeConfig == config && runtime.Some? {
        EnqueueInWorker();
        StartRuntimeDrain();
        return;
      }
      if missing.Some? {
        status := Failed(missing.value);
        return;
      }
      Begin(Plain);
    }

    method EnqueueAutoSyncEvent()
      modifies this
      ensures Value() == Step(old(Value()), AutoSyncEvent)
    {
      if !settings.syncEnabled || !settings.personalProvider || !settings.autoSync {
        return;
      }
      if runtime.None? {
        return;
      }
      EnqueueInWorker();
      if status.Syncing? {
        pendingAutoDrain := true;
        return;
      }
      StartRuntimeDrain();
    }
  }
}
