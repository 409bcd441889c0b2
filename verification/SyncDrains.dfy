/**
 What becomes of the events that wait in a worker: which of them a pass is certain to take, in
 whatever order drains and completions follow each other, and which are lost.
 */
module SyncDrains {
  import opened Results
  import opened SyncWorker
  import opened PersonalSync

  /** The drains whose completion reads the flag. */
  function Drains(s: State): set<Task> {
    set task | task in s.inFlight && DrainsRuntime(s, task)
  }

  /** Whether an enqueued event has not been taken by any pass of this worker. */
  predicate Waits(s: State, w: nat)
    requires w < |s.workers|
  {
    s.workers[w].taken < s.workers[w].enqueued
  }

  /** What operations in flight do on their way to completion. */
  predicate Settles(e: Event) {
    e.BeginPass? || e.EndPass? || e.Complete?
  }

  predicate OnlySettling(events: seq<Event>) {
    forall i :: 0 <= i < |events| ==> Settles(events[i])
  }

  /** In whatever order everything in flight comes to its end, a pass takes every event of this worker. */
  ghost predicate Guaranteed(s: State, w: nat) {
    forall events: seq<Event> ::
      OnlySettling(events) && Possible(s, events) && Run(s, events).inFlight == map[] ==>
        w < |Run(s, events).workers| && !Waits(Run(s, events), w)
  }

  /** A drain in flight will find no pass going on when it begins its own. */
  predicate Fresh(s: State, w: nat)
    requires w < |s.workers|
  {
    s.workers[w].active.None? && exists task :: task in s.inFlight && s.inFlight[task] == Drain(w, Waiting)
  }

  /** The completion of a drain may start another one on this worker. */
  predicate Wakeable(s: State, w: nat) {
    s.pending && s.runtime == Some(w) && SettingsActive(s.settings)
  }

  /**
   Nothing waits, or a drain will find it, or the flag will start such a drain: when it is read
   nothing else keeps the status busy and no other drain is in a pass.
   */
  predicate WillDrain(s: State, w: nat)
    requires w < |s.workers|
  {
    || !Waits(s, w)
    || Fresh(s, w)
    || (&& Wakeable(s, w) && Drains(s) != {}
        && (s.status.Syncing? ==> Drains(s) == {Operation(s.generation)})
        && (s.workers[w].active.Some? ==> Drains(s) == {s.workers[w].active.value}))
  }

  // ---- Settling comes to an end ----

  function InPhase(inFlight: map<Task, Kind>, phase: Phase): set<Task> {
    set task | task in inFlight && inFlight[task].Drain? && inFlight[task].phase == phase
  }

  /** A drain has three steps before it, any other operation one. */
  function Outstanding(inFlight: map<Task, Kind>): nat {
    |inFlight.Keys| + 2 * |InPhase(inFlight, Waiting)| + |InPhase(inFlight, Working)|
  }

  /** The steps left to what is in flight, and to the drain that the flag may start. */
  function StepsLeft(s: State): nat {
    Outstanding(s.inFlight) + if s.pending then 3 else 0
  }

  lemma InPhaseAfter(m: map<Task, Kind>, g: Task, worker: nat, now: Phase, phase: Phase)
    ensures InPhase(m[g := Drain(worker, now)], phase)
         == if now == phase then InPhase(m, phase) + {g} else InPhase(m, phase) - {g}
  {
  }

  lemma InPhaseAt(m: map<Task, Kind>, g: Task, phase: Phase)
    ensures g in InPhase(m, phase) <==> g in m && m[g].Drain? && m[g].phase == phase
  {
  }

  lemma OutstandingAfterPhase(m: map<Task, Kind>, g: Task, worker: nat, phase: Phase)
    requires g in m && m[g].Drain? && (m[g].phase.Waiting? || m[g].phase.Working?)
    requires !phase.Waiting? && phase != m[g].phase
    ensures Outstanding(m[g := Drain(worker, phase)]) < Outstanding(m)
  {
    hide InPhase;
    assert m[g := Drain(worker, phase)].Keys == m.Keys;
    InPhaseAfter(m, g, worker, phase, Waiting);
    InPhaseAfter(m, g, worker, phase, Working);
    InPhaseAt(m, g, Waiting);
    InPhaseAt(m, g, Working);
  }

  lemma OutstandingAfterEnd(m: map<Task, Kind>, g: Task)
    requires g in m && (m[g].Drain? ==> m[g].phase.Done?)
    ensures Outstanding(m - {g}) == Outstanding(m) - 1
  {
    assert (m - {g}).Keys == m.Keys - {g};
    assert InPhase(m - {g}, Waiting) == InPhase(m, Waiting);
    assert InPhase(m - {g}, Working) == InPhase(m, Working);
  }

  lemma OutstandingAfterStart(m: map<Task, Kind>, g: Task, worker: nat)
    requires g !in m
    ensures Outstanding(m[g := Drain(worker, Waiting)]) == Outstanding(m) + 3
  {
    hide InPhase;
    assert m[g := Drain(worker, Waiting)].Keys == m.Keys + {g};
    InPhaseAfter(m, g, worker, Waiting, Waiting);
    InPhaseAfter(m, g, worker, Waiting, Working);
    InPhaseAt(m, g, Waiting);
    InPhaseAt(m, g, Working);
  }

  lemma PassUsesUp(s: State, e: Event)
    requires Enabled(s, e) && (e.BeginPass? || e.EndPass?)
    ensures StepsLeft(Step(s, e)) < StepsLeft(s)
  {
    hide Outstanding, Takes, Begun, Ended;
    var g := e.task;
    OutstandingAfterPhase(s.inFlight, g, s.inFlight[g].worker, Step(s, e).inFlight[g].phase);
  }

  lemma FinishUsesUp(s: State, task: Task, result: Status)
    requires Enabled(s, Complete(task, result))
    ensures var t := FinishOperation(s, task, result);
            && StepsLeft(t) == StepsLeft(s) - 1
            && StepsLeft(t.(pending := false)) == StepsLeft(s) - 1 - if s.pending then 3 else 0
  {
    hide Outstanding;
    OutstandingAfterEnd(s.inFlight, task);
  }

  lemma StartDrainUsesUp(s: State)
    requires Consistent(s)
    ensures StepsLeft(StartDrain(s)) <= StepsLeft(s) + 3
  {
    hide Outstanding, Staffed;
    if StartDrain(s) != s {
      OutstandingAfterStart(s.inFlight, Operation(s.generation + 1), s.runtime.value);
    }
  }

  lemma SettlingUsesUp(s: State, e: Event)
    requires Consistent(s) && Enabled(s, e) && Settles(e)
    ensures StepsLeft(Step(s, e)) < StepsLeft(s)
  {
    hide StepsLeft, Consistent, StartDrain, BeginPassStep, EndPassStep, FinishOperation;
    if e.Complete? {
      FinishUsesUp(s, e.task, e.result);
      FinishKeepsConsistent(s, e.task, e.result);
      StartDrainUsesUp(FinishOperation(s, e.task, e.result).(pending := false));
    } else {
      PassUsesUp(s, e);
    }
  }

  /** Settling comes to an end: a drain has three steps, another operation one, and the flag starts one drain at most. */
  lemma {:induction false} CompletionsEnd(s: State, events: seq<Event>)
    requires Consistent(s) && OnlySettling(events) && Possible(s, events)
    ensures |events| <= StepsLeft(s)
    decreases |events|
  {
    hide Step, Enabled, Consistent, StepsLeft;
    if events != [] {
      StepKeepsConsistent(s, events[0]);
      SettlingUsesUp(s, events[0]);
      CompletionsEnd(Step(s, events[0]), events[1..]);
    }
  }

  // ---- The condition is enough ----

  lemma SettledStays(s: State, e: Event, w: nat)
    requires Consistent(s) && Enabled(s, e) && Settles(e) && w < |s.workers| && !Waits(s, w)
    ensures w < |Step(s, e).workers| && !Waits(Step(s, e), w)
  {
  }

  lemma PassKeepsDrains(s: State, e: Event)
    requires Enabled(s, e) && (e.BeginPass? || e.EndPass?)
    ensures Drains(Step(s, e)) == Drains(s)
  {
  }

  lemma PassKeepsWillDrain(s: State, e: Event, w: nat)
    requires Consistent(s) && Enabled(s, e) && (e.BeginPass? || e.EndPass?)
    requires w < |s.workers| && Waits(s, w) && WillDrain(s, w)
    ensures w < |Step(s, e).workers| && WillDrain(Step(s, e), w)
  {
    var g := e.task;
    var t := Step(s, e);
    if Fresh(s, w) {
      var d :| d in s.inFlight && s.inFlight[d] == Drain(w, Waiting);
      if e.BeginPass? && s.inFlight[g].worker == w {
        assert !Waits(t, w);
      } else {
        assert t.inFlight[d] == Drain(w, Waiting);
        assert Fresh(t, w);
      }
    } else {
      PassKeepsDrains(s, e);
      if s.workers[w].active.None? {
        assert s.inFlight[g] != Drain(w, Waiting);
        assert t.workers[w] == s.workers[w];
      }
    }
  }

  lemma FinishKeepsFresh(s: State, task: Task, result: Status, w: nat)
    requires Enabled(s, Complete(task, result)) && w < |s.workers| && Fresh(s, w)
    ensures w < |CompleteStep(s, task, result).workers|
    ensures Consistent(s) ==> Fresh(CompleteStep(s, task, result), w)
  {
    var t := CompleteStep(s, task, result);
    var d :| d in s.inFlight && s.inFlight[d] == Drain(w, Waiting);
    assert t.workers == s.workers;
    if Consistent(s) {
      assert HasStarted(s, d);
      assert t.inFlight[d] == Drain(w, Waiting);
    }
  }

  lemma CompletionKeepsWillDrain(s: State, task: Task, result: Status, w: nat)
    requires Consistent(s) && Enabled(s, Complete(task, result))
    requires w < |s.workers| && Waits(s, w) && WillDrain(s, w)
    ensures var t := CompleteStep(s, task, result); w < |t.workers| && WillDrain(t, w)
  {
    var t := CompleteStep(s, task, result);
    assert t.workers == s.workers;
    if Fresh(s, w) {
      FinishKeepsFresh(s, task, result, w);
    } else if !DrainsRuntime(s, task) {
      assert Drains(t) == Drains(s);
    } else {
      assert task in Drains(s);
      assert !FinishOperation(s, task, result).status.Syncing?;
      assert t.inFlight[Operation(t.generation)] == Drain(w, Waiting);
      if s.workers[w].active.Some? {
        assert false;
      }
    }
  }

  lemma {:induction false} WillDrainIsEnough(s: State, events: seq<Event>, w: nat)
    requires Consistent(s) && w < |s.workers| && WillDrain(s, w)
    requires OnlySettling(events) && Possible(s, events) && Run(s, events).inFlight == map[]
    ensures w < |Run(s, events).workers| && !Waits(Run(s, events), w)
    decreases |events|
  {
    hide Step, Enabled, Consistent, Waits, BeginPassStep, EndPassStep, CompleteStep;
    if events == [] {
      assert Drains(s) == {};
    } else {
      var e := events[0];
      assert Settles(e);
      StepKeepsConsistent(s, e);
      WillDrainStep(s, e, w);
      WillDrainIsEnough(Step(s, e), events[1..], w);
    }
  }

  lemma WillDrainStep(s: State, e: Event, w: nat)
    requires Consistent(s) && Enabled(s, e) && Settles(e) && w < |s.workers| && WillDrain(s, w)
    ensures w < |Step(s, e).workers| && WillDrain(Step(s, e), w)
  {
    hide Consistent, Waits, Fresh, Wakeable, Drains, BeginPassStep, EndPassStep, CompleteStep;
    if !Waits(s, w) {
      SettledStays(s, e, w);
    } else if e.Complete? {
      CompletionKeepsWillDrain(s, e.task, e.result, w);
    } else {
      PassKeepsWillDrain(s, e, w);
    }
  }

  // ---- The condition is needed ----

  /** Something waits, no drain need take it, and no drain of this worker need begin any more. */
  predicate Stuck(s: State, w: nat) {
    && Consistent(s) && w < |s.workers| && Waits(s, w) && !Fresh(s, w)
    && (Wakeable(s, w) ==> Drains(s) == {})
  }

  /** A step that leaves it so: drains of this worker begin while a pass is going on, so that they take nothing. */
  lemma StuckStep(s: State, w: nat) returns (e: Event)
    requires Stuck(s, w) && s.inFlight != map[]
    ensures Settles(e) && Enabled(s, e) && Stuck(Step(s, e), w)
  {
    var g: Task :| g in s.inFlight;
    if d: Task :| d in s.inFlight && s.inFlight[d] == Drain(w, Waiting) {
      g := d;
    }
    if s.inFlight[g].Drain? && s.inFlight[g].phase.Waiting? {
      e := BeginPass(g);
      PassKeepsStuck(s, e, w);
    } else if s.inFlight[g].Drain? && s.inFlight[g].phase.Working? {
      e := EndPass(g);
      PassKeepsStuck(s, e, w);
    } else {
      e := Complete(g, Ready(""));
      CompletionKeepsStuck(s, g, w);
    }
  }

  /** A pass that takes nothing of this worker, or comes to its end, leaves no drain fresh. */
  lemma PassKeepsStuckWorker(s: State, e: Event, w: nat)
    requires Consistent(s) && (e.BeginPass? || e.EndPass?) && Enabled(s, e)
    requires w < |s.workers| && Waits(s, w) && !Fresh(s, w)
    requires e.EndPass? ==> forall d :: d in s.inFlight ==> s.inFlight[d] != Drain(w, Waiting)
    ensures w < |Step(s, e).workers| && Waits(Step(s, e), w) && !Fresh(Step(s, e), w)
  {
    hide Fenced;
    var t := Step(s, e);
    forall d | d in t.inFlight && t.inFlight[d] == Drain(w, Waiting)
      ensures d in s.inFlight && s.inFlight[d] == Drain(w, Waiting)
    {
    }
    if e.BeginPass? && s.inFlight[e.task].worker == w {
      assert s.workers[w].active.Some?;
    }
  }

  lemma PassKeepsStuck(s: State, e: Event, w: nat)
    requires Stuck(s, w) && (e.BeginPass? || e.EndPass?) && Enabled(s, e)
    requires e.EndPass? ==> forall d :: d in s.inFlight ==> s.inFlight[d] != Drain(w, Waiting)
    ensures Stuck(Step(s, e), w)
  {
    hide Consistent, Waits, Fresh, Drains;
    PassKeepsConsistent(s, e);
    PassKeepsDrains(s, e);
    PassKeepsStuckWorker(s, e, w);
  }

  lemma CompletionKeepsStuck(s: State, g: Task, w: nat)
    requires Stuck(s, w) && Enabled(s, Complete(g, Ready("")))
    ensures Stuck(Step(s, Complete(g, Ready(""))), w)
  {
    var t := Step(s, Complete(g, Ready("")));
    CompletionKeepsConsistent(s, g, Ready(""));
    assert g in Drains(s) <==> DrainsRuntime(s, g);
    assert t.workers == s.workers;
    forall d | d in t.inFlight && t.inFlight[d] == Drain(w, Waiting)
      ensures d in s.inFlight && s.inFlight[d] == Drain(w, Waiting)
    {
    }
    if !DrainsRuntime(s, g) {
      assert Drains(t) <= Drains(s);
    }
  }

  /** From there everything in flight can come to its end with the event still waiting. */
  lemma {:induction false} StuckToTheEnd(s: State, w: nat) returns (events: seq<Event>)
    requires Stuck(s, w)
    ensures OnlySettling(events) && Possible(s, events)
    ensures var t := Run(s, events); t.inFlight == map[] && w < |t.workers| && Waits(t, w)
    decreases StepsLeft(s)
  {
    hide *;
    if s.inFlight == map[] {
      events := [];
      RunNil(s);
      StuckWaits(s, w);
      SettlingNil();
    } else {
      var e := StuckStep(s, w);
      StuckWaits(s, w);
      SettlingUsesUp(s, e);
      var rest := StuckToTheEnd(Step(s, e), w);
      events := [e] + rest;
      RunCons(s, e, rest);
      SettlingCons(e, rest);
    }
  }

  lemma RunNil(s: State)
    ensures Possible(s, []) && Run(s, []) == s
  {
  }

  lemma RunCons(s: State, e: Event, rest: seq<Event>)
    requires Enabled(s, e) && Possible(Step(s, e), rest)
    ensures Possible(s, [e] + rest) && Run(s, [e] + rest) == Run(Step(s, e), rest)
  {
    hide Step, Enabled;
    assert ([e] + rest)[1..] == rest;
  }

  lemma SettlingNil()
    ensures OnlySettling([])
  {
  }

  lemma SettlingCons(e: Event, rest: seq<Event>)
    requires Settles(e) && OnlySettling(rest)
    ensures OnlySettling([e] + rest)
  {
  }

  lemma StuckWaits(s: State, w: nat)
    requires Stuck(s, w)
    ensures Consistent(s) && w < |s.workers| && Waits(s, w)
  {
  }

  /** Settling can lead to a state from which it can lead to rest with the event still waiting. */
  ghost predicate CanStick(s: State, w: nat) {
    exists events: seq<Event> :: OnlySettling(events) && Possible(s, events) && Stuck(Run(s, events), w)
  }

  lemma StuckCanStick(s: State, w: nat)
    requires Stuck(s, w)
    ensures CanStick(s, w)
  {
    hide Stuck, Run, Possible;
    RunNil(s);
    assert OnlySettling([]);
    assert Stuck(Run(s, []), w);
  }

  lemma StepCanStick(s: State, e: Event, w: nat)
    requires Settles(e) && Enabled(s, e) && CanStick(Step(s, e), w)
    ensures CanStick(s, w)
  {
    hide *;
    var rest := Sticking(Step(s, e), w);
    RunCons(s, e, rest);
    SettlingCons(e, rest);
    StickingBy(s, [e] + rest, w);
  }

  lemma Sticking(s: State, w: nat) returns (events: seq<Event>)
    requires CanStick(s, w)
    ensures OnlySettling(events) && Possible(s, events) && Stuck(Run(s, events), w)
  {
    hide Stuck, Run, Possible, OnlySettling;
    events :| OnlySettling(events) && Possible(s, events) && Stuck(Run(s, events), w);
  }

  lemma StickingBy(s: State, events: seq<Event>, w: nat)
    requires OnlySettling(events) && Possible(s, events) && Stuck(Run(s, events), w)
    ensures CanStick(s, w)
  {
    hide Stuck, Run, Possible, OnlySettling;
  }

  /** A drain that may complete while another is in a pass, or something else keeps the status busy, uses up the flag. */
  predicate Wastes(s: State, w: nat, d: Task)
    requires w < |s.workers|
  {
    && d in Drains(s) && s.workers[w].active != Some(d)
    && (s.workers[w].active.Some? || (s.status.Syncing? && d != Operation(s.generation)))
  }

  lemma WastedFlag(s: State, d: Task, w: nat)
    requires Consistent(s) && w < |s.workers| && Waits(s, w) && !Fresh(s, w) && Wastes(s, w, d)
    ensures CanStick(s, w)
    decreases StepsLeft(s)
  {
    hide Consistent, StepsLeft, CanStick, Stuck, Fresh, Waits, Step;
    if s.inFlight[d].phase.Done? {
      WasteStep(s, d, w);
      StuckCanStick(Step(s, Complete(d, Ready(""))), w);
      StepCanStick(s, Complete(d, Ready("")), w);
    } else {
      DrainIsStaffed(s, d);
      var e := if s.inFlight[d].phase.Waiting? then BeginPass(d) else EndPass(d);
      PassKeepsWastes(s, e, w);
      StepKeepsConsistent(s, e);
      SettlingUsesUp(s, e);
      WastedFlag(Step(s, e), d, w);
      StepCanStick(s, e, w);
    }
  }

  lemma DrainIsStaffed(s: State, d: Task)
    requires Consistent(s) && d in Drains(s)
    ensures s.inFlight[d].worker < |s.workers|
  {
  }

  lemma WasteStep(s: State, d: Task, w: nat)
    requires Consistent(s) && w < |s.workers| && Waits(s, w) && !Fresh(s, w)
    requires Wastes(s, w, d) && s.inFlight[d].phase.Done?
    ensures Stuck(Step(s, Complete(d, Ready(""))), w)
  {
    var t := Step(s, Complete(d, Ready("")));
    CompletionKeepsConsistent(s, d, Ready(""));
    assert t.workers == s.workers && !t.pending;
    if s.workers[w].active.None? {
      assert t.inFlight == s.inFlight - {d};
    }
  }

  lemma PassKeepsWastes(s: State, e: Event, w: nat)
    requires Consistent(s) && w < |s.workers| && Waits(s, w) && !Fresh(s, w)
    requires (e.BeginPass? || e.EndPass?) && Enabled(s, e) && Wastes(s, w, e.task)
    ensures var t := Step(s, e); w < |t.workers| && Waits(t, w) && !Fresh(t, w) && Wastes(t, w, e.task)
  {
    var g := e.task;
    var t := Step(s, e);
    if s.inFlight[g].worker == w {
      if s.workers[w].active.None? {
        assert false;
      }
    } else {
      assert t.workers[w] == s.workers[w];
    }
    forall d | d in t.inFlight && t.inFlight[d] == Drain(w, Waiting)
      ensures d in s.inFlight && s.inFlight[d] == Drain(w, Waiting)
    {
    }
  }

  /** The task in a pass of this worker can end it. */
  lemma ActiveDrain(s: State, d: Task, w: nat)
    requires Consistent(s) && w < |s.workers| && s.workers[w].active == Some(d)
    ensures Enabled(s, EndPass(d)) && (d in Drains(s) <==> d.Operation?) && s.inFlight[d] == Drain(w, Working)
  {
  }

  predicate Busy(s: State, d: Task, w: nat) {
    && Consistent(s) && w < |s.workers| && Waits(s, w) && Drains(s) == {d}
    && s.workers[w].active == Some(d) && s.status.Syncing? && d != Operation(s.generation)
  }

  /**
   The one drain is in its pass while something else keeps the status busy: drains that watchers have
   started begin and find nothing to take, then it ends its pass and completes before the other.
   */
  lemma {:induction false} BusyStatus(s: State, d: Task, w: nat)
    requires Busy(s, d, w)
    ensures CanStick(s, w)
    decreases StepsLeft(s)
  {
    hide *;
    BusyDrain(s, d, w);
    var e := BusyStep(s, d, w);
    var t := Step(s, e);
    if e.BeginPass? {
      SettlingUsesUp(s, e);
      BusyStatus(t, d, w);
    } else {
      StepKeepsConsistent(s, e);
      WastedFlag(t, d, w);
    }
    StepCanStick(s, e, w);
  }

  lemma BusyDrain(s: State, d: Task, w: nat)
    requires Busy(s, d, w)
    ensures Consistent(s) && w < |s.workers| && s.workers[w].active == Some(d)
  {
  }

  lemma BusyStep(s: State, d: Task, w: nat) returns (e: Event)
    requires Busy(s, d, w)
    ensures Settles(e) && Enabled(s, e) && (e.BeginPass? || e.EndPass?)
    ensures var t := Step(s, e);
            && (e.BeginPass? ==> Busy(t, d, w))
            && (e.EndPass? ==> w < |t.workers| && Waits(t, w) && !Fresh(t, w) && Wastes(t, w, d))
  {
    ActiveDrain(s, d, w);
    if other: Task :| other in s.inFlight && s.inFlight[other] == Drain(w, Waiting) {
      e := BeginPass(other);
      BusyBegin(s, d, other, w);
    } else {
      e := EndPass(d);
      BusyEnd(s, d, w);
    }
  }

  lemma BusyBegin(s: State, d: Task, other: Task, w: nat)
    requires Busy(s, d, w) && other in s.inFlight && s.inFlight[other] == Drain(w, Waiting)
    ensures Enabled(s, BeginPass(other)) && Busy(Step(s, BeginPass(other)), d, w)
  {
    PassKeepsDrains(s, BeginPass(other));
    PassKeepsConsistent(s, BeginPass(other));
  }

  lemma BusyEnd(s: State, d: Task, w: nat)
    requires Busy(s, d, w) && Enabled(s, EndPass(d))
    requires forall other :: other in s.inFlight ==> s.inFlight[other] != Drain(w, Waiting)
    ensures var t := Step(s, EndPass(d)); w < |t.workers| && Waits(t, w) && !Fresh(t, w) && Wastes(t, w, d)
  {
    ActiveDrain(s, d, w);
    PassKeepsDrains(s, EndPass(d));
    assert d in Drains(s);
  }

  lemma NotWillDrainCanStick(s: State, w: nat)
    requires Consistent(s) && w < |s.workers| && !WillDrain(s, w)
    ensures CanStick(s, w)
  {
    hide Consistent, Waits, Fresh, Wakeable, CanStick;
    if Wakeable(s, w) ==> Drains(s) == {} {
      StuckCanStick(s, w);
    } else if d :| d in Drains(s) && Wastes(s, w, d) {
      WastedFlag(s, d, w);
    } else {
      OneDrainLeft(s, w);
      var d := s.workers[w].active.value;
      BusyStatus(s, d, w);
    }
  }

  lemma OneDrainLeft(s: State, w: nat)
    requires Consistent(s) && w < |s.workers| && !WillDrain(s, w) && Wakeable(s, w) && Drains(s) != {}
    requires forall d :: d in Drains(s) ==> !Wastes(s, w, d)
    ensures s.workers[w].active.Some? && Drains(s) == {s.workers[w].active.value}
    ensures s.status.Syncing? && s.workers[w].active.value != Operation(s.generation)
  {
    hide Consistent, Waits, Fresh, Wakeable, Drains;
    assert s.workers[w].active.None? && s.status.Syncing? ==> Drains(s) <= {Operation(s.generation)};
    if s.workers[w].active.Some? {
      ActiveDrain(s, s.workers[w].active.value, w);
      assert Drains(s) == {s.workers[w].active.value};
    } else {
      assert false;
    }
  }

  lemma WillDrainIsNeeded(s: State, w: nat)
    requires Consistent(s) && w < |s.workers| && !WillDrain(s, w)
    ensures !Guaranteed(s, w)
  {
    hide *;
    NotWillDrainCanStick(s, w);
    var first := Sticking(s, w);
    var rest := StuckToTheEnd(Run(s, first), w);
    RunConcat(s, first, rest);
    SettlingConcat(first, rest);
    NotGuaranteed(s, w, first + rest);
  }

  lemma NotGuaranteed(s: State, w: nat, events: seq<Event>)
    requires OnlySettling(events) && Possible(s, events) && Run(s, events).inFlight == map[]
    requires w < |Run(s, events).workers| && Waits(Run(s, events), w)
    ensures !Guaranteed(s, w)
  {
    hide Waits, Run, Possible, OnlySettling;
  }

  lemma {:induction false} RunConcat(s: State, first: seq<Event>, second: seq<Event>)
    requires Possible(s, first) && Possible(Run(s, first), second)
    ensures Possible(s, first + second) && Run(s, first + second) == Run(Run(s, first), second)
    decreases |first|
  {
    hide Step, Enabled;
    if first == [] {
      assert first + second == second;
    } else {
      RunConcat(Step(s, first[0]), first[1..], second);
      assert first + second == [first[0]] + (first[1..] + second);
      RunCons(s, first[0], first[1..] + second);
    }
  }

  lemma SettlingConcat(first: seq<Event>, second: seq<Event>)
    requires OnlySettling(first) && OnlySettling(second)
    ensures OnlySettling(first + second)
  {
  }

  /** Exactly when every event of this worker is certain to be taken, in whatever order everything in flight settles. */
  lemma GuaranteedIff(s: State, w: nat)
    requires Consistent(s) && w < |s.workers|
    ensures Guaranteed(s, w) <==> WillDrain(s, w)
  {
    hide Consistent, WillDrain, Waits, Run, Possible, OnlySettling;
    if WillDrain(s, w) {
      forall events: seq<Event> |
        OnlySettling(events) && Possible(s, events) && Run(s, events).inFlight == map[]
        ensures w < |Run(s, events).workers| && !Waits(Run(s, events), w)
      {
        WillDrainIsEnough(s, events, w);
      }
    } else {
      WillDrainIsNeeded(s, w);
    }
  }

  /** No drain that has yet to begin would take from this worker. */
  predicate NoneToBegin(s: State, w: nat) {
    forall g :: g in s.inFlight ==> s.inFlight[g] != Drain(w, Waiting)
  }

  /** The runtime is on, and this is its worker. */
  predicate Live(s: State, w: nat) {
    Consistent(s) && s.runtime == Some(w) && SettingsActive(s.settings) && w < |s.workers|
  }

  /** The drain that keeps the status busy is the only one of the runtime, and no other task is in a pass. */
  predicate SoleDrain(s: State, w: nat)
    requires w < |s.workers|
  {
    var drain := Operation(s.generation);
    Drains(s) == {drain} && (s.workers[w].active.Some? ==> s.workers[w].active == Some(drain))
  }

  /**
   An automatic event is certain to be taken exactly when, with nothing syncing, no task is in a
   pass, or otherwise the sole drain is syncing, or a drain has yet to begin and none is in its pass.
   */
  lemma AutoSyncIsDrained(s: State, w: nat)
    requires Live(s, w) && s.settings.autoSync
    ensures Guaranteed(Step(s, AutoSyncEvent), w)
       <==> if s.status.Syncing? then SoleDrain(s, w) || Fresh(s, w) else s.workers[w].active.None?
  {
    hide Guaranteed;
    var t := Step(s, AutoSyncEvent);
    StepKeepsConsistent(s, AutoSyncEvent);
    GuaranteedIff(t, w);
    if s.status.Syncing? {
      BusyRequest(s, w, true);
    } else {
      IdleRequest(s, w);
    }
  }

  /** A manual sync request does not set the flag, so while something is syncing it relies on an earlier event that did. */
  lemma ManualSyncIsDrained(s: State, missing: Option<string>, w: nat)
    requires Live(s, w) && CurrentConfig(s.settings).Some? && s.activeConfig == CurrentConfig(s.settings)
    ensures Guaranteed(Step(s, SyncNow(missing)), w)
       <==> if s.status.Syncing? then (s.pending && SoleDrain(s, w)) || Fresh(s, w) else s.workers[w].active.None?
  {
    hide Guaranteed;
    var t := Step(s, SyncNow(missing));
    StepKeepsConsistent(s, SyncNow(missing));
    GuaranteedIff(t, w);
    if s.status.Syncing? {
      BusyRequest(s, w, s.pending);
    } else {
      IdleRequest(s, w);
    }
  }

  lemma BusyRequest(s: State, w: nat, pending: bool)
    requires Live(s, w) && s.status.Syncing?
    ensures w < |Enqueue(s).workers|
    ensures WillDrain(Enqueue(s).(pending := pending), w)
       <==> (pending && SoleDrain(s, w)) || Fresh(s, w)
  {
    var t := Enqueue(s).(pending := pending);
    assert Drains(t) == Drains(s);
    assert t.inFlight == s.inFlight;
    assert Fresh(t, w) <==> Fresh(s, w);
    if s.workers[w].active.Some? {
      ActiveDrain(s, s.workers[w].active.value, w);
    }
  }

  lemma IdleRequest(s: State, w: nat)
    requires Live(s, w) && !s.status.Syncing?
    ensures w < |StartDrain(Enqueue(s)).workers|
    ensures WillDrain(StartDrain(Enqueue(s)), w) <==> s.workers[w].active.None?
  {
    var t := StartDrain(Enqueue(s));
    assert t.inFlight[Operation(t.generation)] == Drain(w, Waiting);
    assert Operation(t.generation) in Drains(t);
    if s.workers[w].active.Some? {
      ActiveDrain(s, s.workers[w].active.value, w);
      assert t.workers[w].active.value != Operation(t.generation);
    }
  }

  /** An event that arrives during a connection test is left behind: the test ends, the flag stays, no drain runs. */
  lemma LostBehindConnectionTest(config: Config)
    ensures var settings := Settings(true, true, true, Some(config));
            var events := [Reconcile(None), TestConnection, AutoSyncEvent, Complete(Operation(1), Ready(""))];
            && Possible(Init(settings), events)
            && var s := Run(Init(settings), events);
               s.inFlight == map[] && s.pending && s.runtime == Some(0) && |s.workers| == 1 && Waits(s, 0)
  {
    var s0 := Init(Settings(true, true, true, Some(config)));
    var e0, e1, e2, e3 := Reconcile(None), TestConnection, AutoSyncEvent, Complete(Operation(1), Ready(""));
    var s1 := Step(s0, e0);
    var s2 := Step(s1, e1);
    var s3 := Step(s2, e2);
    var s4 := Step(s3, e3);
    assert s4.inFlight == map[];
    hide Step, Enabled;
    RunFour(s0, e0, e1, e2, e3);
  }

  /** Event by event. */
  lemma RunFour(s: State, e0: Event, e1: Event, e2: Event, e3: Event)
    requires Enabled(s, e0) && Enabled(Step(s, e0), e1) && Enabled(Step(Step(s, e0), e1), e2)
    requires Enabled(Step(Step(Step(s, e0), e1), e2), e3)
    ensures Possible(s, [e0, e1, e2, e3])
    ensures Run(s, [e0, e1, e2, e3]) == Step(Step(Step(Step(s, e0), e1), e2), e3)
  {
    hide Step, Enabled, Run, Possible;
    var t := Step(s, e0);
    RunNil(Step(Step(Step(t, e1), e2), e3));
    RunCons(Step(Step(t, e1), e2), e3, []);
    RunCons(Step(t, e1), e2, [e3] + []);
    RunCons(t, e1, [e2] + ([e3] + []));
    RunCons(s, e0, [e1] + ([e2] + ([e3] + [])));
    assert [e0] + ([e1] + ([e2] + ([e3] + []))) == [e0, e1, e2, e3];
  }

  /** So is one that arrives during a pass of the watcher: the drain for it finds nothing to take, and no flag is set. */
  lemma LostBehindWatcher(s: State, w: nat)
    requires Live(s, w) && s.settings.autoSync && !s.status.Syncing? && s.workers[w].active.Some?
    requires s.inFlight.Keys == {s.workers[w].active.value} && s.workers[w].active.value.Watch? && !s.pending
    ensures var events := [AutoSyncEvent, BeginPass(Operation(s.generation + 1)),
                           Complete(Operation(s.generation + 1), Ready("")), EndPass(s.workers[w].active.value)];
            && Possible(s, events)
            && var t := Run(s, events);
               && w < |t.workers| && Waits(t, w) && Drains(t) == {} && !t.pending && !t.status.Syncing?
               && NoneToBegin(t, w)
  {
    var watch := s.workers[w].active.value;
    ActiveDrain(s, watch, w);
    var g := Operation(s.generation + 1);
    var e0, e1, e2, e3 := AutoSyncEvent, BeginPass(g), Complete(g, Ready("")), EndPass(watch);
    var s1 := Step(s, e0);
    var s2 := Step(s1, e1);
    var s3 := Step(s2, e2);
    assert s3.inFlight == s.inFlight;
    var s4 := Step(s3, e3);
    assert s4.inFlight == map[watch := Drain(w, Done)];
    hide Step, Enabled;
    RunFour(s, e0, e1, e2, e3);
  }

  // ---- Dropped workers ----

  /** Whatever happens from here on, no pass takes another event of this worker. */
  ghost predicate NeverTakesAgain(s: State, w: nat)
    requires w < |s.workers|
  {
    forall events: seq<Event> :: Possible(s, events) ==>
      w < |Run(s, events).workers| && Run(s, events).workers[w].taken == s.workers[w].taken
  }

  predicate Abandoned(s: State, w: nat)
    requires w < |s.workers|
  {
    s.runtime != Some(w) && (!Waits(s, w) || NoneToBegin(s, w))
  }

  lemma StepKeepsAbandoned(s: State, e: Event, w: nat)
    requires Consistent(s) && Enabled(s, e) && w < |s.workers| && Abandoned(s, w)
    ensures w < |Step(s, e).workers| && Step(s, e).workers[w].taken == s.workers[w].taken
    ensures Abandoned(Step(s, e), w)
  {
    hide Consistent, Waits, NoneToBegin, BeginPassStep, EndPassStep, CompleteStep, ReconcileStep, StartDrain, Enqueue;
    if Settles(e) {
      SettlingKeepsRuntime(s, e);
      if Waits(s, w) {
        SettlingKeepsNoneToBegin(s, e, w);
      } else {
        SettledStays(s, e, w);
        SettledTakesNothing(s, e, w);
      }
    } else {
      RequestsLeaveOthers(s, e, w);
    }
  }

  lemma SettlingKeepsRuntime(s: State, e: Event)
    requires Enabled(s, e) && Settles(e)
    ensures Step(s, e).runtime == s.runtime && Step(s, e).settings == s.settings
    ensures |Step(s, e).workers| == |s.workers|
  {
  }

  lemma SettledTakesNothing(s: State, e: Event, w: nat)
    requires Consistent(s) && Enabled(s, e) && Settles(e) && w < |s.workers| && !Waits(s, w)
    ensures w < |Step(s, e).workers| && Step(s, e).workers[w].taken == s.workers[w].taken
  {
  }

  lemma SettlingKeepsNoneToBegin(s: State, e: Event, w: nat)
    requires Consistent(s) && Enabled(s, e) && Settles(e) && w < |s.workers|
    requires s.runtime != Some(w) && NoneToBegin(s, w)
    ensures w < |Step(s, e).workers| && Step(s, e).workers[w].taken == s.workers[w].taken
    ensures NoneToBegin(Step(s, e), w)
  {
  }

  lemma RequestsLeaveOthers(s: State, e: Event, w: nat)
    requires Consistent(s) && !Settles(e) && w < |s.workers| && s.runtime != Some(w)
    ensures w < |Step(s, e).workers| && Step(s, e).workers[w] == s.workers[w] && Step(s, e).runtime != Some(w)
    ensures Waits(Step(s, e), w) <==> Waits(s, w)
    ensures NoneToBegin(s, w) ==> NoneToBegin(Step(s, e), w)
  {
    hide Consistent, NoneToBegin, Takes, CurrentConfig, SettingsActive;
    if NoneToBegin(s, w) {
      RequestsStartElsewhere(s, e, w);
    }
  }

  lemma RequestsStartElsewhere(s: State, e: Event, w: nat)
    requires !Settles(e) && s.runtime != Some(w) && NoneToBegin(s, w)
    ensures NoneToBegin(Step(s, e), w)
  {
    hide Takes, CurrentConfig, SettingsActive, StartDrain, Enqueue, BeginOperation, WatcherStep, NoneToBegin;
    NothingStarts(s, Step(s, e), w);
    StartsElsewhere(s, w);
    EnqueueKeepsFlight(s);
    NothingStarts(s, Enqueue(s), w);
    StartsElsewhere(Enqueue(s), w);
  }

  lemma EnqueueKeepsFlight(s: State)
    ensures Enqueue(s).inFlight == s.inFlight && Enqueue(s).runtime == s.runtime
  {
  }

  lemma NothingStarts(s: State, t: State, w: nat)
    requires NoneToBegin(s, w)
    ensures t.inFlight == s.inFlight ==> NoneToBegin(t, w)
  {
  }

  lemma StartsElsewhere(s: State, w: nat)
    requires NoneToBegin(s, w) && s.runtime != Some(w)
    ensures NoneToBegin(StartDrain(s), w) && NoneToBegin(BeginOperation(s, Plain), w) && NoneToBegin(WatcherStep(s), w)
  {
    hide SettingsActive;
  }

  lemma {:induction false} AbandonedForGood(s: State, events: seq<Event>, w: nat)
    requires Consistent(s) && w < |s.workers| && Abandoned(s, w) && Possible(s, events)
    ensures w < |Run(s, events).workers| && Run(s, events).workers[w].taken == s.workers[w].taken
    decreases |events|
  {
    hide Step, Enabled, Consistent, Abandoned;
    if events != [] {
      StepKeepsConsistent(s, events[0]);
      StepKeepsAbandoned(s, events[0], w);
      AbandonedForGood(Step(s, events[0]), events[1..], w);
    }
  }

  /** Everything in flight can come to its end. */
  lemma {:induction false} Settling(s: State) returns (events: seq<Event>)
    requires Consistent(s)
    ensures Possible(s, events) && Consistent(Run(s, events)) && Run(s, events).inFlight == map[]
    ensures Run(s, events).runtime == s.runtime && Run(s, events).settings == s.settings
    decreases StepsLeft(s)
  {
    hide *;
    if s.inFlight == map[] {
      events := [];
      RunNil(s);
    } else {
      var e := SettlingStep(s);
      StepKeepsConsistent(s, e);
      SettlingUsesUp(s, e);
      SettlingKeepsRuntime(s, e);
      var rest := Settling(Step(s, e));
      events := [e] + rest;
      RunCons(s, e, rest);
    }
  }

  lemma SettlingStep(s: State) returns (e: Event)
    requires Consistent(s) && s.inFlight != map[]
    ensures Settles(e) && Enabled(s, e)
  {
    var g: Task :| g in s.inFlight;
    e := if s.inFlight[g].Plain? || s.inFlight[g].phase.Done? then Complete(g, Ready(""))
         else if s.inFlight[g].phase.Waiting? then BeginPass(g) else EndPass(g);
  }

  lemma NotNever(s: State, w: nat, events: seq<Event>)
    requires w < |s.workers| && Possible(s, events)
    requires w >= |Run(s, events).workers| || Run(s, events).workers[w].taken != s.workers[w].taken
    ensures !NeverTakesAgain(s, w)
  {
    hide Run, Possible;
  }

  lemma TakenIsOrdered(s: State, w: nat)
    requires Consistent(s) && w < |s.workers|
    ensures s.workers[w].taken <= s.workers[w].enqueued
  {
  }

  lemma PassKeepsTaken(s: State, e: Event, w: nat)
    requires Consistent(s) && Enabled(s, e) && (e.BeginPass? || e.EndPass?) && w < |s.workers|
    ensures w < |Step(s, e).workers| && Step(s, e).workers[w].taken >= s.workers[w].taken
  {
  }

  lemma CompletionKeepsWorkers(s: State, task: Task, result: Status)
    ensures CompleteStep(s, task, result).workers == s.workers
  {
  }

  lemma RequestsKeepTaken(s: State, e: Event, w: nat)
    requires !Settles(e) && w < |s.workers|
    ensures w < |Step(s, e).workers| && Step(s, e).workers[w].taken == s.workers[w].taken
  {
    hide CurrentConfig, SettingsActive;
  }

  /** No step takes back what has been taken. */
  lemma TakenGrows(s: State, e: Event, w: nat)
    requires Consistent(s) && Enabled(s, e) && w < |s.workers|
    ensures w < |Step(s, e).workers| && Step(s, e).workers[w].taken >= s.workers[w].taken
  {
    hide Consistent, Enabled, CompleteStep, BeginPassStep, EndPassStep;
    match e {
      case BeginPass(_) => PassKeepsTaken(s, e, w);
      case EndPass(_) => PassKeepsTaken(s, e, w);
      case Complete(task, result) => CompletionKeepsWorkers(s, task, result);
      case _ => RequestsKeepTaken(s, e, w);
    }
  }

  lemma {:induction false} RunTakes(s: State, events: seq<Event>, w: nat)
    requires Consistent(s) && Possible(s, events) && w < |s.workers|
    ensures w < |Run(s, events).workers| && Run(s, events).workers[w].taken >= s.workers[w].taken
    decreases |events|
  {
    hide Step, Enabled, Consistent;
    if events != [] {
      StepKeepsConsistent(s, events[0]);
      TakenGrows(s, events[0], w);
      RunTakes(Step(s, events[0]), events[1..], w);
    }
  }

  /** At rest, the worker of the runtime takes the next event when sync is on. */
  lemma TakesAtRest(s: State, w: nat) returns (events: seq<Event>)
    requires Consistent(s) && s.inFlight == map[] && s.runtime == Some(w) && w < |s.workers|
    ensures Possible(s, events) && w < |Run(s, events).workers|
    ensures Run(s, events).workers[w].taken == s.workers[w].enqueued + 1
  {
    var e0, e1, e2 := ChangeSettings(Settings(true, true, true, None)), AutoSyncEvent, BeginPass(Operation(s.generation + 1));
    var s1 := Step(s, e0);
    var s2 := Step(s1, e1);
    assert !s.status.Syncing? && s.workers[w].active.None?;
    assert s2.workers[w] == s.workers[w].(enqueued := s.workers[w].enqueued + 1);
    var s3 := Step(s2, e2);
    hide Step, Enabled;
    events := [e0] + ([e1] + ([e2] + []));
    RunNil(s3);
    RunCons(s2, e2, []);
    RunCons(s1, e1, [e2] + []);
    RunCons(s, e0, [e1] + ([e2] + []));
  }

  lemma RuntimeTakesAgain(s: State, w: nat)
    requires Consistent(s) && w < |s.workers| && s.runtime == Some(w)
    ensures !NeverTakesAgain(s, w)
  {
    hide *;
    var first := Settling(s);
    var rested := Run(s, first);
    RunTakes(s, first, w);
    TakenIsOrdered(rested, w);
    var rest := TakesAtRest(rested, w);
    RunConcat(s, first, rest);
    NotNever(s, w, first + rest);
  }

  /** A drain that has yet to begin takes what waits, once no pass is going on. */
  lemma BeginningTakes(s: State, w: nat, d: Task)
    requires Consistent(s) && w < |s.workers| && Waits(s, w) && d in s.inFlight && s.inFlight[d] == Drain(w, Waiting)
    ensures !NeverTakesAgain(s, w)
  {
    var e := BeginPass(d);
    if s.workers[w].active.None? {
      var t := Step(s, e);
      assert t.workers[w].taken == s.workers[w].enqueued;
      hide Step, Enabled;
      RunNil(t);
      RunCons(s, e, []);
      NotNever(s, w, [e] + []);
    } else {
      var e0 := EndPass(s.workers[w].active.value);
      var t := Step(s, e0);
      assert t.workers[w].enqueued >= s.workers[w].enqueued && t.inFlight[d] == Drain(w, Waiting);
      var u := Step(t, e);
      assert u.workers[w].taken == t.workers[w].enqueued;
      hide Step, Enabled;
      RunNil(u);
      RunCons(t, e, []);
      RunCons(s, e0, [e] + []);
      NotNever(s, w, [e0] + ([e] + []));
    }
  }

  /** A worker never takes an event again exactly when it has been dropped and no drain of it has still to begin. */
  lemma NeverTakesIff(s: State, w: nat)
    requires Consistent(s) && w < |s.workers| && Waits(s, w)
    ensures NeverTakesAgain(s, w) <==> s.runtime != Some(w) && NoneToBegin(s, w)
  {
    hide Consistent, Waits, Run, Possible;
    if s.runtime == Some(w) {
      RuntimeTakesAgain(s, w);
    } else if d :| d in s.inFlight && s.inFlight[d] == Drain(w, Waiting) {
      BeginningTakes(s, w, d);
    } else {
      forall events: seq<Event> | Possible(s, events)
        ensures w < |Run(s, events).workers| && Run(s, events).workers[w].taken == s.workers[w].taken
      {
        AbandonedForGood(s, events, w);
      }
    }
  }

  /** Sync is off or not configured, the start of a new configuration fails, or it gets a worker of its own. */
  predicate Drops(s: State, e: Event) {
    e.Reconcile? && (CurrentConfig(s.settings).None? || Reconfigures(s))
  }

  lemma DropsIff(s: State, e: Event)
    requires Consistent(s) && Enabled(s, e) && s.runtime.Some?
    ensures Step(s, e).runtime != s.runtime <==> Drops(s, e)
  {
  }

  /** A reconcile touches neither the events that wait nor what is in flight. */
  lemma ReconcileKeepsWaiting(s: State, e: Event, w: nat)
    requires e.Reconcile? && w < |s.workers|
    ensures var t := Step(s, e);
            && w < |t.workers| && t.workers[w] == s.workers[w] && t.inFlight == s.inFlight
            && Drains(t) == Drains(s) && (Waits(t, w) <==> Waits(s, w)) && (Fresh(t, w) <==> Fresh(s, w))
            && (NoneToBegin(t, w) <==> NoneToBegin(s, w))
  {
  }

  /**
   Waiting events are lost for good exactly when the runtime is replaced or dropped, by a disable and
   by a failed start as well, and no drain of the old worker has still to begin; they are certain to
   be taken exactly when one has and no other is in its pass.
   */
  lemma ForgetsIff(s: State, e: Event, w: nat)
    requires Consistent(s) && Enabled(s, e) && s.runtime == Some(w) && w < |s.workers| && Waits(s, w)
    ensures w < |Step(s, e).workers|
    ensures NeverTakesAgain(Step(s, e), w) <==> Drops(s, e) && NoneToBegin(s, w)
    ensures Drops(s, e) ==> (Guaranteed(Step(s, e), w) <==> Fresh(s, w))
  {
    hide *;
    var t := Step(s, e);
    StepKeepsConsistent(s, e);
    DropsIff(s, e);
    TakenGrows(s, e, w);
    if Drops(s, e) {
      DropIsReconcile(s, e);
      ReconcileKeepsWaiting(s, e, w);
      NeverTakesIff(t, w);
      GuaranteedIff(t, w);
      DroppedWillDrain(t, w);
    } else {
      RuntimeTakesAgain(t, w);
    }
  }

  lemma DropIsReconcile(s: State, e: Event)
    requires Drops(s, e)
    ensures e.Reconcile?
  {
  }

  lemma DroppedWillDrain(s: State, w: nat)
    requires w < |s.workers| && s.runtime != Some(w) && Waits(s, w)
    ensures WillDrain(s, w) <==> Fresh(s, w)
  {
  }

  // ---- Automatic events only ----

  predicate AutomaticOnly(events: seq<Event>) {
    forall i :: 0 <= i < |events| ==> events[i].AutoSyncEvent? || Settles(events[i])
  }

  /** Nothing waits at rest, and the one drain in flight has yet to begin or will see the flag. */
  predicate Awake(s: State, w: nat) {
    && Live(s, w)
    && if s.inFlight == map[] then !s.pending && !Waits(s, w)
       else
         var task := Operation(s.generation);
         && s.status.Syncing? && task in s.inFlight && s.inFlight == map[task := s.inFlight[task]]
         && s.inFlight[task].Drain? && s.inFlight[task].worker == w
         && (!Waits(s, w) || s.pending || s.inFlight[task].phase.Waiting?)
  }

  /** A runtime that has just been started is awake. */
  lemma FreshRuntimeIsAwake(config: Config, autoSync: bool)
    ensures Awake(Step(Init(Settings(true, true, autoSync, Some(config))), Reconcile(None)), 0)
  {
  }

  lemma RequestKeepsAwake(s: State, w: nat)
    requires Awake(s, w) && Consistent(AutoSyncStep(s))
    ensures Awake(AutoSyncStep(s), w)
  {
    hide Staffed;
    RestIsReady(s);
    assert s.inFlight == map[] ==>
      s.inFlight[Operation(s.generation + 1) := Drain(w, Waiting)] == map[Operation(s.generation + 1) := Drain(w, Waiting)];
  }

  lemma RestIsReady(s: State)
    requires Consistent(s)
    ensures s.inFlight == map[] ==> !s.status.Syncing?
  {
  }

  lemma PassKeepsAwake(s: State, e: Event, w: nat)
    requires Awake(s, w) && Enabled(s, e) && (e.BeginPass? || e.EndPass?) && Consistent(Step(s, e))
    ensures Awake(Step(s, e), w)
  {
    hide Fenced;
  }

  lemma CompletionKeepsAwake(s: State, task: Task, result: Status, w: nat)
    requires Awake(s, w) && Enabled(s, Complete(task, result)) && Consistent(CompleteStep(s, task, result))
    ensures Awake(CompleteStep(s, task, result), w)
  {
    hide Staffed;
    assert task == Operation(s.generation);
    assert s.inFlight - {task} == map[];
    assert map[][Operation(s.generation + 1) := Drain(w, Waiting)] == map[Operation(s.generation + 1) := Drain(w, Waiting)];
  }

  lemma StepKeepsAwake(s: State, e: Event, w: nat)
    requires Awake(s, w) && Enabled(s, e) && (e.AutoSyncEvent? || Settles(e))
    ensures Awake(Step(s, e), w)
  {
    hide Consistent, Enabled, CompleteStep, BeginPassStep, EndPassStep, AutoSyncStep;
    StepKeepsConsistent(s, e);
    match e {
      case AutoSyncEvent => RequestKeepsAwake(s, w);
      case Complete(task, result) => CompletionKeepsAwake(s, task, result, w);
      case _ => PassKeepsAwake(s, e, w);
    }
  }

  /**
   No lost wake-up: from a running, idle state, in every run of automatic events, passes and
   completions whatever waits has a drain in flight that has yet to begin, or that will see the
   flag, and at rest nothing waits.
   */
  lemma {:induction false} NoLostWakeUp(s: State, events: seq<Event>, w: nat)
    requires Awake(s, w) && Possible(s, events) && AutomaticOnly(events)
    ensures Awake(Run(s, events), w)
    ensures Run(s, events).inFlight == map[] ==> !Waits(Run(s, events), w)
    decreases |events|
  {
    hide Step, Enabled;
    if events != [] {
      assert events[0].AutoSyncEvent? || Settles(events[0]);
      StepKeepsAwake(s, events[0], w);
      NoLostWakeUp(Step(s, events[0]), events[1..], w);
    }
  }
}
