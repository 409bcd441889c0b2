/**
 The sync worker of crates/core/src/cloud_sync/personal/worker.rs: its queue, the pass over it, and
 what of them decides whether an event is taken.
 */
module SyncWorker {
  import opened Results

  /** What has been spawned: an operation with its generation, or a drain of a watcher's own, which no status tells of. */
  datatype Task = Operation(generation: nat) | Watch(number: nat)

  /**
   How many events have been enqueued, how many of them a pass has taken, the task in whose pass
   the worker is, and whether anything has been enqueued during that pass.
   */
  datatype Worker = Worker(enqueued: nat, taken: nat, active: Option<Task>, dirty: bool)

  const IDLE_WORKER := Worker(0, 0, None, false)

  function Enqueued(worker: Worker): Worker {
    worker.(enqueued := worker.enqueued + 1, dirty := worker.dirty || worker.active.Some?)
  }

  /** A drain that finds a pass going on, or no event, takes nothing. */
  predicate Takes(worker: Worker) {
    worker.active.None? && worker.taken < worker.enqueued
  }

  function Begun(worker: Worker, task: Task): Worker {
    if Takes(worker) then worker.(taken := worker.enqueued, active := Some(task)) else worker
  }

  /** Whatever came in during the pass asks for another scan. */
  function Ended(worker: Worker): Worker {
    worker.(active := None, dirty := false, enqueued := worker.enqueued + if worker.dirty then 1 else 0)
  }

  /** What a worker knows of itself: a pass that something came in during leaves something to take. */
  predicate ValidWorker(worker: Worker) {
    && worker.taken <= worker.enqueued
    && (worker.dirty ==> worker.active.Some? && worker.taken < worker.enqueued)
  }

  /** An event that comes in during a pass is left for the next one, and so is a scan that the end of the pass adds, once. */
  lemma DuringAPass(worker: Worker, task: Task)
    requires ValidWorker(worker) && Takes(worker)
    ensures var begun := Begun(worker, task);
            && begun.taken == worker.enqueued && begun.active == Some(task)
            && Begun(begun, task) == begun
            && Ended(begun).taken == Ended(begun).enqueued == worker.enqueued
            && Ended(Enqueued(begun)).taken == worker.enqueued && Ended(Enqueued(begun)).enqueued == worker.enqueued + 2
            && Ended(Enqueued(Enqueued(begun))).enqueued == worker.enqueued + 3
            && Takes(Ended(Enqueued(begun))) && !Takes(Enqueued(begun)) && !Takes(Ended(begun))
  {
  }

  datatype SyncEvent =
    | FullScan
    | LocalChanged(dataType: string, localId: string)
    | LocalDeleted(dataType: string, cloudId: string)
    | RemoteChanged

  /** The worker's state; equal events are kept once, and a pass takes all there are. */
  class PersonalSyncWorker {
    var pending: set<SyncEvent>
    var active: bool
    var dirty: bool
    ghost var counts: Worker

    /** Something is pending exactly when an event has been enqueued that no pass has taken. */
    ghost predicate Valid()
      reads this
    {
      && ValidWorker(counts)
      && (pending != {} <==> counts.taken < counts.enqueued)
      && active == counts.active.Some? && dirty == counts.dirty
    }

    constructor ()
      ensures Valid() && counts == IDLE_WORKER
    {
      pending, active, dirty := {}, false, false;
      counts := IDLE_WORKER;
    }

    method Enqueue(event: SyncEvent)
      requires Valid()
      modifies this
      ensures Valid() && counts == Enqueued(old(counts))
      ensures pending == old(pending) + {event}
    {
      if active {
        dirty := true;
      }
      pending := pending + {event};
      counts := Enqueued(counts);
    }

    method BeginDrain(ghost task: Task) returns (events: Option<set<SyncEvent>>)
      requires Valid()
      modifies this
      ensures Valid() && counts == Begun(old(counts), task)
      ensures events == if Takes(old(counts)) then Some(old(pending)) else None
      ensures pending == if Takes(old(counts)) then {} else old(pending)
    {
      if active || pending == {} {
        return None;
      }
      events := Some(pending);
      pending, active := {}, true;
      counts := Begun(counts, task);
    }

    method FinishDrain()
      requires Valid()
      modifies this
      ensures Valid() && counts == Ended(old(counts))
      ensures pending == old(pending) + if old(dirty) then {FullScan} else {}
    {
      active := false;
      if dirty {
        pending := pending + {FullScan};
        dirty := false;
      }
      counts := Ended(counts);
    }
  }
}
