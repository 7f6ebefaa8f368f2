/**
 * The NaiveScheduler object of lib/index.ts:48-111: its four fields updated
 * in place, with the state machine of NaiveModel as its specification.
 * Every method ends in the state NaiveModel.Apply computes from the state it
 * started in; the ghost fields `events` and `log` record the run so far, so
 * the properties proved about every run hold for the object.
 */
module NaiveSchedulers {
  import opened Options
  import opened AsyncStyles
  import Tasks
  import NaiveModel

  /**
   * A promise of no value: the drain promise and the `resolve` stored in
   * `onComplete` are the two ends of one such object.
   */
  class DrainPromise {
    /** Whether resolve() has been called. */
    var resolved: bool
    /** Made by complete() on an idle scheduler: it resolves itself on the next tick. */
    const onNextTick: bool

    constructor (onNextTick: bool)
      ensures !resolved && this.onNextTick == onNextTick
    {
      resolved := false;
      this.onNextTick := onNextTick;
    }

    method Resolve()
      modifies this
      ensures resolved
    {
      resolved := true;
    }
  }

  class NaiveScheduler {
    var tasks: seq<Tasks.Task>
    var currentTask: Option<nat>
    var promise: DrainPromise?
    var onComplete: DrainPromise?
    /** The calls of schedule and the continuations that have happened, in order. */
    ghost var events: seq<NaiveModel.Event<Tasks.Task, DrainPromise>>
    /** What the scheduler has done on the way: tasks started and finished, drains fired. */
    ghost var log: seq<NaiveModel.Obs<Tasks.Task, DrainPromise>>

    /** The four fields as a state of NaiveModel; `undefined` is None. */
    function Abstract(): NaiveModel.State<Tasks.Task, DrainPromise>
      reads this
    {
      var p: Option<DrainPromise> := if promise == null then None else Some(promise);
      var resolve: Option<DrainPromise> := if onComplete == null then None else Some(onComplete);
      NaiveModel.State(tasks, currentTask, p, resolve)
    }

    /**
     * The fields are the state reached by the recorded run, with the log it
     * produced; the drain promise held while busy has not been resolved.
     */
    ghost predicate Valid()
      reads this, promise
    {
      && NaiveModel.Execute(NaiveModel.Initial(), events) == Some(NaiveModel.Step(Abstract(), log))
      && (promise != null ==> !promise.resolved)
    }

    /** lib/index.ts:54-56. */
    constructor ()
      ensures Valid() && Abstract() == NaiveModel.Initial()
      ensures events == [] && log == []
    {
      tasks := [];
      currentTask := None;
      promise := null;
      onComplete := null;
      events := [];
      log := [];
    }

    /**
     * schedule, lib/index.ts:69-81: a new task joins the queue; an idle
     * scheduler creates its drain promise and starts the loop with it.
     */
    method Schedule(fun: Tasks.UserFunction, asyncStyle: AsyncStyle) returns (task: Tasks.Task)
      requires Valid()
      modifies this
      ensures Valid()
      ensures fresh(task) && task.fun == fun && task.style == Tasks.ResolveStyle(asyncStyle, fun.arity)
      ensures task.Valid() && task.result == Tasks.Pending
      ensures !task.invoked && !task.failAttached && !task.thenAttached
      ensures promise != null
      ensures events == old(events) + [NaiveModel.Schedule(task, promise)]
      ensures Abstract() == NaiveModel.Apply(old(Abstract()), NaiveModel.Schedule(task, promise)).state
      ensures old(currentTask).None? ==> fresh(promise) && task.pendingRuns == 1
      ensures old(currentTask).Some? ==> promise == old(promise) && task.pendingRuns == 0
    {
      task := new Tasks.Task(fun, asyncStyle);
      ghost var before := Abstract();
      ghost var started := log;
      tasks := tasks + [task];
      if currentTask.None? {
        var d := new DrainPromise(false);
        promise := d;
        onComplete := d;
        RunNextTask();
      } else {
        assert Abstract() == before.(tasks := before.tasks + [task]);
      }
      ghost var e: NaiveModel.Event<Tasks.Task, DrainPromise> := NaiveModel.Schedule(task, promise);
      NaiveModel.ExecuteSnoc(NaiveModel.Initial(), events, e);
      events := events + [e];
      log := started + NaiveModel.Apply(before, e).obs;
    }

    /**
     * runNextTask, lib/index.ts:98-110: move the cursor; past the end, empty
     * the queue, go idle and resolve the drain promise, else run the task
     * at the cursor.
     */
    method RunNextTask()
      requires onComplete != null
      requires currentTask.Some? ==> currentTask.value < |tasks|
      requires currentTask.None? ==> tasks != []
      modifies this`tasks, this`currentTask, this`promise, onComplete
      modifies if NaiveModel.NextCursor(currentTask) < |tasks| then {tasks[NaiveModel.NextCursor(currentTask)]} else {}
      ensures Abstract() == NaiveModel.RunNextTask(old(Abstract())).state
      ensures NaiveModel.NextCursor(old(currentTask)) >= |old(tasks)| ==> old(onComplete).resolved
      ensures NaiveModel.NextCursor(old(currentTask)) < |old(tasks)| ==>
        var t := old(tasks)[NaiveModel.NextCursor(old(currentTask))];
        && t.pendingRuns == old(t.pendingRuns) + 1 && t.result == old(t.result)
        && t.invoked == old(t.invoked) && t.failAttached == old(t.failAttached)
        && t.thenAttached == old(t.thenAttached)
        && unchanged(old(onComplete))
    {
      var cursor := NaiveModel.NextCursor(currentTask);
      currentTask := Some(cursor);
      if cursor >= |tasks| {
        tasks := [];
        currentTask := None;
        onComplete.Resolve();
        promise := null;
      } else {
        tasks[cursor].Run();
      }
    }

    /**
     * The continuation of lib/index.ts:106-108: the current task's run()
     * signal has settled, which happens once its promise has.
     */
    method CurrentTaskSettled()
      requires Valid() && currentTask.Some?
      requires Tasks.SlotSignal(tasks[currentTask.value].result) != Tasks.Pending
      modifies this, onComplete
      modifies if currentTask.value + 1 < |tasks| then {tasks[currentTask.value + 1]} else {}
      ensures Valid()
      ensures events == old(events) + [NaiveModel.CurrentTaskSettled]
      ensures Abstract() == NaiveModel.Apply(old(Abstract()), NaiveModel.CurrentTaskSettled).state
      // past the end, the drain promise complete() handed out has been resolved
      ensures old(currentTask).value + 1 >= |old(tasks)| ==> old(onComplete).resolved
      // otherwise the next task's run() has been called, and nothing else of it changed
      ensures old(currentTask).value + 1 < |old(tasks)| ==>
        var t := old(tasks)[old(currentTask).value + 1];
        && t.pendingRuns == old(t.pendingRuns) + 1 && t.result == old(t.result)
        && t.invoked == old(t.invoked) && t.failAttached == old(t.failAttached)
        && t.thenAttached == old(t.thenAttached)
        && unchanged(old(onComplete))
    {
      ghost var before := Abstract();
      ghost var done := log;
      RunNextTask();
      ghost var e: NaiveModel.Event<Tasks.Task, DrainPromise> := NaiveModel.CurrentTaskSettled;
      NaiveModel.ExecuteSnoc(NaiveModel.Initial(), events, e);
      events := events + [e];
      log := done + NaiveModel.Apply(before, e).obs;
    }

    /**
     * complete, lib/index.ts:88-95: the drain promise while busy; otherwise
     * a new promise that resolves on the next tick.
     */
    method Complete() returns (r: DrainPromise)
      requires Valid()
      ensures old(promise) != null ==> r == promise && !r.resolved
      ensures old(promise) == null ==> fresh(r) && r.onNextTick && !r.resolved
      ensures currentTask.Some? <==> r == promise
    {
      if promise != null {
        r := promise;
      } else {
        r := new DrainPromise(true);
      }
    }

    /**
     * FIFO and one at a time for this object: the tasks started, then the
     * ones still queued, are the scheduled tasks in order, and the log has
     * kept the one-slot discipline with the current task in the slot.
     */
    lemma RunSoFar()
      requires Valid()
      ensures NaiveModel.Valid(Abstract())
      ensures NaiveModel.Starts(log) + NaiveModel.Waiting(Abstract()) == NaiveModel.Scheduled(events)
      ensures NaiveModel.Occupancy(None, log) == Some(NaiveModel.Running(Abstract()))
    {
      NaiveModel.RunInvariant(events);
    }
  }
}
