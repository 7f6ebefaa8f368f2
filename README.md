# zoned-scheduler: the naive serializing scheduler

This project models the flat scheduler of zoned-scheduler: `NaiveScheduler`
(lib/index.ts:48-111) and the `Task` wrapper it runs (lib/task.ts). A user
schedules functions. Each function signals its completion in one of four
conventions: it returns a promise, it takes two callbacks, it takes a
callback with a `.fail` property, or it takes a Node-style error-first
callback. The scheduler runs the functions one at a time, in the order they
were scheduled. `complete()` hands out a promise that resolves once the queue
has drained.

Modules:

- `AsyncStyles` (async_style.dfy) is the enum PROMISE, TWO_CBS, DOT_FAIL,
  NODE and INFER.
- `Tasks` (task.dfy) covers the task:
  - the style resolution done by the constructor;
  - the settle-once result promise;
  - what each kind of call a function can make does to that result;
  - one invocation of the function (the deferred callback of `run()`), as a
    loop over the calls the function makes;
  - the slot signal that `run()` returns.
  
  A user function is described by its declared parameter count and by what
  it does when called. That is, the calls it makes, in order, to the
  callables it was handed, then how it ends (returns a value or throws).
  Calls it makes later, from a timer or a promise, are separate events
  (`Task.Deliver`).
- `NaiveModel` (naive_model.dfy) is the scheduler as a state machine over
  its four fields `tasks`, `currentTask`, `promise` and `onComplete`. Two
  events drive it: a call of `schedule`, and the continuation at
  lib/index.ts:106-108. Each step logs what it did: started a task, saw a
  task finish, or fired the drain promise. The FIFO, one-at-a-time and drain
  properties are proved over every run from the constructor.
- `NaiveSchedulers` (naive_scheduler.dfy) is the `NaiveScheduler` class.
  Its methods update the four fields in place, and each method's contract
  ties the new fields to `NaiveModel.Apply`. Ghost fields record the run so
  far, so the run properties hold for the object (`RunSoFar`).

Modelling choices:

- The `Task` class at lib/index.ts:1-45 is a copy of lib/task.ts. The only
  difference is that it defers with `process.nextTick` where lib/task.ts uses
  `setImmediate`. Timing is not modelled, so one model serves both.
- JavaScript values are a small datatype. "Loosely null" (`== null`) holds
  for `null` and `undefined` only.
- Calling a callable the function was not handed throws a TypeError. An
  example is calling the second parameter in DOT_FAIL style. So does
  calling `.then` on a value that is not a thenable.
- `(currentTask + 1) || 0` is evaluated with `undefined + 1` being NaN, and
  both NaN and 0 are falsy.
- The documentation of INFER (lib/async_style.ts:13-14,
  lib/index.ts:126-127) says a function with no parameter is assumed to use
  NODE style. The code (lib/task.ts:12-14) picks PROMISE, and the model
  follows the code.
- `schedule` defaults its style to INFER (lib/index.ts:69). The model has
  no default arguments, so a caller passes INFER explicitly.

## Model

| member | source | states |
|---|---|---|
| Tasks.ResolveStyle | lib/task.ts:12-14 | The resolved style is never INFER. An explicit style is kept. INFER becomes PROMISE exactly when the function declares no parameter, and TWO_CBS exactly when it declares at least one. |
| Tasks.SettleAllFirstWins | lib/task.ts:15-18 | Settle-once. After any sequence of resolve/reject attempts, a settled promise keeps its settlement. A pending one holds the first attempt that settles it. |
| Tasks.Dispatch | lib/task.ts:24-40 | A call throws exactly when the callable is not among those handed out for the style, and what it throws is a TypeError. The first callable resolves with its first argument. The second callable and `.fail` reject with their first argument. The Node-style callback resolves with its second argument exactly when the first is null or undefined, and otherwise rejects with the first. |
| Tasks.CallAttempts | lib/task.ts:23-43 | The calls inside the try block make at most one settlement attempt each, none of them pending. With no throwing call, there is exactly one attempt per call. |
| Tasks.InvocationOutcome | lib/task.ts:21-46 | What one invocation does to a pending result. The first call the function makes decides it, and a throwing call rejects with the TypeError. With no call, a throw rejects with the thrown value. A PROMISE function that returns a non-thenable rejects with a TypeError. Otherwise the result stays pending. |
| Tasks.PendingAfterInvocation | lib/task.ts:21-46 | The result is still pending after the invocation exactly when: the function made no call, it returned normally, and, in PROMISE style, it returned a thenable. |
| Tasks.SettledIsFinal | lib/task.ts:15-18 | A settled result changes neither through a later invocation nor through any later call of a callable. |
| Tasks.SlotSignal | lib/task.ts:45 | The promise `run()` returns never rejects. It is pending exactly while the task's result is pending. |
| Tasks.Task.constructor | lib/task.ts:10-19 | The style is ResolveStyle of the given style and the arity. The result starts pending, and nothing has been called yet. |
| Tasks.Task.Resolve | lib/task.ts:15-18 | The stored resolve settles the result only if it was pending. |
| Tasks.Task.Reject | lib/task.ts:15-18 | The stored reject settles the result only if it was pending. |
| Tasks.Task.NodeCallback | lib/task.ts:33-39 | The error-first callback resolves with the value when the error is null or undefined, and otherwise rejects with the error. Either settles the result only if it was pending. |
| Tasks.Task.Handle | lib/task.ts:24-40 | Performs one call under a wiring. It returns a TypeError exactly when Dispatch throws. The new result is DeliverResult of the old one. |
| Tasks.Task.Run | lib/task.ts:21-22 | `run()` only defers the invocation (one more pending invocation). It does not touch the result. |
| Tasks.Task.Invoke | lib/task.ts:22-44 | The deferred callback leaves the result equal to InvokeResult of the style, the behaviour and the old result. It writes `resolve.fail` exactly in DOT_FAIL style. It hands `then` the pair (resolve, reject) exactly when a PROMISE function returned a thenable. |
| Tasks.Task.MakeCalls | lib/task.ts:23-43 | The loop over the calls inside the try block, with the catch. It reports a throw exactly when some call throws. The result becomes SettleAll of the old result over CallAttempts: the calls' attempts in order, ending with the rejection by the thrown TypeError if a call throws. |
| Tasks.Task.Deliver | lib/task.ts:26-39 | A later call reaches the callables still held: those given to the function, or a thenable's `(resolve, reject)`. It throws exactly when Dispatch does. |
| NaiveModel.InitialValid | lib/index.ts:54-56 | The constructed scheduler is idle and satisfies the idle/busy invariant. |
| NaiveModel.NextCursor | lib/index.ts:99 | The cursor update (undefined plus one is NaN, and NaN or 0 falls back to 0) gives 0 when the cursor is undefined and the cursor plus one otherwise. |
| NaiveModel.Apply | lib/index.ts:69-110 | It keeps the idle/busy invariant. `schedule` appends the task and leaves the scheduler busy. While busy, it only appends. From idle, it creates a drain promise and starts the new task. The continuation logs the finished task, then either starts the next one or, past the end, empties the queue, goes idle and fires the drain promise. |
| NaiveModel.Execute | lib/index.ts:69-110 | Every run of events from a valid state ends in a valid state. The empty run changes nothing. |
| NaiveModel.ScheduleKeepsConsistent | lib/index.ts:69-81 | `schedule` extends the scheduled list by the new task. It keeps the invariant: the started tasks, then the waiting ones, are the scheduled tasks in order, and the log keeps the one-slot discipline. |
| NaiveModel.AdvanceKeepsConsistent | lib/index.ts:105-108 | The continuation that moves to the next task keeps that invariant. |
| NaiveModel.DrainKeepsConsistent | lib/index.ts:100-104 | The continuation that drains the queue keeps that invariant. |
| NaiveModel.RunInvariant | lib/index.ts:58-61 | Along every run from the constructor, two things hold. FIFO: the tasks started, then the ones still waiting, are exactly the scheduled tasks in scheduling order. One at a time: a task starts only when no task runs, only the running task finishes, the drain fires only when none runs, and the running task is the one at the cursor. |
| NaiveModel.OccupancyBalances | lib/index.ts:98-110 | In a log that keeps the one-slot discipline, the tasks started are the tasks finished plus the one running, if any. |
| NaiveModel.DrainMeansAllFinished | lib/index.ts:100-104 | When the drain promise fires, every task scheduled so far has started and finished, in scheduling order. |
| NaiveModel.PromiseStableUntilDrain | lib/index.ts:88-91 | Until a drain fires, a busy scheduler stays busy and keeps the same drain promise, so `complete()` keeps returning it. |
| NaiveModel.FirstDrainFiresPromise | lib/index.ts:73-76 | The first drain a busy scheduler reaches fires the drain promise it held. |
| NaiveModel.CompleteWaitsForQueued | lib/index.ts:83-95 | The promise `complete()` returns while busy is the one the next drain fires. By then, every task scheduled before the call has finished, in scheduling order. |
| NaiveModel.NestedScheduleRunsLast | spec/ns_spec.ts:47-76 | The nested example: A and B are scheduled, and A schedules C while it runs. The tasks start and finish in the order A, B, C. Then the drain of the first promise fires, and the scheduler is idle and empty. |
| NaiveSchedulers.DrainPromise.Resolve | lib/index.ts:74-76 | The resolver stored in `onComplete` marks the drain promise resolved. |
| NaiveSchedulers.NaiveScheduler.constructor | lib/index.ts:54-56 | The new scheduler is the initial state with an empty run. |
| NaiveSchedulers.NaiveScheduler.Schedule | lib/index.ts:69-81 | It returns a fresh pending task whose style is ResolveStyle of the arguments, satisfying the task invariant; nothing of it has been invoked and no `fail` or `then` handler is attached. The fields become Apply of the old fields on this schedule event. An idle scheduler gets a fresh drain promise, and the task's `run()` is called once. A busy scheduler keeps its promise and does not run the task. |
| NaiveSchedulers.NaiveScheduler.RunNextTask | lib/index.ts:98-110 | The fields become NaiveModel.RunNextTask of the old fields. Past the end, the resolver of the drain promise has been called. Otherwise the task at the new cursor had `run()` called once, and its result is unchanged. |
| NaiveSchedulers.NaiveScheduler.CurrentTaskSettled | lib/index.ts:106-108 | It may happen only once the current task's slot signal has settled. The fields become Apply of the old fields on the continuation event, and the recorded run stays consistent. Past the end of the queue, the drain promise has been resolved. Otherwise the next task had `run()` called once and nothing else of it changed, and the drain promise is untouched. |
| NaiveSchedulers.NaiveScheduler.Complete | lib/index.ts:88-95 | While busy, it returns the drain promise, which is not resolved yet. While idle, it returns a fresh promise that resolves on the next tick. It returns the drain promise exactly when a task is running. |
| NaiveSchedulers.NaiveScheduler.RunSoFar | lib/index.ts:58-61 | For the object's recorded run, the FIFO and one-at-a-time properties of RunInvariant hold. |

## Left out

- Timing is not modelled: `setImmediate` and `process.nextTick` become explicit events, namely `Task.Invoke` and `CurrentTaskSettled`. The promise an idle `complete()` returns resolves on the next tick (lib/index.ts:93). The model records this in its `onNextTick` flag, and no method resolves it. Which events can interleave is left to the caller of the model.
- The JavaScript Promise primitive is not modelled. The model has no adoption of a thenable passed to `resolve` and no microtask ordering of `then` callbacks. A thenable returned by a PROMISE function is taken to call its handlers only later (`Task.Deliver`), never synchronously inside `then`, and its `then` does not throw.
- The callables a task hands out (`resolve`, `reject`, the Node-style callback) require that the task has been invoked. In the source they are reachable only from inside the deferred invocation or later.
- `Function.length` is an input: the arity field of `UserFunction`.
- A user function that catches the TypeError of a call it makes to a missing callable is not modelled. Such a call is described by leaving it out of the function's behaviour.
- The zoned `Scheduler` and its `noDeadlock` machinery are not part of this model, nor is the export wiring (lib/index.ts:113-132).
- Tasks.Task.Invoke: it assumes the function's synchronous behaviour is given in advance. A function whose behaviour depends on state the scheduler changes while it runs is captured only through the events that follow.
- NaiveSchedulers.NaiveScheduler.Schedule: the task's own promise is the `result` field of the returned task. No separate JavaScript promise object is modelled.
