/**
 * The flat serializing scheduler of lib/index.ts:48-111 as a state machine
 * over its four fields. Tasks and drain promises are type parameters: the
 * machine only stores, compares and hands them out.
 *
 * Two events drive it: Schedule (a call of `schedule`, carrying the promise
 * it would create if the scheduler is idle) and CurrentTaskSettled (the
 * continuation at lib/index.ts:106-108, which runs once the current task's
 * run() signal has settled). Each step reports what it did: Started(t) when
 * it calls t.run(), Finished(t) when the continuation for t runs, Fired(d)
 * when it calls onComplete() for the drain promise d.
 */
module NaiveModel {
  import opened Options

  datatype State<T, D> = State(tasks: seq<T>, currentTask: Option<nat>, promise: Option<D>, onComplete: Option<D>)

  datatype Event<T, D> = Schedule(task: T, signal: D) | CurrentTaskSettled

  datatype Obs<T, D> = Started(task: T) | Finished(task: T) | Fired(signal: D)

  /** A state together with what was observed on the way to it. */
  datatype Step<T, D> = Step(state: State<T, D>, obs: seq<Obs<T, D>>)

  /** The constructor, lib/index.ts:54-56: no task, no cursor, no drain promise. */
  function Initial<T, D>(): State<T, D> {
    State([], None, None, None)
  }

  predicate Idle<T, D>(s: State<T, D>) {
    s.currentTask.None?
  }

  /**
   * The idle/busy invariant: busy exactly when the cursor is defined and the
   * drain promise is set; a busy cursor points into `tasks` and `onComplete`
   * resolves `promise`; an idle scheduler holds no task.
   */
  ghost predicate Valid<T, D>(s: State<T, D>) {
    && (s.currentTask.None? <==> s.promise.None?)
    && (s.currentTask.Some? ==> s.currentTask.value < |s.tasks| && s.onComplete == s.promise)
    && (s.currentTask.None? ==> s.tasks == [])
  }

  lemma InitialValid<T, D>()
    ensures Valid<T, D>(Initial()) && Idle<T, D>(Initial())
  {
  }

  // ----------------------------------------------- `(currentTask + 1) || 0`

  /** A JavaScript number as `currentTask + 1` produces it: undefined + 1 is NaN. */
  datatype JsNumber = NaN | Num(n: int)

  function PlusOne(c: Option<nat>): JsNumber {
    match c
    case None => NaN
    case Some(n) => Num(n + 1)
  }

  /** `x || 0`: NaN and 0 are falsy and give 0, any other number is kept. */
  function OrZero(x: JsNumber): int {
    match x
    case NaN => 0
    case Num(n) => if n == 0 then 0 else n
  }

  /** The cursor runNextTask moves to (lib/index.ts:99). */
  function NextCursor(c: Option<nat>): (r: nat)
    ensures c.None? ==> r == 0
    ensures c.Some? ==> r == c.value + 1
  {
    OrZero(PlusOne(c))
  }

  // ------------------------------------------------------------- the steps

  /** runNextTask, lib/index.ts:98-110. */
  function RunNextTask<T, D>(s: State<T, D>): (r: Step<T, D>)
    requires s.onComplete.Some?
    requires s.currentTask.Some? ==> s.currentTask.value < |s.tasks|
    requires s.currentTask.None? ==> s.tasks != []
  {
    var cursor := NextCursor(s.currentTask);
    if cursor >= |s.tasks| then
      Step(State([], None, None, s.onComplete), [Fired(s.onComplete.value)])
    else
      Step(s.(currentTask := Some(cursor)), [Started(s.tasks[cursor])])
  }

  /** Whether the event can happen: the continuation exists only while a task runs. */
  predicate Enabled<T, D>(s: State<T, D>, e: Event<T, D>) {
    e.CurrentTaskSettled? ==> !Idle(s)
  }

  /** One event: schedule (lib/index.ts:69-81) or the continuation (lib/index.ts:106-108). */
  function Apply<T, D>(s: State<T, D>, e: Event<T, D>): (r: Step<T, D>)
    requires Valid(s) && Enabled(s, e)
    ensures Valid(r.state)
    // schedule appends and leaves the scheduler busy
    ensures e.Schedule? ==> r.state.tasks == s.tasks + [e.task] && !Idle(r.state)
    // while busy it only appends
    ensures e.Schedule? && !Idle(s) ==> r == Step(s.(tasks := s.tasks + [e.task]), [])
    // from idle it creates the drain promise and starts the loop with the new task
    ensures e.Schedule? && Idle(s) ==>
      && r.state.currentTask == Some(0) && r.state.promise == Some(e.signal)
      && r.obs == [Started(e.task)]
    // the continuation starts the next task, or drains
    ensures e.CurrentTaskSettled? ==>
      var c := s.currentTask.value;
      && (c + 1 < |s.tasks| ==>
            r.state == s.(currentTask := Some(c + 1))
            && r.obs == [Finished(s.tasks[c]), Started(s.tasks[c + 1])])
      && (c + 1 == |s.tasks| ==>
            r.state == State([], None, None, s.promise)
            && r.obs == [Finished(s.tasks[c]), Fired(s.promise.value)])
  {
    match e
    case Schedule(t, d) =>
      var pushed := s.(tasks := s.tasks + [t]);
      if Idle(s) then RunNextTask(pushed.(promise := Some(d), onComplete := Some(d)))
      else Step(pushed, [])
    case CurrentTaskSettled =>
      var next := RunNextTask(s);
      Step(next.state, [Finished(s.tasks[s.currentTask.value])] + next.obs)
  }

  /** A run of events from `s`; None when some event cannot happen where it stands. */
  function Execute<T, D>(s: State<T, D>, events: seq<Event<T, D>>): (r: Option<Step<T, D>>)
    requires Valid(s)
    ensures r.Some? ==> Valid(r.value.state)
    ensures events == [] ==> r == Some(Step(s, []))
    decreases |events|
  {
    if events == [] then Some(Step(s, []))
    else
      match Execute(s, events[..|events| - 1])
      case None => None
      case Some(prev) =>
        var e := events[|events| - 1];
        if Enabled(prev.state, e) then
          var last := Apply(prev.state, e);
          Some(Step(last.state, prev.obs + last.obs))
        else None
  }

  // ------------------------------------------------------------ projections

  /** The tasks handed to `schedule`, in call order. */
  function Scheduled<T, D>(events: seq<Event<T, D>>): seq<T>
    decreases |events|
  {
    if events == [] then []
    else
      Scheduled(events[..|events| - 1]) + ScheduledBy(events[|events| - 1])
  }

  function ScheduledBy<T, D>(e: Event<T, D>): seq<T> {
    match e
    case Schedule(t, _) => [t]
    case CurrentTaskSettled => []
  }

  /** The tasks started (run() called), in order. */
  function Starts<T, D>(log: seq<Obs<T, D>>): seq<T>
    decreases |log|
  {
    if log == [] then []
    else StartOf(log[0]) + Starts(log[1..])
  }

  /** The tasks whose run() signal settled, in order. */
  function Finishes<T, D>(log: seq<Obs<T, D>>): seq<T>
    decreases |log|
  {
    if log == [] then []
    else FinishOf(log[0]) + Finishes(log[1..])
  }

  function StartOf<T, D>(x: Obs<T, D>): seq<T> {
    if x.Started? then [x.task] else []
  }

  function FinishOf<T, D>(x: Obs<T, D>): seq<T> {
    if x.Finished? then [x.task] else []
  }

  /** The tasks queued and not started yet. */
  function Waiting<T, D>(s: State<T, D>): seq<T>
    requires Valid(s)
  {
    if Idle(s) then [] else s.tasks[s.currentTask.value + 1..]
  }

  /** The task running now, if any. */
  function Running<T, D>(s: State<T, D>): Option<T>
    requires Valid(s)
  {
    if Idle(s) then None else Some(s.tasks[s.currentTask.value])
  }

  /**
   * The one-slot discipline, checked along a log: a task starts only when the
   * slot is free, a task finishes only if it is the one running, and the
   * drain fires only when the slot is free. None when the log breaks it;
   * otherwise the task that holds the slot at the end.
   */
  ghost function Occupancy<T, D>(slot: Option<T>, log: seq<Obs<T, D>>): Option<Option<T>>
    decreases |log|
  {
    if log == [] then Some(slot)
    else
      var next: Option<Option<T>> :=
        match log[0]
        case Started(t) => if slot.None? then Some(Some(t)) else None
        case Finished(t) => if slot == Some(t) then Some(None) else None
        case Fired(_) => if slot.None? then Some(None) else None;
      match next
      case None => None
      case Some(slot') => Occupancy(slot', log[1..])
  }

  // ---------------------------------------------------- algebra of the logs

  lemma StartsAppend<T, D>(a: seq<Obs<T, D>>, b: seq<Obs<T, D>>)
    ensures Starts(a + b) == Starts(a) + Starts(b)
    ensures Finishes(a + b) == Finishes(a) + Finishes(b)
  {
    OnlyStartsAppend(a, b);
    OnlyFinishesAppend(a, b);
  }

  lemma {:induction false} OnlyStartsAppend<T, D>(a: seq<Obs<T, D>>, b: seq<Obs<T, D>>)
    ensures Starts(a + b) == Starts(a) + Starts(b)
    decreases |a|
  {
    if a == [] {
      assert a + b == b;
    } else {
      assert (a + b)[0] == a[0];
      assert (a + b)[1..] == a[1..] + b;
      OnlyStartsAppend(a[1..], b);
      assert StartOf(a[0]) + (Starts(a[1..]) + Starts(b)) == StartOf(a[0]) + Starts(a[1..]) + Starts(b);
    }
  }

  lemma {:induction false} OnlyFinishesAppend<T, D>(a: seq<Obs<T, D>>, b: seq<Obs<T, D>>)
    ensures Finishes(a + b) == Finishes(a) + Finishes(b)
    decreases |a|
  {
    if a == [] {
      assert a + b == b;
    } else {
      assert (a + b)[0] == a[0];
      assert (a + b)[1..] == a[1..] + b;
      OnlyFinishesAppend(a[1..], b);
      assert FinishOf(a[0]) + (Finishes(a[1..]) + Finishes(b)) == FinishOf(a[0]) + Finishes(a[1..]) + Finishes(b);
    }
  }

  lemma {:induction false} OccupancyAppend<T, D>(slot: Option<T>, a: seq<Obs<T, D>>, b: seq<Obs<T, D>>)
    ensures Occupancy(slot, a + b) ==
      match Occupancy(slot, a)
      case None => None
      case Some(mid) => Occupancy(mid, b)
    decreases |a|
  {
    if a == [] {
      assert a + b == b;
    } else {
      assert (a + b)[0] == a[0];
      assert (a + b)[1..] == a[1..] + b;
      var next: Option<Option<T>> :=
        match a[0]
        case Started(t) => if slot.None? then Some(Some(t)) else None
        case Finished(t) => if slot == Some(t) then Some(None) else None
        case Fired(_) => if slot.None? then Some(None) else None;
      if next.Some? {
        OccupancyAppend(next.value, a[1..], b);
      }
    }
  }

  /** The projections of a one-entry log. */
  lemma LogOfOne<T, D>(x: Obs<T, D>)
    ensures Starts([x]) == StartOf(x)
    ensures Finishes([x]) == FinishOf(x)
  {
    assert [x][1..] == [];
  }

  /** The projections of a two-entry log. */
  lemma LogOfTwo<T, D>(x: Obs<T, D>, y: Obs<T, D>)
    ensures Starts([x, y]) == Starts([x]) + Starts([y])
    ensures Finishes([x, y]) == Finishes([x]) + Finishes([y])
    ensures Occupancy(None, [x, y]) == match Occupancy(None, [x]) case None => None case Some(mid) => Occupancy(mid, [y])
  {
    assert [x, y] == [x] + [y];
    StartsAppend([x], [y]);
    OccupancyAppend(None, [x], [y]);
  }

  /** A well-formed log from a free slot: every start but the running one has finished. */
  lemma {:induction false} OccupancyBalances<T, D>(log: seq<Obs<T, D>>, slot: Option<T>)
    requires Occupancy(None, log) == Some(slot)
    ensures Starts(log) == Finishes(log) + (match slot case None => [] case Some(t) => [t])
    decreases |log|
  {
    if log != [] {
      var init := log[..|log| - 1];
      var last := log[|log| - 1];
      assert log == init + [last];
      OccupancyAppend(None, init, [last]);
      StartsAppend(init, [last]);
      var mid := Occupancy(None, init).value;
      OccupancyBalances(init, mid);
    }
  }

  // ------------------------------------------------------------- the theorem

  /**
   * What holds after every run: the tasks started, then the ones still
   * waiting, make up the scheduled tasks in order; and the log keeps the
   * one-slot discipline, with the slot held by the task at the cursor.
   */
  ghost predicate Consistent<T, D>(scheduled: seq<T>, o: Step<T, D>) {
    && Valid(o.state)
    && Starts(o.obs) + Waiting(o.state) == scheduled
    && Occupancy(None, o.obs) == Some(Running(o.state))
  }

  /** The observations one step adds, appended to the log. */
  function Extend<T, D>(o: Step<T, D>, e: Event<T, D>): Step<T, D>
    requires Valid(o.state) && Enabled(o.state, e)
  {
    var last := Apply(o.state, e);
    Step(last.state, o.obs + last.obs)
  }

  lemma ScheduleKeepsConsistent<T, D>(scheduled: seq<T>, o: Step<T, D>, t: T, d: D)
    requires Consistent(scheduled, o)
    ensures Consistent(scheduled + [t], Extend(o, Schedule(t, d)))
  {
    var last := Apply(o.state, Schedule(t, d));
    StartsAppend(o.obs, last.obs);
    OccupancyAppend(None, o.obs, last.obs);
    if !Idle(o.state) {
      assert Waiting(last.state) == Waiting(o.state) + [t];
      assert Running(last.state) == Running(o.state);
      assert o.obs + last.obs == o.obs;
    }
  }

  /** The log of a continuation that hands the slot from one task to the next. */
  lemma HandOverLog<T, D>(done: T, next: T)
    ensures Starts<T, D>([Finished(done), Started(next)]) == [next]
    ensures Occupancy<T, D>(Some(done), [Finished(done), Started(next)]) == Some(Some(next))
  {
    var fin: Obs<T, D>, st: Obs<T, D> := Finished(done), Started(next);
    LogOfTwo(fin, st);
    LogOfOne(fin);
    LogOfOne(st);
    assert [fin, st] == [fin] + [st];
    OccupancyAppend(Some(done), [fin], [st]);
    assert [fin][1..] == [] && [st][1..] == [];
  }

  /** The log of a continuation that frees the slot and fires the drain promise. */
  lemma DrainLog<T, D>(done: T, d: D)
    ensures Starts<T, D>([Finished(done), Fired(d)]) == []
    ensures Occupancy<T, D>(Some(done), [Finished(done), Fired(d)]) == Some(None)
  {
    var fin: Obs<T, D>, fired: Obs<T, D> := Finished(done), Fired(d);
    LogOfTwo(fin, fired);
    LogOfOne(fin);
    LogOfOne(fired);
    assert [fin, fired] == [fin] + [fired];
    OccupancyAppend(Some(done), [fin], [fired]);
    assert [fin][1..] == [] && [fired][1..] == [];
  }

  /**
   * The invariant carries over a step that adds `added` to the log, when the
   * step's own log starts the waiting tasks in order and moves the slot from
   * the old running task to the new one.
   */
  lemma KeepsConsistent<T, D>(scheduled: seq<T>, o: Step<T, D>, next: State<T, D>,
                              added: seq<Obs<T, D>>, joined: seq<T>)
    requires Consistent(scheduled, o) && Valid(next)
    requires Starts(added) + Waiting(next) == Waiting(o.state) + joined
    requires Occupancy(Running(o.state), added) == Some(Running(next))
    ensures Consistent(scheduled + joined, Step(next, o.obs + added))
  {
    OrderStep(o.obs, added, Waiting(o.state), Waiting(next), scheduled, joined);
    SlotStep(o.obs, added, Running(o.state), Running(next));
  }

  lemma OrderStep<T, D>(log: seq<Obs<T, D>>, added: seq<Obs<T, D>>, before: seq<T>, after: seq<T>,
                        scheduled: seq<T>, joined: seq<T>)
    requires Starts(log) + before == scheduled
    requires Starts(added) + after == before + joined
    ensures Starts(log + added) + after == scheduled + joined
  {
    OnlyStartsAppend(log, added);
    calc {
      Starts(log + added) + after;
      Starts(log) + (Starts(added) + after);
      (Starts(log) + before) + joined;
    }
  }

  lemma SlotStep<T, D>(log: seq<Obs<T, D>>, added: seq<Obs<T, D>>, before: Option<T>, after: Option<T>)
    requires Occupancy(None, log) == Some(before)
    requires Occupancy(before, added) == Some(after)
    ensures Occupancy(None, log + added) == Some(after)
  {
    OccupancyAppend(None, log, added);
  }

  /** The continuation moves the cursor to the next task. */
  lemma AdvanceKeepsConsistent<T, D>(scheduled: seq<T>, o: Step<T, D>)
    requires Consistent(scheduled, o) && !Idle(o.state)
    requires o.state.currentTask.value + 1 < |o.state.tasks|
    ensures Consistent(scheduled, Extend(o, CurrentTaskSettled))
  {
    var s := o.state;
    var c := s.currentTask.value;
    var done, next := s.tasks[c], s.tasks[c + 1];
    var added: seq<Obs<T, D>> := [Finished(done), Started(next)];
    var later := s.(currentTask := Some(c + 1));
    assert Extend(o, CurrentTaskSettled) == Step(later, o.obs + added);
    HandOverLog<T, D>(done, next);
    assert Waiting(s) == [next] + Waiting(later);
    KeepsConsistent(scheduled, o, later, added, []);
    assert scheduled + [] == scheduled;
  }

  /** The continuation passes the end: the scheduler drains. */
  lemma DrainKeepsConsistent<T, D>(scheduled: seq<T>, o: Step<T, D>)
    requires Consistent(scheduled, o) && !Idle(o.state)
    requires o.state.currentTask.value + 1 == |o.state.tasks|
    ensures Consistent(scheduled, Extend(o, CurrentTaskSettled))
  {
    var s := o.state;
    var c := s.currentTask.value;
    var done := s.tasks[c];
    var added: seq<Obs<T, D>> := [Finished(done), Fired(s.promise.value)];
    var drained: State<T, D> := State([], None, None, s.promise);
    assert Extend(o, CurrentTaskSettled) == Step(drained, o.obs + added);
    DrainLog<T, D>(done, s.promise.value);
    KeepsConsistent(scheduled, o, drained, added, []);
    assert scheduled + [] == scheduled;
  }

  /**
   * Along every possible run from the constructor: FIFO (tasks start in the
   * order they were scheduled, and the ones not started yet wait in that
   * order after them) and one at a time (the log keeps the one-slot
   * discipline, and the slot is held exactly by the task at the cursor).
   */
  lemma {:induction false} RunInvariant<T, D>(events: seq<Event<T, D>>)
    requires Execute(Initial(), events).Some?
    ensures var o := Execute(Initial(), events).value;
      && Starts(o.obs) + Waiting(o.state) == Scheduled(events)
      && Occupancy(None, o.obs) == Some(Running(o.state))
    decreases |events|
  {
    if events != [] {
      var init := events[..|events| - 1];
      var e := events[|events| - 1];
      RunInvariant(init);
      var prev := Execute(Initial(), init).value;
      assert Execute(Initial(), events).value == Extend(prev, e);
      assert Scheduled(events) == Scheduled(init) + ScheduledBy(e);
      match e {
        case Schedule(t, d) => ScheduleKeepsConsistent(Scheduled(init), prev, t, d);
        case CurrentTaskSettled =>
          if prev.state.currentTask.value + 1 < |prev.state.tasks| {
            AdvanceKeepsConsistent(Scheduled(init), prev);
          } else {
            DrainKeepsConsistent(Scheduled(init), prev);
          }
      }
    }
  }

  /** Running the events of a + b is running a, then b from where a stopped. */
  lemma {:induction false} ExecuteConcat<T, D>(s: State<T, D>, a: seq<Event<T, D>>, b: seq<Event<T, D>>,
                                              p: Step<T, D>, q: Step<T, D>)
    requires Valid(s) && Execute(s, a) == Some(p)
    requires Execute(p.state, b) == Some(q)
    ensures Execute(s, a + b) == Some(Step(q.state, p.obs + q.obs))
    decreases |b|
  {
    if b == [] {
      assert a + b == a;
      assert p.obs + [] == p.obs;
    } else {
      var binit := b[..|b| - 1];
      var e := b[|b| - 1];
      assert b == binit + [e];
      ExecuteLast(p.state, b);
      var q' := Execute(p.state, binit).value;
      ExecuteConcat(s, a, binit, p, q');
      ExecuteSnoc(s, a + binit, e);
      ExtendShift(p.obs, q', e);
      assert a + b == (a + binit) + [e];
    }
  }

  /** Extending a run whose log has a prefix keeps the prefix. */
  lemma ExtendShift<T, D>(prefix: seq<Obs<T, D>>, o: Step<T, D>, e: Event<T, D>)
    requires Valid(o.state) && Enabled(o.state, e)
    ensures Extend(Step(o.state, prefix + o.obs), e) == Step(Extend(o, e).state, prefix + Extend(o, e).obs)
  {
    var last := Apply(o.state, e);
    assert prefix + o.obs + last.obs == prefix + (o.obs + last.obs);
  }

  /** A nonempty run is the run of all events but the last, then the last one. */
  lemma ExecuteLast<T, D>(s: State<T, D>, events: seq<Event<T, D>>)
    requires Valid(s) && events != [] && Execute(s, events).Some?
    ensures var init := Execute(s, events[..|events| - 1]);
      && init.Some? && Enabled(init.value.state, events[|events| - 1])
      && Execute(s, events) == Some(Extend(init.value, events[|events| - 1]))
  {
  }

  // ------------------------------------------------------------ consequences

  /**
   * When the drain promise fires, every task scheduled so far has started
   * and finished, in scheduling order.
   */
  lemma DrainMeansAllFinished<T, D>(events: seq<Event<T, D>>, o: Step<T, D>, d: D)
    requires Execute(Initial(), events) == Some(o)
    requires o.obs != [] && o.obs[|o.obs| - 1] == Fired(d)
    ensures Starts(o.obs) == Scheduled(events) && Finishes(o.obs) == Scheduled(events)
  {
    RunInvariant(events);
    DrainedLog(o.obs, Running(o.state));
    assert Starts(o.obs) + [] == Starts(o.obs);
  }

  /** A log that keeps the one-slot discipline and ends in a drain: the slot is free, and every start finished. */
  lemma DrainedLog<T, D>(log: seq<Obs<T, D>>, slot: Option<T>)
    requires Occupancy(None, log) == Some(slot)
    requires log != [] && log[|log| - 1].Fired?
    ensures slot == None && Starts(log) == Finishes(log)
  {
    var init := log[..|log| - 1];
    assert log == init + [log[|log| - 1]];
    OccupancyAppend(None, init, [log[|log| - 1]]);
    OccupancyBalances(log, slot);
    assert Finishes(log) + [] == Finishes(log);
  }

  /** No drain promise fires anywhere in the log. */
  predicate NoDrain<T, D>(log: seq<Obs<T, D>>) {
    forall i :: 0 <= i < |log| ==> !log[i].Fired?
  }

  lemma NoDrainPrefix<T, D>(a: seq<Obs<T, D>>, b: seq<Obs<T, D>>)
    ensures NoDrain(a + b) ==> NoDrain(a)
  {
    forall i | 0 <= i < |a| ensures (a + b)[i] == a[i] {
    }
  }

  /**
   * While no drain fires, a busy scheduler stays busy and keeps its drain
   * promise: complete() keeps returning the same promise.
   */
  lemma {:induction false} PromiseStableUntilDrain<T, D>(s: State<T, D>, events: seq<Event<T, D>>)
    requires Valid(s) && !Idle(s) && Execute(s, events).Some?
    ensures var o := Execute(s, events).value;
      NoDrain(o.obs) ==> !Idle(o.state) && o.state.promise == s.promise
    decreases |events|
  {
    if events != [] {
      var init := events[..|events| - 1];
      var e := events[|events| - 1];
      PromiseStableUntilDrain(s, init);
      var prev := Execute(s, init).value;
      var last := Apply(prev.state, e);
      var o := Execute(s, events).value;
      assert o.obs == prev.obs + last.obs;
      NoDrainPrefix(prev.obs, last.obs);
      if NoDrain(prev.obs) && e.CurrentTaskSettled? {
        var c := prev.state.currentTask.value;
        if c + 1 == |prev.state.tasks| {
          assert o.obs[|prev.obs| + 1] == last.obs[1];
        }
      }
    }
  }

  /** The first drain a busy scheduler reaches fires the drain promise it held. */
  lemma {:induction false} FirstDrainFiresPromise<T, D>(s: State<T, D>, events: seq<Event<T, D>>)
    requires Valid(s) && !Idle(s) && Execute(s, events).Some?
    requires var log := Execute(s, events).value.obs;
      log != [] && log[|log| - 1].Fired? && NoDrain(log[..|log| - 1])
    ensures var log := Execute(s, events).value.obs; log[|log| - 1] == Fired(s.promise.value)
    decreases |events|
  {
    var init := events[..|events| - 1];
    var mid := Execute(s, init).value;
    var last := Apply(mid.state, events[|events| - 1]);
    var log := Execute(s, events).value.obs;
    assert log == mid.obs + last.obs;
    if last.obs == [] {
      assert log == mid.obs;
      FirstDrainFiresPromise(s, init);
    } else {
      assert log[..|log| - 1] == mid.obs + last.obs[..|last.obs| - 1];
      NoDrainPrefix(mid.obs, last.obs[..|last.obs| - 1]);
      PromiseStableUntilDrain(s, init);
      assert log[|log| - 1] == last.obs[|last.obs| - 1];
    }
  }

  lemma {:induction false} ScheduledConcat<T, D>(a: seq<Event<T, D>>, b: seq<Event<T, D>>)
    ensures Scheduled(a + b) == Scheduled(a) + Scheduled(b)
    decreases |b|
  {
    if b == [] {
      assert a + b == a;
    } else {
      var binit := b[..|b| - 1];
      assert (a + b)[..|a + b| - 1] == a + binit;
      assert (a + b)[|a + b| - 1] == b[|b| - 1];
      ScheduledConcat(a, binit);
    }
  }

  /**
   * complete() while busy returns the drain promise d (`p` is the run up to
   * the call). The first drain after that (`q` is the run from the call up to
   * it) fires d, and by then every task scheduled before the call has
   * started and finished, in scheduling order.
   */
  lemma CompleteWaitsForQueued<T, D>(before: seq<Event<T, D>>, after: seq<Event<T, D>>,
                                     p: Step<T, D>, q: Step<T, D>, d: D)
    requires Execute(Initial(), before) == Some(p) && p.state.promise == Some(d)
    requires Execute(p.state, after) == Some(q)
    requires q.obs != [] && q.obs[|q.obs| - 1].Fired? && NoDrain(q.obs[..|q.obs| - 1])
    ensures q.obs[|q.obs| - 1] == Fired(d)
    ensures Scheduled(before) <= Finishes(p.obs + q.obs)
  {
    InitialValid<T, D>();
    FirstDrainFiresPromise(p.state, after);
    ExecuteConcat(Initial(), before, after, p, q);
    var o := Step(q.state, p.obs + q.obs);
    assert o.obs[|o.obs| - 1] == q.obs[|q.obs| - 1];
    DrainMeansAllFinished(before + after, o, d);
    ScheduledConcat(before, after);
  }

  // ----------------------------------------------------------- the examples

  /**
   * The nested-scheduling example: A is scheduled, then B; while A runs it
   * schedules C. The tasks start and finish in the order A, B, C, and the
   * drain fires after C.
   */
  lemma NestedScheduleRunsLast<T, D>(a: T, b: T, c: T, d1: D, d2: D, d3: D)
    ensures Execute(Initial(), [Schedule(a, d1), Schedule(b, d2), Schedule(c, d3),
                                CurrentTaskSettled, CurrentTaskSettled, CurrentTaskSettled])
      == Some(Step(State([], None, None, Some(d1)),
                   [Started(a), Finished(a), Started(b), Finished(b), Started(c), Finished(c), Fired(d1)]))
  {
    var s0 := Initial<T, D>();
    var e1, e2, e3: Event<T, D> := Schedule(a, d1), Schedule(b, d2), Schedule(c, d3);
    var done: Event<T, D> := CurrentTaskSettled;
    var busy := State([a, b, c], Some(0), Some(d1), Some(d1));
    NestedSchedulesQueue(a, b, c, d1, d2, d3);
    ExecuteSnoc(s0, [e1, e2, e3], done);
    assert [e1, e2, e3] + [done] == [e1, e2, e3, done];
    var log4: seq<Obs<T, D>> := [Started(a), Finished(a), Started(b)];
    assert [Started(a)] + [Finished(a), Started(b)] == log4;
    assert Execute(s0, [e1, e2, e3, done]) == Some(Step(busy.(currentTask := Some(1)), log4));
    ExecuteSnoc(s0, [e1, e2, e3, done], done);
    assert [e1, e2, e3, done] + [done] == [e1, e2, e3, done, done];
    var log5 := log4 + [Finished(b), Started(c)];
    assert Execute(s0, [e1, e2, e3, done, done]) == Some(Step(busy.(currentTask := Some(2)), log5));
    ExecuteSnoc(s0, [e1, e2, e3, done, done], done);
    assert [e1, e2, e3, done, done] + [done] == [e1, e2, e3, done, done, done];
    assert log5 + [Finished(c), Fired(d1)]
      == [Started(a), Finished(a), Started(b), Finished(b), Started(c), Finished(c), Fired(d1)];
  }

  /** The first half of the example: A starts at once, B and C queue behind it. */
  lemma NestedSchedulesQueue<T, D>(a: T, b: T, c: T, d1: D, d2: D, d3: D)
    ensures Execute(Initial(), [Schedule(a, d1), Schedule(b, d2), Schedule(c, d3)])
      == Some(Step(State([a, b, c], Some(0), Some(d1), Some(d1)), [Started(a)]))
  {
    var s0 := Initial<T, D>();
    var e1, e2, e3: Event<T, D> := Schedule(a, d1), Schedule(b, d2), Schedule(c, d3);
    var o1 := Step(State([a], Some(0), Some(d1), Some(d1)), [Started(a)]);
    ExecuteSnoc(s0, [], e1);
    assert [] + [e1] == [e1];
    assert [] + o1.obs == o1.obs;
    assert [] + [a] == [a];
    assert Apply(s0, e1) == o1;
    assert Execute(s0, [e1]) == Some(o1);
    ExecuteSnoc(s0, [e1], e2);
    assert [e1] + [e2] == [e1, e2];
    assert [a] + [b] == [a, b];
    assert o1.obs + [] == o1.obs;
    assert Execute(s0, [e1, e2]) == Some(Step(State([a, b], Some(0), Some(d1), Some(d1)), o1.obs));
    ExecuteSnoc(s0, [e1, e2], e3);
    assert [e1, e2] + [e3] == [e1, e2, e3];
    assert [a, b] + [c] == [a, b, c];
  }

  /** Running one more event. */
  lemma ExecuteSnoc<T, D>(s: State<T, D>, events: seq<Event<T, D>>, e: Event<T, D>)
    requires Valid(s) && Execute(s, events).Some? && Enabled(Execute(s, events).value.state, e)
    ensures Execute(s, events + [e]) == Some(Extend(Execute(s, events).value, e))
  {
    assert (events + [e])[..|events|] == events;
  }
}
