/**
 * A scheduled function together with its completion convention and its
 * settle-once result (lib/task.ts; lib/index.ts:1-45 is a copy that defers
 * with process.nextTick where lib/task.ts uses setImmediate).
 *
 * The user function is described by what it does when it is called: the
 * calls it makes, in order, to the callables it was handed, and how the call
 * ends (a normal return or a throw). Calls it makes later, from timers or
 * other promises, are separate events (Task.Deliver).
 */
module Tasks {
  import opened Options
  import opened AsyncStyles

  // ------------------------------------------------------------------ values

  /** The JavaScript values a function can pass to a callback, return or throw. */
  datatype Value =
    | Undefined
    | Null
    | Bool(b: bool)
    | Number(n: int)
    | Str(s: string)
    | Object(id: nat)     // an object without a callable `then`
    | Thenable(id: nat)   // an object with a callable `then`
    | TypeError           // what the engine throws when a non-function is called

  /** `v == null` in JavaScript: loose equality holds for null and undefined only. */
  predicate LooselyNull(v: Value) {
    v == Null || v == Undefined
  }

  // ------------------------------------------------- the settle-once result

  /** The state of a promise: the result cell of a task. */
  datatype Settlement = Pending | Resolved(value: Value) | Rejected(reason: Value)

  /** Calling a promise's resolve or reject: only the first settlement counts. */
  function Settle(cell: Settlement, outcome: Settlement): Settlement {
    if cell.Pending? then outcome else cell
  }

  /** Settling attempts applied to the cell one after the other. */
  function SettleAll(cell: Settlement, outcomes: seq<Settlement>): Settlement
    decreases |outcomes|
  {
    if outcomes == [] then cell else SettleAll(Settle(cell, outcomes[0]), outcomes[1..])
  }

  /** The first attempt that settles anything; Pending when there is none. */
  function FirstSettled(outcomes: seq<Settlement>): Settlement
    decreases |outcomes|
  {
    if outcomes == [] then Pending
    else if outcomes[0] != Pending then outcomes[0]
    else FirstSettled(outcomes[1..])
  }

  /** Settle-once: a settled cell never changes, and a pending one takes the first attempt. */
  lemma {:induction false} SettleAllFirstWins(cell: Settlement, outcomes: seq<Settlement>)
    ensures SettleAll(cell, outcomes) == if cell != Pending then cell else FirstSettled(outcomes)
    decreases |outcomes|
  {
    if outcomes != [] {
      SettleAllFirstWins(Settle(cell, outcomes[0]), outcomes[1..]);
    }
  }

  lemma {:induction false} SettleAllAppend(cell: Settlement, outcomes: seq<Settlement>, last: Settlement)
    ensures SettleAll(cell, outcomes + [last]) == Settle(SettleAll(cell, outcomes), last)
    decreases |outcomes|
  {
    if outcomes != [] {
      assert (outcomes + [last])[1..] == outcomes[1..] + [last];
      SettleAllAppend(Settle(cell, outcomes[0]), outcomes[1..], last);
    }
  }

  /**
   * The promise run() returns, `promise.then(() => {}, () => {})`: it settles
   * when the result does, and always successfully.
   */
  function SlotSignal(result: Settlement): (r: Settlement)
    ensures !r.Rejected?
    ensures r.Pending? <==> result.Pending?
  {
    if result.Pending? then Pending else Resolved(Undefined)
  }

  // ------------------------------------------------------------------ style

  /**
   * The style a task runs with (lib/task.ts:12-14): an explicit style is kept;
   * INFER becomes PROMISE for a function declaring no parameter, TWO_CBS
   * otherwise.
   */
  function ResolveStyle(asyncStyle: AsyncStyle, arity: nat): (r: AsyncStyle)
    ensures r != Infer
    ensures asyncStyle != Infer ==> r == asyncStyle
    ensures asyncStyle == Infer ==> (r == Promise <==> arity == 0) && (r == TwoCbs <==> arity > 0)
  {
    if asyncStyle != Infer then asyncStyle
    else if arity == 0 then Promise
    else TwoCbs
  }

  // -------------------------------------------------------------- callbacks

  /** The callables a function can reach: its first parameter, its second, and the first one's `fail`. */
  datatype Callee = First | Second | FirstFail

  /** One call of a callable, with its arguments. */
  datatype Call = Call(callee: Callee, args: seq<Value>)

  /** A missing argument reads as undefined. */
  function Arg(args: seq<Value>, i: nat): Value {
    if i < |args| then args[i] else Undefined
  }

  /** What the callables handed out are. */
  datatype Handlers =
    | NoHandlers        // nothing: a PROMISE-style function is called without arguments
    | ResolveReject     // (resolve, reject): TWO_CBS, and `then` of a thenable a PROMISE function returned
    | ResolveWithFail   // resolve, with `resolve.fail = reject`: DOT_FAIL
    | ErrorFirst        // (error, value) => error == null ? resolve(value) : reject(error): NODE

  /** The callables that exist under each wiring. */
  function Offered(h: Handlers): set<Callee> {
    match h
    case NoHandlers => {}
    case ResolveReject => {First, Second}
    case ResolveWithFail => {First, FirstFail}
    case ErrorFirst => {First}
  }

  /** What a call does: it either tries to settle the result or throws. */
  datatype Effect = Settles(outcome: Settlement) | Throws(error: Value)

  /** The effect of calling a callable (lib/task.ts:24-40). */
  function Dispatch(h: Handlers, c: Call): (r: Effect)
    ensures r.Throws? <==> c.callee !in Offered(h)
    ensures r.Throws? ==> r.error == TypeError
    ensures r.Settles? ==> r.outcome != Pending
    ensures r.Settles? && h != ErrorFirst ==>
      r.outcome == if c.callee == First then Resolved(Arg(c.args, 0)) else Rejected(Arg(c.args, 0))
    ensures r.Settles? && h == ErrorFirst ==>
      (r.outcome.Resolved? <==> LooselyNull(Arg(c.args, 0)))
      && (r.outcome.Resolved? ==> r.outcome.value == Arg(c.args, 1))
      && (r.outcome.Rejected? ==> r.outcome.reason == Arg(c.args, 0))
  {
    match (h, c.callee)
    case (ResolveReject, First) => Settles(Resolved(Arg(c.args, 0)))
    case (ResolveReject, Second) => Settles(Rejected(Arg(c.args, 0)))
    case (ResolveWithFail, First) => Settles(Resolved(Arg(c.args, 0)))
    case (ResolveWithFail, FirstFail) => Settles(Rejected(Arg(c.args, 0)))
    case (ErrorFirst, First) =>
      var error := Arg(c.args, 0);
      Settles(if LooselyNull(error) then Resolved(Arg(c.args, 1)) else Rejected(error))
    case _ => Throws(TypeError)
  }

  /** The callables handed to the function when it is called, per style (the switch at lib/task.ts:24). */
  function CallHandlers(style: AsyncStyle): Handlers {
    match style
    case Promise => NoHandlers
    case TwoCbs => ResolveReject
    case DotFail => ResolveWithFail
    case Node => ErrorFirst
    case Infer => NoHandlers
  }

  /** The callables reachable once the call returned: a thenable's `then` holds (resolve, reject). */
  function LiveHandlers(style: AsyncStyle, thenAttached: bool): Handlers {
    if style == Promise && thenAttached then ResolveReject else CallHandlers(style)
  }

  // --------------------------------------------------------- user functions

  /** How the synchronous call of the function ends. */
  datatype Completion = Return(value: Value) | Throw(error: Value)

  /** What the function does when it is called: its calls, in order, then its completion. */
  datatype Body = Body(calls: seq<Call>, completion: Completion)

  /** A user function: its declared parameter count (`fun.length`) and its behaviour. */
  datatype UserFunction = UserFunction(arity: nat, body: Body)

  /** Whether one of the calls throws (a callable that is not there). */
  predicate AnyThrows(h: Handlers, calls: seq<Call>) {
    exists i :: 0 <= i < |calls| && Dispatch(h, calls[i]).Throws?
  }

  /**
   * The settlement attempts the calls make inside the try block: a throwing
   * call ends the function, and the catch rejects with what it threw.
   */
  function CallAttempts(h: Handlers, calls: seq<Call>): (r: seq<Settlement>)
    ensures |r| <= |calls| && (calls != [] ==> r != [])
    ensures !AnyThrows(h, calls) ==> |r| == |calls|
    ensures forall i :: 0 <= i < |r| ==> r[i] != Pending
    decreases |calls|
  {
    if calls == [] then []
    else
      match Dispatch(h, calls[0])
      case Settles(o) =>
        assert !AnyThrows(h, calls) ==> !AnyThrows(h, calls[1..]) by {
          forall j | 0 <= j < |calls[1..]| ensures calls[1..][j] == calls[j + 1] { }
        }
        [o] + CallAttempts(h, calls[1..])
      case Throws(e) => [Rejected(e)]
  }

  /** The attempt made by how the call ends (lib/task.ts:26 and 41-43). */
  function CompletionAttempts(style: AsyncStyle, completion: Completion): seq<Settlement> {
    match completion
    case Throw(e) => [Rejected(e)]
    case Return(v) =>
      // `fun().then(...)` on a value without a callable `then` throws a TypeError
      if style == Promise && !v.Thenable? then [Rejected(TypeError)] else []
  }

  /** Every settlement attempt the invocation makes, in order (the body of the deferred callback). */
  function Attempts(style: AsyncStyle, body: Body): (r: seq<Settlement>)
    ensures forall i :: 0 <= i < |r| ==> r[i] != Pending
  {
    if style == Infer then []
    else
      var h := CallHandlers(style);
      CallAttempts(h, body.calls)
        + (if AnyThrows(h, body.calls) then [] else CompletionAttempts(style, body.completion))
  }

  /** Whether the invocation hands (resolve, reject) to a thenable's `then`. */
  predicate WiresThen(style: AsyncStyle, body: Body) {
    && style == Promise
    && !AnyThrows(CallHandlers(style), body.calls)
    && body.completion.Return?
    && body.completion.value.Thenable?
  }

  /** The result after the invocation. */
  function InvokeResult(style: AsyncStyle, body: Body, cell: Settlement): Settlement {
    SettleAll(cell, Attempts(style, body))
  }

  /** The result after a later call of a callable. */
  function DeliverResult(h: Handlers, cell: Settlement, c: Call): Settlement {
    match Dispatch(h, c)
    case Settles(o) => Settle(cell, o)
    case Throws(_) => cell
  }

  /** The outcome a call stands for inside the try block: a throw becomes a rejection. */
  function CaughtOutcome(e: Effect): Settlement {
    match e
    case Settles(o) => o
    case Throws(x) => Rejected(x)
  }

  /**
   * What one invocation does to a pending result: the first call the function
   * makes decides it (a throwing call rejects with the TypeError); with no
   * call, a throw rejects with the thrown value, and a PROMISE function that
   * returns no thenable rejects with a TypeError.
   */
  lemma InvocationOutcome(style: AsyncStyle, body: Body)
    requires style != Infer
    ensures InvokeResult(style, body, Pending) ==
      if body.calls != [] then CaughtOutcome(Dispatch(CallHandlers(style), body.calls[0]))
      else match body.completion
        case Throw(e) => Rejected(e)
        case Return(v) => if style == Promise && !v.Thenable? then Rejected(TypeError) else Pending
  {
    var a := Attempts(style, body);
    SettleAllFirstWins(Pending, a);
    if body.calls == [] {
      assert !AnyThrows(CallHandlers(style), body.calls);
      assert a == CompletionAttempts(style, body.completion);
    } else {
      assert a[0] == CallAttempts(CallHandlers(style), body.calls)[0];
    }
  }

  /**
   * The result is still pending after the invocation exactly when the
   * function made no call and returned normally, and a PROMISE function
   * returned a thenable; otherwise the slot frees by itself.
   */
  lemma PendingAfterInvocation(style: AsyncStyle, body: Body)
    requires style != Infer
    ensures InvokeResult(style, body, Pending).Pending? <==>
      body.calls == [] && body.completion.Return? && (style == Promise ==> body.completion.value.Thenable?)
  {
    InvocationOutcome(style, body);
  }

  /** Once settled, a result is final: neither an invocation nor a later call changes it. */
  lemma SettledIsFinal(style: AsyncStyle, body: Body, h: Handlers, c: Call, cell: Settlement)
    requires cell != Pending
    ensures InvokeResult(style, body, cell) == cell
    ensures DeliverResult(h, cell, c) == cell
  {
    SettleAllFirstWins(cell, Attempts(style, body));
  }

  /** Calls that do not throw made before `b` just prepend their attempts. */
  lemma {:induction false} CallAttemptsAppend(h: Handlers, a: seq<Call>, b: seq<Call>)
    requires !AnyThrows(h, a)
    ensures CallAttempts(h, a + b) == CallAttempts(h, a) + CallAttempts(h, b)
    decreases |a|
  {
    if a == [] {
      assert a + b == b;
    } else {
      assert !Dispatch(h, a[0]).Throws?;
      assert (a + b)[0] == a[0];
      assert (a + b)[1..] == a[1..] + b;
      forall j | 0 <= j < |a[1..]| ensures !Dispatch(h, a[1..][j]).Throws? {
        assert a[1..][j] == a[j + 1];
      }
      CallAttemptsAppend(h, a[1..], b);
    }
  }

  /** One more call of the loop in Task.Invoke, for the case it settles and the case it throws. */
  lemma CallAttemptsStep(h: Handlers, calls: seq<Call>, i: nat)
    requires i < |calls| && !AnyThrows(h, calls[..i])
    ensures Dispatch(h, calls[i]).Settles? ==>
      !AnyThrows(h, calls[..i + 1])
      && CallAttempts(h, calls[..i + 1]) == CallAttempts(h, calls[..i]) + [Dispatch(h, calls[i]).outcome]
    ensures Dispatch(h, calls[i]).Throws? ==>
      AnyThrows(h, calls)
      && CallAttempts(h, calls) == CallAttempts(h, calls[..i]) + [Rejected(Dispatch(h, calls[i]).error)]
  {
    var prefix := calls[..i];
    if Dispatch(h, calls[i]).Settles? {
      assert calls[..i + 1] == prefix + [calls[i]];
      CallAttemptsAppend(h, prefix, [calls[i]]);
      var upto := calls[..i + 1];
      forall j | 0 <= j < |upto| ensures !Dispatch(h, upto[j]).Throws? {
        if j < i {
          assert upto[j] == prefix[j];
        }
      }
    } else {
      var rest := calls[i..];
      assert calls == prefix + rest;
      assert rest[0] == calls[i];
      CallAttemptsAppend(h, prefix, rest);
    }
  }

  // ------------------------------------------------------------------- Task

  /** A scheduled function, its resolved style and its result promise. */
  class Task {
    const fun: UserFunction
    const style: AsyncStyle
    /** The task's promise, settled through the stored resolve and reject. */
    var result: Settlement
    /** Invocations run() has deferred to a later turn and that have not happened yet. */
    var pendingRuns: nat
    /** Whether the function has been called. */
    var invoked: bool
    /** Whether `resolve.fail = reject` has been written (DOT_FAIL). */
    var failAttached: bool
    /** Whether a returned thenable's `then` received (resolve, reject) (PROMISE). */
    var thenAttached: bool

    ghost predicate Valid()
      reads this
    {
      && style != Infer
      && (failAttached <==> invoked && style == DotFail)
      && (thenAttached ==> invoked && style == Promise)
    }

    /** lib/task.ts:10-19: resolve the style and create the pending promise. */
    constructor (fun: UserFunction, asyncStyle: AsyncStyle)
      ensures Valid()
      ensures this.fun == fun && style == ResolveStyle(asyncStyle, fun.arity)
      ensures result == Pending && pendingRuns == 0
      ensures !invoked && !failAttached && !thenAttached
    {
      this.fun := fun;
      style := ResolveStyle(asyncStyle, fun.arity);
      result := Pending;
      pendingRuns := 0;
      invoked := false;
      failAttached := false;
      thenAttached := false;
    }

    /** The stored resolve function. */
    method Resolve(value: Value)
      requires invoked
      modifies this`result
      ensures result == Settle(old(result), Resolved(value))
    {
      if result.Pending? {
        result := Resolved(value);
      }
    }

    /** The stored reject function; in DOT_FAIL style it is also `resolve.fail`. */
    method Reject(reason: Value)
      requires invoked
      modifies this`result
      ensures result == Settle(old(result), Rejected(reason))
    {
      if result.Pending? {
        result := Rejected(reason);
      }
    }

    /** The error-first callback NODE style hands out (lib/task.ts:33-39). */
    method NodeCallback(error: Value, value: Value)
      requires invoked
      modifies this`result
      ensures result == Settle(old(result), if LooselyNull(error) then Resolved(value) else Rejected(error))
    {
      if LooselyNull(error) {
        Resolve(value);
      } else {
        Reject(error);
      }
    }

    /** A call of one of the callables under wiring `h`; calling one that is not there throws a TypeError. */
    method Handle(h: Handlers, c: Call) returns (thrown: Option<Value>)
      requires invoked && (h == ResolveWithFail ==> failAttached)
      modifies this`result
      ensures thrown == if Dispatch(h, c).Throws? then Some(TypeError) else None
      ensures result == DeliverResult(h, old(result), c)
    {
      thrown := None;
      match (h, c.callee) {
        case (ResolveReject, First) => Resolve(Arg(c.args, 0));
        case (ResolveReject, Second) => Reject(Arg(c.args, 0));
        case (ResolveWithFail, First) => Resolve(Arg(c.args, 0));
        case (ResolveWithFail, FirstFail) => Reject(Arg(c.args, 0));
        case (ErrorFirst, First) => NodeCallback(Arg(c.args, 0), Arg(c.args, 1));
        case _ => thrown := Some(TypeError);
      }
    }

    /**
     * run() (lib/task.ts:21-46) defers the invocation to a later turn
     * (Invoke) and returns the promise SlotSignal(result).
     */
    method Run()
      modifies this`pendingRuns
      ensures pendingRuns == old(pendingRuns) + 1
    {
      pendingRuns := pendingRuns + 1;
    }

    /** The deferred callback of run(): call the function in its style and catch what it throws. */
    method Invoke()
      requires Valid() && pendingRuns > 0
      modifies this
      ensures Valid() && invoked
      ensures pendingRuns == old(pendingRuns) - 1
      ensures result == InvokeResult(style, fun.body, old(result))
      ensures thenAttached == (old(thenAttached) || WiresThen(style, fun.body))
    {
      pendingRuns := pendingRuns - 1;
      invoked := true;
      if style == DotFail {
        failAttached := true;
      }
      var h := CallHandlers(style);
      var calls := fun.body.calls;
      ghost var start := result;
      var caught := MakeCalls(h, calls);
      if !caught {
        assert Attempts(style, fun.body) == CallAttempts(h, calls) + CompletionAttempts(style, fun.body.completion);
        match fun.body.completion {
          case Throw(e) =>
            SettleAllAppend(start, CallAttempts(h, calls), Rejected(e));
            Reject(e);
          case Return(v) =>
            assert style != Promise || v.Thenable? ==>
              Attempts(style, fun.body) == CallAttempts(h, calls) + [] == CallAttempts(h, calls);
            if style == Promise {
              if v.Thenable? {
                thenAttached := true;
              } else {
                SettleAllAppend(start, CallAttempts(h, calls), Rejected(TypeError));
                Reject(TypeError);
              }
            }
        }
      } else {
        assert Attempts(style, fun.body) == CallAttempts(h, calls) + [] == CallAttempts(h, calls);
      }
    }

    /**
     * The calls the function makes inside the try block, in order, until one
     * throws; the catch rejects with what it threw. Reports whether one threw.
     */
    method MakeCalls(h: Handlers, calls: seq<Call>) returns (caught: bool)
      requires invoked && (h == ResolveWithFail ==> failAttached)
      modifies this`result
      ensures caught == AnyThrows(h, calls)
      ensures result == SettleAll(old(result), CallAttempts(h, calls))
    {
      ghost var start := result;
      var i := 0;
      caught := false;
      while i < |calls| && !caught
        invariant 0 <= i <= |calls|
        invariant !caught ==> !AnyThrows(h, calls[..i]) && result == SettleAll(start, CallAttempts(h, calls[..i]))
        invariant caught ==> AnyThrows(h, calls) && result == SettleAll(start, CallAttempts(h, calls))
      {
        CallAttemptsStep(h, calls, i);
        SettleAllAppend(start, CallAttempts(h, calls[..i]), CaughtOutcome(Dispatch(h, calls[i])));
        var thrown := Handle(h, calls[i]);
        if thrown.Some? {
          Reject(thrown.value);
          caught := true;
        }
        i := i + 1;
      }
      if !caught {
        assert calls[..i] == calls;
      }
    }

    /** A later call of a callable the function holds (a timer, a thenable settling). */
    method Deliver(c: Call) returns (thrown: Option<Value>)
      requires Valid() && invoked
      modifies this`result
      ensures thrown.Some? <==> Dispatch(LiveHandlers(style, thenAttached), c).Throws?
      ensures result == DeliverResult(LiveHandlers(style, thenAttached), old(result), c)
    {
      thrown := Handle(LiveHandlers(style, thenAttached), c);
    }
  }
}
