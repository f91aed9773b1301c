/** The behaviours exercised by src/index.spec.js, as instances of the
    reference semantics. */
module DeferScenarios {
  import opened JsValues
  import opened Deferreds
  import opened ErrorSentinel
  import opened GolikeDefer

  /** The two deferreds the first four scenarios register: `i -= 2` first,
      then `i /= 2`. Neither makes a nested wrapped call. */
  const Undo: seq<Deferred> := [Deferred(1, Completes, None), Deferred(2, Completes, None)]

  /** The effect of those two deferreds on the shared counter `i`. */
  function CounterEffect(id: nat, i: int): int {
    if id == 1 then i - 2 else if id == 2 then i / 2 else i
  }

  /** The counter after running the deferreds `ran`, in order. */
  function Replay(ran: seq<nat>, i: int): int
    decreases |ran|
  {
    if ran == [] then i else Replay(ran[1..], CounterEffect(ran[0], i))
  }

  /** A pending outcome: an object with a callable `then`. */
  const Thenable: Value := Obj(1, map["then" := Fn(2, map[])])

  /** Normal termination: the work returns 4; both deferreds run, last
      first, and bring the counter from 4 back to 0. */
  lemma NormalTermination()
    ensures Semantics(true, true, Script(Undo, Normal(Num(4)), [], Fulfilled(Undefined)))
         == Observation(Returned(Num(4)), [2, 1])
    ensures Replay([2, 1], 4) == 0
  {
    DeferRunsAllInReverse(Script(Undo, Normal(Num(4)), [], Fulfilled(Undefined)));
  }

  /** Termination by an exception: the work throws 4, which is rethrown after
      both deferreds ran. */
  lemma ExceptionTermination()
    ensures Semantics(true, true, Script(Undo, Abrupt(Num(4)), [], Fulfilled(Undefined)))
         == Observation(Thrown(Num(4)), [2, 1])
    ensures Replay([2, 1], 4) == 0
  {
    DeferRunsAllInReverse(Script(Undo, Abrupt(Num(4)), [], Fulfilled(Undefined)));
  }

  /** Promise resolution: the work returns a thenable that fulfils with 4;
      the returned chain fulfils with 4 after both deferreds ran. */
  lemma PromiseResolution()
    ensures Semantics(true, true, Script(Undo, Normal(Thenable), [], Fulfilled(Num(4))))
         == Observation(Pending(Fulfilled(Num(4))), [2, 1])
    ensures Replay([2, 1], 4) == 0
  {
    DeferRunsAllInReverse(Script(Undo, Normal(Thenable), [], Fulfilled(Num(4))));
  }

  /** Promise rejection: both deferreds are registered after the work has
      returned its thenable, which rejects with 4; they still run, last
      first, and the returned chain rejects with 4. */
  lemma PromiseRejection()
    ensures Semantics(true, true, Script([], Normal(Thenable), Undo, Rejected(Num(4))))
         == Observation(Pending(Rejected(Num(4))), [2, 1])
    ensures Replay([2, 1], 4) == 0
  {
    DeferRunsAllInReverse(Script([], Normal(Thenable), Undo, Rejected(Num(4))));
  }

  /** Two deferreds that both throw, on the synchronous path: there is no
      error sink, so the top one's error escapes the wrapper and the first
      registered never runs. */
  lemma ThrowingDeferredsEscape(e1: Value, e2: Value)
    ensures Semantics(true, true, Script([Deferred(1, Throws(e1), None), Deferred(2, Throws(e2), None)], Normal(Undefined), [], Fulfilled(Undefined)))
         == Observation(Thrown(e2), [2])
  {
    EscapingDeferredReplacesOutcome(true, true,
      Script([Deferred(1, Throws(e1), None), Deferred(2, Throws(e2), None)], Normal(Undefined), [], Fulfilled(Undefined)), 1);
  }

  /** On the asynchronous path a deferred whose result rejects rejects the
      returned chain, and the deferred registered before it never runs. */
  lemma RejectingDeferredRejectsChain(e1: Value, e2: Value)
    ensures Semantics(true, true, Script([Deferred(1, Throws(e1), None), Deferred(2, Rejects(e2), None)], Normal(Thenable), [], Fulfilled(Undefined)))
         == Observation(Pending(Rejected(e2)), [2])
  {
    EscapingDeferredReplacesOutcome(true, true,
      Script([Deferred(1, Throws(e1), None), Deferred(2, Rejects(e2), None)], Normal(Thenable), [], Fulfilled(Undefined)), 1);
  }

  /** The first scenario run through the wrapper itself: `defer(fn)()`. */
  method CallNormalTermination() returns (obs: Observation)
    ensures obs == Observation(Returned(Num(4)), [2, 1])
  {
    var w := new ErrorWrapper();
    var script := Script(Undo, Normal(Num(4)), [], Fulfilled(Undefined));
    obs := Invoke(w, Wrapped(true, true, Fn(3, map[])), (thisArg, args) => script, Undefined, []);
    NormalTermination();
  }
}
