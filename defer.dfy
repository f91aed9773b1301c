/** `makeDefer(onSuccess, onFailure)`: the wrapper that runs a unit of work with
    a fresh stack of deferred actions, drains that stack last-to-first when the
    work's outcome is known, and forwards the outcome; and the three exported
    variants `defer`, `onFailure` and `onSuccess`. */
module GolikeDefer {
  import opened JsValues
  import opened Deferreds
  import opened ErrorSentinel
  import opened Decorators

  /** An argument as the work receives it: the registration callback, or one
      of the caller's own values. */
  datatype Arg = DeferCallback | Passed(value: Value)

  /** What the work does in one run: the deferreds it registers while it runs
      and how its call ends; and, should it return a pending outcome, the
      deferreds it registers before that outcome settles and how it settles. */
  datatype Script = Script(registers: seq<Deferred>, end: Completion, later: seq<Deferred>, settlesTo: Settlement)

  /** The work's behaviour, given the receiver and the arguments it is called with. */
  type Work = (Value, seq<Arg>) -> Script

  /** What a caller of a function sees: a returned value, a thrown error, or
      a returned pending outcome together with how it eventually settles. */
  datatype Outcome = Returned(value: Value) | Thrown(error: Value) | Pending(settlesTo: Settlement)

  /** The outcome of one call of a wrapped function, and the ids of the
      deferreds it ran, in order. */
  datatype Observation = Observation(outcome: Outcome, ran: seq<nat>)

  datatype Kind = Success | Failure

  /** The arguments the work is called with: the registration callback, then
      the caller's arguments in their original order. */
  function WithCallback(arguments: seq<Value>): (args: seq<Arg>)
    ensures |args| == |arguments| + 1 && args[0] == DeferCallback
    ensures forall k :: 1 <= k < |args| ==> args[k] == Passed(arguments[k - 1])
  {
    [DeferCallback] + seq(|arguments|, k requires 0 <= k < |arguments| => Passed(arguments[k]))
  }

  /** The work's own outcome, as a caller of the unwrapped work would see it. */
  function Original(sc: Script): Outcome {
    match sc.end
    case Abrupt(e) => Thrown(e)
    case Normal(v) => if IsPromise(v) then Pending(sc.settlesTo) else Returned(v)
  }

  /** An outcome counts as a success exactly when nothing was thrown or rejected. */
  function KindOf(o: Outcome): Kind {
    match o
    case Returned(_) => Success
    case Thrown(_) => Failure
    case Pending(Fulfilled(_)) => Success
    case Pending(Rejected(_)) => Failure
  }

  /** Whether a wrapper built with these flags drains on an outcome of this kind. */
  predicate Enabled(onSuccess: bool, onFailure: bool, k: Kind) {
    match k
    case Success => onSuccess
    case Failure => onFailure
  }

  /** The stack when it is drained: on the asynchronous path it also holds the
      deferreds registered before the pending outcome settled. */
  function Stack(sc: Script): seq<Deferred> {
    if Original(sc).Pending? then sc.registers + sc.later else sc.registers
  }

  /** The deferreds a call drains: its whole stack when the flag for the
      outcome's kind is set, none otherwise. */
  function Drained(onSuccess: bool, onFailure: bool, sc: Script): seq<Deferred> {
    if Enabled(onSuccess, onFailure, KindOf(Original(sc))) then Stack(sc) else []
  }

  /** Reference semantics of one call, as written: when the flag for the
      outcome's kind is set, the stack is drained (awaiting each deferred on
      the asynchronous path); an escaping deferred's error is thrown, or
      rejects the returned chain, in place of the outcome. Otherwise a
      returned value or a settlement is forwarded as it is, while a caught
      throw is rethrown from the shared sentinel, which wrapped calls nested
      in the deferreds may have overwritten in the meantime. */
  function Semantics(onSuccess: bool, onFailure: bool, sc: Script): (r: Observation)
    ensures !Enabled(onSuccess, onFailure, KindOf(Original(sc))) ==> r == Observation(Original(sc), [])
    ensures r.outcome.Pending? <==> Original(sc).Pending?
  {
    var original := Original(sc);
    if !Enabled(onSuccess, onFailure, KindOf(original)) then
      Observation(original, [])
    else
      var awaited := original.Pending?;
      var d := Drain(Stack(sc), awaited);
      match d.escaped
      case Some(e) => Observation(if awaited then Pending(Rejected(e)) else Thrown(e), d.ran)
      case None =>
        match sc.end
        case Abrupt(e) => Observation(Thrown(SlotAfterDrain(sc.registers, false, e)), d.ran)
        case Normal(_) => Observation(original, d.ran)
  }

  /** Reference semantics of one call with the sentinel made private to the
      call, as evidently intended: the same drain, and, unless a deferred
      escapes, the work's own outcome is forwarded, whatever the deferreds do. */
  function IntendedSemantics(onSuccess: bool, onFailure: bool, sc: Script): (r: Observation)
    ensures r.ran == Semantics(onSuccess, onFailure, sc).ran
    ensures sc.end.Normal? ==> r == Semantics(onSuccess, onFailure, sc)
    ensures r != Semantics(onSuccess, onFailure, sc) ==>
      && sc.end.Abrupt? && Enabled(onSuccess, onFailure, Failure)
      && Drain(sc.registers, false).escaped.None?
      && r.outcome == Thrown(sc.end.error)
      && Semantics(onSuccess, onFailure, sc).outcome.Thrown?
  {
    var original := Original(sc);
    if !Enabled(onSuccess, onFailure, KindOf(original)) then
      Observation(original, [])
    else
      var awaited := original.Pending?;
      var d := Drain(Stack(sc), awaited);
      match d.escaped
      case None => Observation(original, d.ran)
      case Some(e) => Observation(if awaited then Pending(Rejected(e)) else Thrown(e), d.ran)
  }

  /** The shared sentinel's error after a call, as written: on a return, what
      the drained deferreds' nested calls left in it; on a throw, `null` once
      the error has been forwarded, or, when a deferred escaped before
      `forwardResult` ran, the work's error as the drain left it. */
  function SentinelAfter(before: Value, onSuccess: bool, onFailure: bool, sc: Script): Value {
    var drained := Drained(onSuccess, onFailure, sc);
    match sc.end
    case Normal(_) => SlotAfterDrain(drained, Original(sc).Pending?, before)
    case Abrupt(e) => if Drain(drained, false).escaped.Some? then SlotAfterDrain(drained, false, e) else Null
  }

  /** A per-call sentinel's error after the call: untouched on a return,
      `null` once a throw has been forwarded, and still the work's error when
      a deferred escaped before forwarding. */
  function OwnSentinelAfter(before: Value, onSuccess: bool, onFailure: bool, sc: Script): Value {
    match sc.end
    case Normal(_) => before
    case Abrupt(e) => if Drain(Drained(onSuccess, onFailure, sc), false).escaped.Some? then e else Null
  }

  /** The closure `makeDefer(f.onSuccess, f.onFailure)(fn)` called once, where
      `work` is the behaviour of `fn`. `sentinel` is the object `tryCatch`
      parks the work's error in and `forwardResult` reads it back from;
      `nested` is the one that wrapped calls made inside the deferreds use.
      In `src/index.js` both are the module-level `errorWrapper`. */
  method Call(sentinel: ErrorWrapper, nested: ErrorWrapper, f: Value, work: Work, thisArg: Value, arguments: seq<Value>)
    returns (obs: Observation)
    requires f.Wrapped?
    modifies sentinel, nested
    ensures var sc := work(thisArg, WithCallback(arguments));
      sentinel == nested ==>
        && obs == Semantics(f.onSuccess, f.onFailure, sc)
        && sentinel.error == SentinelAfter(old(sentinel.error), f.onSuccess, f.onFailure, sc)
    ensures var sc := work(thisArg, WithCallback(arguments));
      sentinel != nested ==>
        && obs == IntendedSemantics(f.onSuccess, f.onFailure, sc)
        && sentinel.error == OwnSentinelAfter(old(sentinel.error), f.onSuccess, f.onFailure, sc)
        && nested.error == SlotAfterDrain(Drained(f.onSuccess, f.onFailure, sc), Original(sc).Pending?, old(nested.error))
  {
    var onSuccess, onFailure := f.onSuccess, f.onFailure;
    var deferreds := new Registrar();
    var args := WithCallback(arguments);
    var sc := work(thisArg, args);
    deferreds.RegisterEach(sc.registers);
    var result := TryCatch(sentinel, sc.end);
    var resultValue := if result.Result? then result.value else sentinel.AsValue();

    if IsPromise(resultValue) {
      // The pending outcome gets `executeAndForward` as its handler for each
      // enabled kind, and `false` (no handler) for the other.
      deferreds.RegisterEach(sc.later);
      assert deferreds.deferreds == Stack(sc);
      var handler := if sc.settlesTo.Fulfilled? then onSuccess else onFailure;
      if handler {
        var ran, settled := deferreds.ExecuteAndForward(nested, sc.settlesTo);
        return Observation(Pending(settled), ran);
      }
      // with no handler the settlement passes straight through
      return Observation(Pending(sc.settlesTo), []);
    }

    var ran := [];
    if if result.Sentinel? then onFailure else onSuccess {
      assert deferreds.deferreds == sc.registers;
      var d := deferreds.RunNow(nested);
      if d.escaped.Some? {
        return Observation(Thrown(d.escaped.value), d.ran);
      }
      ran := d.ran;
    }
    var c := ForwardResult(sentinel, result);
    obs := Observation(if c.Normal? then Returned(c.value) else Thrown(c.error), ran);
  }

  /** A call of the wrapped function as written: one sentinel `w` is shared
      by the call and by every wrapped call nested in its deferreds. */
  method Invoke(w: ErrorWrapper, f: Value, work: Work, thisArg: Value, arguments: seq<Value>)
    returns (obs: Observation)
    requires f.Wrapped?
    modifies w
    ensures obs == Semantics(f.onSuccess, f.onFailure, work(thisArg, WithCallback(arguments)))
    ensures w.error == SentinelAfter(old(w.error), f.onSuccess, f.onFailure, work(thisArg, WithCallback(arguments)))
  {
    obs := Call(w, w, f, work, thisArg, arguments);
  }

  /** A call of the wrapped function with the corrected wrapper, whose
      sentinel is created for the call, so that the wrapped calls nested in
      its deferreds park their errors elsewhere. */
  method InvokeIntended(f: Value, work: Work, thisArg: Value, arguments: seq<Value>)
    returns (obs: Observation)
    requires f.Wrapped?
    ensures obs == IntendedSemantics(f.onSuccess, f.onFailure, work(thisArg, WithCallback(arguments)))
  {
    var own := new ErrorWrapper();
    var others := new ErrorWrapper();
    obs := Call(own, others, f, work, thisArg, arguments);
  }

  /** When no deferred makes a nested wrapped call that touches the shared
      sentinel, the code as written behaves as intended. */
  lemma AsWrittenAgreesWhenQuiet(onSuccess: bool, onFailure: bool, sc: Script)
    requires Quiet(Stack(sc))
    ensures Semantics(onSuccess, onFailure, sc) == IntendedSemantics(onSuccess, onFailure, sc)
  {
    if sc.end.Abrupt? {
      QuietKeepsSlot(sc.registers, false, sc.end.error);
    }
  }

  /** As written, a wrapped call nested in a deferred overwrites the error
      the outer call forwards. With `defer`, the work throws `'outer'` and
      its one deferred calls a wrapped function and catches what it throws.
      When that nested work threw `'inner'` and the nested call forwarded it,
      the slot is `null` again and the outer call throws `null`; when the
      nested call's own deferred escaped before forwarding, the slot still
      holds `'inner'` and the outer call throws `'inner'`. The corrected
      wrapper throws `'outer'` both times. */
  lemma NestedCallOverwritesError()
    ensures var sc := Script([Deferred(1, Completes, Some(Null))], Abrupt(Str("outer")), [], Fulfilled(Undefined));
      && Semantics(true, true, sc) == Observation(Thrown(Null), [1])
      && IntendedSemantics(true, true, sc) == Observation(Thrown(Str("outer")), [1])
    ensures var sc := Script([Deferred(1, Completes, Some(Str("inner")))], Abrupt(Str("outer")), [], Fulfilled(Undefined));
      && Semantics(true, true, sc) == Observation(Thrown(Str("inner")), [1])
      && IntendedSemantics(true, true, sc) == Observation(Thrown(Str("outer")), [1])
  {
    var sc1 := Script([Deferred(1, Completes, Some(Null))], Abrupt(Str("outer")), [], Fulfilled(Undefined));
    var sc2 := Script([Deferred(1, Completes, Some(Str("inner")))], Abrupt(Str("outer")), [], Fulfilled(Undefined));
    assert sc1.registers[..0] == [] && sc2.registers[..0] == [];
  }

  /** With no deferred escaping, `defer` (both flags set) runs every deferred
      exactly once, last-registered first, whether the work returns, throws,
      or returns a pending outcome that fulfils or rejects; the corrected
      wrapper then forwards the work's own outcome, and so does the code as
      written when no deferred touches the shared sentinel. */
  lemma DeferRunsAllInReverse(sc: Script)
    requires Clean(Stack(sc), Original(sc).Pending?)
    ensures Semantics(true, true, sc).ran == Reversed(Ids(Stack(sc)))
    ensures IntendedSemantics(true, true, sc) == Observation(Original(sc), Reversed(Ids(Stack(sc))))
    ensures Quiet(Stack(sc)) ==> Semantics(true, true, sc) == Observation(Original(sc), Reversed(Ids(Stack(sc))))
  {
    DrainClean(Stack(sc), Original(sc).Pending?);
    if Quiet(Stack(sc)) {
      AsWrittenAgreesWhenQuiet(true, true, sc);
    }
  }

  /** The `onSuccess` variant runs nothing and passes the outcome through
      when the work fails, and behaves like `defer` when it succeeds. */
  lemma OnSuccessOnlyOnSuccess(sc: Script)
    ensures KindOf(Original(sc)) == Failure ==> Semantics(true, false, sc) == Observation(Original(sc), [])
    ensures KindOf(Original(sc)) == Success ==> Semantics(true, false, sc) == Semantics(true, true, sc)
  {
  }

  /** The `onFailure` variant runs nothing and passes the outcome through
      when the work succeeds, and behaves like `defer` when it fails. */
  lemma OnFailureOnlyOnFailure(sc: Script)
    ensures KindOf(Original(sc)) == Success ==> Semantics(false, true, sc) == Observation(Original(sc), [])
    ensures KindOf(Original(sc)) == Failure ==> Semantics(false, true, sc) == Semantics(true, true, sc)
  {
  }

  /** Deferreds run only for an outcome of the enabled kind: if anything ran,
      the flag for the outcome's kind was set. */
  lemma RunsOnlyWhenEnabled(onSuccess: bool, onFailure: bool, sc: Script)
    requires Semantics(onSuccess, onFailure, sc).ran != []
    ensures Enabled(onSuccess, onFailure, KindOf(Original(sc)))
    ensures |Stack(sc)| > 0
  {
    DrainPositions(Stack(sc), Original(sc).Pending?);
  }

  /** Unless a deferred escapes, every variant of the corrected wrapper
      forwards the work's own outcome, which is also what any variant
      forwards when nothing was registered; the code as written does the same
      when no deferred touches the shared sentinel. */
  lemma ForwardsOriginalOutcome(onSuccess: bool, onFailure: bool, sc: Script)
    requires Clean(Stack(sc), Original(sc).Pending?)
    ensures IntendedSemantics(onSuccess, onFailure, sc).outcome == Original(sc)
    ensures Semantics(onSuccess, onFailure, sc.(registers := [], later := [])) == Observation(Original(sc), [])
    ensures Quiet(Stack(sc)) ==> Semantics(onSuccess, onFailure, sc).outcome == Original(sc)
  {
    DrainClean(Stack(sc), Original(sc).Pending?);
    if Quiet(Stack(sc)) {
      AsWrittenAgreesWhenQuiet(onSuccess, onFailure, sc);
    }
  }

  /** As written, a deferred that escapes replaces the outcome: when `j` is
      the most recently registered deferred that escapes, the deferreds from
      the top down to `j` run, the ones registered before `j` are skipped,
      and its error is thrown (synchronous path) or rejects the returned
      chain (asynchronous path). */
  lemma EscapingDeferredReplacesOutcome(onSuccess: bool, onFailure: bool, sc: Script, j: nat)
    requires Enabled(onSuccess, onFailure, KindOf(Original(sc)))
    requires j < |Stack(sc)| && Escape(Stack(sc)[j].behaviour, Original(sc).Pending?).Some?
    requires forall m :: j < m < |Stack(sc)| ==> Escape(Stack(sc)[m].behaviour, Original(sc).Pending?).None?
    ensures var e := Escape(Stack(sc)[j].behaviour, Original(sc).Pending?).value;
      Semantics(onSuccess, onFailure, sc) ==
        Observation(if Original(sc).Pending? then Pending(Rejected(e)) else Thrown(e), Reversed(Ids(Stack(sc)[j..])))
  {
    DrainStopsAt(Stack(sc), Original(sc).Pending?, j);
  }

  /** A throw is always settled on the synchronous path: the sentinel is not
      a thenable, so nothing is awaited and the error is not turned into a
      rejected chain. */
  lemma ThrowIsSettledSynchronously(onSuccess: bool, onFailure: bool, sc: Script)
    requires sc.end.Abrupt?
    ensures !Semantics(onSuccess, onFailure, sc).outcome.Pending?
    ensures Semantics(onSuccess, onFailure, sc).ran == if onFailure then Drain(sc.registers, false).ran else []
  {
  }

  /** The sentinel is clean after forwarding: after a throw it holds an
      error only when a deferred escaped before forwarding, whatever it held
      before the call, both as written and with a per-call sentinel. */
  lemma SentinelCleanAfterForwarding(before: Value, onSuccess: bool, onFailure: bool, sc: Script)
    requires sc.end.Abrupt?
    requires !onFailure || Clean(sc.registers, false)
    ensures SentinelAfter(before, onSuccess, onFailure, sc) == Null
    ensures OwnSentinelAfter(before, onSuccess, onFailure, sc) == Null
  {
    DrainClean(sc.registers, false);
  }

  /** `makeDefer(onSuccess, onFailure)`: turns a function into its wrapped
      form, itself a function and never a thenable, which remembers the
      function and both flags (what calling it does is `Invoke`). */
  function MakeDefer(onSuccess: bool, onFailure: bool): (wrap: Value -> Value)
    ensures forall fn :: IsCallable(wrap(fn)) && !IsPromise(wrap(fn))
    ensures forall fn :: wrap(fn).Wrapped? && wrap(fn).work == fn
    ensures forall fn :: wrap(fn).onSuccess == onSuccess && wrap(fn).onFailure == onFailure
  {
    fn => Wrapped(onSuccess, onFailure, fn)
  }

  /** The default export `defer = toDecorator(makeDefer(true, true))`. */
  function Defer(target: Value, key: Value, descriptor: Value): (r: Decorated)
    ensures key.Undefined? ==> r == Function(Wrapped(true, true, target))
    ensures !key.Undefined? && !IsNullish(descriptor) ==>
      r.Descriptor? && "value" in r.props && r.props["value"] == Wrapped(true, true, Get(descriptor, "value"))
  {
    Decorate(MakeDefer(true, true), target, key, descriptor)
  }

  /** `onFailure = toDecorator(makeDefer(false, true))`. */
  function OnFailure(target: Value, key: Value, descriptor: Value): (r: Decorated)
    ensures key.Undefined? ==> r == Function(Wrapped(false, true, target))
    ensures !key.Undefined? && !IsNullish(descriptor) ==>
      r.Descriptor? && "value" in r.props && r.props["value"] == Wrapped(false, true, Get(descriptor, "value"))
  {
    Decorate(MakeDefer(false, true), target, key, descriptor)
  }

  /** `onSuccess = toDecorator(makeDefer(true, false))`. */
  function OnSuccess(target: Value, key: Value, descriptor: Value): (r: Decorated)
    ensures key.Undefined? ==> r == Function(Wrapped(true, false, target))
    ensures !key.Undefined? && !IsNullish(descriptor) ==>
      r.Descriptor? && "value" in r.props && r.props["value"] == Wrapped(true, false, Get(descriptor, "value"))
  {
    Decorate(MakeDefer(true, false), target, key, descriptor)
  }
}
