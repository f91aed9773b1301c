/** The shared `errorWrapper` sentinel, `tryCatch` and `forwardResult`: a throw
    is turned into a returned sentinel and turned back into a throw later. */
module ErrorSentinel {
  import opened JsValues

  /** The module-level object `{ error: null }`. Its only property is
      `error`, so it has no `then` and is never taken for a pending outcome. */
  class ErrorWrapper {
    var error: Value

    constructor ()
      ensures error == Null
    {
      error := Null;
    }

    /** The sentinel seen as a JavaScript object. */
    function AsValue(): (v: Value)
      reads this
      ensures !IsPromise(v)
    {
      Obj(0, map["error" := error])
    }
  }

  /** What `tryCatch` returns: the work's own result, or the sentinel. The
      sentinel is private to the module, so the work can never return it. */
  datatype Attempt = Result(value: Value) | Sentinel

  /** `tryCatch(fn, thisArg, args)`, given how `fn.apply(thisArg, args)`
      ends. It never throws: a thrown error is parked in the sentinel. */
  method TryCatch(w: ErrorWrapper, call: Completion) returns (a: Attempt)
    modifies w
    ensures call.Normal? ==> a == Result(call.value) && w.error == old(w.error)
    ensures call.Abrupt? ==> a == Sentinel && w.error == call.error
  {
    match call
    case Normal(v) =>
      a := Result(v);
    case Abrupt(e) =>
      w.error := e;
      a := Sentinel;
  }

  /** `forwardResult(result)`: a result is returned as it is; the sentinel
      rethrows the parked error and is reset to `null` first. */
  method ForwardResult(w: ErrorWrapper, a: Attempt) returns (c: Completion)
    modifies w
    ensures a.Result? ==> c == Normal(a.value) && w.error == old(w.error)
    ensures a.Sentinel? ==> c == Abrupt(old(w.error)) && w.error == Null
  {
    if a.Sentinel? {
      var error := w.error;
      w.error := Null;
      c := Abrupt(error);
    } else {
      c := Normal(a.value);
    }
  }

  /** Forwarding what `tryCatch` caught gives back the call's own ending, and
      leaves the sentinel clean whenever it was used. */
  method CatchAndForward(w: ErrorWrapper, call: Completion) returns (c: Completion)
    modifies w
    ensures c == call
    ensures call.Abrupt? ==> w.error == Null
    ensures call.Normal? ==> w.error == old(w.error)
  {
    var a := TryCatch(w, call);
    c := ForwardResult(w, a);
  }
}
