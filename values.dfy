/** JavaScript values, as far as the deferred-cleanup wrapper looks into them. */
module JsValues {

  /** A JavaScript value. Objects and plain functions carry their own
      properties; `Wrapped` is the function that `makeDefer(onSuccess,
      onFailure)` builds around `work`. */
  datatype Value =
    | Undefined
    | Null
    | Bool(b: bool)
    | Num(n: int)
    | Str(s: string)
    | Obj(id: nat, props: map<string, Value>)
    | Fn(id: nat, props: map<string, Value>)
    | Wrapped(onSuccess: bool, onFailure: bool, work: Value)

  /** How a pending outcome (a thenable) eventually settles. */
  datatype Settlement = Fulfilled(value: Value) | Rejected(reason: Value)

  /** How a call ends: it returns a value or it throws one. */
  datatype Completion = Normal(value: Value) | Abrupt(error: Value)

  /** `v != null` in the loose comparison is false exactly for null and undefined. */
  predicate IsNullish(v: Value) {
    v.Undefined? || v.Null?
  }

  /** `typeof v === 'function'` */
  predicate IsCallable(v: Value) {
    v.Fn? || v.Wrapped?
  }

  /** The own enumerable properties of a value; every property of an object
      or function is taken to be own and enumerable, and primitives have none. */
  function OwnProps(v: Value): map<string, Value> {
    match v
    case Obj(_, props) => props
    case Fn(_, props) => props
    case _ => map[]
  }

  /** The property read `v[name]` on a value that is not nullish: a missing
      property reads as undefined (no built-in prototype defines `then`). */
  function Get(v: Value, name: string): Value {
    if name in OwnProps(v) then OwnProps(v)[name] else Undefined
  }

  /** `isPromise`: a value is a pending outcome exactly when it is an object
      or a function whose own `then` property is callable. */
  function IsPromise(v: Value): (pending: bool)
    ensures pending <==> (v.Obj? || v.Fn?) && "then" in v.props && IsCallable(v.props["then"])
  {
    !IsNullish(v) && IsCallable(Get(v, "then"))
  }
}
