/** `toDecorator`: lets one wrapping transform be used both on a bare function
    and as a legacy method decorator `(target, key, descriptor)`. */
module Decorators {
  import opened JsValues

  /** What applying the decorator yields: the wrapped function itself, a new
      property descriptor (given by its properties), or the TypeError that
      reading `descriptor.value` raises when the descriptor is nullish. */
  datatype Decorated =
    | Function(fn: Value)
    | Descriptor(props: map<string, Value>)
    | TypeError

  /** `toDecorator(wrap)(target, key, descriptor)`. With no key, the target
      itself is wrapped; otherwise the descriptor is copied (`...descriptor`)
      and only its `value` is replaced by the wrapped `descriptor.value`. */
  function Decorate(wrap: Value -> Value, target: Value, key: Value, descriptor: Value): (r: Decorated)
    ensures key.Undefined? ==> r == Function(wrap(target))
    ensures !key.Undefined? && IsNullish(descriptor) ==> r == TypeError
    ensures !key.Undefined? && !IsNullish(descriptor) ==>
      && r.Descriptor?
      && r.props.Keys == OwnProps(descriptor).Keys + {"value"}
      && r.props["value"] == wrap(Get(descriptor, "value"))
      && forall name :: name in OwnProps(descriptor) && name != "value" ==>
           r.props[name] == OwnProps(descriptor)[name]
  {
    if key.Undefined? then
      Function(wrap(target))
    else if IsNullish(descriptor) then
      // `...undefined` is allowed, but `descriptor.value` then throws
      TypeError
    else
      Descriptor(OwnProps(descriptor)["value" := wrap(Get(descriptor, "value"))])
  }
}
