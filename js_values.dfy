/**
 * JavaScript values as the connector handles them: parsed JSON fixture
 * files, emitted metric payloads and the documents it builds.
 *
 * Objects are maps from property name to value; the order of their keys
 * is not modelled. Numbers are integers. `undefined` is a value of its own,
 * because the connector both reads missing properties (getting `undefined`)
 * and stores what it read.
 */
module JsValues {

  datatype Option<+T> = None | Some(value: T)

  /** Why an operation stops instead of completing. */
  datatype Error =
    | TypeError     // JavaScript throws a TypeError (property of null/undefined, strict-mode write to a primitive, ...)
    | Unsupported   // a JavaScript coercion that this model does not follow

  datatype Result<+T> = Ok(value: T) | Err(error: Error) {
    predicate IsFailure() { Err? }

    function PropagateFailure<U>(): Result<U>
      requires Err?
    {
      Err(error)
    }

    function Extract(): T
      requires Ok?
    {
      value
    }
  }

  /** How a statement sequence that updates objects in place ends. */
  datatype Completion = Normal | Throw(error: Error)

  datatype Value =
    | Undefined
    | Null
    | Bool(b: bool)
    | Num(n: int)
    | Str(s: string)
    | Arr(items: seq<Value>)
    | Obj(fields: map<string, Value>)
    | Date(time: Value)     // `new Date(time)`, kept opaque

  predicate Nullish(v: Value) {
    v.Undefined? || v.Null?
  }

  /** JavaScript truthiness (NaN is not representable here). */
  predicate Truthy(v: Value) {
    match v
    case Undefined => false
    case Null => false
    case Bool(b) => b
    case Num(n) => n != 0
    case Str(s) => s != ""
    case _ => true
  }

  /**
   * `v[key]` for a `v` that is not null or undefined: the own property of an
   * object, `undefined` otherwise. Built-in properties of primitives and
   * arrays (`length`, indices) are not modelled; the connector reads them
   * only where the modules say so explicitly.
   */
  function Get(v: Value, key: string): Value {
    if v.Obj? && key in v.fields then v.fields[key] else Undefined
  }

  /** `v[key]` as JavaScript evaluates it, including the TypeError on null and undefined. */
  function Read(v: Value, key: string): (r: Result<Value>)
    ensures r.Err? <==> Nullish(v)
    ensures r.Ok? ==> r.value == Get(v, key)
    ensures r.Ok? && !v.Obj? ==> r.value.Undefined?
  {
    if Nullish(v) then Err(TypeError) else Ok(Get(v, key))
  }

  /** A JavaScript object that the connector updates in place. */
  class JsObject {
    var props: map<string, Value>

    constructor (props: map<string, Value>)
      ensures this.props == props
    {
      this.props := props;
    }
  }
}
