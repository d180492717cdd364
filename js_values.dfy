/**
 * The slice of JavaScript value semantics the user store relies on:
 * JSON request bodies as flat records, property access that may yield
 * `undefined`, truthiness, strict equality (`===`) and the object spread
 * `{...a, ...b}`.
 */
module JsValues {

  datatype Option<+T> = None | Some(value: T)

  /**
   * A value a JSON body can hold at one key. Numbers are modelled as
   * integers. Nested objects and arrays are opaque (`Obj`): every operation
   * of the store copies them one level deep and never looks inside.
   */
  datatype Value = Null | Bool(b: bool) | Num(n: int) | Str(s: string) | Obj

  /** `Number.MAX_SAFE_INTEGER`, 2^53 - 1. */
  const MaxSafeInteger: int := 0x1F_FFFF_FFFF_FFFF

  /**
   * An integer a JavaScript number holds exactly, and whose decimal string
   * (the one `parseInt` reads) has no exponent.
   */
  predicate SafeInteger(n: int)
  {
    -MaxSafeInteger <= n <= MaxSafeInteger
  }

  /** A plain object: the request body, or a stored user record. */
  type Record = map<string, Value>

  /** Property access `r.key`; an absent key reads as `undefined` (None). */
  function Get(r: Record, key: string): Option<Value>
  {
    if key in r then Some(r[key]) else None
  }

  /** JavaScript truthiness: `undefined`, `null`, `false`, `0` and `""` are falsy. */
  predicate Truthy(v: Option<Value>)
  {
    match v
    case None => false
    case Some(Null) => false
    case Some(Bool(b)) => b
    case Some(Num(n)) => n != 0
    case Some(Str(s)) => s != ""
    case Some(Obj) => true
  }

  /**
   * Strict equality `a === b`. Values of different types are never equal.
   * Two nested objects are equal only when they are the same reference,
   * and no two stored records ever share one (each request body is parsed
   * afresh and the store copies it shallowly), so `Obj === Obj` is false here.
   */
  predicate StrictEquals(a: Option<Value>, b: Option<Value>)
  {
    match (a, b)
    case (None, None) => true
    case (Some(Null), Some(Null)) => true
    case (Some(Bool(x)), Some(Bool(y))) => x == y
    case (Some(Num(x)), Some(Num(y))) => x == y
    case (Some(Str(x)), Some(Str(y))) => x == y
    case _ => false
  }

  /**
   * Object spread `{...base, ...over}`: every key of either object is
   * present; a key of `over` takes its value from `over`, any other key
   * keeps its value from `base`.
   */
  function Spread(base: Record, over: Record): (r: Record)
    ensures r.Keys == base.Keys + over.Keys
    ensures forall k :: k in over ==> r[k] == over[k]
    ensures forall k :: k in base && k !in over ==> r[k] == base[k]
  {
    base + over
  }
}
