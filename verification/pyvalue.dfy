/**
 * Configuration values as Python's `json` module loads them, with the parts of
 * Python's dictionary protocol that the configuration code relies on:
 * truthiness, `k in container`, `d.get(k, default)` and `d[k] = v`, each with
 * the exception Python raises when the container is not a dictionary.
 */
module PyValue {
  import opened Wrappers

  /** A JSON value. Floating-point numbers are not modelled. */
  datatype Value =
    | Null
    | Bool(b: bool)
    | Int(i: int)
    | Str(s: string)
    | Arr(items: seq<Value>)
    | Obj(fields: map<string, Value>)

  /** The exceptions a malformed configuration makes the code raise. */
  datatype PyError = KeyError | AttributeError | TypeError

  /** Python truthiness: `None`, `False`, `0` and empty containers are false. */
  predicate Truthy(v: Value) {
    match v
    case Null => false
    case Bool(b) => b
    case Int(i) => i != 0
    case Str(s) => s != ""
    case Arr(xs) => xs != []
    case Obj(m) => m != map[]
  }

  /** `k` occurs as a contiguous substring of `s`. */
  predicate IsInfix(k: string, s: string) {
    exists i :: 0 <= i <= |s| && k <= s[i..]
  }

  /**
   * Python's `k in container` for a string `k`: key membership for a dict,
   * substring search for a str, element membership for a list, and a
   * TypeError for anything that is not iterable.
   */
  function Contains(container: Value, k: string): (r: Result<bool, PyError>)
    ensures r.Failure? <==> (container.Null? || container.Bool? || container.Int?)
    ensures r.Failure? ==> r.error == TypeError
    ensures container.Obj? ==> r == Success(k in container.fields)
    ensures container.Str? ==> r == Success(IsInfix(k, container.s))
    ensures container.Arr? ==> r == Success(Str(k) in container.items)
  {
    match container
    case Obj(m) => Success(k in m)
    case Str(s) => Success(IsInfix(k, s))
    case Arr(xs) => Success(Str(k) in xs)
    case _ => Failure(TypeError)
  }

  /** Python's `container.get(k, default)`; only a dict has a `get` method. */
  function Get(container: Value, k: string, default: Value): (r: Result<Value, PyError>)
    ensures r.Success? <==> container.Obj?
    ensures r.Failure? ==> r.error == AttributeError
    ensures r.Success? && k in container.fields ==> r.value == container.fields[k]
    ensures r.Success? && k !in container.fields ==> r.value == default
  {
    match container
    case Obj(m) => Success(if k in m then m[k] else default)
    case _ => Failure(AttributeError)
  }

  /** Python's `container[k] = v` for a string `k`; only a dict accepts it. */
  function SetItem(container: Value, k: string, v: Value): (r: Result<Value, PyError>)
    ensures r.Success? <==> container.Obj?
    ensures r.Failure? ==> r.error == TypeError
    ensures r.Success? ==> r.value.Obj? && r.value.fields.Keys == container.fields.Keys + {k}
    ensures r.Success? ==> r.value.fields[k] == v
    ensures r.Success? ==> forall j :: j in container.fields && j != k ==> r.value.fields[j] == container.fields[j]
  {
    match container
    case Obj(m) => Success(Obj(m[k := v]))
    case _ => Failure(TypeError)
  }
}
