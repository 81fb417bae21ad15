/** The handful of Python values the success logger inspects: the trainer's
    `infos` and `dones`, the records inside them and their `is_success`
    field.  Only the built-in operations the logger applies to them are
    modelled: truthiness (`if x:`), `int(x)`, `dict.get` and list indexing. */
module PyObjects {

  datatype Option<T> = None | Some(value: T)

  /** The exceptions the logger's own code can raise. */
  datatype PyError =
    | IndexError   // `infos[i]` past the end of a shorter `infos` list
    | TypeError    // `int(v)` on a value that is not a number

  datatype Result<T> = Ok(value: T) | Err(error: PyError)

  /** A Python value.  `PyList` stands for list, tuple and (for `dones`)
      a one-dimensional numpy array; `PyDict` for a dict with string keys. */
  datatype PyObj =
    | PyNone
    | PyBool(b: bool)
    | PyInt(n: int)
    | PyList(items: seq<PyObj>)
    | PyDict(entries: map<string, PyObj>)

  /** `bool(v)`: None, False, 0 and empty containers are false. */
  predicate Truthy(v: PyObj)
  {
    match v
    case PyNone => false
    case PyBool(b) => b
    case PyInt(n) => n != 0
    case PyList(items) => |items| != 0
    case PyDict(entries) => |entries| != 0
  }

  /** `d.get(key)` (and `d.get(key, None)`): a missing key reads as None. */
  function Get(d: map<string, PyObj>, key: string): PyObj
  {
    if key in d then d[key] else PyNone
  }

  /** `int(v)`: a bool becomes 0 or 1, an int is kept as it is, anything
      else raises TypeError. */
  function IntOf(v: PyObj): Result<int>
  {
    match v
    case PyBool(b) => Ok(if b then 1 else 0)
    case PyInt(n) => Ok(n)
    case _ => Err(TypeError)
  }

  /** `int(v)` succeeds on a bool or an int and is nonzero exactly when `v`
      is truthy, so a row's success value is nonzero exactly when the
      record's `is_success` is truthy; only on a bool is it also 0 or 1. */
  lemma IntOfMatchesTruthiness(v: PyObj)
    ensures IntOf(v).Ok? <==> v.PyBool? || v.PyInt?
    ensures IntOf(v).Ok? ==> (IntOf(v).value != 0 <==> Truthy(v))
    ensures v.PyBool? ==> IntOf(v).value == (if Truthy(v) then 1 else 0)
  {
  }
}
