/** Decoded JSON messages as the servers see them after `json.loads`, and the Python operations the
    servers apply to them: truthiness (`if parsed_data:`), `float(data.get(key, 0))` and `abs`. */
module Json {

  datatype Option<+T> = None | Some(value: T)

  /** A JSON integer literal decodes to a Python `int` (unbounded); any other number literal decodes
      to a `float`. */
  datatype Value =
    | JNull
    | JBool(b: bool)
    | JInt(i: int)
    | JFloat(f: real)
    | JString(s: string)
    | JArray(items: seq<Value>)
    | JObject(fields: map<string, Value>)

  /** Python truthiness of a decoded value: `None`, `False`, zero, `""`, `[]` and `{}` are false. */
  predicate Truthy(v: Value)
  {
    match v
    case JNull => false
    case JBool(b) => b
    case JInt(i) => i != 0
    case JFloat(f) => f != 0.0
    case JString(s) => s != ""
    case JArray(items) => items != []
    case JObject(fields) => fields != map[]
  }

  /** 2^1024 - 2^970: the smallest integer magnitude that `float` rejects with `OverflowError`, because
      it would round beyond the largest double. */
  const FloatOverflow: int :=
    0xfffffffffffffc00000000000000000000000000000000000000000000000000000000000000000000000000000000000000000000000000000000000000000000000000000000000000000000000000000000000000000000000000000000000000000000000000000000000000000000000000000000000000000000000000

  /** Python's `float(v)` on a decoded value; `None` stands for the exception it raises.
      Booleans convert to 1.0 and 0.0, an `int` converts unless its magnitude overflows a double, and
      strings are treated as not convertible. */
  function ToFloat(v: Value): (r: Option<real>)
    ensures v.JFloat? ==> r == Some(v.f)
    ensures v.JInt? ==> (r.Some? <==> -FloatOverflow < v.i < FloatOverflow)
    ensures v.JInt? && r.Some? ==> r.value == v.i as real
    ensures v.JBool? ==> r == Some(if v.b then 1.0 else 0.0)
    ensures r.Some? <==> v.JFloat? || v.JBool? || (v.JInt? && -FloatOverflow < v.i < FloatOverflow)
  {
    match v
    case JFloat(f) => Some(f)
    case JInt(i) => if -FloatOverflow < i < FloatOverflow then Some(i as real) else None
    case JBool(b) => Some(if b then 1.0 else 0.0)
    case _ => None
  }

  /** What `json.loads` makes of a received text: a value, the `JSONDecodeError` that every handler
      catches, or one of the failures no handler catches (`RecursionError` on deep nesting,
      `ValueError` on an integer literal of more than 4300 digits, `UnicodeDecodeError` on a binary
      frame), which ends the connection. */
  datatype Loaded = Parsed(value: Value) | DecodeError | LoadFailure

  /** Python's `abs` on a float. */
  function Abs(r: real): real { if r < 0.0 then -r else r }

  /** Python's `float(data.get(key, 0))`: a missing key reads as 0; a value that is not an object
      (no `get`) or a field that `float` rejects raises, here `None`. */
  function GetFloat(data: Value, key: string): (r: Option<real>)
    ensures r.Some? <==> data.JObject? && (key in data.fields ==> ToFloat(data.fields[key]).Some?)
    ensures data.JObject? && key !in data.fields ==> r == Some(0.0)
    ensures data.JObject? && key in data.fields ==> r == ToFloat(data.fields[key])
  {
    if !data.JObject? then None
    else if key in data.fields then ToFloat(data.fields[key])
    else Some(0.0)
  }
}
