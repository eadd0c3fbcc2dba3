/**
 * The untyped documents the manifest updater works on: the YAML manifest after
 * loading and the JSON update batch after parsing are both nested mappings,
 * lists, strings and nulls, compared structurally.
 */
module Documents {

  /** A loaded YAML or JSON value. Mappings are keyed by values, as Python dicts are. */
  datatype Value =
    | Null
    | Str(s: string)
    | List(items: seq<Value>)
    | Dict(entries: map<Value, Value>)

  /** A top-level document: the mapping at the root of the manifest. */
  type Doc = map<Value, Value>

  /** A JSON object of the update batch; its keys are always strings. */
  type Payload = map<string, Value>

  datatype Option<+T> = None | Some(value: T)

  datatype Result<+T, +E> = Ok(value: T) | Err(error: E)

  /** Python's truth value of a document value: null and empty containers are false. */
  predicate Truthy(v: Value)
  {
    match v
    case Null => false
    case Str(s) => s != ""
    case List(items) => items != []
    case Dict(entries) => entries != map[]
  }

  /** Whether a value may be used as a dict key: lists and dicts are unhashable in Python. */
  predicate Hashable(v: Value)
  {
    v.Null? || v.Str?
  }

  /** `payload.get(key)`: the stored value, or null when the key is absent. */
  function Get(payload: Payload, key: string): Value
  {
    GetOr(payload, key, Null)
  }

  /** `payload.get(key, default)`: an explicitly stored null is returned as is. */
  function GetOr(payload: Payload, key: string, default: Value): Value
  {
    if key in payload then payload[key] else default
  }
}
