/**
 The slice of decoded JSON that the two scripts read from the police data API:
 scalar field values, objects as string-keyed maps, Python's `dict.get` with a
 default, and the exceptions a missing key or a wrongly typed value raises.
 */
module Json {

  /** A scalar JSON value as Python sees it after decoding. */
  datatype Value = Text(s: string) | Number(n: int) | Flag(b: bool) | Null

  /** A decoded JSON object: field name to value. */
  type Object = map<string, Value>

  /** The default both scripts substitute for an absent field. */
  const Unknown: Value := Text("Unknown")

  /** `obj.get(key, default)`: the stored value when the key is present, even when it is `null`. */
  function Get(obj: Object, key: string, default: Value): Value
  {
    if key in obj then obj[key] else default
  }

  /** The exceptions that abort a script. */
  datatype Error =
    | KeyError(key: string)         // `d[key]` on a dict without that key
    | AttributeError(field: string) // a method called on a value of the wrong type
    | TypeError(field: string)      // `v[key]` on a string, number or boolean
    | ValueError                    // unpacking `zip(*counts.items())` of an empty Counter

  datatype Result<T> = Ok(value: T) | Err(error: Error)

  /**
   A field where the scripts expect a nested object: absent from its record,
   present with a scalar (`null` included), or present with the object.
   */
  datatype Nested<T> = Missing | Scalar(v: Value) | Present(value: T)

  /** Python truthiness of a scalar: `null`, `""`, `0` and `false` are false. */
  predicate Truthy(v: Value)
  {
    match v
    case Text(s) => s != ""
    case Number(n) => n != 0
    case Flag(b) => b
    case Null => false
  }
}
