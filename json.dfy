/** JSON documents as decoded by Python's `json` module, and the two kinds of
    Python subscript the label extractor applies to them. */
module JsonValue {

  /** A decoded JSON value. Numbers are kept as integers: the extractor never
      looks inside a number, it only needs to know that one is not a container. */
  datatype Json =
    | Null
    | Bool(b: bool)
    | Num(n: int)
    | Str(s: string)
    | Arr(items: seq<Json>)
    | Obj(fields: map<string, Json>)

  /** The Python exceptions a subscript can raise. */
  datatype Raised = KeyError | IndexError | TypeError

  /** Outcome of one subscript or of a chain of them. */
  datatype Step = Ok(value: Json) | Err(error: Raised)

  /** Python's `v[key]` with a string key: a dict looks the key up, every other
      JSON value rejects a string subscript with a TypeError. */
  function Subscript(v: Json, key: string): (r: Step)
    ensures r.Ok? <==> v.Obj? && key in v.fields
    ensures r.Ok? ==> r.value == v.fields[key]
    ensures r.Err? ==> (r.error == KeyError <==> v.Obj?)
    ensures r.Err? ==> r.error != IndexError
  {
    match v
    case Obj(m) => if key in m then Ok(m[key]) else Err(KeyError)
    case _ => Err(TypeError)
  }

  /** Python's `v[0]`: a list yields its first element, a string its first
      character as a one-character string, and both raise IndexError when
      empty; a dict raises KeyError, since a decoded JSON object has only
      string keys and never the integer key 0; a number, a boolean or None
      raises TypeError. */
  function First(v: Json): (r: Step)
    ensures r.Ok? <==> (v.Arr? && |v.items| > 0) || (v.Str? && |v.s| > 0)
    ensures v.Arr? && |v.items| > 0 ==> r == Ok(v.items[0])
    ensures v.Str? && |v.s| > 0 ==> r == Ok(Str(v.s[..1]))
    ensures r.Err? ==> (r.error == IndexError <==> v.Arr? || v.Str?)
    ensures r.Err? ==> (r.error == KeyError <==> v.Obj?)
  {
    match v
    case Arr(xs) => if |xs| > 0 then Ok(xs[0]) else Err(IndexError)
    case Str(s) => if |s| > 0 then Ok(Str(s[..1])) else Err(IndexError)
    case Obj(_) => Err(KeyError)
    case _ => Err(TypeError)
  }
}
