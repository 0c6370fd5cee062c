/** The JSON tree the definitions are read from, and the `getAsX` conversions on it.

    A number keeps the text it was written as (its `getAsString`) and its value. The decoder
    pairs the two; the model takes both as given and does not require that they agree. The
    conversions follow the JSON library: a primitive converts to the requested kind where it
    can, an array of exactly one element converts as that element, and `null` or an object
    refuses. */
module Json {
  import opened Outcomes
  import opened JavaLang

  datatype Json =
    | JNull
    | JBool(b: bool)
    | JNumber(text: string, value: real)
    | JString(s: string)
    | JArray(items: seq<Json>)
    | JObject(members: map<string, Json>)

  /** A JSON object: member name to value. */
  type Object = map<string, Json>

  /** `getAsString`. */
  function AsString(j: Json): (r: Result<string>)
    ensures j.JString? ==> r == Ok(j.s)
    ensures (j.JNull? || j.JObject?) ==> r.Err?
  {
    match j
    case JString(s) => Ok(s)
    case JNumber(text, _) => Ok(text)
    case JBool(b) => Ok(if b then "true" else "false")
    case JArray(items) => if |items| == 1 then AsString(items[0]) else Err(NotConvertible)
    case _ => Err(NotConvertible)
  }

  /** `getAsInt`: a number is truncated toward zero and narrowed to 32 bits; any other
      primitive goes through `Integer.parseInt` of its string form. */
  function AsInt(j: Json): (r: Result<int>)
    ensures r.Ok? ==> IsInt(r.value)
    ensures j.JString? ==> r == ParseInt(j.s)
    ensures j.JBool? ==> r.Err?
  {
    match j
    case JNumber(_, v) => Ok(Wrap32(TruncateTowardZero(v)))
    case JString(s) => ParseInt(s)
    case JBool(b) => ParseInt(if b then "true" else "false")
    case JArray(items) => if |items| == 1 then AsInt(items[0]) else Err(NotConvertible)
    case _ => Err(NotConvertible)
  }

  /** `getAsDouble`: a number's value; any other primitive goes through `Double.parseDouble`
      of its string form. */
  function AsDouble(j: Json): (r: Result<real>)
    ensures j.JNumber? ==> r == Ok(j.value)
    ensures j.JBool? ==> r.Err?
  {
    match j
    case JNumber(_, v) => Ok(v)
    case JString(s) => ParseDecimal(s)
    case JBool(b) => ParseDecimal(if b then "true" else "false")
    case JArray(items) => if |items| == 1 then AsDouble(items[0]) else Err(NotConvertible)
    case _ => Err(NotConvertible)
  }

  /** `getAsBoolean`: a boolean's value; any other primitive is `Boolean.parseBoolean` of its
      string form, which is true exactly for "true" in any letter case. */
  function AsBoolean(j: Json): (r: Result<bool>)
    ensures j.JBool? ==> r == Ok(j.b)
    ensures j.JString? ==> r == Ok(EqualsIgnoreCase(j.s, "true"))
    ensures (j.JNull? || j.JObject?) ==> r.Err?
  {
    match j
    case JBool(b) => Ok(b)
    case JString(s) => Ok(EqualsIgnoreCase(s, "true"))
    case JNumber(text, _) => Ok(EqualsIgnoreCase(text, "true"))
    case JArray(items) => if |items| == 1 then AsBoolean(items[0]) else Err(NotConvertible)
    case _ => Err(NotConvertible)
  }

  /** `getAsJsonObject`: the object itself, anything else refused. */
  function AsObject(j: Json): (r: Result<Object>)
    ensures r.Ok? <==> j.JObject?
    ensures r.Ok? ==> r.value == j.members
  {
    if j.JObject? then Ok(j.members) else Err(NotAnObject)
  }
}
