/** The typed member readers every parser is built from (the helpers of DataLoader.java):
    a member that is absent takes the caller's default, a member that is present is converted
    and a member that does not convert is an error. */
module Fields {
  import opened Outcomes
  import opened Identifiers
  import opened Json
  import opened JavaLang
  import opened Containers

  /** The document's "type" member is exactly `tag`. */
  predicate HasType(root: Object, tag: string) {
    "type" in root && AsString(root["type"]) == Ok(tag)
  }

  /** `expectType`: the "type" member (default "") must be exactly the expected tag. */
  function ExpectType(root: Object, expected: string): (r: Result<()>)
    ensures expected != "" ==> (r.Ok? <==> HasType(root, expected))
  {
    var found :- StringOr(root, "type", "");
    if found == expected then Ok(()) else Err(WrongType(expected, found))
  }

  /** `object`: a member that is a JSON object, or an empty object for an absent member or a
      member of any other kind. */
  function ObjectOrEmpty(obj: Object, key: string): (r: Object)
    ensures key in obj && obj[key].JObject? ==> r == obj[key].members
    ensures !(key in obj && obj[key].JObject?) ==> r == map[]
  {
    if key in obj && obj[key].JObject? then obj[key].members else map[]
  }

  /** `array`: a member that is a JSON array, or an empty array otherwise. */
  function ArrayOrEmpty(obj: Object, key: string): (r: seq<Json>)
    ensures key in obj && obj[key].JArray? ==> r == obj[key].items
    ensures !(key in obj && obj[key].JArray?) ==> r == []
  {
    if key in obj && obj[key].JArray? then obj[key].items else []
  }

  /** `string`. */
  function StringOr(obj: Object, key: string, default: string): (r: Result<string>)
    ensures key !in obj ==> r == Ok(default)
    ensures key in obj ==> r == AsString(obj[key])
  {
    if key in obj then AsString(obj[key]) else Ok(default)
  }

  /** `stringOrNull`: an absent member is null, not an error. */
  function StringOrNull(obj: Object, key: string): (r: Result<Option<string>>)
    ensures key !in obj ==> r == Ok(None)
    ensures key in obj ==> (r.Ok? <==> AsString(obj[key]).Ok?)
    ensures key in obj && r.Ok? ==> r.value == Some(AsString(obj[key]).value)
  {
    if key in obj then
      var s :- AsString(obj[key]);
      Ok(Some(s))
    else Ok(None)
  }

  /** `integer`. */
  function IntegerOr(obj: Object, key: string, default: int): (r: Result<int>)
    ensures key !in obj ==> r == Ok(default)
    ensures key in obj ==> r == AsInt(obj[key])
  {
    if key in obj then AsInt(obj[key]) else Ok(default)
  }

  /** `number`. */
  function NumberOr(obj: Object, key: string, default: real): (r: Result<real>)
    ensures key !in obj ==> r == Ok(default)
    ensures key in obj ==> r == AsDouble(obj[key])
  {
    if key in obj then AsDouble(obj[key]) else Ok(default)
  }

  /** `bool`. */
  function BoolOr(obj: Object, key: string, default: bool): (r: Result<bool>)
    ensures key !in obj ==> r == Ok(default)
    ensures key in obj ==> r == AsBoolean(obj[key])
  {
    if key in obj then AsBoolean(obj[key]) else Ok(default)
  }

  /** `id`: the member's text (default "") parsed as an identifier. An absent member therefore
      gives "minecraft:" with an empty path rather than an error. */
  function IdOf(obj: Object, key: string): (r: Result<Identifier>)
    ensures r.Ok? ==> Valid(r.value)
    ensures key !in obj ==> r == Ok(Identifier(DefaultNamespace, ""))
    ensures key in obj && obj[key].JString? ==> r == Parse(obj[key].s)
  {
    var text :- StringOr(obj, key, "");
    Parse(text)
  }

  /** `useAction`: the lower-cased name selects eat, block, bow, crossbow or spyglass; every
      other name, the empty one included, is drink. */
  function UseActionOf(name: string): (r: UseAction)
    ensures r == Eat <==> LowerCase(name) == "eat"
    ensures r == Block <==> LowerCase(name) == "block"
    ensures r == Bow <==> LowerCase(name) == "bow"
    ensures r == Crossbow <==> LowerCase(name) == "crossbow"
    ensures r == Spyglass <==> LowerCase(name) == "spyglass"
    ensures r == Drink <==> LowerCase(name) !in {"eat", "block", "bow", "crossbow", "spyglass"}
  {
    var lower := LowerCase(name);
    if lower == "eat" then Eat
    else if lower == "block" then Block
    else if lower == "bow" then Bow
    else if lower == "crossbow" then Crossbow
    else if lower == "spyglass" then Spyglass
    else Drink
  }
}
