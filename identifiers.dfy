/** Namespaced identifiers (`namespace:path`), the key of every definition.

    The identifier class belongs to the game library and its code is not part of this model;
    `Of` and `Parse` follow that library's documented rules for `Identifier.of(namespace, path)`
    and `Identifier.of(text)`: the text is split at its first ':', a missing or empty namespace
    means "minecraft", and both parts must use the permitted lower-case character set. */
module Identifiers {
  import opened Outcomes
  import JavaLang

  datatype Identifier = Identifier(namespace: string, path: string)

  const DefaultNamespace: string := "minecraft"
  const BlockSuffix: string := "_block"

  predicate IsNamespaceChar(c: char) {
    c == '_' || c == '-' || c == '.' || 'a' <= c <= 'z' || '0' <= c <= '9'
  }

  predicate IsPathChar(c: char) {
    IsNamespaceChar(c) || c == '/'
  }

  predicate ValidNamespace(s: string) {
    forall i :: 0 <= i < |s| ==> IsNamespaceChar(s[i])
  }

  predicate ValidPath(s: string) {
    forall i :: 0 <= i < |s| ==> IsPathChar(s[i])
  }

  predicate Valid(id: Identifier) {
    ValidNamespace(id.namespace) && ValidPath(id.path)
  }

  /** `Identifier.of(namespace, path)`: refuses a character outside the permitted sets. */
  function Of(namespace: string, path: string): (r: Result<Identifier>)
    ensures r.Ok? <==> ValidNamespace(namespace) && ValidPath(path)
    ensures r.Ok? ==> r.value == Identifier(namespace, path)
  {
    if ValidNamespace(namespace) && ValidPath(path) then Ok(Identifier(namespace, path))
    else Err(InvalidIdentifier(namespace, path))
  }

  /** `Identifier.of(text)`: splits at the first ':'; text without a namespace part is in the
      default namespace. */
  function Parse(text: string): (r: Result<Identifier>)
    ensures r.Ok? ==> Valid(r.value)
    ensures ':' !in text ==> r == Of(DefaultNamespace, text)
  {
    var i := JavaLang.IndexOf(text, ':');
    if i < 0 then Of(DefaultNamespace, text)
    else if i == 0 then Of(DefaultNamespace, text[1..])
    else Of(text[..i], text[i + 1..])
  }

  /** `Identifier.toString`. */
  function ToString(id: Identifier): string {
    id.namespace + ":" + id.path
  }

  /** Printing a valid identifier and parsing the text gives the identifier back. */
  lemma {:induction false} ParseToString(id: Identifier)
    requires Valid(id) && id.namespace != ""
    ensures Parse(ToString(id)) == Ok(id)
  {
    var t := ToString(id);
    var n := |id.namespace|;
    assert forall k :: 0 <= k < n ==> id.namespace[k] != ':';
    assert t[..n] == id.namespace;
    assert t[n] == ':';
    assert ':' !in t[..n];
    assert JavaLang.IndexOf(t, ':') == n;
    assert t[n + 1..] == id.path;
  }

  /** Conversely, text with a non-empty namespace part that parses is exactly the printed form
      of what it parses to. */
  lemma {:induction false} ToStringParse(text: string)
    requires Parse(text).Ok? && JavaLang.IndexOf(text, ':') > 0
    ensures ToString(Parse(text).value) == text
  {
    var i := JavaLang.IndexOf(text, ':');
    assert text == text[..i] + ":" + text[i + 1..];
  }

  /** The identifier derived for a placed block: the same namespace and the path with
      "_block" appended, as `Identifier.of(id.getNamespace(), id.getPath() + "_block")`. */
  function BlockIdFor(id: Identifier): (r: Result<Identifier>)
    ensures Valid(id) ==> r == Ok(Identifier(id.namespace, id.path + BlockSuffix))
  {
    assert ValidPath(BlockSuffix);
    Of(id.namespace, id.path + BlockSuffix)
  }
}
