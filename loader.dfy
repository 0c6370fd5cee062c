/** Discovery and loading (`loadAll`, `loadContainers`, `loadBeverages`, `loadEquipment` in
    DataLoader.java). The file system is an input: each root path of the mod says whether it
    has a "data/alchemy" directory and what walking each of its three sub-directories yields.
    A document is the path of one walked entry and its decoded JSON, `None` when the entry is
    unreadable, empty or not JSON. */
module Loader {
  import opened Outcomes
  import opened Identifiers
  import opened Json
  import opened LinkedMaps
  import opened Beverages
  import opened Containers
  import opened Equipment
  import opened BeverageParsing
  import opened DefinitionParsing
  import opened ContentPacks

  datatype Document = Document(path: string, body: Option<Json>)

  /** What one category directory turns out to be: absent (or a plain file), a directory whose
      walk cannot start (the IOException that `Files.walk` throws), or the walked entries in
      walk order. */
  datatype Directory = NotADirectory | WalkFails | Listing(entries: seq<Document>)

  /** One root path of the mod. */
  datatype ModRoot = ModRoot(hasDataRoot: bool, containers: Directory, beverages: Directory, equipment: Directory)

  const JsonSuffix: string := ".json"

  /** The walk keeps the entries whose path ends with ".json". */
  predicate IsJsonPath(path: string) {
    |path| >= |JsonSuffix| && path[|path| - |JsonSuffix|..] == JsonSuffix
  }

  /** `GSON.fromJson(reader, JsonObject.class)`: only a JSON object is a document root. */
  function RootObject(body: Option<Json>): (r: Result<Object>)
    ensures r.Ok? <==> body.Some? && body.value.JObject?
    ensures r.Ok? ==> r.value == body.value.members
  {
    match body
    case Some(JObject(members)) => Ok(members)
    case _ => Err(Unreadable)
  }

  /** The definition one walked entry contributes: none when its path is not a ".json" path,
      when it does not decode to an object, or when the parser refuses it (the exception is
      caught and logged per file). */
  function Parsed<V>(doc: Document, parse: Object -> Result<V>): (r: Option<V>)
    ensures r.Some? <==> IsJsonPath(doc.path) && RootObject(doc.body).Ok? && parse(RootObject(doc.body).value).Ok?
    ensures r.Some? ==> r.value == parse(RootObject(doc.body).value).value
  {
    if !IsJsonPath(doc.path) then None
    else match RootObject(doc.body)
      case Err(_) => None
      case Ok(root) =>
        match parse(root)
        case Err(_) => None
        case Ok(v) => Some(v)
  }

  /** The per-file loop body as a specification: `out.put(data.id(), data)` for each definition
      that parses, in walk order. Loading only adds: what `out` held keeps its keys and their
      places in the order. */
  function LoadFiles<V>(out: LinkedMap<V>, docs: seq<Document>, parse: Object -> Result<V>,
                        key: V -> Identifier): (r: LinkedMap<V>)
    ensures Extends(out, r)
  {
    if docs == [] then out
    else
      var n := |docs| - 1;
      var before := LoadFiles(out, docs[..n], parse, key);
      match Parsed(docs[n], parse)
      case None => before
      case Some(v) =>
        PutExtends(before, key(v), v);
        ExtendsTransitive(out, before, before.Put(key(v), v));
        before.Put(key(v), v)
  }

  /** The identifiers of all definitions that parse. */
  ghost function Survivors<V>(docs: seq<Document>, parse: Object -> Result<V>, key: V -> Identifier): set<Identifier> {
    set i | 0 <= i < |docs| && Parsed(docs[i], parse).Some? :: key(Parsed(docs[i], parse).value)
  }

  /** The definition of the last document that parses with identifier `k`. */
  function LastParsed<V>(docs: seq<Document>, parse: Object -> Result<V>, key: V -> Identifier,
                         k: Identifier): Option<V>
  {
    if docs == [] then None
    else
      var n := |docs| - 1;
      var p := Parsed(docs[n], parse);
      if p.Some? && key(p.value) == k then p else LastParsed(docs[..n], parse, key, k)
  }

  /** The map keeps its shape whatever the documents are. */
  lemma {:induction false} LoadFilesValid<V>(out: LinkedMap<V>, docs: seq<Document>,
                                            parse: Object -> Result<V>, key: V -> Identifier)
    requires out.Valid()
    ensures LoadFiles(out, docs, parse, key).Valid()
  {
    if docs != [] {
      var n := |docs| - 1;
      LoadFilesValid(out, docs[..n], parse, key);
      match Parsed(docs[n], parse)
      case None =>
      case Some(v) => PutValid(LoadFiles(out, docs[..n], parse, key), key(v), v);
    }
  }

  /** Last write wins: the value under `k` is the last parsed definition with that identifier,
      and the earlier content of the map only when no document defines `k`. */
  lemma {:induction false} LastWriteWins<V>(out: LinkedMap<V>, docs: seq<Document>,
                                           parse: Object -> Result<V>, key: V -> Identifier, k: Identifier)
    ensures LoadFiles(out, docs, parse, key).Get(k) ==
      if LastParsed(docs, parse, key, k).Some? then LastParsed(docs, parse, key, k) else out.Get(k)
  {
    if docs != [] {
      LastWriteWins(out, docs[..|docs| - 1], parse, key, k);
    }
  }

  /** The keys after loading are the keys before plus the identifiers of the parsed documents. */
  lemma {:induction false} LoadFilesKeys<V>(out: LinkedMap<V>, docs: seq<Document>,
                                           parse: Object -> Result<V>, key: V -> Identifier)
    ensures LoadFiles(out, docs, parse, key).entries.Keys == out.entries.Keys + Survivors(docs, parse, key)
  {
    if docs != [] {
      var n := |docs| - 1;
      LoadFilesKeys(out, docs[..n], parse, key);
      SurvivorsStep(docs, parse, key);
    }
  }

  /** One more document adds its identifier to the survivors when it parses. */
  lemma SurvivorsStep<V>(docs: seq<Document>, parse: Object -> Result<V>, key: V -> Identifier)
    requires docs != []
    ensures var n := |docs| - 1; var p := Parsed(docs[n], parse);
      Survivors(docs, parse, key) == Survivors(docs[..n], parse, key) + (if p.Some? then {key(p.value)} else {})
  {
    var n := |docs| - 1;
    var p := Parsed(docs[n], parse);
    var before := Survivors(docs[..n], parse, key);
    var extra: set<Identifier> := if p.Some? then {key(p.value)} else {};
    forall k | k in Survivors(docs, parse, key)
      ensures k in before + extra
    {
      var i :| 0 <= i < |docs| && Parsed(docs[i], parse).Some? && key(Parsed(docs[i], parse).value) == k;
      if i < n {
        assert docs[..n][i] == docs[i];
      }
    }
    forall k | k in before + extra
      ensures k in Survivors(docs, parse, key)
    {
      if k in before {
        var i :| 0 <= i < n && Parsed(docs[..n][i], parse).Some? && key(Parsed(docs[..n][i], parse).value) == k;
        assert docs[..n][i] == docs[i];
      }
    }
  }

  /** Loading into an empty map, the size is the number of distinct identifiers among the
      documents that parse (duplicates collapse to one entry). */
  lemma LoadedSize<V>(docs: seq<Document>, parse: Object -> Result<V>, key: V -> Identifier)
    ensures LoadFiles(Empty(), docs, parse, key).Size() == |Survivors(docs, parse, key)|
  {
    LoadFilesValid(Empty(), docs, parse, key);
    LoadFilesKeys(Empty(), docs, parse, key);
    SizeIsKeyCount(LoadFiles(Empty(), docs, parse, key));
  }

  /** Loading a concatenation is loading one part after the other. */
  lemma {:induction false} LoadFilesAppend<V>(out: LinkedMap<V>, a: seq<Document>, b: seq<Document>,
                                             parse: Object -> Result<V>, key: V -> Identifier)
    ensures LoadFiles(out, a + b, parse, key) == LoadFiles(LoadFiles(out, a, parse, key), b, parse, key)
    decreases |b|
  {
    if b == [] {
      assert a + b == a;
    } else {
      var n := |b| - 1;
      assert (a + b)[..|a + b| - 1] == a + b[..n];
      assert (a + b)[|a + b| - 1] == b[n];
      LoadFilesAppend(out, a, b[..n], parse, key);
    }
  }

  /** A document that does not parse is skipped: loading with it equals loading without it. */
  lemma FailedDocumentIsSkipped<V>(out: LinkedMap<V>, docs: seq<Document>, i: nat,
                                   parse: Object -> Result<V>, key: V -> Identifier)
    requires i < |docs| && Parsed(docs[i], parse).None?
    ensures LoadFiles(out, docs, parse, key) == LoadFiles(out, docs[..i] + docs[i + 1..], parse, key)
  {
    assert docs == docs[..i] + [docs[i]] + docs[i + 1..];
    LoadFilesAppend(out, docs[..i] + [docs[i]], docs[i + 1..], parse, key);
    LoadFilesAppend(out, docs[..i], [docs[i]], parse, key);
    assert ([] + [docs[i]])[..0] == [];
    LoadFilesAppend(out, docs[..i], docs[i + 1..], parse, key);
  }

  /** Every entry satisfies `inv`, which relates a key to the value stored under it. */
  ghost predicate Holds<V>(m: LinkedMap<V>, inv: (Identifier, V) -> bool) {
    forall k :: k in m.entries ==> inv(k, m.entries[k])
  }

  /** A property that every parsed definition has under its own identifier holds for every
      entry after loading, provided it held before. */
  lemma {:induction false} LoadFilesKeeps<V>(out: LinkedMap<V>, docs: seq<Document>, parse: Object -> Result<V>,
                                            key: V -> Identifier, inv: (Identifier, V) -> bool)
    requires Holds(out, inv)
    requires forall root :: parse(root).Ok? ==> inv(key(parse(root).value), parse(root).value)
    ensures Holds(LoadFiles(out, docs, parse, key), inv)
  {
    if docs != [] {
      var n := |docs| - 1;
      LoadFilesKeeps(out, docs[..n], parse, key, inv);
    }
  }

  /** What walking one category directory does to its map, and whether the walk failed. */
  function LoadDirectory<V>(dir: Directory, out: LinkedMap<V>, parse: Object -> Result<V>,
                            key: V -> Identifier): (r: (LinkedMap<V>, bool))
    ensures r.1 <==> dir.WalkFails?
    ensures !dir.Listing? ==> r.0 == out
    ensures Extends(out, r.0)
  {
    match dir
    case NotADirectory => (out, false)
    case WalkFails => (out, true)
    case Listing(entries) => (LoadFiles(out, entries, parse, key), false)
  }

  /** `loadContainers` / `loadBeverages` / `loadEquipment`: the shared shape of the three
      loaders, with the parser and the key of its category. `failed` is the IOException the
      caller catches. */
  method WalkDirectory<V>(dir: Directory, out: LinkedMap<V>, parse: Object -> Result<V>,
                          key: V -> Identifier) returns (result: LinkedMap<V>, failed: bool)
    ensures (result, failed) == LoadDirectory(dir, out, parse, key)
    ensures failed <==> dir.WalkFails?
  {
    match dir
    case NotADirectory =>
      return out, false;
    case WalkFails =>
      return out, true;
    case Listing(entries) =>
      result := out;
      var i := 0;
      while i < |entries|
        invariant 0 <= i <= |entries|
        invariant result == LoadFiles(out, entries[..i], parse, key)
      {
        var doc := entries[i];
        assert entries[..i + 1][..i] == entries[..i];
        if IsJsonPath(doc.path) {
          var root := RootObject(doc.body);
          if root.Ok? {
            var data := parse(root.value);
            if data.Ok? {
              result := result.Put(key(data.value), data.value);
            }
          }
        }
        i := i + 1;
      }
      assert entries[..i] == entries;
      failed := false;
  }

  function ContainerParser(): Object -> Result<ContainerData> {
    root => DefinitionParsing.Container(root)
  }

  function BeverageParser(registry: set<Identifier>): Object -> Result<BeverageData> {
    root => Beverage(root, registry)
  }

  function EquipmentParser(): Object -> Result<EquipmentData> {
    root => EquipmentOf(root)
  }

  function ContainerKey(c: ContainerData): Identifier { c.id }
  function BeverageKey(b: BeverageData): Identifier { b.id }
  function EquipmentKey(e: EquipmentData): Identifier { e.id }

  /** One root path, as the body of `loadAll`'s loop: containers, then beverages, then
      equipment; a walk that fails abandons the rest of this root but keeps what the earlier
      stages stored. A root without "data/alchemy" is skipped. */
  function LoadRoot(root: ModRoot, pack: ContentPack, registry: set<Identifier>): (r: ContentPack)
    ensures !root.hasDataRoot ==> r == pack
    ensures root.hasDataRoot ==>
      r.containers == LoadDirectory(root.containers, pack.containers, ContainerParser(), ContainerKey).0
    ensures root.containers.WalkFails? ==> r == pack
    ensures root.containers.WalkFails? || root.beverages.WalkFails? ==> r.equipment == pack.equipment
    ensures root.hasDataRoot && !root.containers.WalkFails? ==>
      r.beverages == LoadDirectory(root.beverages, pack.beverages, BeverageParser(registry), BeverageKey).0
    ensures root.hasDataRoot && !root.containers.WalkFails? && !root.beverages.WalkFails? ==>
      r.equipment == LoadDirectory(root.equipment, pack.equipment, EquipmentParser(), EquipmentKey).0
    ensures PackExtends(pack, r)
  {
    if !root.hasDataRoot then pack
    else
      var containers := LoadDirectory(root.containers, pack.containers, ContainerParser(), ContainerKey);
      if containers.1 then pack.(containers := containers.0)
      else
        var beverages := LoadDirectory(root.beverages, pack.beverages, BeverageParser(registry), BeverageKey);
        if beverages.1 then pack.(containers := containers.0, beverages := beverages.0)
        else
          var equipment := LoadDirectory(root.equipment, pack.equipment, EquipmentParser(), EquipmentKey);
          ContentPack(beverages.0, containers.0, equipment.0)
  }

  /** Each of the three tables of `b` grew out of the same table of `a` by writes. */
  ghost predicate PackExtends(a: ContentPack, b: ContentPack) {
    && Extends(a.beverages, b.beverages)
    && Extends(a.containers, b.containers)
    && Extends(a.equipment, b.equipment)
  }

  /** The root paths in the order the mod container lists them, all into the same three maps.
      Every pack the loader can build this way is well formed. */
  function LoadRoots(roots: seq<ModRoot>, registry: set<Identifier>): (r: ContentPack)
    ensures WellFormed(r, registry)
  {
    if roots == [] then EmptyPack()
    else
      var before := LoadRoots(roots[..|roots| - 1], registry);
      LoadRootWellFormed(roots[|roots| - 1], before, registry);
      LoadRoot(roots[|roots| - 1], before, registry)
  }

  /** What any first `j` roots stored is kept, in place, by the whole load. */
  lemma {:induction false} LoadRootsKeepEarlier(roots: seq<ModRoot>, registry: set<Identifier>, j: nat)
    requires j <= |roots|
    ensures PackExtends(LoadRoots(roots[..j], registry), LoadRoots(roots, registry))
    decreases |roots|
  {
    if j == |roots| {
      assert roots[..j] == roots;
      PackExtendsReflexive(LoadRoots(roots, registry));
    } else {
      var n := |roots| - 1;
      var init := roots[..n];
      assert init[..j] == roots[..j];
      LoadRootsKeepEarlier(init, registry, j);
      var early := LoadRoots(roots[..j], registry);
      var middle := LoadRoots(init, registry);
      var whole := LoadRoots(roots, registry);
      assert whole == LoadRoot(roots[n], middle, registry);
      PackExtendsTransitive(early, middle, whole);
    }
  }

  lemma PackExtendsReflexive(a: ContentPack)
    ensures PackExtends(a, a)
  {
    assert a.beverages.order[..|a.beverages.order|] == a.beverages.order;
    assert a.containers.order[..|a.containers.order|] == a.containers.order;
    assert a.equipment.order[..|a.equipment.order|] == a.equipment.order;
  }

  lemma PackExtendsTransitive(a: ContentPack, b: ContentPack, c: ContentPack)
    requires PackExtends(a, b) && PackExtends(b, c)
    ensures PackExtends(a, c)
  {
    ExtendsTransitive(a.beverages, b.beverages, c.beverages);
    ExtendsTransitive(a.containers, b.containers, c.containers);
    ExtendsTransitive(a.equipment, b.equipment, c.equipment);
  }

  /** `loadAll` as a specification: a missing mod container (`None`) gives an empty pack, and
      every pack is well formed. */
  function LoadAllOf(mod: Option<seq<ModRoot>>, registry: set<Identifier>): (r: ContentPack)
    ensures mod.None? ==> r.beverages.Size() == 0 && r.containers.Size() == 0 && r.equipment.Size() == 0
    ensures WellFormed(r, registry)
  {
    match mod
    case None => EmptyPack()
    case Some(roots) => LoadRoots(roots, registry)
  }

  /** What every pack the loader builds promises: the three tables are well-formed, every entry
      is stored under its own identifier, and every beverage has at least one effect, each
      naming an effect the registry holds. */
  ghost predicate WellFormed(pack: ContentPack, registry: set<Identifier>) {
    && pack.beverages.Valid() && pack.containers.Valid() && pack.equipment.Valid()
    && Holds(pack.beverages, SoundBeverage(registry))
    && Holds(pack.containers, (k: Identifier, c: ContainerData) => k == c.id)
    && Holds(pack.equipment, (k: Identifier, e: EquipmentData) => k == e.id)
  }

  function SoundBeverage(registry: set<Identifier>): (Identifier, BeverageData) -> bool {
    (k: Identifier, b: BeverageData) =>
      && k == b.id
      && |b.effects| > 0
      && forall i :: 0 <= i < |b.effects| ==> b.effects[i].effect in registry
  }

  lemma LoadRootWellFormed(root: ModRoot, pack: ContentPack, registry: set<Identifier>)
    requires WellFormed(pack, registry)
    ensures WellFormed(LoadRoot(root, pack, registry), registry)
  {
    if root.hasDataRoot {
      KeepsDirectory(root.containers, pack.containers, ContainerParser(), ContainerKey,
                     (k: Identifier, c: ContainerData) => k == c.id);
      KeepsDirectory(root.beverages, pack.beverages, BeverageParser(registry), BeverageKey,
                     SoundBeverage(registry));
      KeepsDirectory(root.equipment, pack.equipment, EquipmentParser(), EquipmentKey,
                     (k: Identifier, e: EquipmentData) => k == e.id);
    }
  }

  lemma KeepsDirectory<V>(dir: Directory, out: LinkedMap<V>, parse: Object -> Result<V>,
                          key: V -> Identifier, inv: (Identifier, V) -> bool)
    requires out.Valid() && Holds(out, inv)
    requires forall root :: parse(root).Ok? ==> inv(key(parse(root).value), parse(root).value)
    ensures LoadDirectory(dir, out, parse, key).0.Valid()
    ensures Holds(LoadDirectory(dir, out, parse, key).0, inv)
  {
    if dir.Listing? {
      LoadFilesValid(out, dir.entries, parse, key);
      LoadFilesKeeps(out, dir.entries, parse, key, inv);
    }
  }

  /** `loadAll`: an empty pack when the mod container is missing, otherwise every root path
      loaded in turn. */
  method LoadAll(mod: Option<seq<ModRoot>>, registry: set<Identifier>) returns (pack: ContentPack)
    ensures pack == LoadAllOf(mod, registry)
    ensures WellFormed(pack, registry)
  {
    match mod
    case None =>
      pack := EmptyPack();
    case Some(roots) =>
      pack := LoadEachRoot(roots, registry);
  }

  /** `loadAll`'s loop over the root paths, all into the same three maps. */
  method LoadEachRoot(roots: seq<ModRoot>, registry: set<Identifier>) returns (pack: ContentPack)
    ensures pack == LoadRoots(roots, registry)
  {
    pack := EmptyPack();
    var i := 0;
    while i < |roots|
      invariant 0 <= i <= |roots|
      invariant pack == LoadRoots(roots[..i], registry)
    {
      assert roots[..i + 1][..i] == roots[..i];
      pack := LoadRootPaths(roots[i], pack, registry);
      i := i + 1;
    }
    assert roots[..i] == roots;
  }

  /** The body of `loadAll`'s loop for one root path: the three loaders in turn, the `try`
      ending the root at the first walk that fails. */
  method LoadRootPaths(root: ModRoot, pack: ContentPack, registry: set<Identifier>) returns (r: ContentPack)
    ensures r == LoadRoot(root, pack, registry)
  {
    r := pack;
    if root.hasDataRoot {
      var containers, failed := WalkDirectory(root.containers, r.containers, ContainerParser(), ContainerKey);
      r := r.(containers := containers);
      if !failed {
        var beverages, failedBeverages := WalkDirectory(root.beverages, r.beverages, BeverageParser(registry), BeverageKey);
        r := r.(beverages := beverages);
        if !failedBeverages {
          var equipment, _ := WalkDirectory(root.equipment, r.equipment, EquipmentParser(), EquipmentKey);
          r := r.(equipment := equipment);
        }
      }
    }
  }
}
