/** The built-in beverage table (BeverageManager.java): an insertion-ordered table keyed by
    "alchemy:<path>", filled with eight beverages when the class is initialised and open to
    further `register` calls. The Java table is a static field; here it is the field of one
    manager object, whose constructor plays the static initialiser.

    `register` hands its arguments to a six-argument `BeverageData` constructor that the
    record does not declare, so how the stored value is built is a parameter of the model:
    `build` turns one registration into the value stored for it. */
module Manager {
  import opened Outcomes
  import opened Identifiers
  import opened JavaLang
  import opened LinkedMaps
  import opened Beverages

  const ModId: string := "alchemy"

  /** Game ticks per second. */
  const TicksPerSecond: int := 20

  /** `minutes`: `minutes * 20 * 60` in 32-bit arithmetic, which is `minutes * 1200` wrapped
      once, and exactly `minutes * 1200` whenever that fits in an int. */
  function Minutes(minutes: int): (r: int)
    ensures r == Wrap32(minutes * 1200)
    ensures IsInt(minutes * 1200) ==> r == minutes * 1200
  {
    Wrap32Product(minutes * TicksPerSecond, 60);
    Wrap32(Wrap32(minutes * TicksPerSecond) * 60)
  }

  /** `seconds`: `seconds * 20` in 32-bit arithmetic, congruent to the exact product modulo
      2^32, and exactly the product whenever that fits in an int. */
  function Seconds(seconds: int): (r: int)
    ensures IsInt(r)
    ensures (seconds * TicksPerSecond - r) % IntRange == 0
    ensures IsInt(seconds * TicksPerSecond) ==> r == seconds * TicksPerSecond
  {
    Wrap32(seconds * TicksPerSecond)
  }

  /** The arguments of one `register` call. */
  datatype Recipe = Recipe(
    path: string, effect: Identifier, durationTicks: int, amplifier: int,
    hunger: int, saturation: real)
  {
    /** The identifier the beverage is stored under. */
    function Id(): Identifier {
      Identifier(ModId, path)
    }
  }

  function Vanilla(name: string): Identifier {
    Identifier(DefaultNamespace, name)
  }

  /** The eight registrations of the static initialiser, in order. */
  function StaticRecipes(): (r: seq<Recipe>)
    ensures |r| == 8
  {
    [ Recipe("coppercap_lager", Vanilla("haste"), Minutes(5), 0, 4, 0.6),
      Recipe("frostmarsh_pils", Vanilla("speed"), Minutes(3), 0, 4, 0.6),
      Recipe("emberhold_amber_ale", Vanilla("fire_resistance"), Minutes(2), 0, 4, 0.6),
      Recipe("sunvale_golden_pale", Vanilla("haste"), Minutes(2), 0, 4, 0.6),
      Recipe("stormwake_session_ipa", Vanilla("dolphins_grace"), Minutes(3), 0, 4, 0.6),
      Recipe("blackvault_stout", Vanilla("resistance"), Minutes(3), 0, 5, 0.7),
      Recipe("thornveil_herbal_ale", Vanilla("regeneration"), Seconds(45), 0, 4, 0.6),
      Recipe("ropesend_dockside_brew", Vanilla("luck"), Minutes(2), 0, 4, 0.6) ]
  }

  /** The table that registering `recipes` in order builds from an empty one: it lists each
      key once, holds every registration's identifier, and has no more entries than
      registrations. */
  function Registered(recipes: seq<Recipe>, build: Recipe -> BeverageData): (r: LinkedMap<BeverageData>)
    ensures r.Valid()
    ensures |r.order| <= |recipes|
    ensures forall i :: 0 <= i < |recipes| ==> recipes[i].Id() in r.entries
  {
    if recipes == [] then Empty()
    else
      var n := |recipes| - 1;
      var before := Registered(recipes[..n], build);
      PutValid(before, recipes[n].Id(), build(recipes[n]));
      assert forall i :: 0 <= i < n ==> recipes[..n][i] == recipes[i];
      before.Put(recipes[n].Id(), build(recipes[n]))
  }

  lemma RegisteredStep(recipes: seq<Recipe>, k: nat, build: Recipe -> BeverageData)
    requires k < |recipes|
    ensures Registered(recipes[..k + 1], build) == Registered(recipes[..k], build).Put(recipes[k].Id(), build(recipes[k]))
  {
    assert recipes[..k + 1][..k] == recipes[..k];
  }

  /** `table` holds one entry per registration of `recipes`, in registration order, each
      holding the value built for it. */
  ghost predicate ListsInOrder(table: LinkedMap<BeverageData>, recipes: seq<Recipe>, build: Recipe -> BeverageData) {
    && table.Valid() && |table.order| == |recipes|
    && (forall i :: 0 <= i < |recipes| ==> table.order[i] == recipes[i].Id())
    && (forall i :: 0 <= i < |recipes| ==>
          recipes[i].Id() in table.entries && table.entries[recipes[i].Id()] == build(recipes[i]))
  }

  /** Registering distinct paths gives one entry per registration, in registration order,
      each holding the value built for it. */
  lemma {:induction false} RegisteredTable(recipes: seq<Recipe>, build: Recipe -> BeverageData)
    requires forall i, j :: 0 <= i < j < |recipes| ==> recipes[i].path != recipes[j].path
    ensures ListsInOrder(Registered(recipes, build), recipes, build)
  {
    if recipes != [] {
      var n := |recipes| - 1;
      var init := recipes[..n];
      assert forall i :: 0 <= i < n ==> init[i] == recipes[i];
      RegisteredTable(init, build);
      PutFreshRecipe(Registered(init, build), recipes, build);
      assert Registered(recipes, build) == Registered(init, build).Put(recipes[n].Id(), build(recipes[n]));
    }
  }

  /** One registration under a path not registered before: the table gains one entry, at the
      end of the order, and keeps the ones it had. */
  lemma PutFreshRecipe(before: LinkedMap<BeverageData>, recipes: seq<Recipe>, build: Recipe -> BeverageData)
    requires recipes != []
    requires ListsInOrder(before, recipes[..|recipes| - 1], build)
    requires forall i :: 0 <= i < |recipes| - 1 ==> recipes[i].path != recipes[|recipes| - 1].path
    ensures var last := recipes[|recipes| - 1];
      ListsInOrder(before.Put(last.Id(), build(last)), recipes, build)
  {
    var n := |recipes| - 1;
    var last := recipes[n];
    assert forall i :: 0 <= i < n ==> recipes[..n][i] == recipes[i];
    PutValid(before, last.Id(), build(last));
    assert last.Id() !in before.entries by {
      assert forall i :: 0 <= i < n ==> before.order[i] != last.Id();
    }
  }

  /** The eight built-in paths are valid identifier paths, so none of the static registrations
      is refused. */
  lemma StaticPathsValid()
    ensures forall i :: 0 <= i < |StaticRecipes()| ==> ValidPath(StaticRecipes()[i].path)
  {
    FirstPathsValid();
    LastPathsValid();
    var r := StaticRecipes();
    forall i | 0 <= i < |r|
      ensures ValidPath(r[i].path)
    {
      if i == 0 { assert r[0].path == "coppercap_lager"; }
      else if i == 1 { assert r[1].path == "frostmarsh_pils"; }
      else if i == 2 { assert r[2].path == "emberhold_amber_ale"; }
      else if i == 3 { assert r[3].path == "sunvale_golden_pale"; }
      else if i == 4 { assert r[4].path == "stormwake_session_ipa"; }
      else if i == 5 { assert r[5].path == "blackvault_stout"; }
      else if i == 6 { assert r[6].path == "thornveil_herbal_ale"; }
      else { assert r[7].path == "ropesend_dockside_brew"; }
    }
  }

  lemma FirstPathsValid()
    ensures ValidPath("coppercap_lager") && ValidPath("frostmarsh_pils")
    ensures ValidPath("emberhold_amber_ale") && ValidPath("sunvale_golden_pale")
  {
  }

  lemma LastPathsValid()
    ensures ValidPath("stormwake_session_ipa") && ValidPath("blackvault_stout")
    ensures ValidPath("thornveil_herbal_ale") && ValidPath("ropesend_dockside_brew")
  {
  }

  class BeverageManager {
    var beverages: LinkedMap<BeverageData>
    const build: Recipe -> BeverageData

    ghost predicate Valid()
      reads this
    {
      beverages.Valid()
    }

    /** The static initialiser: the eight built-in registrations, in order. The source writes
        the eight `register` calls out; here they run from the table of their arguments. */
    constructor (build: Recipe -> BeverageData)
      ensures Valid()
      ensures this.build == build
      ensures beverages == Registered(StaticRecipes(), build)
    {
      this.build := build;
      beverages := Empty();
      new;
      var recipes := StaticRecipes();
      StaticPathsValid();
      var i := 0;
      while i < |recipes|
        invariant 0 <= i <= |recipes|
        invariant beverages == Registered(recipes[..i], build)
      {
        var recipe := recipes[i];
        var registered := Register(recipe.path, recipe.effect, recipe.durationTicks, recipe.amplifier,
                                   recipe.hunger, recipe.saturation);
        RegisteredStep(recipes, i, build);
        i := i + 1;
      }
      assert recipes[..i] == recipes;
      StaticTable(build);
    }

    /** `register`: stores the beverage built from the arguments under "alchemy:<path>" and
        returns it. A path that is not a valid identifier path is refused (the host's
        `Identifier.of` throws) and the table is left as it was. An existing entry with the same
        identifier is replaced in place; no other entry changes. */
    method Register(path: string, effect: Identifier, durationTicks: int, amplifier: int,
                    hunger: int, saturation: real) returns (r: Result<BeverageData>)
      requires Valid()
      modifies this
      ensures Valid()
      ensures r.Ok? <==> ValidPath(path)
      ensures r.Ok? ==>
        && r.value == build(Recipe(path, effect, durationTicks, amplifier, hunger, saturation))
        && beverages == old(beverages).Put(Identifier(ModId, path), r.value)
      ensures r.Err? ==> beverages == old(beverages)
    {
      var id :- Of(ModId, path);
      var data := build(Recipe(path, effect, durationTicks, amplifier, hunger, saturation));
      PutValid(beverages, id, data);
      beverages := beverages.Put(id, data);
      return Ok(data);
    }

    /** `get`: the beverage stored under `id`, or null. */
    function Get(id: Identifier): (r: Option<BeverageData>)
      reads this
      ensures r.Some? <==> id in beverages.entries
      ensures r.Some? ==> r.value == beverages.entries[id]
    {
      beverages.Get(id)
    }

    /** `all`: every stored beverage, once each, in first-registration order. */
    function All(): (r: seq<BeverageData>)
      reads this
      requires Valid()
      ensures |r| == |beverages.order|
      ensures forall i :: 0 <= i < |r| ==> r[i] == beverages.entries[beverages.order[i]]
    {
      beverages.Values()
    }
  }

  /** After registering, `get` of the new identifier returns the registered beverage. */
  method RegisterThenGet(manager: BeverageManager, path: string, effect: Identifier,
                         durationTicks: int, amplifier: int, hunger: int, saturation: real)
    returns (stored: Option<BeverageData>)
    requires manager.Valid() && ValidPath(path)
    modifies manager
    ensures stored == Some(manager.build(Recipe(path, effect, durationTicks, amplifier, hunger, saturation)))
  {
    var registered := manager.Register(path, effect, durationTicks, amplifier, hunger, saturation);
    stored := manager.Get(Identifier(ModId, path));
  }

  /** Registering the same path twice leaves the second value under the identifier, keeps the
      identifier's place in the order, and changes no other entry. */
  lemma RegisterTwice<V>(table: LinkedMap<V>, id: Identifier, first: V, second: V)
    requires table.Valid()
    ensures table.Put(id, first).Put(id, second).Get(id) == Some(second)
    ensures table.Put(id, first).Put(id, second).order == table.Put(id, second).order
    ensures forall k :: k != id ==> table.Put(id, first).Put(id, second).Get(k) == table.Get(k)
  {
  }

  /** The eight built-in paths are pairwise different. */
  lemma StaticPathsDistinct()
    ensures forall i, j :: 0 <= i < j < |StaticRecipes()| ==> StaticRecipes()[i].path != StaticRecipes()[j].path
  {
  }

  /** The built-in table has eight entries, in registration order, the first being the
      copper-cap lager, each holding the value built for its registration. */
  lemma StaticTable(build: Recipe -> BeverageData)
    ensures Registered(StaticRecipes(), build).Valid()
    ensures Registered(StaticRecipes(), build).Size() == |Registered(StaticRecipes(), build).entries.Keys| == 8
    ensures Registered(StaticRecipes(), build).order[0] == Identifier(ModId, "coppercap_lager")
    ensures forall r :: r in StaticRecipes() ==> Registered(StaticRecipes(), build).Get(r.Id()) == Some(build(r))
  {
    StaticPathsDistinct();
    RegisteredTable(StaticRecipes(), build);
    SizeIsKeyCount(Registered(StaticRecipes(), build));
  }

  /** The durations the static registrations pass, in ticks, in registration order. */
  lemma StaticDurations()
    ensures forall i :: 0 <= i < |StaticRecipes()| ==>
      StaticRecipes()[i].durationTicks == [6000, 3600, 2400, 2400, 3600, 3600, 900, 2400][i]
  {
  }
}
