/** Reading one beverage document (`parseBeverage` in DataLoader.java and the helpers it
    calls). Every absent member takes its documented default; the document is refused when its
    type tag is wrong, when a present member does not convert, when an effect names an effect
    the host's registry does not hold, or when it lists no effects at all. */
module BeverageParsing {
  import opened Outcomes
  import opened Identifiers
  import opened Json
  import opened Fields
  import opened Beverages
  import JavaLang

  const BeverageTag: string := "alchemy:alcohol"

  /** One element of the "effects" array: an object whose "effect" names a registered status
      effect, each other member read with its default. */
  function EffectEntryOf(element: Json, registry: set<Identifier>): (r: Result<EffectEntry>)
    ensures r.Ok? ==> element.JObject? && r.value.effect in registry
    ensures r.Ok? ==> var o := element.members;
      && IdOf(o, "effect") == Ok(r.value.effect)
      && IntegerOr(o, "duration", 200) == Ok(r.value.durationTicks)
      && IntegerOr(o, "amplifier", 0) == Ok(r.value.amplifier)
      && NumberOr(o, "chance", 1.0) == Ok(r.value.chance)
      && BoolOr(o, "show_particles", true) == Ok(r.value.showParticles)
      && BoolOr(o, "show_icon", true) == Ok(r.value.showIcon)
      && BoolOr(o, "ambient", false) == Ok(r.value.ambient)
    ensures (element.JObject? && IdOf(element.members, "effect").Ok?
      && IdOf(element.members, "effect").value !in registry) ==> r.Err?
    ensures (element.JObject? && var o := element.members;
      && IdOf(o, "effect").Ok? && IdOf(o, "effect").value in registry
      && IntegerOr(o, "duration", 200).Ok? && IntegerOr(o, "amplifier", 0).Ok?
      && NumberOr(o, "chance", 1.0).Ok? && BoolOr(o, "show_particles", true).Ok?
      && BoolOr(o, "show_icon", true).Ok? && BoolOr(o, "ambient", false).Ok?) ==> r.Ok?
  {
    var obj :- AsObject(element);
    var effect :- IdOf(obj, "effect");
    if effect !in registry then Err(UnknownStatusEffect(ToString(effect)))
    else
      var duration :- IntegerOr(obj, "duration", 200);
      var amplifier :- IntegerOr(obj, "amplifier", 0);
      var chance :- NumberOr(obj, "chance", 1.0);
      var showParticles :- BoolOr(obj, "show_particles", true);
      var showIcon :- BoolOr(obj, "show_icon", true);
      var ambient :- BoolOr(obj, "ambient", false);
      Ok(EffectEntry(effect, duration, amplifier, chance, showParticles, showIcon, ambient))
  }

  /** The effect list: one entry per element, in document order; the first element that fails
      fails the whole list. */
  function EffectsOf(items: seq<Json>, registry: set<Identifier>): (r: Result<seq<EffectEntry>>)
    ensures r.Ok? ==> |r.value| == |items|
  {
    if items == [] then Ok([])
    else
      var n := |items| - 1;
      var init :- EffectsOf(items[..n], registry);
      var last :- EffectEntryOf(items[n], registry);
      Ok(init + [last])
  }

  /** The list is accepted exactly when every element is, and then its i-th entry is what the
      i-th element reads as. */
  lemma EffectsOfElements(items: seq<Json>, registry: set<Identifier>)
    ensures EffectsOf(items, registry).Ok? <==> forall i :: 0 <= i < |items| ==> EffectEntryOf(items[i], registry).Ok?
    ensures EffectsOf(items, registry).Ok? ==>
      forall i :: 0 <= i < |items| ==> EffectEntryOf(items[i], registry) == Ok(EffectsOf(items, registry).value[i])
  {
    EffectsOfValues(items, registry);
    if forall i :: 0 <= i < |items| ==> EffectEntryOf(items[i], registry).Ok? {
      EffectsOfAllAccepted(items, registry);
    }
  }

  /** An accepted list holds, at each position, what the element there reads as. */
  lemma {:induction false} EffectsOfValues(items: seq<Json>, registry: set<Identifier>)
    ensures EffectsOf(items, registry).Ok? ==>
      forall i :: 0 <= i < |items| ==> EffectEntryOf(items[i], registry) == Ok(EffectsOf(items, registry).value[i])
  {
    if items != [] && EffectsOf(items, registry).Ok? {
      var n := |items| - 1;
      var init := items[..n];
      EffectsOfValues(init, registry);
      var head := EffectsOf(init, registry).value;
      var r := EffectsOf(items, registry).value;
      assert r == head + [EffectEntryOf(items[n], registry).value];
      forall i | 0 <= i < |items|
        ensures EffectEntryOf(items[i], registry) == Ok(r[i])
      {
        if i < n {
          assert init[i] == items[i];
          assert r[i] == head[i];
        }
      }
    }
  }

  /** A list whose every element is accepted is accepted. */
  lemma {:induction false} EffectsOfAllAccepted(items: seq<Json>, registry: set<Identifier>)
    requires forall i :: 0 <= i < |items| ==> EffectEntryOf(items[i], registry).Ok?
    ensures EffectsOf(items, registry).Ok?
  {
    if items != [] {
      var n := |items| - 1;
      var init := items[..n];
      assert forall i :: 0 <= i < n ==> init[i] == items[i];
      EffectsOfAllAccepted(init, registry);
    }
  }

  /** The loop of `parseBeverage` that appends one entry per array element. */
  method ParseEffects(items: seq<Json>, registry: set<Identifier>) returns (r: Result<seq<EffectEntry>>)
    ensures r == EffectsOf(items, registry)
  {
    var effects: seq<EffectEntry> := [];
    var i := 0;
    while i < |items|
      invariant 0 <= i <= |items|
      invariant EffectsOf(items[..i], registry) == Ok(effects)
    {
      var entry := EffectEntryOf(items[i], registry);
      assert items[..i + 1][..i] == items[..i];
      if entry.Err? {
        EffectsFailFromPrefix(items, registry, i + 1);
        return Err(entry.error);
      }
      effects := effects + [entry.value];
      i := i + 1;
    }
    assert items[..i] == items;
    r := Ok(effects);
  }

  /** Once a prefix of the array fails, the whole array fails with the same error. */
  lemma {:induction false} EffectsFailFromPrefix(items: seq<Json>, registry: set<Identifier>, k: nat)
    requires k <= |items| && EffectsOf(items[..k], registry).Err?
    ensures EffectsOf(items, registry) == EffectsOf(items[..k], registry)
    decreases |items| - k
  {
    if k < |items| {
      assert items[..k + 1][..k] == items[..k];
      EffectsFailFromPrefix(items, registry, k + 1);
    } else {
      assert items[..k] == items;
    }
  }

  /** The "stats" block and its nested "nutrition" and "intoxication" blocks; a block that is
      absent or not an object reads as empty, so all of its members take their defaults. */
  function StatsOf(root: Object): (r: Result<Stats>)
    ensures r.Ok? ==> var stats := ObjectOrEmpty(root, "stats");
      var nutrition := ObjectOrEmpty(stats, "nutrition");
      var intoxication := ObjectOrEmpty(stats, "intoxication");
      && NumberOr(stats, "alcohol_by_volume", 0.0) == Ok(r.value.alcoholByVolume)
      && NumberOr(stats, "strength", 0.0) == Ok(r.value.strength)
      && IntegerOr(nutrition, "hunger", 1) == Ok(r.value.nutrition.hunger)
      && NumberOr(nutrition, "saturation", 0.0) == Ok(r.value.nutrition.saturation)
      && NumberOr(intoxication, "value", 0.0) == Ok(r.value.intoxication.value)
      && NumberOr(intoxication, "decay_rate_per_tick", 0.0) == Ok(r.value.intoxication.decayRatePerTick)
    ensures ObjectOrEmpty(root, "stats") == map[] ==> r == Ok(Stats(0.0, 0.0, Intoxication(0.0, 0.0), Nutrition(1, 0.0)))
    ensures var stats := ObjectOrEmpty(root, "stats");
      var nutrition := ObjectOrEmpty(stats, "nutrition");
      var intoxication := ObjectOrEmpty(stats, "intoxication");
      r.Ok? <==>
        (&& NumberOr(stats, "alcohol_by_volume", 0.0).Ok? && NumberOr(stats, "strength", 0.0).Ok?
         && IntegerOr(nutrition, "hunger", 1).Ok? && NumberOr(nutrition, "saturation", 0.0).Ok?
         && NumberOr(intoxication, "value", 0.0).Ok?
         && NumberOr(intoxication, "decay_rate_per_tick", 0.0).Ok?)
  {
    var stats := ObjectOrEmpty(root, "stats");
    var abv :- NumberOr(stats, "alcohol_by_volume", 0.0);
    var strength :- NumberOr(stats, "strength", 0.0);
    var nutrition := ObjectOrEmpty(stats, "nutrition");
    var hunger :- IntegerOr(nutrition, "hunger", 1);
    var saturation :- NumberOr(nutrition, "saturation", 0.0);
    var intoxication := ObjectOrEmpty(stats, "intoxication");
    var value :- NumberOr(intoxication, "value", 0.0);
    var decay :- NumberOr(intoxication, "decay_rate_per_tick", 0.0);
    Ok(Stats(abv, strength, Intoxication(value, decay), Nutrition(hunger, saturation)))
  }

  /** The object `resolveTextKeys` reads from: the "text" member when it is an object, the
      document itself otherwise. */
  function TextSource(root: Object): Object {
    if "text" in root && root["text"].JObject? then root["text"].members else root
  }

  /** `resolveTextKeys`: each of the twelve keys is read from the text source, and is null when
      absent there. */
  function TextKeysOf(root: Object): (r: Result<TextKeys>)
    ensures var text := TextSource(root);
      r.Ok? <==>
        && StringOrNull(text, "name_key").Ok? && StringOrNull(text, "lore_key").Ok?
        && StringOrNull(text, "tooltip_key").Ok? && StringOrNull(text, "effect_text_key").Ok?
        && StringOrNull(text, "brew_time_text_key").Ok? && StringOrNull(text, "ingredients_text_key").Ok?
        && StringOrNull(text, "container_text_key").Ok? && StringOrNull(text, "rarity_text_key").Ok?
        && StringOrNull(text, "category_text_key").Ok? && StringOrNull(text, "flavor_text_key").Ok?
        && StringOrNull(text, "warning_key").Ok? && StringOrNull(text, "crafting_instructions_key").Ok?
    ensures r.Ok? ==> var text := TextSource(root);
      && StringOrNull(text, "name_key") == Ok(r.value.name)
      && StringOrNull(text, "lore_key") == Ok(r.value.lore)
      && StringOrNull(text, "tooltip_key") == Ok(r.value.tooltip)
      && StringOrNull(text, "effect_text_key") == Ok(r.value.effect)
      && StringOrNull(text, "brew_time_text_key") == Ok(r.value.brewTime)
      && StringOrNull(text, "ingredients_text_key") == Ok(r.value.ingredients)
      && StringOrNull(text, "container_text_key") == Ok(r.value.container)
      && StringOrNull(text, "rarity_text_key") == Ok(r.value.rarity)
      && StringOrNull(text, "category_text_key") == Ok(r.value.category)
      && StringOrNull(text, "flavor_text_key") == Ok(r.value.flavor)
      && StringOrNull(text, "warning_key") == Ok(r.value.warning)
      && StringOrNull(text, "crafting_instructions_key") == Ok(r.value.crafting)
  {
    var text := TextSource(root);
    var name :- StringOrNull(text, "name_key");
    var lore :- StringOrNull(text, "lore_key");
    var tooltip :- StringOrNull(text, "tooltip_key");
    var effect :- StringOrNull(text, "effect_text_key");
    var brewTime :- StringOrNull(text, "brew_time_text_key");
    var ingredients :- StringOrNull(text, "ingredients_text_key");
    var container :- StringOrNull(text, "container_text_key");
    var rarity :- StringOrNull(text, "rarity_text_key");
    var category :- StringOrNull(text, "category_text_key");
    var flavor :- StringOrNull(text, "flavor_text_key");
    var warning :- StringOrNull(text, "warning_key");
    var crafting :- StringOrNull(text, "crafting_instructions_key");
    Ok(TextKeys(name, lore, tooltip, effect, brewTime, ingredients, container, rarity, category,
                flavor, warning, crafting))
  }

  /** `parseConfig`: each member of the "config" object read with its default; the optional
      overrides are null exactly when their member is absent. */
  function ConfigOf(root: Object): (r: Result<Config>)
    ensures r.Ok? ==> var cfg := ObjectOrEmpty(root, "config");
      && BoolOr(cfg, "enabled", true) == Ok(r.value.enabled)
      && StringOrNull(cfg, "override_rarity") == Ok(r.value.overrideRarity)
      && OptionalInteger(cfg, "override_stack_size") == Ok(r.value.overrideStackSize)
      && OptionalInteger(cfg, "override_loot_weight") == Ok(r.value.overrideLootWeight)
      && BoolOr(cfg, "disable_random_failures", false) == Ok(r.value.disableRandomFailures)
      && BoolOr(cfg, "disable_spoilage", false) == Ok(r.value.disableSpoilage)
    ensures ObjectOrEmpty(root, "config") == map[] ==> r == Ok(Config(true, None, None, None, false, false))
    ensures var cfg := ObjectOrEmpty(root, "config");
      r.Ok? <==>
        (&& BoolOr(cfg, "enabled", true).Ok? && StringOrNull(cfg, "override_rarity").Ok?
         && OptionalInteger(cfg, "override_stack_size").Ok?
         && OptionalInteger(cfg, "override_loot_weight").Ok?
         && BoolOr(cfg, "disable_random_failures", false).Ok? && BoolOr(cfg, "disable_spoilage", false).Ok?)
  {
    var cfg := ObjectOrEmpty(root, "config");
    var enabled :- BoolOr(cfg, "enabled", true);
    var overrideRarity :- StringOrNull(cfg, "override_rarity");
    var overrideStackSize :- OptionalInteger(cfg, "override_stack_size");
    var overrideLootWeight :- OptionalInteger(cfg, "override_loot_weight");
    var disableRandomFailures :- BoolOr(cfg, "disable_random_failures", false);
    var disableSpoilage :- BoolOr(cfg, "disable_spoilage", false);
    Ok(Config(enabled, overrideRarity, overrideStackSize, overrideLootWeight,
              disableRandomFailures, disableSpoilage))
  }

  /** `cfg.has(key) ? integer(cfg, key, 0) : null`. */
  function OptionalInteger(obj: Object, key: string): (r: Result<Option<int>>)
    ensures key !in obj ==> r == Ok(None)
    ensures key in obj ==> (r.Ok? <==> AsInt(obj[key]).Ok?)
    ensures key in obj && r.Ok? ==> r.value == Some(AsInt(obj[key]).value)
  {
    if key in obj then
      var n :- IntegerOr(obj, key, 0);
      Ok(Some(n))
    else Ok(None)
  }

  /** `parseBeverage`, as a specification: the members are read in the source's order, so the
      first failing member decides the error. */
  function Beverage(root: Object, registry: set<Identifier>): (r: Result<BeverageData>)
    ensures r.Ok? ==> HasType(root, BeverageTag)
    ensures r.Ok? ==> IdOf(root, "id") == Ok(r.value.id) && IdOf(root, "container") == Ok(r.value.container)
    ensures ArrayOrEmpty(root, "effects") == [] ==> r.Err?
    ensures r.Ok? ==> var items := ArrayOrEmpty(root, "effects");
      && |r.value.effects| == |items| > 0
      && forall i :: 0 <= i < |items| ==> EffectEntryOf(items[i], registry) == Ok(r.value.effects[i])
    ensures r.Ok? ==> forall i :: 0 <= i < |r.value.effects| ==> r.value.effects[i].effect in registry
    ensures r.Ok? ==>
      && StringOr(root, "rarity", "common") == Ok(r.value.rarity)
      && IntegerOr(root, "stack_size", 16) == Ok(r.value.stackSize)
      && StringOr(root, "category", "beer") == Ok(r.value.category)
      && StringOr(root, "style", "") == Ok(r.value.style)
    ensures r.Ok? ==> StatsOf(root) == Ok(r.value.stats)
    ensures r.Ok? ==> TextKeysOf(root) == Ok(r.value.textKeys) && ConfigOf(root) == Ok(r.value.config)
    ensures var items := ArrayOrEmpty(root, "effects");
      r.Ok? <==>
        (&& HasType(root, BeverageTag) && IdOf(root, "id").Ok? && IdOf(root, "container").Ok?
         && StringOr(root, "rarity", "common").Ok? && IntegerOr(root, "stack_size", 16).Ok?
         && StatsOf(root).Ok?
         && items != [] && (forall i :: 0 <= i < |items| ==> EffectEntryOf(items[i], registry).Ok?)
         && TextKeysOf(root).Ok? && ConfigOf(root).Ok?
         && StringOr(root, "category", "beer").Ok? && StringOr(root, "style", "").Ok?)
  {
    EffectsOfElements(ArrayOrEmpty(root, "effects"), registry);
    var tagged :- ExpectType(root, BeverageTag);
    var id :- IdOf(root, "id");
    var container :- IdOf(root, "container");
    var rarity :- StringOr(root, "rarity", "common");
    var stackSize :- IntegerOr(root, "stack_size", 16);
    var stats :- StatsOf(root);
    var effects :- EffectsOf(ArrayOrEmpty(root, "effects"), registry);
    if effects == [] then Err(NoEffects)
    else
      var textKeys :- TextKeysOf(root);
      var config :- ConfigOf(root);
      var category :- StringOr(root, "category", "beer");
      var style :- StringOr(root, "style", "");
      NewBeverageData(Some(id), category, style, Some(container), rarity, stackSize,
                      Some(stats), Some(effects), textKeys, config)
  }

  /** `parseBeverage`, statement by statement: the effect loop runs as a loop, and the record
      constructor's null checks never fire on what the parser hands them. */
  method ParseBeverage(root: Object, registry: set<Identifier>) returns (r: Result<BeverageData>)
    ensures r == Beverage(root, registry)
  {
    var tagged :- ExpectType(root, BeverageTag);
    var id :- IdOf(root, "id");
    var container :- IdOf(root, "container");
    var rarity :- StringOr(root, "rarity", "common");
    var stackSize :- IntegerOr(root, "stack_size", 16);
    var stats :- StatsOf(root);
    var effects :- ParseEffects(ArrayOrEmpty(root, "effects"), registry);
    if effects == [] {
      return Err(NoEffects);
    }
    var textKeys :- TextKeysOf(root);
    var config :- ConfigOf(root);
    var category :- StringOr(root, "category", "beer");
    var style :- StringOr(root, "style", "");
    r := NewBeverageData(Some(id), category, style, Some(container), rarity, stackSize,
                         Some(stats), Some(effects), textKeys, config);
  }

  /** "minecraft:haste" parses to the haste identifier. */
  lemma HasteParses()
    ensures Parse("minecraft:haste") == Ok(Identifier(DefaultNamespace, "haste"))
  {
    var haste := Identifier(DefaultNamespace, "haste");
    assert Valid(haste) by { assert ValidNamespace("minecraft") && ValidPath("haste"); }
    ParseToString(haste);
    assert ToString(haste) == "minecraft:haste";
  }

  /** An element holding "effect": "minecraft:haste", "duration": 6000, "amplifier": 0 and
      "chance": 1.0, and none of the three flags, reads as haste for 6000 ticks at amplifier 0,
      always firing, with particles and icon shown and not ambient; the game then receives
      haste/6000/0. */
  lemma HasteEntryExample(o: Object, registry: set<Identifier>)
    requires Identifier(DefaultNamespace, "haste") in registry
    requires "effect" in o && o["effect"] == JString("minecraft:haste")
    requires "duration" in o && o["duration"] == JNumber("6000", 6000.0)
    requires "amplifier" in o && o["amplifier"] == JNumber("0", 0.0)
    requires "chance" in o && o["chance"] == JNumber("1.0", 1.0)
    requires "show_particles" !in o && "show_icon" !in o && "ambient" !in o
    ensures var haste := Identifier(DefaultNamespace, "haste");
      && EffectEntryOf(JObject(o), registry) == Ok(EffectEntry(haste, 6000, 0, 1.0, true, true, false))
      && EffectEntryOf(JObject(o), registry).value.ToInstance() == EffectInstance(haste, 6000, 0, false, true, true)
  {
    var haste := Identifier(DefaultNamespace, "haste");
    HasteParses();
    assert IdOf(o, "effect") == Ok(haste);
    assert IntegerOr(o, "duration", 200) == Ok(6000) by {
      assert JavaLang.TruncateTowardZero(6000.0) == 6000;
      assert JavaLang.Wrap32(6000) == 6000;
    }
    assert IntegerOr(o, "amplifier", 0) == Ok(0) by {
      assert JavaLang.TruncateTowardZero(0.0) == 0;
      assert JavaLang.Wrap32(0) == 0;
    }
  }

  /** A document with only "type", "id", "container" and one accepted effect is accepted, with
      that effect as its only entry. */
  lemma MinimalBeverageAccepted(root: Object, registry: set<Identifier>, element: Json)
    requires root.Keys == {"type", "id", "container", "effects"}
    requires root["type"] == JString(BeverageTag)
    requires root["id"].JString? && Parse(root["id"].s).Ok?
    requires root["container"].JString? && Parse(root["container"].s).Ok?
    requires root["effects"] == JArray([element]) && EffectEntryOf(element, registry).Ok?
    ensures Beverage(root, registry).Ok?
    ensures Beverage(root, registry).value.effects == [EffectEntryOf(element, registry).value]
  {
    NoTextKeys(root);
    MinimalMembers(root);
  }

  /** Every member such a document leaves out takes its default: stack size 16, rarity "common",
      category "beer", an empty style, default stats and config, and no text keys. */
  lemma MinimalBeverageExample(root: Object, registry: set<Identifier>, element: Json)
    requires root.Keys == {"type", "id", "container", "effects"}
    requires root["type"] == JString(BeverageTag)
    requires root["id"].JString? && Parse(root["id"].s).Ok?
    requires root["container"].JString? && Parse(root["container"].s).Ok?
    requires root["effects"] == JArray([element]) && EffectEntryOf(element, registry).Ok?
    ensures Beverage(root, registry).Ok?
    ensures var b := Beverage(root, registry).value;
      && b.stackSize == 16 && b.rarity == "common" && b.category == "beer" && b.style == ""
      && b.stats == Stats(0.0, 0.0, Intoxication(0.0, 0.0), Nutrition(1, 0.0))
      && b.config == Config(true, None, None, None, false, false)
      && b.textKeys == TextKeys(None, None, None, None, None, None, None, None, None, None, None, None)
  {
    MinimalBeverageAccepted(root, registry, element);
    NoTextKeys(root);
    MinimalMembers(root);
  }

  /** In a document with only "type", "id", "container" and "effects", the other members the
      parser reads take their defaults. */
  lemma MinimalMembers(root: Object)
    requires root.Keys == {"type", "id", "container", "effects"}
    ensures StatsOf(root) == Ok(Stats(0.0, 0.0, Intoxication(0.0, 0.0), Nutrition(1, 0.0)))
    ensures ConfigOf(root) == Ok(Config(true, None, None, None, false, false))
    ensures StringOr(root, "rarity", "common") == Ok("common") && IntegerOr(root, "stack_size", 16) == Ok(16)
    ensures StringOr(root, "category", "beer") == Ok("beer") && StringOr(root, "style", "") == Ok("")
  {
    assert "stats" !in root && "config" !in root;
    assert "stack_size" !in root && "rarity" !in root && "category" !in root && "style" !in root;
  }

  /** A document with none of the text keys and no "text" member reads every text key as null. */
  lemma NoTextKeys(root: Object)
    requires root.Keys == {"type", "id", "container", "effects"}
    ensures TextKeysOf(root) == Ok(TextKeys(None, None, None, None, None, None, None, None, None, None, None, None))
  {
    assert "text" !in root;
    assert TextSource(root) == root;
    assert "name_key" !in root && "lore_key" !in root && "tooltip_key" !in root;
    assert "effect_text_key" !in root && "brew_time_text_key" !in root && "ingredients_text_key" !in root;
    assert "container_text_key" !in root && "rarity_text_key" !in root && "category_text_key" !in root;
    assert "flavor_text_key" !in root && "warning_key" !in root && "crafting_instructions_key" !in root;
  }

  /** Every beverage the parser accepts has a primary effect. */
  lemma ParsedBeverageHasPrimaryEffect(root: Object, registry: set<Identifier>)
    requires Beverage(root, registry).Ok?
    ensures Beverage(root, registry).value.PrimaryEffect() == Some(Beverage(root, registry).value.effects[0])
  {
  }
}
