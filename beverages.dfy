/** The immutable beverage definition and its behaviour (BeverageData.java): the nested
    records, the constructor's null checks, the primary effect, the translation key, and the
    chance-weighted application of the effect list when a beverage is consumed. */
module Beverages {
  import opened Outcomes
  import opened Identifiers
  import JavaLang

  datatype Intoxication = Intoxication(value: real, decayRatePerTick: real)

  datatype Nutrition = Nutrition(hunger: int, saturation: real)

  datatype Stats = Stats(alcoholByVolume: real, strength: real, intoxication: Intoxication, nutrition: Nutrition)

  /** A resolved status effect as handed to the game: `StatusEffectInstance`. */
  datatype EffectInstance = EffectInstance(
    effect: Identifier, duration: int, amplifier: int,
    ambient: bool, showParticles: bool, showIcon: bool)

  /** One configured effect; `effect` names an entry of the host's status-effect registry. */
  datatype EffectEntry = EffectEntry(
    effect: Identifier, durationTicks: int, amplifier: int, chance: real,
    showParticles: bool, showIcon: bool, ambient: bool)
  {
    /** `toInstance`: the instance the game receives carries every field of the entry
        except the chance. */
    function ToInstance(): (r: EffectInstance)
      ensures r.effect == effect && r.duration == durationTicks && r.amplifier == amplifier
      ensures r.ambient == ambient && r.showParticles == showParticles && r.showIcon == showIcon
    {
      EffectInstance(effect, durationTicks, amplifier, ambient, showParticles, showIcon)
    }
  }

  /** Optional text-key overrides; `None` is Java's null. */
  datatype TextKeys = TextKeys(
    name: Option<string>, lore: Option<string>, tooltip: Option<string>, effect: Option<string>,
    brewTime: Option<string>, ingredients: Option<string>, container: Option<string>,
    rarity: Option<string>, category: Option<string>, flavor: Option<string>,
    warning: Option<string>, crafting: Option<string>)

  datatype Config = Config(
    enabled: bool, overrideRarity: Option<string>, overrideStackSize: Option<int>,
    overrideLootWeight: Option<int>, disableRandomFailures: bool, disableSpoilage: bool)

  datatype BeverageData = BeverageData(
    id: Identifier, category: string, style: string, container: Identifier, rarity: string,
    stackSize: int, stats: Stats, effects: seq<EffectEntry>, textKeys: TextKeys, config: Config)
  {
    /** `primaryEffect`: the first entry, or null for an empty effect list. */
    function PrimaryEffect(): (r: Option<EffectEntry>)
      ensures r.None? <==> effects == []
      ensures r.Some? ==> r.value == effects[0]
    {
      if effects == [] then None else Some(effects[0])
    }

    /** `translationKey`: "item.<namespace>.<path>", followed by "." and the suffix unless the
        suffix is null or blank. */
    function TranslationKey(suffix: Option<string>): (r: string)
      ensures |r| >= |BaseKey()| && r[..|BaseKey()|] == BaseKey()
      ensures r == BaseKey() <==> suffix.None? || JavaLang.IsBlank(suffix.value)
      ensures r != BaseKey() ==> r[|BaseKey()|..] == "." + suffix.value
    {
      BaseKey() + (if suffix.None? || JavaLang.IsBlank(suffix.value) then "" else "." + suffix.value)
    }

    function BaseKey(): string {
      "item." + id.namespace + "." + id.path
    }
  }

  /** The record's compact constructor: a null id, container, stats or effect list is refused,
      checked in that order. The other components are not checked. */
  function NewBeverageData(
    id: Option<Identifier>, category: string, style: string, container: Option<Identifier>,
    rarity: string, stackSize: int, stats: Option<Stats>, effects: Option<seq<EffectEntry>>,
    textKeys: TextKeys, config: Config): (r: Result<BeverageData>)
    ensures r.Ok? <==> id.Some? && container.Some? && stats.Some? && effects.Some?
    ensures r.Ok? ==>
      && r.value.id == id.value && r.value.container == container.value
      && r.value.stats == stats.value && r.value.effects == effects.value
      && r.value.category == category && r.value.style == style && r.value.rarity == rarity
      && r.value.stackSize == stackSize && r.value.textKeys == textKeys && r.value.config == config
    ensures id.None? ==> r == Err(NullField("id"))
  {
    if id.None? then Err(NullField("id"))
    else if container.None? then Err(NullField("container"))
    else if stats.None? then Err(NullField("stats"))
    else if effects.None? then Err(NullField("effects"))
    else Ok(BeverageData(id.value, category, style, container.value, rarity, stackSize,
                         stats.value, effects.value, textKeys, config))
  }

  // --- applying effects --------------------------------------------------------------------

  /** Whether an entry fires on a draw: the draw is at most its chance. */
  predicate Fires(entry: EffectEntry, draw: real) {
    draw <= entry.chance
  }

  /** What the sink receives when `entries` meet the draws `draws`, one draw per entry in
      order: the instance of each entry that fires. */
  function Fired(entries: seq<EffectEntry>, draws: seq<real>): (r: seq<EffectInstance>)
    requires |draws| == |entries|
    ensures |r| <= |entries|
  {
    if entries == [] then []
    else
      var n := |entries| - 1;
      Fired(entries[..n], draws[..n]) + (if Fires(entries[n], draws[n]) then [entries[n].ToInstance()] else [])
  }

  /** The positions of the entries that fire, in increasing order. */
  function FiringPositions(entries: seq<EffectEntry>, draws: seq<real>): seq<nat>
    requires |draws| == |entries|
  {
    if entries == [] then []
    else
      var n := |entries| - 1;
      FiringPositions(entries[..n], draws[..n]) + (if Fires(entries[n], draws[n]) then [n] else [])
  }

  /** The firing positions are strictly increasing, so no entry is forwarded twice. */
  lemma {:induction false} FiringPositionsIncrease(entries: seq<EffectEntry>, draws: seq<real>)
    requires |draws| == |entries|
    ensures forall k :: 0 <= k < |FiringPositions(entries, draws)| ==> FiringPositions(entries, draws)[k] < |entries|
    ensures forall a, b :: 0 <= a < b < |FiringPositions(entries, draws)| ==>
      FiringPositions(entries, draws)[a] < FiringPositions(entries, draws)[b]
  {
    if entries != [] {
      var n := |entries| - 1;
      FiringPositionsIncrease(entries[..n], draws[..n]);
      var q := FiringPositions(entries[..n], draws[..n]);
      var p := FiringPositions(entries, draws);
      assert p == q + (if Fires(entries[n], draws[n]) then [n] else []);
      assert forall k :: 0 <= k < |q| ==> q[k] < n;
    }
  }

  /** A position is a firing position if and only if its entry fires on its own draw. */
  lemma {:induction false} FiringPositionsExact(entries: seq<EffectEntry>, draws: seq<real>, i: int)
    requires |draws| == |entries|
    ensures i in FiringPositions(entries, draws) <==> 0 <= i < |entries| && Fires(entries[i], draws[i])
  {
    if entries != [] {
      var n := |entries| - 1;
      var q := FiringPositions(entries[..n], draws[..n]);
      FiringPositionsIncrease(entries[..n], draws[..n]);
      assert FiringPositions(entries, draws) == q + (if Fires(entries[n], draws[n]) then [n] else []);
      assert n !in q;
      if i != n {
        FiringPositionsExact(entries[..n], draws[..n], i);
        assert 0 <= i < n ==> entries[..n][i] == entries[i] && draws[..n][i] == draws[i];
      }
    }
  }

  /** The sink receives, in list order, the instances of the entries at the firing positions
      and nothing else. */
  lemma {:induction false} FiredAtPositions(entries: seq<EffectEntry>, draws: seq<real>)
    requires |draws| == |entries|
    ensures var p := FiringPositions(entries, draws);
      && |Fired(entries, draws)| == |p|
      && forall k :: 0 <= k < |p| ==> p[k] < |entries| && Fired(entries, draws)[k] == entries[p[k]].ToInstance()
  {
    if entries != [] {
      var n := |entries| - 1;
      var es, ds := entries[..n], draws[..n];
      FiredAtPositions(es, ds);
      FiringPositionsIncrease(es, ds);
      var q := FiringPositions(es, ds);
      forall k | 0 <= k < |q|
        ensures FiringPositions(entries, draws)[k] == q[k] && entries[q[k]] == es[q[k]]
        ensures Fired(entries, draws)[k] == Fired(es, ds)[k]
      {
      }
    }
  }

  /** With draws in [0,1), an entry whose chance is at least 1 always fires. */
  lemma CertainEntryAlwaysFires(entries: seq<EffectEntry>, draws: seq<real>, i: nat)
    requires |draws| == |entries| && i < |entries|
    requires 0.0 <= draws[i] < 1.0 && entries[i].chance >= 1.0
    ensures i in FiringPositions(entries, draws)
  {
    FiringPositionsExact(entries, draws, i);
  }

  /** An entry with chance 0 fires only on a draw of exactly 0, because the test is "at most". */
  lemma ZeroChanceFiresOnlyOnZeroDraw(entries: seq<EffectEntry>, draws: seq<real>, i: nat)
    requires |draws| == |entries| && i < |entries|
    requires 0.0 <= draws[i] && entries[i].chance == 0.0
    ensures i in FiringPositions(entries, draws) <==> draws[i] == 0.0
  {
    FiringPositionsExact(entries, draws, i);
  }

  /** The game's random source, as the sequence of values `nextFloat` will return. */
  class DrawSource {
    var remaining: seq<real>

    constructor (draws: seq<real>)
      ensures remaining == draws
    {
      remaining := draws;
    }

    /** `nextFloat`: consumes and returns the next draw. */
    method NextFloat() returns (x: real)
      requires remaining != []
      modifies this
      ensures x == old(remaining)[0] && remaining == old(remaining)[1..]
    {
      x := remaining[0];
      remaining := remaining[1..];
    }
  }

  /** The consumer's effect sink, as the sequence of instances it has accepted. */
  class EffectSink {
    var received: seq<EffectInstance>

    constructor ()
      ensures received == []
    {
      received := [];
    }

    method Accept(instance: EffectInstance)
      modifies this
      ensures received == old(received) + [instance]
    {
      received := received + [instance];
    }
  }

  /** `applyEffects`: one draw per entry, whether or not it fires, and the sink gets the
      instances of the entries that fire, in list order. The source's random generator never
      runs out; here it must hold a draw for every entry. */
  method ApplyEffects(beverage: BeverageData, sink: EffectSink, random: DrawSource)
    requires |random.remaining| >= |beverage.effects|
    modifies sink, random
    ensures random.remaining == old(random.remaining)[|beverage.effects|..]
    ensures sink.received == old(sink.received)
      + Fired(beverage.effects, old(random.remaining)[..|beverage.effects|])
  {
    var entries := beverage.effects;
    ghost var draws := random.remaining[..|entries|];
    var i := 0;
    while i < |entries|
      invariant 0 <= i <= |entries|
      invariant random.remaining == old(random.remaining)[i..]
      invariant sink.received == old(sink.received) + Fired(entries[..i], draws[..i])
    {
      var draw := random.NextFloat();
      assert draw == draws[i];
      if draw <= entries[i].chance {
        sink.Accept(entries[i].ToInstance());
      }
      assert entries[..i + 1][..i] == entries[..i] && draws[..i + 1][..i] == draws[..i];
      i := i + 1;
    }
    assert entries[..i] == entries && draws[..i] == draws;
  }
}
