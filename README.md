# Alchemy content pipeline in Dafny

This project models the data core of the Alchemy mod. At start-up the mod's `DataLoader` finds
JSON definition documents for beverages, containers and equipment under each root path of the
mod. It parses each document into an immutable record, filling in a default for every absent
member, and gathers the records into three identifier-keyed insertion-ordered maps: the
`ContentPack`. When a beverage is consumed, `BeverageData.applyEffects` makes one random draw
per configured effect and forwards the effects whose draw is at most their chance to the
consumer. `BeverageManager` keeps a separate built-in table of eight beverages.

Layout, one module per concern:

- `outcomes.dfy` (`Outcomes`): `Option`, `Result`, and the exception causes.
- `java_lang.dfy` (`JavaLang`): the Java library behaviour the core relies on:
  - 32-bit `int` arithmetic;
  - `Integer.parseInt` and a decimal `Double.parseDouble`;
  - `toLowerCase`, `equalsIgnoreCase` and `isBlank`.
- `identifiers.dfy` (`Identifiers`): the host's namespaced identifiers.
- `json.dfy` (`Json`): the JSON tree and the `getAsX` conversions.
- `linked_maps.dfy` (`LinkedMaps`): `LinkedHashMap` as a key order plus a map.
- `beverages.dfy` (`Beverages`): `BeverageData` and `applyEffects`.
  - The random source and the effect sink are classes whose state the loop updates.
- `definitions.dfy` (`Containers`, `Equipment`): the container and equipment records.
- `fields.dfy` (`Fields`): the typed member readers of `DataLoader`.
- `beverage_parsing.dfy` (`BeverageParsing`): `parseBeverage` and its helpers.
- `definition_parsing.dfy` (`DefinitionParsing`): the container and equipment parsers.
- `content_pack.dfy` (`ContentPacks`): `ContentPack`.
- `loader.dfy` (`Loader`): the three per-directory load loops and `loadAll`.
  - The file system is an input: per root path, whether it has "data/alchemy", and what walking
    each category directory yields.
- `beverage_manager.dfy` (`Manager`): `BeverageManager`.
  - The static table is the field of a class.
  - The static initialiser is its constructor.

Every Java exception is an `Err` value carrying its cause. `:-` propagates it exactly where the
exception would unwind, so the first member that fails decides the error, in the source's
order. The per-file `catch` of the load loops is the `Err` case of `Loader.Parsed`, which
contributes nothing to the map.

Behaviour of the code worth knowing, each stated by a member of the model:

- An effect with chance 0.0 can still fire. The test is `draw <= chance`, so it fires on a draw
  of exactly 0.0 (`Beverages.ZeroChanceFiresOnlyOnZeroDraw`).
- No value is range-checked. A chance outside [0, 1], a stack size below 1, and a negative
  hunger, duration or amplifier are all stored as read.
- `loadAll` logs the sizes of the three maps. A size counts the distinct identifiers that
  survive, not the files attempted (`Loader.LoadedSize`).
- A failure is a generic exception, and a missing "id" or "container" is not one. The
  member reads as "" and becomes the identifier "minecraft:" with an empty path (`Fields.IdOf`).
- A derived block identifier keeps the definition's namespace as well as its path:
  "<namespace>:<path>_block" (`Identifiers.BlockIdFor`).
- A walk that fails ends only the remaining stages of its own root. What earlier stages and
  earlier roots stored stays in the maps, in place (`Loader.LoadRoot`,
  `Loader.LoadRootsKeepEarlier`).

## Model

Source paths are relative to the repository root.

| member | source | states |
|---|---|---|
| Fields.ExpectType | src/main/java/dk/mosberg/data/DataLoader.java:289-294 | a document is accepted exactly when its "type" member is the expected tag (a missing "type" reads as "" and is refused) |
| Fields.ObjectOrEmpty | src/main/java/dk/mosberg/data/DataLoader.java:296-299 | a member that is an object is returned as is; an absent or non-object member reads as an empty object |
| Fields.ArrayOrEmpty | src/main/java/dk/mosberg/data/DataLoader.java:301-304 | a member that is an array is returned as is; an absent or non-array member reads as an empty array |
| Fields.StringOr | src/main/java/dk/mosberg/data/DataLoader.java:310-312 | absent gives the default; present gives `getAsString` of the member, including its failure |
| Fields.StringOrNull | src/main/java/dk/mosberg/data/DataLoader.java:314-316 | absent gives null, not an error; present succeeds exactly when `getAsString` does, with its value |
| Fields.IntegerOr | src/main/java/dk/mosberg/data/DataLoader.java:318-320 | absent gives the default; present gives `getAsInt` of the member |
| Fields.NumberOr | src/main/java/dk/mosberg/data/DataLoader.java:322-324 | absent gives the default; present gives `getAsDouble` of the member |
| Fields.BoolOr | src/main/java/dk/mosberg/data/DataLoader.java:326-328 | absent gives the default; present gives `getAsBoolean` of the member |
| Fields.IdOf | src/main/java/dk/mosberg/data/DataLoader.java:306-308 | every identifier read is valid; an absent member gives "minecraft:" with an empty path; a string member is parsed as an identifier |
| Fields.UseActionOf | src/main/java/dk/mosberg/data/DataLoader.java:330-339 | each of eat, block, bow, crossbow and spyglass is chosen exactly when the lower-cased name equals it; drink exactly when the name is none of them |
| Json.AsString | src/main/java/dk/mosberg/data/DataLoader.java:311 | a string reads as itself; null and objects are refused |
| Json.AsInt | src/main/java/dk/mosberg/data/DataLoader.java:319 | every result fits in 32 bits; a string goes through `Integer.parseInt`; a boolean is refused |
| Json.AsDouble | src/main/java/dk/mosberg/data/DataLoader.java:323 | a number reads as its value; a boolean is refused |
| Json.AsBoolean | src/main/java/dk/mosberg/data/DataLoader.java:327 | a boolean reads as itself; a string is true exactly when it is "true" in any letter case; null and objects are refused |
| Json.AsObject | src/main/java/dk/mosberg/data/DataLoader.java:110 | an effects element is accepted exactly when it is an object |
| JavaLang.Wrap32 | src/main/java/dk/mosberg/data/BeverageManager.java:49-55 | the 32-bit result is congruent to the exact one modulo 2^32 and equal to it when it fits |
| JavaLang.Wrap32Product | src/main/java/dk/mosberg/data/BeverageManager.java:50 | wrapping an intermediate product before the next multiplication does not change the wrapped result |
| JavaLang.ParseInt | src/main/java/dk/mosberg/data/DataLoader.java:319 | an accepted text is non-empty and denotes a 32-bit value |
| JavaLang.ParseIntText | src/main/java/dk/mosberg/data/DataLoader.java:319 | `Integer.parseInt` of the decimal text of any int gives that int back |
| JavaLang.NaturalTextValue | src/main/java/dk/mosberg/data/DataLoader.java:319 | the digits printed for a natural number denote that number |
| JavaLang.ParseIntSigned | src/main/java/dk/mosberg/data/DataLoader.java:319 | an optional sign and decimal digits read as the signed value when it fits in an int, and as a NumberFormatException otherwise |
| JavaLang.ParseIntAccepts | src/main/java/dk/mosberg/data/DataLoader.java:319 | every accepted text is an optional sign followed by at least one digit, so the lemma above covers every accepted text |
| JavaLang.ParseIntExamples | src/main/java/dk/mosberg/data/DataLoader.java:319 | "+7" and "007" read as 7 and "-0" as 0; "-", "" and "1.5" are refused |
| JavaLang.DecimalFraction | src/main/java/dk/mosberg/data/DataLoader.java:323 | digits, a point and digits have the value of the whole part plus the fraction, and "." alone has none |
| JavaLang.SignedMagnitude | src/main/java/dk/mosberg/data/DataLoader.java:323 | a leading sign is read off, and the unsigned rest is negated after a '-' |
| JavaLang.ParseDecimalSigned | src/main/java/dk/mosberg/data/DataLoader.java:323 | an optional sign, digits, a point and digits read as the exact signed decimal when there is at least one digit ("5." and ".5" included), and are refused otherwise |
| JavaLang.ParseDecimalWhole | src/main/java/dk/mosberg/data/DataLoader.java:323 | an optional sign and digits without a point read as the signed whole number |
| JavaLang.ParseDecimalAccepts | src/main/java/dk/mosberg/data/DataLoader.java:323 | every accepted text is an optional sign and digits with at most one point and at least one digit, so the two lemmas above cover every accepted text |
| JavaLang.LowerCase | src/main/java/dk/mosberg/data/DataLoader.java:331 | the lower-cased name has the same length and lower-cases each character in place |
| JavaLang.LowerCaseMatchIgnoresCase | src/main/java/dk/mosberg/data/DataLoader.java:279 | a text whose lower case is a lower-case ASCII word equals that word ignoring case |
| JavaLang.IgnoreCaseWiderThanLowerCase | src/main/java/dk/mosberg/data/DataLoader.java:279 | `equalsIgnoreCase` accepts a text whose `toLowerCase` differs from the word: the long s matches "s" |
| JavaLang.BlankConcat | src/main/java/dk/mosberg/data/BeverageData.java:55 | a text is blank exactly when both of its parts are; the empty text is blank and a text with a visible character is not |
| JavaLang.TruncateTowardZero | src/main/java/dk/mosberg/data/DataLoader.java:319 | the integer part of a number is at most one away from it, on the side of zero |
| JavaLang.IndexOf | src/main/java/dk/mosberg/data/DataLoader.java:307 | the first position of ':' in an identifier text, or -1 exactly when there is none |
| Identifiers.Of | src/main/java/dk/mosberg/data/BeverageManager.java:34 | an identifier is built exactly when namespace and path use only the permitted characters |
| Identifiers.Parse | src/main/java/dk/mosberg/data/DataLoader.java:307 | every parsed identifier is valid; text without ':' is a path in the "minecraft" namespace |
| Identifiers.ParseToString | src/main/java/dk/mosberg/data/DataLoader.java:307 | printing a valid identifier and parsing the text gives the identifier back |
| Identifiers.ToStringParse | src/main/java/dk/mosberg/data/DataLoader.java:307 | text with a namespace part that parses is the printed form of its identifier |
| Identifiers.BlockIdFor | src/main/java/dk/mosberg/data/DataLoader.java:230 | the derived block of a valid identifier has the same namespace and the path with "_block" appended |
| BeverageParsing.EffectEntryOf | src/main/java/dk/mosberg/data/DataLoader.java:109-124 | an accepted element is an object whose effect is registered, and each field is what its reader gives for the member, with the default when absent: duration 200, amplifier 0, chance 1.0, particles and icon shown, not ambient; an unknown effect refuses the element; an object whose reads all succeed and whose effect is registered is accepted |
| BeverageParsing.EffectsOf | src/main/java/dk/mosberg/data/DataLoader.java:107-124 | an accepted list has one entry per element |
| BeverageParsing.EffectsOfElements | src/main/java/dk/mosberg/data/DataLoader.java:107-124 | the list is accepted exactly when every element is, and its i-th entry is what the i-th element reads as (document order) |
| BeverageParsing.HasteEntryExample | src/main/java/dk/mosberg/data/DataLoader.java:109-124 | an element with effect "minecraft:haste", duration 6000, amplifier 0 and chance 1.0 and no flags reads as haste/6000/0 at chance 1.0 with particles and icon shown and not ambient, and hands the game a haste instance for 6000 ticks at amplifier 0 (BeverageData.java:74-77) |
| BeverageParsing.EffectsOfValues | src/main/java/dk/mosberg/data/DataLoader.java:107-124 | in an accepted list, the i-th entry is what the i-th element reads as |
| BeverageParsing.EffectsOfAllAccepted | src/main/java/dk/mosberg/data/DataLoader.java:107-124 | a list whose every element is accepted is accepted |
| BeverageParsing.ParseEffects | src/main/java/dk/mosberg/data/DataLoader.java:108-124 | the appending loop computes exactly the specified effect list, failing with the first failing element |
| BeverageParsing.EffectsFailFromPrefix | src/main/java/dk/mosberg/data/DataLoader.java:109-124 | once an element fails, the whole list fails with that error |
| BeverageParsing.StatsOf | src/main/java/dk/mosberg/data/DataLoader.java:93-105 | each of the six stats is what its reader gives for the member of the stats, nutrition or intoxication block, with the default when absent (hunger 1, everything else 0); an absent stats block gives all defaults; it is accepted exactly when all six readers succeed |
| BeverageParsing.TextKeysOf | src/main/java/dk/mosberg/data/DataLoader.java:137-148 | keys come from the "text" object when there is one, otherwise from the document; the result is accepted exactly when all twelve reads are, and each of the twelve keys is its member's string, or null when absent |
| BeverageParsing.ConfigOf | src/main/java/dk/mosberg/data/DataLoader.java:150-159 | enabled, the override rarity, the two optional integer overrides and the two disable flags are each what their reader gives for the "config" member (enabled true and the flags false when absent); an absent config gives the all-default record; it is accepted exactly when all six readers succeed |
| BeverageParsing.OptionalInteger | src/main/java/dk/mosberg/data/DataLoader.java:156-157 | absent gives null; present is accepted exactly when `getAsInt` accepts the member, with its value |
| BeverageParsing.Beverage | src/main/java/dk/mosberg/data/DataLoader.java:85-135 | accepted only with the "alchemy:alcohol" tag; a missing, non-array or empty effects member is refused; id, container, rarity ("common"), stack size (16), category ("beer") and style ("") are what their readers give; the stats, text keys and config are what their parsers give; the effects are the document's, in order, all registered; it is accepted exactly when the tag matches, every reader and block parser succeeds, and the effects list is non-empty with every element accepted |
| BeverageParsing.ParseBeverage | src/main/java/dk/mosberg/data/DataLoader.java:85-135 | the statement-by-statement parser returns exactly the specified result |
| BeverageParsing.MinimalBeverageAccepted | src/main/java/dk/mosberg/data/DataLoader.java:85-135 | a document holding only the tag, a parsable id and container and one accepted effect is accepted, with that effect as its only entry |
| BeverageParsing.MinimalBeverageExample | src/main/java/dk/mosberg/data/DataLoader.java:85-135 | in such a document every member left out takes its default: stack size 16, rarity "common", category "beer", empty style, default stats and config, and no text keys |
| BeverageParsing.ParsedBeverageHasPrimaryEffect | src/main/java/dk/mosberg/data/DataLoader.java:126-128 | every accepted beverage has a primary effect, its first entry |
| DefinitionParsing.DurabilityOf | src/main/java/dk/mosberg/data/DataLoader.java:189-195 | breakable, max damage, fireproof and explosion resistance are what their readers give (true, 0, false and "low" when absent); an empty block gives exactly those defaults; it is accepted exactly when all four readers succeed |
| DefinitionParsing.InteractionOf | src/main/java/dk/mosberg/data/DataLoader.java:197-209 | the use action is read case-insensitively (drink when absent); the return item is the member's identifier when present and the container itself otherwise; returns_container, consume_on_use and consume_on_drink are what their readers give (true, false, true when absent); it is accepted exactly when the action name, the return item when present and the three flags all read |
| DefinitionParsing.SealOf | src/main/java/dk/mosberg/data/DataLoader.java:211-215 | starts_sealed, reopenable and seal_quality are what their readers give (true, true, "good" when absent); an empty block gives exactly those defaults; it is accepted exactly when all three readers succeed |
| DefinitionParsing.ContainerStateStorage | src/main/java/dk/mosberg/data/DataLoader.java:223-239 | the block is the block_id member when present, otherwise "<namespace>:<path>_block"; the block entity is its member when present, otherwise the block; enabled defaults to whether block_id is present; sync and keep-contents are what their readers give (true when absent); it is accepted exactly when enabled, the two flags and each identifier member present all read, so a derived block id never fails |
| DefinitionParsing.Container | src/main/java/dk/mosberg/data/DataLoader.java:181-221 | accepted only with the "alchemy:container" tag; id, kind ("can"), stack size (16) and rarity ("common") are what their readers give; durability, interaction, seal and state storage are what their parsers give for their blocks; it is accepted exactly when the tag matches and every reader and block parser succeeds |
| DefinitionParsing.EquipmentPlacement | src/main/java/dk/mosberg/data/DataLoader.java:276-285 | the block is enabled exactly when kind equals "block" ignoring case; block and block-entity identifiers are the members when present and derived as for containers otherwise; it is accepted exactly when kind reads and each identifier member present parses, so an empty placement is accepted |
| DefinitionParsing.EquipmentOf | src/main/java/dk/mosberg/data/DataLoader.java:261-274 | accepted only with the "alchemy:equipment" tag; id, name key (""), rarity ("common"), material (""), function ("") and stack size (1) are what their readers give; the placement is what its parser gives; it is accepted exactly when the tag matches and every reader and the placement parser succeed |
| Beverages.EffectEntry.ToInstance | src/main/java/dk/mosberg/data/BeverageData.java:74-77 | the instance carries the entry's effect, duration, amplifier, ambient, particle and icon flags unchanged |
| Beverages.BeverageData.PrimaryEffect | src/main/java/dk/mosberg/data/BeverageData.java:28-30 | the first entry, and null exactly when the list is empty |
| Beverages.BeverageData.TranslationKey | src/main/java/dk/mosberg/data/BeverageData.java:53-56 | "item.<namespace>.<path>", followed by "." and the suffix exactly when the suffix is neither null nor blank |
| Beverages.NewBeverageData | src/main/java/dk/mosberg/data/BeverageData.java:20-25 | the record is built exactly when id, container, stats and effects are all non-null, with every component as given; a null id is reported first |
| Beverages.Fired | src/main/java/dk/mosberg/data/BeverageData.java:44-50 | the sink never receives more instances than there are entries |
| Beverages.FiringPositionsIncrease | src/main/java/dk/mosberg/data/BeverageData.java:45 | the entries that fire are visited in strictly increasing list order, so none is forwarded twice |
| Beverages.FiringPositionsExact | src/main/java/dk/mosberg/data/BeverageData.java:46 | an entry fires exactly when its own draw is at most its chance |
| Beverages.FiredAtPositions | src/main/java/dk/mosberg/data/BeverageData.java:45-48 | the sink receives, in list order, the instances of the entries that fire and nothing else |
| Beverages.CertainEntryAlwaysFires | src/main/java/dk/mosberg/data/BeverageData.java:46 | with draws in [0,1), an entry with chance at least 1 always fires |
| Beverages.ZeroChanceFiresOnlyOnZeroDraw | src/main/java/dk/mosberg/data/BeverageData.java:46 | an entry with chance 0 fires exactly on a draw of 0 |
| Beverages.DrawSource.NextFloat | src/main/java/dk/mosberg/data/BeverageData.java:46 | each draw consumes the next value of the random source |
| Beverages.EffectSink.Accept | src/main/java/dk/mosberg/data/BeverageData.java:47 | the sink appends the instance it is given |
| Beverages.ApplyEffects | src/main/java/dk/mosberg/data/BeverageData.java:44-50 | exactly one draw per entry, whether or not it fires, and the sink gains exactly the instances of the firing entries, in list order |
| LinkedMaps.LinkedMap.Put | src/main/java/dk/mosberg/data/DataLoader.java:77 | the value is stored under the key; a new key goes to the end of the order, an existing one keeps its place |
| LinkedMaps.LinkedMap.Get | src/main/java/dk/mosberg/data/ContentPack.java:26 | the stored value, or null exactly when the key was never written |
| LinkedMaps.LinkedMap.Values | src/main/java/dk/mosberg/data/ContentPack.java:14 | the stored values in first-insertion order of their keys |
| LinkedMaps.PutValid | src/main/java/dk/mosberg/data/DataLoader.java:77 | writing keeps every key listed exactly once in the order |
| LinkedMaps.PutExtends | src/main/java/dk/mosberg/data/DataLoader.java:77 | a write keeps every key and keeps the existing keys at the front of the order |
| LinkedMaps.ExtendsTransitive | src/main/java/dk/mosberg/data/DataLoader.java:77 | a sequence of writes keeps what the first map held, in place |
| LinkedMaps.SizeIsKeyCount | src/main/java/dk/mosberg/data/DataLoader.java:59-60 | the size of a map is the number of its distinct keys |
| LinkedMaps.ValuesAreStoredValues | src/main/java/dk/mosberg/data/ContentPack.java:13-23 | the values collection holds exactly the values stored under some key |
| ContentPacks.ContentPack.BeverageValues | src/main/java/dk/mosberg/data/ContentPack.java:13-15 | exactly the beverages map's values, each once, in insertion order |
| ContentPacks.ContentPack.ContainerValues | src/main/java/dk/mosberg/data/ContentPack.java:17-19 | exactly the containers map's values, each once, in insertion order |
| ContentPacks.ContentPack.EquipmentValues | src/main/java/dk/mosberg/data/ContentPack.java:21-23 | exactly the equipment map's values, each once, in insertion order |
| ContentPacks.ContentPack.Container | src/main/java/dk/mosberg/data/ContentPack.java:25-27 | the stored container when the identifier was loaded, and null (not an error) exactly when it was not |
| ContentPacks.EmptyPack | src/main/java/dk/mosberg/data/DataLoader.java:39-41 | the loader starts from three empty, well-formed maps |
| Loader.RootObject | src/main/java/dk/mosberg/data/DataLoader.java:75 | a document is read exactly when it decodes to a JSON object |
| Loader.Parsed | src/main/java/dk/mosberg/data/DataLoader.java:71-80 | an entry contributes a definition exactly when its path ends in ".json", it decodes to an object and the parser accepts it |
| Loader.LoadFiles | src/main/java/dk/mosberg/data/DataLoader.java:70-81 | the per-file loop only adds: every key of the map before keeps its place at the front of the order |
| Loader.LoadDirectory | src/main/java/dk/mosberg/data/DataLoader.java:64-83 | the walk fails exactly when it cannot start; a directory that does not exist or cannot be walked changes nothing; loading only adds to the map |
| Loader.LoadFilesValid | src/main/java/dk/mosberg/data/DataLoader.java:70-81 | loading keeps every key listed exactly once |
| Loader.LastWriteWins | src/main/java/dk/mosberg/data/DataLoader.java:77 | the value under an identifier is the last accepted definition with that identifier; earlier contents survive only where no document defines the identifier |
| Loader.LoadFilesKeys | src/main/java/dk/mosberg/data/DataLoader.java:70-81 | the keys after loading are the keys before plus the identifiers of the accepted documents |
| Loader.SurvivorsStep | src/main/java/dk/mosberg/data/DataLoader.java:71-80 | one more document adds its identifier to the surviving identifiers exactly when it is accepted |
| Loader.LoadedSize | src/main/java/dk/mosberg/data/DataLoader.java:59-60 | the size of a loaded map is the number of distinct identifiers among the accepted documents |
| Loader.LoadFilesAppend | src/main/java/dk/mosberg/data/DataLoader.java:71 | loading a walk in two parts is loading it at once |
| Loader.FailedDocumentIsSkipped | src/main/java/dk/mosberg/data/DataLoader.java:78-80 | a document that throws is skipped: loading with it equals loading without it, and the rest are still processed |
| Loader.LoadFilesKeeps | src/main/java/dk/mosberg/data/DataLoader.java:77 | a property every accepted definition has under its own identifier holds for every entry after loading |
| Loader.KeepsDirectory | src/main/java/dk/mosberg/data/DataLoader.java:66-82 | loading a directory of any kind keeps the map well-formed and keeps such a property |
| Loader.WalkDirectory | src/main/java/dk/mosberg/data/DataLoader.java:64-83 | the per-file loop computes exactly the specified fold; it reports failure exactly when the walk cannot start; an absent directory changes nothing |
| Loader.LoadRoot | src/main/java/dk/mosberg/data/DataLoader.java:44-55 | a root without data/alchemy is skipped; stages run containers, beverages, equipment; a walk that fails abandons the later stages of that root and keeps what was stored |
| Loader.LoadRootWellFormed | src/main/java/dk/mosberg/data/DataLoader.java:44-55 | one root keeps every entry under its own identifier and every beverage's effects non-empty and registered |
| Loader.LoadRoots | src/main/java/dk/mosberg/data/DataLoader.java:44-56 | every pack the loop over the root paths builds is well formed: each entry under its own identifier, and each beverage with at least one effect, all registered |
| Loader.LoadRootsKeepEarlier | src/main/java/dk/mosberg/data/DataLoader.java:44-56 | what the first roots stored is kept, in place, by the whole load |
| Loader.LoadAllOf | src/main/java/dk/mosberg/data/DataLoader.java:38-62 | a missing mod container gives three empty maps, and every result is well formed |
| Loader.LoadAll | src/main/java/dk/mosberg/data/DataLoader.java:38-62 | `loadAll` computes exactly the specified pack (empty when the mod container is missing), and that pack is well formed |
| Loader.LoadEachRoot | src/main/java/dk/mosberg/data/DataLoader.java:44-56 | the loop over the root paths computes exactly the specified pack |
| Loader.LoadRootPaths | src/main/java/dk/mosberg/data/DataLoader.java:46-55 | the three loaders in turn, ending the root at the first walk that fails, compute exactly the specified root |
| Manager.Minutes | src/main/java/dk/mosberg/data/BeverageManager.java:49-51 | `minutes * 20 * 60` is `minutes * 1200` in 32-bit arithmetic, and exactly that when it fits |
| Manager.Seconds | src/main/java/dk/mosberg/data/BeverageManager.java:53-55 | `seconds * 20` in 32-bit arithmetic: a 32-bit value congruent to the exact product modulo 2^32, and exactly the product when it fits |
| Manager.StaticRecipes | src/main/java/dk/mosberg/data/BeverageManager.java:18-27 | the static initialiser makes eight registrations |
| Manager.Registered | src/main/java/dk/mosberg/data/BeverageManager.java:18-39 | the table that registrations build lists each key once, holds every registration's identifier, and has no more entries than registrations |
| Manager.RegisteredStep | src/main/java/dk/mosberg/data/BeverageManager.java:37 | each registration writes one entry onto the table built so far |
| Manager.RegisteredTable | src/main/java/dk/mosberg/data/BeverageManager.java:31-47 | registering distinct paths gives one entry per registration, in registration order, each holding its value |
| Manager.PutFreshRecipe | src/main/java/dk/mosberg/data/BeverageManager.java:37 | registering a path not registered before adds one entry at the end of the order and keeps the others |
| Manager.StaticPathsValid | src/main/java/dk/mosberg/data/BeverageManager.java:19-26 | none of the eight built-in paths is refused as an identifier path |
| Manager.StaticPathsDistinct | src/main/java/dk/mosberg/data/BeverageManager.java:19-26 | the eight built-in paths are distinct |
| Manager.StaticTable | src/main/java/dk/mosberg/data/BeverageManager.java:16-27 | the built-in table has eight entries, the copper-cap lager first, each retrievable by its identifier |
| Manager.BeverageManager.constructor | src/main/java/dk/mosberg/data/BeverageManager.java:18-27 | the static initialiser leaves the table its eight registrations build, which lists every key once |
| Manager.BeverageManager.Register | src/main/java/dk/mosberg/data/BeverageManager.java:31-39 | the built value is stored under "alchemy:<path>" and returned; an invalid path is refused and leaves the table as it was; the table keeps listing every key once |
| Manager.BeverageManager.Get | src/main/java/dk/mosberg/data/BeverageManager.java:41-43 | the stored beverage, or null exactly when the identifier was never registered |
| Manager.BeverageManager.All | src/main/java/dk/mosberg/data/BeverageManager.java:45-47 | every stored beverage, once each, in first-registration order |
| Manager.RegisterThenGet | src/main/java/dk/mosberg/data/BeverageManager.java:31-43 | `get` right after `register` returns the registered beverage |
| Manager.RegisterTwice | src/main/java/dk/mosberg/data/BeverageManager.java:37 | registering an identifier twice leaves the second value in the first one's place and changes no other entry |
| Manager.StaticDurations | src/main/java/dk/mosberg/data/BeverageManager.java:19-26 | the eight built-in durations, in order, are 6000, 3600, 2400, 2400, 3600, 3600, 900 and 2400 ticks |

## Left out

- Reading the file system is not modelled. `FabricLoader` root discovery, `Files.exists`,
  `Files.isDirectory`, `Files.walk`, reading and Gson decoding are inputs: `Loader.ModRoot`,
  `Loader.Directory` and `Loader.Document`. Walk order is whatever the input lists.
- An `UncheckedIOException` raised part-way through a walk is not modelled. It is not an
  `IOException`, so it would escape `loadAll` altogether. Only a walk that cannot start
  (`WalkFails`) is modelled.
- Floating point is modelled with exact reals. `double` and `float` values (abv, strength,
  intoxication, saturation, chance) and the `(float)` narrowing casts have no rounding; only the
  `draw <= chance` comparison depends on them.
- Java `Double.parseDouble` is modelled on plain decimal text only. Exponents, "NaN",
  "Infinity", hexadecimal forms, type suffixes and surrounding whitespace are refused.
- `Integer.parseInt` accepts only ASCII digits in the model; non-ASCII Unicode digits are not
  modelled.
- `toLowerCase` is modelled for ASCII capitals and the Kelvin sign only, which is every
  character whose lower case could form one of the action names; the default locale is not
  modelled.
- The host's `Identifier` and status-effect registry are not part of this model. Identifier
  parsing follows the host's rules (split at the first ':', default namespace "minecraft",
  permitted characters). A registry entry is represented by its identifier, and the registry is
  a set of identifiers given to the parser.
- `foodComponent` and `BeverageEffectManager` are wrappers over host builders, and are not
  modelled. The same holds for the item, block and registration glue.
- Logging, including the sizes `loadAll` logs, is not modelled.
- The `containers` map passed to `loadBeverages` is unused by the source, and the model's
  beverage loader does not take it.
- `BeverageManager.register` calls a six-argument `BeverageData` constructor that the record
  does not declare. The value it stores is given by the manager's `build` function of the
  registration's arguments. The requireNonNull check on the effect is not modelled: a
  registration's effect is always present.
- Manager.BeverageManager.constructor: the static initialiser's eight `register` calls run as
  a loop over the table of their arguments (`Manager.StaticRecipes`), in the same order.
- The Java table is a single static map. Here each manager object owns one, so sharing between
  callers is not modelled.
- `BeverageManager.all()` and the `ContentPack` values accessors return live views of the maps
  in Java. The model returns snapshot sequences, so a later write is not seen through a view
  taken earlier.
- Json.JNumber: a number carries its text and its value. The model takes both as the decoder
  gives them and does not require that they agree.
- Nullable strings inside records are modelled as present values, except the text keys and
  config overrides, which are `Option`.
- Beverages.Fired: its own contract only bounds the count; what the sink receives is stated by
  `Beverages.FiredAtPositions` and `Beverages.FiringPositionsExact`.
