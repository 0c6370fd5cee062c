/** Reading one container document (`parseContainer`, `parseContainerStateStorage`) and one
    equipment document (`parseEquipment`, `parseEquipmentPlacement`) in DataLoader.java. */
module DefinitionParsing {
  import opened Outcomes
  import opened Identifiers
  import opened Json
  import opened JavaLang
  import opened Fields
  import opened Containers
  import opened Equipment

  const ContainerTag: string := "alchemy:container"
  const EquipmentTag: string := "alchemy:equipment"

  /** The "durability" block of a container. */
  function DurabilityOf(obj: Object): (r: Result<Durability>)
    ensures obj == map[] ==> r == Ok(Durability(true, 0, false, "low"))
    ensures r.Ok? ==>
      && BoolOr(obj, "breakable", true) == Ok(r.value.breakable)
      && IntegerOr(obj, "max_damage", 0) == Ok(r.value.maxDamage)
      && BoolOr(obj, "fireproof", false) == Ok(r.value.fireproof)
      && StringOr(obj, "explosion_resistance", "low") == Ok(r.value.explosionResistance)
    ensures r.Ok? <==>
      (&& BoolOr(obj, "breakable", true).Ok? && IntegerOr(obj, "max_damage", 0).Ok?
       && BoolOr(obj, "fireproof", false).Ok? && StringOr(obj, "explosion_resistance", "low").Ok?)
  {
    var breakable :- BoolOr(obj, "breakable", true);
    var maxDamage :- IntegerOr(obj, "max_damage", 0);
    var fireproof :- BoolOr(obj, "fireproof", false);
    var explosionResistance :- StringOr(obj, "explosion_resistance", "low");
    Ok(Durability(breakable, maxDamage, fireproof, explosionResistance))
  }

  /** The "interaction" block of the container `id`: the item returned after use is the
      container itself unless "return_item_id" names another. */
  function InteractionOf(obj: Object, id: Identifier): (r: Result<Interaction>)
    ensures r.Ok? ==>
      && ("return_item_id" !in obj ==> r.value.returnItemId == id)
      && ("return_item_id" in obj ==> IdOf(obj, "return_item_id") == Ok(r.value.returnItemId))
      && ("use_action" !in obj ==> r.value.useAction == Drink)
      && ("use_action" in obj ==>
            AsString(obj["use_action"]).Ok? && r.value.useAction == UseActionOf(AsString(obj["use_action"]).value))
      && BoolOr(obj, "returns_container", true) == Ok(r.value.returnsContainer)
      && BoolOr(obj, "consume_on_use", false) == Ok(r.value.consumeOnUse)
      && BoolOr(obj, "consume_on_drink", true) == Ok(r.value.consumeOnDrink)
    ensures obj == map[] ==> r == Ok(Interaction(Drink, true, id, false, true))
    ensures r.Ok? <==>
      (&& StringOr(obj, "use_action", "drink").Ok?
       && ("return_item_id" in obj ==> IdOf(obj, "return_item_id").Ok?)
       && BoolOr(obj, "returns_container", true).Ok? && BoolOr(obj, "consume_on_use", false).Ok?
       && BoolOr(obj, "consume_on_drink", true).Ok?)
  {
    var actionName :- StringOr(obj, "use_action", "drink");
    assert LowerCase("drink")[0] == 'd';
    var returnId :- if "return_item_id" in obj then IdOf(obj, "return_item_id") else Ok(id);
    var returnsContainer :- BoolOr(obj, "returns_container", true);
    var consumeOnUse :- BoolOr(obj, "consume_on_use", false);
    var consumeOnDrink :- BoolOr(obj, "consume_on_drink", true);
    Ok(Interaction(UseActionOf(actionName), returnsContainer, returnId, consumeOnUse, consumeOnDrink))
  }

  /** The "seal" block of a container. */
  function SealOf(obj: Object): (r: Result<Seal>)
    ensures obj == map[] ==> r == Ok(Seal(true, true, "good"))
    ensures r.Ok? ==>
      && BoolOr(obj, "starts_sealed", true) == Ok(r.value.startsSealed)
      && BoolOr(obj, "reopenable", true) == Ok(r.value.reopenable)
      && StringOr(obj, "seal_quality", "good") == Ok(r.value.sealQuality)
    ensures r.Ok? <==>
      (&& BoolOr(obj, "starts_sealed", true).Ok? && BoolOr(obj, "reopenable", true).Ok?
       && StringOr(obj, "seal_quality", "good").Ok?)
  {
    var startsSealed :- BoolOr(obj, "starts_sealed", true);
    var reopenable :- BoolOr(obj, "reopenable", true);
    var sealQuality :- StringOr(obj, "seal_quality", "good");
    Ok(Seal(startsSealed, reopenable, sealQuality))
  }

  /** `parseContainerStateStorage`: the placed block of container `id`. Without "block_id" the
      block is "<namespace>:<path>_block" of the container; the block entity defaults to the
      block; the block is enabled by default exactly when "block_id" was given. */
  function ContainerStateStorage(root: Object, id: Identifier): (r: Result<StateStorage>)
    requires Valid(id)
    ensures r.Ok? ==> var placed := ObjectOrEmpty(ObjectOrEmpty(root, "state_storage"), "placed_block");
      var block := r.value.placedBlock;
      && ("block_id" !in placed ==> block.blockId == Identifier(id.namespace, id.path + BlockSuffix))
      && ("block_id" in placed ==> IdOf(placed, "block_id") == Ok(block.blockId))
      && ("block_entity_id" !in placed ==> block.blockEntityId == block.blockId)
      && ("block_entity_id" in placed ==> IdOf(placed, "block_entity_id") == Ok(block.blockEntityId))
      && BoolOr(placed, "enabled", "block_id" in placed) == Ok(block.enabled)
      && BoolOr(placed, "sync_to_client", true) == Ok(block.syncToClient)
      && BoolOr(placed, "drops_keep_contents", true) == Ok(block.dropsKeepContents)
    ensures ObjectOrEmpty(ObjectOrEmpty(root, "state_storage"), "placed_block") == map[] ==>
      r == Ok(StateStorage(PlacedBlock(false, Identifier(id.namespace, id.path + BlockSuffix),
                                       Identifier(id.namespace, id.path + BlockSuffix), true, true)))
    ensures var placed := ObjectOrEmpty(ObjectOrEmpty(root, "state_storage"), "placed_block");
      r.Ok? <==>
        (&& BoolOr(placed, "enabled", "block_id" in placed).Ok?
         && ("block_id" in placed ==> IdOf(placed, "block_id").Ok?)
         && ("block_entity_id" in placed ==> IdOf(placed, "block_entity_id").Ok?)
         && BoolOr(placed, "sync_to_client", true).Ok? && BoolOr(placed, "drops_keep_contents", true).Ok?)
  {
    var placed := ObjectOrEmpty(ObjectOrEmpty(root, "state_storage"), "placed_block");
    var enabled :- BoolOr(placed, "enabled", "block_id" in placed);
    var blockId :- if "block_id" in placed then IdOf(placed, "block_id") else BlockIdFor(id);
    var blockEntityId :- if "block_entity_id" in placed then IdOf(placed, "block_entity_id") else Ok(blockId);
    var syncToClient :- BoolOr(placed, "sync_to_client", true);
    var dropsKeepContents :- BoolOr(placed, "drops_keep_contents", true);
    Ok(StateStorage(PlacedBlock(enabled, blockId, blockEntityId, syncToClient, dropsKeepContents)))
  }

  /** `parseContainer`. */
  function Container(root: Object): (r: Result<ContainerData>)
    ensures r.Ok? ==> HasType(root, ContainerTag)
    ensures r.Ok? ==> IdOf(root, "id") == Ok(r.value.id)
    ensures r.Ok? ==>
      && StringOr(root, "container_kind", "can") == Ok(r.value.containerKind)
      && IntegerOr(root, "stack_size", 16) == Ok(r.value.stackSize)
      && StringOr(root, "rarity", "common") == Ok(r.value.rarity)
    ensures r.Ok? ==>
      && DurabilityOf(ObjectOrEmpty(root, "durability")) == Ok(r.value.durability)
      && InteractionOf(ObjectOrEmpty(root, "interaction"), r.value.id) == Ok(r.value.interaction)
      && SealOf(ObjectOrEmpty(root, "seal")) == Ok(r.value.seal)
      && ContainerStateStorage(root, r.value.id) == Ok(r.value.stateStorage)
    ensures r.Ok? <==>
      (&& HasType(root, ContainerTag) && IdOf(root, "id").Ok?
       && StringOr(root, "container_kind", "can").Ok? && IntegerOr(root, "stack_size", 16).Ok?
       && StringOr(root, "rarity", "common").Ok?
       && DurabilityOf(ObjectOrEmpty(root, "durability")).Ok?
       && InteractionOf(ObjectOrEmpty(root, "interaction"), IdOf(root, "id").value).Ok?
       && SealOf(ObjectOrEmpty(root, "seal")).Ok?
       && ContainerStateStorage(root, IdOf(root, "id").value).Ok?)
  {
    var tagged :- ExpectType(root, ContainerTag);
    var id :- IdOf(root, "id");
    var kind :- StringOr(root, "container_kind", "can");
    var stack :- IntegerOr(root, "stack_size", 16);
    var rarity :- StringOr(root, "rarity", "common");
    var durability :- DurabilityOf(ObjectOrEmpty(root, "durability"));
    var interaction :- InteractionOf(ObjectOrEmpty(root, "interaction"), id);
    var seal :- SealOf(ObjectOrEmpty(root, "seal"));
    var stateStorage :- ContainerStateStorage(root, id);
    Ok(ContainerData(id, kind, stack, rarity, durability, interaction, seal, stateStorage))
  }

  /** `parseEquipmentPlacement`: the block is enabled exactly when "kind" is "block" in any
      letter case; the block and block-entity identifiers are derived as for containers. */
  function EquipmentPlacement(root: Object, id: Identifier): (r: Result<Placement>)
    requires Valid(id)
    ensures r.Ok? ==> var placement := ObjectOrEmpty(root, "placement");
      && (r.value.blockEnabled <==>
            "kind" in placement && AsString(placement["kind"]).Ok? && EqualsIgnoreCase(AsString(placement["kind"]).value, "block"))
      && ("block_id" !in placement ==> r.value.blockId == Identifier(id.namespace, id.path + BlockSuffix))
      && ("block_id" in placement ==> IdOf(placement, "block_id") == Ok(r.value.blockId))
      && ("block_entity_id" !in placement ==> r.value.blockEntityId == r.value.blockId)
      && ("block_entity_id" in placement ==> IdOf(placement, "block_entity_id") == Ok(r.value.blockEntityId))
    ensures var placement := ObjectOrEmpty(root, "placement");
      r.Ok? <==>
        (&& StringOr(placement, "kind", "").Ok?
         && ("block_id" in placement ==> IdOf(placement, "block_id").Ok?)
         && ("block_entity_id" in placement ==> IdOf(placement, "block_entity_id").Ok?))
  {
    var placement := ObjectOrEmpty(root, "placement");
    var kind :- StringOr(placement, "kind", "");
    var blockEnabled := EqualsIgnoreCase(kind, "block");
    var blockId :- if "block_id" in placement then IdOf(placement, "block_id") else BlockIdFor(id);
    var blockEntityId :- if "block_entity_id" in placement then IdOf(placement, "block_entity_id") else Ok(blockId);
    Ok(Placement(blockEnabled, blockId, blockEntityId))
  }

  /** `parseEquipment`. */
  function EquipmentOf(root: Object): (r: Result<EquipmentData>)
    ensures r.Ok? ==> HasType(root, EquipmentTag)
    ensures r.Ok? ==> IdOf(root, "id") == Ok(r.value.id)
    ensures r.Ok? ==>
      && StringOr(root, "name_key", "") == Ok(r.value.nameKey)
      && StringOr(root, "rarity", "common") == Ok(r.value.rarity)
      && StringOr(root, "material", "") == Ok(r.value.material)
      && StringOr(root, "function", "") == Ok(r.value.functionTag)
      && IntegerOr(root, "stack_size", 1) == Ok(r.value.stackSize)
    ensures r.Ok? ==> EquipmentPlacement(root, r.value.id) == Ok(r.value.placement)
    ensures r.Ok? <==>
      (&& HasType(root, EquipmentTag) && IdOf(root, "id").Ok?
       && StringOr(root, "name_key", "").Ok? && StringOr(root, "rarity", "common").Ok?
       && StringOr(root, "material", "").Ok? && StringOr(root, "function", "").Ok?
       && IntegerOr(root, "stack_size", 1).Ok?
       && EquipmentPlacement(root, IdOf(root, "id").value).Ok?)
  {
    var tagged :- ExpectType(root, EquipmentTag);
    var id :- IdOf(root, "id");
    var nameKey :- StringOr(root, "name_key", "");
    var rarity :- StringOr(root, "rarity", "common");
    var material :- StringOr(root, "material", "");
    var functionTag :- StringOr(root, "function", "");
    var stack :- IntegerOr(root, "stack_size", 1);
    var placement :- EquipmentPlacement(root, id);
    Ok(EquipmentData(id, nameKey, rarity, material, functionTag, stack, placement))
  }
}
