/** The immutable container definition (ContainerData.java). */
module Containers {
  import opened Identifiers

  /** The use animations a container's interaction can name. */
  datatype UseAction = Eat | Drink | Block | Bow | Crossbow | Spyglass

  datatype Durability = Durability(breakable: bool, maxDamage: int, fireproof: bool, explosionResistance: string)

  datatype Interaction = Interaction(
    useAction: UseAction, returnsContainer: bool, returnItemId: Identifier,
    consumeOnUse: bool, consumeOnDrink: bool)

  datatype Seal = Seal(startsSealed: bool, reopenable: bool, sealQuality: string)

  datatype PlacedBlock = PlacedBlock(
    enabled: bool, blockId: Identifier, blockEntityId: Identifier,
    syncToClient: bool, dropsKeepContents: bool)

  datatype StateStorage = StateStorage(placedBlock: PlacedBlock)

  datatype ContainerData = ContainerData(
    id: Identifier, containerKind: string, stackSize: int, rarity: string,
    durability: Durability, interaction: Interaction, seal: Seal, stateStorage: StateStorage)
}

/** The immutable equipment definition (EquipmentData.java). */
module Equipment {
  import opened Identifiers

  datatype Placement = Placement(blockEnabled: bool, blockId: Identifier, blockEntityId: Identifier)

  /** `functionTag` is the JSON "function" member (a reserved word in Dafny). */
  datatype EquipmentData = EquipmentData(
    id: Identifier, nameKey: string, rarity: string, material: string,
    functionTag: string, stackSize: int, placement: Placement)
}
