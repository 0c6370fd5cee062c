/** The assembled catalogue (ContentPack.java): three identifier-keyed tables, one per kind of
    definition, behind read-only accessors. A pack is a value here, so no accessor can change
    any of its tables. */
module ContentPacks {
  import opened Outcomes
  import opened Identifiers
  import opened LinkedMaps
  import opened Beverages
  import opened Containers
  import opened Equipment

  datatype ContentPack = ContentPack(
    beverages: LinkedMap<BeverageData>,
    containers: LinkedMap<ContainerData>,
    equipment: LinkedMap<EquipmentData>)
  {
    /** `beverageValues`: every stored beverage, once each, in first-insertion order. */
    function BeverageValues(): (r: seq<BeverageData>)
      requires beverages.Valid()
      ensures |r| == |beverages.order|
      ensures forall i :: 0 <= i < |r| ==> r[i] == beverages.entries[beverages.order[i]]
    {
      beverages.Values()
    }

    /** `containerValues`: every stored container, once each, in first-insertion order. */
    function ContainerValues(): (r: seq<ContainerData>)
      requires containers.Valid()
      ensures |r| == |containers.order|
      ensures forall i :: 0 <= i < |r| ==> r[i] == containers.entries[containers.order[i]]
    {
      containers.Values()
    }

    /** `equipmentValues`: every stored equipment definition, once each, in first-insertion order. */
    function EquipmentValues(): (r: seq<EquipmentData>)
      requires equipment.Valid()
      ensures |r| == |equipment.order|
      ensures forall i :: 0 <= i < |r| ==> r[i] == equipment.entries[equipment.order[i]]
    {
      equipment.Values()
    }

    /** `container`: the stored definition, or null (not an error) for an identifier that was
        never loaded, such as a beverage's container that no document defined. */
    function Container(id: Identifier): (r: Option<ContainerData>)
      ensures r.Some? <==> id in containers.entries
      ensures r.Some? ==> r.value == containers.entries[id]
    {
      containers.Get(id)
    }
  }

  function EmptyPack(): (r: ContentPack)
    ensures r.beverages.Valid() && r.containers.Valid() && r.equipment.Valid()
    ensures r.beverages.Size() == 0 && r.containers.Size() == 0 && r.equipment.Size() == 0
  {
    ContentPack(Empty(), Empty(), Empty())
  }
}
