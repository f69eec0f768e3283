/** Item definitions shared by the inventory, crafting and building code.
    An ItemData asset is compared by reference in the game; here two items are
    the same exactly when their records are equal, and `id` keeps distinct
    assets apart. */
module Items {

  datatype Option<T> = None | Some(value: T)

  /** The item categories the inventory code dispatches on. */
  datatype ItemType = Equipable | Consumable | Resource | Build

  /** The parts of an ItemData asset that the inventory logic reads. */
  datatype ItemData = ItemData(
    id: nat,
    canStack: bool,
    maxStackAmount: int,
    itemType: ItemType,
    hasDropPrefab: bool,
    hasBuildPrefab: bool)

  /** How many units one slot may hold of an item: a stackable item up to its
      maxStackAmount, any other item exactly one. */
  function Capacity(d: ItemData): int
  {
    if d.canStack then d.maxStackAmount else 1
  }

  /** A stackable item whose maximum is below one cannot be held coherently:
      AddItem puts one unit of it into an empty slot anyway. */
  predicate WellFormed(d: ItemData) {
    Capacity(d) >= 1
  }

  function Min(a: int, b: int): int { if a <= b then a else b }
  function Max(a: int, b: int): int { if a >= b then a else b }
}
