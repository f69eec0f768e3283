# SurvivalGame04 gameplay bookkeeping in Dafny

This project models the bookkeeping of a Unity survival game. The engine
calls are removed; what is left is integer counting and small state
machines. The model covers:

- **Inventory.** There are two fixed arrays of item slots, the hotbar and
  the bag. Each slot holds an item, a quantity, an equipped flag and an
  outline. The model covers:
  - `AddItem` and its four-stage placement order;
  - `SwapSlots`, which merges or exchanges two slots;
  - `HasItem`, `RemoveItem` and `UseItem`;
  - the saved hotbar list (`UpdateHotbarData`) and the `ToggleUI` menu;
  - the slot event handlers (`ItemSlot`);
  - the hotbar strip that mirrors the hotbar slots (`UIHotbar`).
- **Clients of the inventory.** `CraftingManager.Craft` checks every
  ingredient before it removes any. `BuildingSystem` places structures,
  one unit of the build item each.
- **Monsters.**
  - The `Enemy` AI is a state machine over Idle, Chase, Attack and Dead, with an attack cooldown and argmin target selection.
  - `ApplyEnemyType` is the per-type stat table.
  - `EnemyHealth` is the hit-point ledger.
- **Resource nodes.** `Resource` and `InteractableResource` are capacity
  counters. They run dry, count down and respawn.
- **Progress.** `GameManager.Awake` seeds the day-count achievements and
  `GameManager.OnNewDay` unlocks them.
- **Dialogue.** `DialogueManager` pages through an NPC's lines and types
  each one out a character at a time.

Modules and files:

- `items.dfy`, module Items: `ItemData` (an id, `canStack`, `maxStackAmount`, the type, and whether the drop and build prefabs are set) and `Option`.
- `inventory_spec.dfy`, module InventorySpec: slot contents as values, one function per inventory operation, and the counting lemmas.
- `inventory.dfy`, module Inventory: the classes `Player`, `ItemSlot`, `UIHotbar`, `UIInventory` and `BuildingSystem`, each proved against InventorySpec.
- `crafting.dfy`, module Crafting: `CraftingManager.Craft` and the recipe lemmas.
- `enemy.dfy`, module Monster: the AI as a pure step function `Tick`, and the classes `Enemy` and `EnemyHealth`.
- `resource.dfy`, module Gathering: `Resource`.
- `interactable_resource.dfy`, module Interactables: `InteractableResource`, its countdown and its prompt text.
- `achievement.dfy` and `game_manager.dfy`, modules Achievements and Progress: `Achievement` and `GameManager`.
- `dialogue.dfy`, module Dialogue: `DialogueManager`.

## How the source is represented

- **Unity null.** A null reference to an asset is `None`. The `==` on
  `ItemData` in the source compares references, so it is modelled as
  equality of item values that carry an id.
- **Exceptions become `fault`.** Where the source would throw, the
  method returns `fault == true`. This covers a null dereference, an index
  out of range and instantiating a missing prefab. The state at the fault
  is the state at the throwing statement.
- **Coroutines.**
  - A running coroutine is a flag (`respawning`, `isTyping`) or a counter (`pendingHits`).
  - One resumption of a coroutine is a method of its own: `TypeStep`, `RespawnAfterTime`, `AttackHitAfter`.
- **Engine inputs become parameters.** This covers:
  - frame lengths, distances, raycast hits, mouse buttons and the drag hit test;
  - the singletons: `CharacterManager.Instance.Player` is an injected `Player`, and `GameManager.Instance` is a `Registry` object.
- **Instantiate.** `Instantiate` of a drop or a structure appends to a
  log (`thrown`, `placed`) or raises a counter (`dropped`).
- **Floats.** Unity floats are `real`.

## Model

| member | source | states |
|---|---|---|
| InventorySpec.RefreshAll | Assets/Scripts/UI/Inventory/UIInventory.cs:175-188 | UpdateUI treats every slot on its own: each slot is Set (outline shows the equipped flag) or Cleared |
| InventorySpec.RefreshKeepsTotals | Assets/Scripts/UI/Inventory/UIInventory.cs:175-188 | UpdateUI never changes the count HasItem sees for any item |
| InventorySpec.RefreshKeepsStocked | Assets/Scripts/UI/Inventory/UIInventory.cs:175-188 | UpdateUI keeps every stack between one unit and its capacity |
| InventorySpec.TotalPut | Assets/Scripts/UI/Inventory/UIInventory.cs:405-424 | overwriting one slot changes the total by the difference of what the old and the new slot contribute |
| InventorySpec.FirstStack | Assets/Scripts/UI/Inventory/UIInventory.cs:190-198 | the first slot holding the item below its maximum, or None exactly when no slot qualifies |
| InventorySpec.FirstEmpty | Assets/Scripts/UI/Inventory/UIInventory.cs:200-207 | the first slot holding no item, or None exactly when every slot holds one |
| InventorySpec.PlaceFor | Assets/Scripts/UI/Inventory/UIInventory.cs:118-170 | AddItem's precedence: hotbar stack, then empty hotbar slot, then bag stack, then empty bag slot, then throw away; each as an if-and-only-if, each search taking the first fitting slot |
| InventorySpec.AddCounts | Assets/Scripts/UI/Inventory/UIInventory.cs:113-172 | AddItem raises the added item's count by exactly one unless it throws the item away, and no other item's count changes |
| InventorySpec.AddKeepsStocked | Assets/Scripts/UI/Inventory/UIInventory.cs:118-131 | topping up only a stack below its maximum never pushes a stack above its capacity |
| InventorySpec.DrainFrom | Assets/Scripts/UI/Inventory/UIInventory.cs:430-448 | one draining loop of RemoveItem keeps the number of slots |
| InventorySpec.DrainCounts | Assets/Scripts/UI/Inventory/UIInventory.cs:430-448 | a loop that returns early removed exactly what it was asked for; one that runs through removed every unit there was and carries the rest over |
| InventorySpec.RemoveCounts | Assets/Scripts/UI/Inventory/UIInventory.cs:425-473 | when HasItem(item, amount) held, RemoveItem lowers the total by exactly `amount`; otherwise it leaves none |
| InventorySpec.RemoveDrainsHotbarFirst | Assets/Scripts/UI/Inventory/UIInventory.cs:425-473 | slots of other items keep their stock; the bag is touched only once every hotbar slot of the item is empty |
| InventorySpec.DrainInOrder | Assets/Scripts/UI/Inventory/UIInventory.cs:430-448 | the loop never touches a slot before its start or of another item, and it reaches a slot only after emptying every earlier slot of the item |
| InventorySpec.RemoveKeepsOthers | Assets/Scripts/UI/Inventory/UIInventory.cs:425-473 | RemoveItem leaves every other item's count as it was |
| InventorySpec.DrainKeepsOthers | Assets/Scripts/UI/Inventory/UIInventory.cs:430-448 | one draining loop leaves every other item's count as it was |
| InventorySpec.RemoveKeepsNoDebt | Assets/Scripts/UI/Inventory/UIInventory.cs:425-473 | RemoveItem never leaves a slot holding an item with a negative quantity |
| InventorySpec.DrainKeepsNoDebt | Assets/Scripts/UI/Inventory/UIInventory.cs:434-446 | a slot the loop takes its last units from is cleared, so no held quantity goes negative |
| InventorySpec.AfterSwap | Assets/Scripts/UI/Inventory/UIInventory.cs:349-371 | SwapSlots fails exactly when both slots are empty (`fromSlot.item.canStack` on null) |
| InventorySpec.SwapMerges | Assets/Scripts/UI/Inventory/UIInventory.cs:353-359 | merging: `to` gets min(total, max), `from` the rest, the two still add up to the total, `from` is cleared iff the rest is at most 0, every other slot keeps its stock |
| InventorySpec.MergedSlots | Assets/Scripts/UI/Inventory/UIInventory.cs:353-359 | the exact contents the merge leaves in `to` and `from`, and every other slot unchanged |
| InventorySpec.SwapExchanges | Assets/Scripts/UI/Inventory/UIInventory.cs:360-366 | any other pair exchanges item and quantity, and every other slot keeps its stock |
| InventorySpec.SwapKeepsTotals | Assets/Scripts/UI/Inventory/UIInventory.cs:349-371 | dragging one slot onto another never creates or destroys units of any item |
| InventorySpec.MergeKeepsTotals | Assets/Scripts/UI/Inventory/UIInventory.cs:353-359 | the merge branch keeps every item's count |
| InventorySpec.ExchangeKeepsTotals | Assets/Scripts/UI/Inventory/UIInventory.cs:360-366 | the exchange branch keeps every item's count |
| InventorySpec.SwapKeepsStocked | Assets/Scripts/UI/Inventory/UIInventory.cs:349-371 | dragging keeps every stack between one unit and its capacity |
| InventorySpec.ConsumeCounts | Assets/Scripts/UI/Inventory/UIInventory.cs:272-277 | using a consumable takes exactly one unit of it and no unit of any other item |
| InventorySpec.Mirror | Assets/Scripts/UI/Inventory/UIHotbar.cs:41-56 | UpdateHotbarUI treats each view slot on its own and keeps their number |
| InventorySpec.MirrorShowsSource | Assets/Scripts/UI/Inventory/UIHotbar.cs:41-56 | each view shows exactly the item of the hotbar slot at its position (none past the end), with its quantity; mirroring again changes nothing |
| InventorySpec.MirrorIgnoresRefresh | Assets/Scripts/UI/Inventory/UIInventory.cs:367-368 | the view does not depend on whether UpdateUI ran first, which is why SwapSlots may mirror before refreshing |
| InventorySpec.Padded | Assets/Scripts/UI/Inventory/UIInventory.cs:386-387 | the while loop grows the list with empty entries to the length asked for and keeps the entries it had |
| InventorySpec.LoggedEntries | Assets/Scripts/UI/Inventory/UIInventory.cs:379-395 | UpdateHotbarData ignores a position outside the hotbar; otherwise it grows the list to hold the position, records the slot there and leaves every other entry |
| InventorySpec.RecordedIgnoresRefresh | Assets/Scripts/UI/Inventory/UIInventory.cs:389-394 | what UpdateHotbarData stores does not change under UpdateUI |
| InventorySpec.Copies | Assets/Scripts/UI/Inventory/UIInventory.cs:219-227 | ThrowItem spawns max(0, amount) drops, all of the thrown item |
| Inventory.Toggled | Assets/Scripts/UI/Inventory/UIInventory.cs:93-109 | from no menu the inventory opens; from any open menu everything closes |
| Inventory.UIInventory.ToggleUI | Assets/Scripts/UI/Inventory/UIInventory.cs:93-109 | the menu becomes Toggled of the old one, and the inventory window is open exactly when the inventory menu is |
| Inventory.UIInventory.constructor | Assets/Scripts/UI/Inventory/UIInventory.cs:44-77 | Start: the slots are the panel children with their indices, every slot cleared, both windows closed, nothing selected |
| Inventory.ClearEach | Assets/Scripts/UI/Inventory/UIInventory.cs:58-74 | each loop of Start clears every slot of its array |
| Inventory.UIInventory.AddItem | Assets/Scripts/UI/Inventory/UIInventory.cs:113-172 | slots become AfterAdd (placement by PlaceFor, then UpdateUI), the hotbar view mirrors them and the pending item becomes null; on the throw-away path one drop is thrown, and a missing drop prefab faults with the slots, the view and the pending item as they were |
| Inventory.UIInventory.AddToBag | Assets/Scripts/UI/Inventory/UIInventory.cs:146-171 | with no room in the hotbar: the bag stack, else what FillOrThrow does, with the same outcome AddItem promises |
| Inventory.UIInventory.FillOrThrow | Assets/Scripts/UI/Inventory/UIInventory.cs:159-171 | with no stack to top up: the first empty bag slot, else one unit thrown away, faulting on a missing drop prefab with the pending item kept |
| Inventory.UIInventory.UpdateUI | Assets/Scripts/UI/Inventory/UIInventory.cs:175-188 | the slots become Refresh of what they were |
| Inventory.UIInventory.UpdateHotbarDisplay | Assets/Scripts/UI/Inventory/UIInventory.cs:80-83 | the hotbar view mirrors the hotbar slots |
| Inventory.UIInventory.HasItem | Assets/Scripts/UI/Inventory/UIInventory.cs:405-424 | true iff the slots holding the item hold at least `amount` units between both arrays |
| Inventory.UIInventory.GetStackSlot | Assets/Scripts/UI/Inventory/UIInventory.cs:190-198 | returns the slot object at FirstStack of the bag, null exactly when there is none |
| Inventory.UIInventory.GetEmptySlot | Assets/Scripts/UI/Inventory/UIInventory.cs:200-207 | returns the slot object at FirstEmpty of the bag, null exactly when there is none |
| Inventory.UIInventory.ThrowItem | Assets/Scripts/UI/Inventory/UIInventory.cs:209-231 | unequips the item if it is the one equipped; a missing drop prefab with `amount` at least 1 faults before any drop or refresh; otherwise spawns `amount` drops of it and refreshes both displays |
| Inventory.UIInventory.SelectItem | Assets/Scripts/UI/Inventory/UIInventory.cs:233-252 | an out-of-range index faults; an empty slot is ignored; otherwise that slot and index are selected |
| Inventory.UIInventory.UseItem | Assets/Scripts/UI/Inventory/UIInventory.cs:254-283 | an out-of-range index faults; a consumable loses one unit (cleared at zero) and both displays refresh; a Build item starts placement; nothing else changes |
| Inventory.UIInventory.SwapSlots | Assets/Scripts/UI/Inventory/UIInventory.cs:349-371 | a null slot makes it a no-op; two empty slots fault; otherwise the slots become AfterSwap, the view mirrors them, and both indices are recorded, `toSlot` first |
| Inventory.UIInventory.MergeStacks | Assets/Scripts/UI/Inventory/UIInventory.cs:353-359 | the stacking branch produces Merged |
| Inventory.UIInventory.ExchangeSlots | Assets/Scripts/UI/Inventory/UIInventory.cs:362-365 | the three tuple swaps produce Exchanged, including for a slot with itself |
| Inventory.UIInventory.UpdateHotbarData | Assets/Scripts/UI/Inventory/UIInventory.cs:379-395 | the list becomes Logged of the old list at `index` |
| Inventory.UIInventory.RefreshHotbarData | Assets/Scripts/UI/Inventory/UIInventory.cs:399-403 | every hotbar position is recorded, the list is at least as long as the hotbar, and entries past the hotbar are kept |
| Inventory.UIInventory.RemoveFrom | Assets/Scripts/UI/Inventory/UIInventory.cs:430-448 | one loop of RemoveItem does what DrainFrom says |
| Inventory.UIInventory.RemoveItem | Assets/Scripts/UI/Inventory/UIInventory.cs:425-473 | the slots become AfterRemove (hotbar first, bag with what is left), and the view mirrors them |
| Inventory.ItemSlot.Clear | Assets/Scripts/UI/Inventory/ItemSlot.cs:46-52 | the item becomes null and the equipped flag false; quantity and every other slot stay |
| Inventory.ItemSlot.IsHotbarSlot | Assets/Scripts/UI/Inventory/ItemSlot.cs:66-71 | true iff this very object is in the hotbar array, which is iff the slot sits in the hotbar |
| Inventory.ItemSlot.OnPointerClick | Assets/Scripts/UI/Inventory/ItemSlot.cs:54-64 | the right button uses the slot's item (slots, hotbar view and build item as UseItem says, selection kept), any other button selects the slot (the slot and its index, when it holds an item); neither can fault |
| Inventory.ItemSlot.OnBeginDrag | Assets/Scripts/UI/Inventory/ItemSlot.cs:73-85 | nothing happens on an empty slot; otherwise a drag starts, not yet outside |
| Inventory.ItemSlot.OnDrag | Assets/Scripts/UI/Inventory/ItemSlot.cs:87-101 | with a live drag, records whether the pointer is outside the window |
| Inventory.ItemSlot.OnEndDrag | Assets/Scripts/UI/Inventory/ItemSlot.cs:103-114 | dropped outside while holding an item: one drop of it is thrown, the slot is cleared and the inventory refreshed, unless the missing drop prefab faults and the slot keeps its item; otherwise nothing but the drag ends |
| Inventory.ItemSlot.OnDrop | Assets/Scripts/UI/Inventory/ItemSlot.cs:116-123 | SwapSlots runs only for a different, non-null source slot: on success the slots become AfterSwap, the view mirrors them and both indices are recorded; otherwise nothing changes |
| Inventory.UIHotbar.constructor | Assets/Scripts/UI/Inventory/UIHotbar.cs:11-23 | Start: every view slot is cleared with its outline off; nothing is selected |
| Inventory.UIHotbar.UpdateHotbarUI | Assets/Scripts/UI/Inventory/UIHotbar.cs:41-56 | the views become Mirror of the old views over the source slots |
| Inventory.UIHotbar.SelectSlot | Assets/Scripts/UI/Inventory/UIHotbar.cs:58-84 | out of range changes nothing; otherwise the equipment comes off, the index is selected, exactly its outline is lit, and only an Equipable item is equipped |
| Inventory.UIHotbar.UseSelectedItem | Assets/Scripts/UI/Inventory/UIHotbar.cs:87-93 | with nothing selected (index -1) the lookup faults; an empty view slot is ignored; otherwise the hotbar slot is used, with the slots, the view and the build item as UseItem says; nothing changes on the other paths |
| Inventory.BuildingSystem.StartPlacing | Assets/Scripts/Build/BuildingSystem.cs:13-18 | a null item, a non-Build item or one without a build prefab is ignored; otherwise it is the build item |
| Inventory.BuildingSystem.CancelPlacement | Assets/Scripts/Build/BuildingSystem.cs:23-26 | the build item becomes null |
| Inventory.BuildingSystem.Update | Assets/Scripts/Build/BuildingSystem.cs:28-37 | without a build item or a right click nothing changes, the hotbar view included; otherwise PlaceObject's outcome |
| Inventory.BuildingSystem.PlaceObject | Assets/Scripts/Build/BuildingSystem.cs:39-53 | without a prefab or a hit nothing changes, the hotbar view included; otherwise one structure is placed, the slots become AfterRemove(item, 1), the hotbar view mirrors them, and placing stops iff HasItem(item, 1) is then false |
| Crafting.FirstMissing | Assets/Scripts/Crafting/CraftingManager.cs:12-19 | the first entry failing HasItem, each checked against the same unreduced inventory; None iff every entry passes |
| Crafting.RemoveAll | Assets/Scripts/Crafting/CraftingManager.cs:21-24 | one RemoveItem per entry, in recipe order, keeps the array lengths |
| Crafting.CraftConsumes | Assets/Scripts/Crafting/CraftingManager.cs:10-30 | for a recipe naming each item once, crafting takes exactly each listed amount, leaves every other item's count, and no held quantity goes negative |
| Crafting.ChecksArePerEntry | Assets/Scripts/Crafting/CraftingManager.cs:12-15 | a recipe naming one item twice passes the checks with 3 units held and 4 asked for, and the removals leave 0 |
| Crafting.CraftingManager.Craft | Assets/Scripts/Crafting/CraftingManager.cs:10-30 | a missing ingredient returns with nothing removed (logging a null item faults); otherwise the inventory is RemoveAll of the recipe, and the output is thrown, `outputAmount` copies, iff it has a drop prefab; a null output faults after the removals |
| Monster.Nearest | Assets/Scripts/Monster/Enemy.cs:213-224 | the first object other than the enemy at the least distance; None iff every object is the enemy itself |
| Monster.Enemy.FindClosestByTag | Assets/Scripts/Monster/Enemy.cs:213-224 | the min-search loop returns Closest of the scene |
| Monster.Looked | Assets/Scripts/Monster/Enemy.cs:100-109 | ends in Idle or Chase, Chase iff the (re)chosen target is alive within vision; a live target within vision is kept |
| Monster.LookSeesAnyoneInRange | Assets/Scripts/Monster/Enemy.cs:100-109 | with an honest scene, LookForTarget chases iff the current target or some other tagged object is within vision |
| Monster.Started | Assets/Scripts/Monster/Enemy.cs:141-152 | Attack, timer set to the cooldown, a delayed hit started iff hits are not animation events |
| Monster.Chased | Assets/Scripts/Monster/Enemy.cs:111-125 | Idle iff the target is lost or beyond 1.25×vision; Attack iff it is in attack range with the timer run out; otherwise unchanged |
| Monster.Tick | Assets/Scripts/Monster/Enemy.cs:60-98 | Dead is fixed; a living enemy does not die in a frame; Attack stays Attack; an attack starts only from Chase, in range, with the cooled timer at most 0; otherwise a positive timer drops by `dt` |
| Monster.Enemy.Update | Assets/Scripts/Monster/Enemy.cs:60-98 | the AI state after a frame is Tick of the state before |
| Monster.Enemy.LookForTarget | Assets/Scripts/Monster/Enemy.cs:100-109 | the AI state becomes Looked |
| Monster.Enemy.Chase | Assets/Scripts/Monster/Enemy.cs:111-125 | the AI state becomes Chased |
| Monster.Enemy.StartAttack | Assets/Scripts/Monster/Enemy.cs:141-152 | the AI state becomes Started |
| Monster.DelayedHitLanded | Assets/Scripts/Monster/Enemy.cs:154-159 | a resumed delayed hit is used up and a living enemy returns to Chase |
| Monster.Enemy.AttackHitAfter | Assets/Scripts/Monster/Enemy.cs:154-159 | the AI state becomes DelayedHitLanded and one hit is dealt |
| Monster.AnimationHitAsWritten | Assets/Scripts/Monster/Enemy.cs:162-166 | the animation hit event changes no AI state |
| Monster.Enemy.AnimationAttackHit | Assets/Scripts/Monster/Enemy.cs:162-166 | a living enemy deals a hit, a dead one nothing; the AI state stays |
| Monster.Enemy.SetDeadState | Assets/Scripts/Monster/Enemy.cs:187-192 | the state becomes Dead |
| Monster.DeadStaysDead | Assets/Scripts/Monster/Enemy.cs:62 | Dead is terminal over any run of frames and events |
| Monster.AttackLatches | Assets/Scripts/Monster/Enemy.cs:141-166 | as written, with animation-event hits, an attacking enemy stays in Attack until it dies |
| Monster.AnimationHitFixed | Assets/Scripts/Monster/Enemy.cs:162-166 | the corrected hit event puts a living enemy back into Chase |
| Monster.FixedHitEndsAttack | Assets/Scripts/Monster/Enemy.cs:154-166 | with the correction, an attacking enemy is chasing again once its hit event fires |
| Monster.Clamp | Assets/Scripts/Monster/Enemy.cs:208 | Mathf.Clamp: a value below `lo` gives `lo`, one above `hi` and not below `lo` gives `hi`, one inside is kept; the result is within ordered bounds |
| Monster.TypeStats | Assets/Scripts/Monster/Enemy.cs:197-204 | types 1 to 5 have speeds 2.5, 2.7, 3.0, 3.3, 3.6 and damages 5, 8, 12, 16, 22; other types keep the defaults |
| Monster.HpIndex | Assets/Scripts/Monster/Enemy.cs:206-210 | the table index is the type's own, or the nearer end for a type outside it; an empty table has no valid index |
| Monster.Enemy.ApplyEnemyType | Assets/Scripts/Monster/Enemy.cs:194-211 | speed and damage from TypeStats; with a health component the maximum becomes max(1, the clamped table entry), filled, and the rest of the component is kept; an empty table faults with the component unchanged |
| Monster.Enemy.Awake | Assets/Scripts/Monster/Enemy.cs:43-49 | applies the enemy type, with ApplyEnemyType's outcome |
| Monster.Enemy.constructor | Assets/Scripts/Monster/Enemy.cs:11-41 | the Inspector defaults: Idle, speed 3, damage 10 |
| Monster.EnemyHealth.constructor | Assets/Scripts/Monster/EnemyHealth.cs:8-24 | the maximum starts at 50 |
| Monster.EnemyHealth.Awake | Assets/Scripts/Monster/EnemyHealth.cs:32-44 | finds the AI beside it |
| Monster.EnemyHealth.Start | Assets/Scripts/Monster/EnemyHealth.cs:46-50 | hit points max(1, maxHP), not dead |
| Monster.EnemyHealth.SetMaxHP | Assets/Scripts/Monster/EnemyHealth.cs:52-56 | maximum max(1, n); hit points full when `fill`, else clamped to [0, max] |
| Monster.EnemyHealth.TakeDamage | Assets/Scripts/Monster/EnemyHealth.cs:59-91 | a dead enemy or a hit of at most 0 changes nothing; otherwise the hit points drop by the full amount, and the enemy dies, telling the AI, iff they reach at most 0; the AI keeps everything but its state |
| Monster.EnemyHealth.Die | Assets/Scripts/Monster/EnemyHealth.cs:102-129 | runs once: dead, the AI set to Dead, destruction scheduled if configured; a second call changes nothing; the AI keeps everything but its state |
| Monster.EnemyHealth.GetCurrentHP | Assets/Scripts/Monster/EnemyHealth.cs:132 | the hit points |
| Monster.EnemyHealth.Heal | Assets/Scripts/Monster/EnemyHealth.cs:135-139 | dead: nothing; otherwise clamp(hp + max(0, a), 0, max), never lower than before, never above the maximum |
| Gathering.Taken | Assets/Scripts/Resource/Resource.cs:38-46 | the units one hit takes: min(perHit, capacity) for positive values, 0 for an empty node |
| Gathering.TakenLeaves | Assets/Scripts/Resource/Resource.cs:38-50 | a node starting at 0 or more never goes below 0, and it is emptied iff it was empty or the hit takes at least what it holds |
| Gathering.Resource.constructor | Assets/Scripts/Resource/Resource.cs:7-20 | the Inspector values, not depleted, shown |
| Gathering.Resource.Start | Assets/Scripts/Resource/Resource.cs:22-29 | original and current capacity become the capacity |
| Gathering.Resource.Gather | Assets/Scripts/Resource/Resource.cs:31-51 | depleted or a wrong tool: nothing; otherwise capacity drops by Taken with one drop per unit, depleted iff capacity is at most 0; a missing drop prefab faults after taking one unit |
| Gathering.Resource.Startrespawn | Assets/Scripts/Resource/Resource.cs:53-61 | depleted, hidden, respawn running |
| Gathering.Resource.RespawnAfterTime | Assets/Scripts/Resource/Resource.cs:63-73 | capacity restored, shown, not depleted |
| Interactables.Ceil | Assets/Scripts/Interactable/InteractableResource.cs:31 | Mathf.Ceil: the least whole number not below x |
| Interactables.Digits | Assets/Scripts/Interactable/InteractableResource.cs:31 | the digits of a non-negative number read back (DecimalValue) as that number, and only 0 starts with the digit 0 |
| Interactables.IntText | Assets/Scripts/Interactable/InteractableResource.cs:31 | the text reads back as the number: digits only for 0 or more, a minus sign and the digits of the magnitude below 0, with no leading zero |
| Interactables.InteractableResource.GetInteractPrompt | Assets/Scripts/Interactable/InteractableResource.cs:27-34 | the depleted text, with the whole seconds left, iff the node is depleted; otherwise the gather prompt |
| Interactables.DepletedText | Assets/Scripts/Interactable/InteractableResource.cs:31 | the depleted prompt starts with the name and the depleted marker and holds the seconds text exactly between them and "s left)" |
| Interactables.InteractableResource.constructor | Assets/Scripts/Interactable/InteractableResource.cs:6-17 | the Inspector values, not depleted |
| Interactables.InteractableResource.Start | Assets/Scripts/Interactable/InteractableResource.cs:19-25 | original and current capacity become the capacity |
| Interactables.InteractableResource.OnInteract | Assets/Scripts/Interactable/InteractableResource.cs:36-54 | depleted: nothing; otherwise capacity drops by Taken, and at most 0 the node is depleted with the timer at the respawn time; a missing drop prefab faults after one unit |
| Interactables.InteractableResource.StartRespawn | Assets/Scripts/Interactable/InteractableResource.cs:56-61 | depleted, the timer at the respawn time, the countdown running |
| Interactables.Countdown | Assets/Scripts/Interactable/InteractableResource.cs:65-69 | the countdown uses at most the frames given, all of them while the timer stays positive, none when it has run out |
| Interactables.CountdownEnds | Assets/Scripts/Interactable/InteractableResource.cs:65-69 | frames of at least dt > 0 run the timer out once they cover it |
| Interactables.CountdownDescends | Assets/Scripts/Interactable/InteractableResource.cs:65-69 | the timer only goes down |
| Interactables.InteractableResource.RespawnAfterTime | Assets/Scripts/Interactable/InteractableResource.cs:63-76 | the timer and frames used are Countdown's; once the timer is at most 0 the capacity is restored and the node not depleted |
| Achievements.Achievement.constructor | Assets/Scripts/GameManager/Achievement.cs:12-17 | the given title and threshold, locked |
| Achievements.Achievement.Unlock | Assets/Scripts/GameManager/Achievement.cs:19-22 | unlocked, whatever it was, so it is idempotent; only `isUnlocked` may change |
| Progress.GameManager.constructor | Assets/Scripts/GameManager/GameManager.cs:10-13 | day one, no achievements |
| Progress.GameManager.Awake | Assets/Scripts/GameManager/GameManager.cs:15-31 | a second manager is discarded and changes nothing; the first registers and appends three new locked achievements, thresholds 3, 5 and 10 in order |
| Progress.GameManager.OnNewDay | Assets/Scripts/GameManager/GameManager.cs:33-45 | the day is recorded; every achievement is unlocked iff it was or the day reaches its threshold, so none is re-locked; titles and thresholds stay |
| Dialogue.DialogueManager.constructor | Assets/Scripts/Interactable/DialogueManager.cs:25-29 | the panel starts hidden |
| Dialogue.DialogueManager.StartDialogue | Assets/Scripts/Interactable/DialogueManager.cs:39-47 | pauses, opens the panel, index 0, then ShowNextDialogue: a line being typed is finished instead; with no lines the dialogue ends at once and the texts stay |
| Dialogue.DialogueManager.ShowNextDialogue | Assets/Scripts/Interactable/DialogueManager.cs:49-67 | while typing: completes the line, index kept; otherwise starts line `index` and moves past it; past the last line: EndDialogue; the index never exceeds the number of lines |
| Dialogue.DialogueManager.EndDialogue | Assets/Scripts/Interactable/DialogueManager.cs:69-80 | typing stops, the panel closes, time scale 1 |
| Dialogue.DialogueManager.TypeText | Assets/Scripts/Interactable/DialogueManager.cs:82-90 | starting the coroutine empties the text and shows the first character; typing iff the line is not empty |
| Dialogue.DialogueManager.TypeStep | Assets/Scripts/Interactable/DialogueManager.cs:87-94 | one resumption: the next character appears, or with the whole line shown the typing ends; the text stays a prefix of the line |
| Dialogue.DialogueManager.TypeToEnd | Assets/Scripts/Interactable/DialogueManager.cs:82-95 | resumed to its end, the coroutine shows the whole line and typing is over |
| Dialogue.DialogueManager.CompleteTyping | Assets/Scripts/Interactable/DialogueManager.cs:97-107 | the text becomes the whole line and typing stops |

## Left out

- **The hotbar view.** `UIHotbar` reads its own panel of slots. The model
  takes those view slots to be separate from the inventory's hotbar slots:
  an `array<SlotState>` the hotbar owns. If both components read the same
  panel, the two would be the same objects, and that aliasing is not
  modelled.
- **Slot contents.** What a slot holds lives in arrays parallel to the
  slot objects (`hotbarContents[i]` belongs to `hotbarSlots[i]`), not in
  fields of the `ItemSlot` objects. Slot identity is kept: `IsHotbarSlot`,
  `OnDrop` and `SwapSlots` compare and pass slot objects.
- **Text and icon widgets.** Item names, descriptions, stats, quantity texts, icons and the dragged icon's position are not modelled. Of `ItemSlot.Set` only the outline is kept. `SelectItem` keeps only the selection itself.
- **Items in use.**
  - `UIInventory.ApplyConsumableEffect`, `ApplyBoost` and the `consumables` loop of `UseItem` are player stats and a coroutine that is never started.
  - `HighlightHotbarSlot`, `ClearSelectedItem`, `ClearSelectedItemWindow` and `IsOpen` only touch widgets or the window's active flag.
- **Throwing from a drag.** `ItemSlot.OnEndDrag` calls `ThrowItem` with one argument, which matches no overload in UIInventory.cs. It is modelled as `ThrowItem(item, 1)`.
- **Polling and physics.** These are parameters or left out:
  - input polling in `UIHotbar.Update`, `DialogueManager.Update` and the mouse test in `BuildingSystem.Update`;
  - the raycast, `Instantiate` positions and the random offsets;
  - `Enemy.MoveTowards`, the rotation slerp and velocities;
  - `DoMeleeHit`'s `OverlapSphere`, which is counted only, in `swings`;
  - `EnemyHealth`'s knock-back (`ApplyKnockback` is not defined in Enemy.cs), `FlashRed`, `Destroy`, collider, renderer and animator calls;
  - the renderer and collider calls of `Resource.Startrespawn` and `Resource.RespawnAfterTime`. The source dereferences `childRenderer` and `resourceCollider` there without a null check, so on a node without them `Gather` throws after setting `isDepleted` and no respawn starts; the model assumes both components are present.
- **Enemy.Start.** The tag search for a first target is not modelled: the initial target is a constructor parameter.
- **Enemy numbers.**
  - Real numbers stand for floats: rounding, infinities and NaN are not modelled.
  - `FindClosestByTag`'s `Mathf.Infinity` start is modelled as "no best yet".
  - `GetInteractPrompt`'s formatting of `Mathf.Ceil`, a float, is modelled as the integer it equals. A `-0` or an exponent form is not modelled.
- **Integer width.** C# `int` is 32 bits and wraps around past 2^31 - 1; the model's integers are unbounded. Quantity sums (HasItem, the stack merge of SwapSlots), hit-point arithmetic and capacities are proved for the unbounded values. `EnemyHealth.TakeDamage` cannot wrap: a living enemy has `currentHP >= 0` (the invariant `EnemyHealth.Valid()`), and a hit is at most 2^31 - 1, so `currentHP - dmg` stays above -(2^31).
- **Tools.** `Resource.Gather` takes the tool type as a number. The `ToolType` enumeration and a null `usingTool` are not modelled.
- **Coroutine timing.**
  - `WaitForSeconds` delays are not modelled: `Resource.RespawnAfterTime` and `Enemy.AttackHitAfter` are the code after their waits.
  - `InteractableResource.RespawnAfterTime` runs over a list of frame lengths, with its first step in the frame that starts it.
  - `DialogueManager`'s `typingCoroutine` handle is folded into `isTyping`. The coroutine sets the flag first and clears it last, and every `StopCoroutine` is followed by clearing it.
- **Null arrays.** A null `recipe.inputs`, `lines` or `hpByType` array is not modelled.
- **Scenes.** `GameManager`'s `DontDestroyOnLoad`, the achievement board and scene loading are not modelled.
- Heal: the sum `currentHP + Mathf.Max(0, amount)` is taken without 32-bit wrap-around, so "never lower than before" holds for unbounded integers; in the source an amount near `int.MaxValue` wraps the sum negative and the hit points clamp to 0.
- Inventory.BuildingSystem.PlaceObject: its contract does not state the drop in the total; that is InventorySpec.RemoveCounts applied to AfterRemove(item, 1).

## Findings

| source | as written | input that shows it | evidently intended | confidence | as-written member | corrected member |
|---|---|---|---|---|---|---|
| Assets/Scripts/Monster/Enemy.cs:141-166 | With `useAnimationEvent` true (the default), StartAttack starts no coroutine. AnimationAttackHit deals the hit but leaves `state` at Attack, and Update's Attack case never leaves it. | An enemy with the default settings reaches a player in range, then the player walks away: the frames and the clip's hit events that follow leave it in Attack for good. | The hit event, like AttackHitAfter, returns a living enemy to Chase. | not executed | Monster.AttackLatches | Monster.FixedHitEndsAttack |
