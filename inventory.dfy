/** The inventory components: ItemSlot, the player's pending pickup and
    equipment, UIHotbar, UIInventory and BuildingSystem. They refer to each
    other in a cycle (an inventory owns a hotbar view and a building system,
    a slot and a hotbar call back into the inventory), so they share one
    module; the back references are passed as parameters.

    What an ItemSlot holds (item, quantity, equipped flag, outline) is kept
    by the inventory that owns the slot, in the array of contents parallel to
    its array of slot objects: `hotbarContents[i]` is what `hotbarSlots[i]`
    holds. A slot object knows its position `at`, so it can find its own
    contents, and its identity is still what IsHotbarSlot and OnDrop test. */
module Inventory {
  import opened Items
  import opened InventorySpec

  /** UIInventory.ActiveMenu. */
  datatype ActiveMenu = NoMenu | InventoryMenu | CraftingMenu

  /** PointerEventData.InputButton. */
  datatype Button = LeftButton | RightButton | MiddleButton

  /** The parts of CharacterManager.Instance.Player the inventory uses: the
      item waiting to be picked up and the data of the equipped item. */
  class Player {
    var itemData: Option<ItemData>
    var curEquip: Option<ItemData>

    constructor ()
      ensures itemData == None && curEquip == None
    {
      itemData := None;
      curEquip := None;
    }

    method UnEquip()
      modifies this`curEquip
      ensures curEquip == None
    {
      curEquip := None;
    }

    method EquipNew(d: ItemData)
      modifies this`curEquip
      ensures curEquip == Some(d)
    {
      curEquip := Some(d);
    }
  }

  /** One ItemSlot component of the inventory window: its index, its
      position among the inventory's slots, and whether its icon is being
      dragged (`dragging` stands for a live dragged icon). */
  class ItemSlot {
    const index: int
    const at: Ref
    var dragging: bool
    var droppedOutside: bool

    constructor (at: Ref)
      ensures this.at == at && index == at.index
      ensures !dragging && !droppedOutside
    {
      this.at := at;
      index := at.index;
      dragging := false;
      droppedOutside := false;
    }

    /** ItemSlot.Clear: the item becomes null and the equipped flag false;
        the quantity and the outline stay. */
    method Clear(inv: UIInventory)
      requires inv.Valid() && inv.Holds(this)
      modifies inv.hotbarContents, inv.inventoryContents
      ensures inv.State() == old(inv.State()).Put(at, old(inv.State()).Get(at).(item := None, equipped := false))
    {
      var held := inv.ContentsOf(at.shelf);
      held[at.index] := held[at.index].(item := None, equipped := false);
    }

    /** ItemSlot.IsHotbarSlot: a search of the inventory's hotbar array for
        this very object, which finds it exactly when the slot sits in the
        hotbar. */
    method IsHotbarSlot(inv: UIInventory) returns (r: bool)
      requires inv.Valid() && inv.Holds(this)
      ensures r <==> exists i :: 0 <= i < inv.hotbarSlots.Length && inv.hotbarSlots[i] == this
      ensures r <==> at.shelf == HotbarShelf
    {
      var slots := inv.GetHotbarSlots();
      for i := 0 to slots.Length
        invariant forall j :: 0 <= j < i ==> slots[j] != this
        invariant at.shelf == HotbarShelf ==> i <= at.index
      {
        if slots[i] == this {
          return true;
        }
      }
      return false;
    }

    /** ItemSlot.OnPointerClick: the right button uses the slot's item, any
        other button selects the slot. The index and the array passed on are
        this slot's own, so neither call can fail. */
    method OnPointerClick(button: Button, inv: UIInventory) returns (fault: bool)
      requires inv.Valid() && inv.Holds(this)
      modifies inv`selectedItem, inv`selectedItemIndex, inv.buildingSystem`currentBuildItem
      modifies inv.hotbarContents, inv.inventoryContents, inv.hotbarUI.hotbarSlots
      ensures !fault
      ensures var it := old(inv.State()).Get(at).item;
        var eaten := it.Some? && it.value.itemType == Consumable;
        button == RightButton ==>
          && inv.State() == AfterUse(old(inv.State()), at)
          && (eaten ==> inv.hotbarUI.hotbarSlots[..] == Mirror(old(inv.hotbarUI.hotbarSlots[..]), inv.State().hotbar))
          && (!eaten ==> inv.hotbarUI.hotbarSlots[..] == old(inv.hotbarUI.hotbarSlots[..]))
          && inv.selectedItem == old(inv.selectedItem)
          && inv.selectedItemIndex == old(inv.selectedItemIndex)
          && inv.buildingSystem.currentBuildItem ==
               if it.Some? && it.value.itemType == Build && it.value.hasBuildPrefab then it
               else old(inv.buildingSystem.currentBuildItem)
      ensures var it := old(inv.State()).Get(at).item;
        button != RightButton ==>
          && inv.State() == old(inv.State())
          && inv.hotbarUI.hotbarSlots[..] == old(inv.hotbarUI.hotbarSlots[..])
          && inv.buildingSystem.currentBuildItem == old(inv.buildingSystem.currentBuildItem)
          && inv.selectedItem == (if it.Some? then this else old(inv.selectedItem))
          && inv.selectedItemIndex == (if it.Some? then index else old(inv.selectedItemIndex))
    {
      var isHotbar := IsHotbarSlot(inv);
      assert Ref(ShelfOf(isHotbar), index) == at;
      if button == RightButton {
        fault := inv.UseItem(index, isHotbar);
      } else {
        fault := inv.SelectItem(index, isHotbar);
      }
    }

    /** ItemSlot.OnBeginDrag: nothing happens on an empty slot; otherwise a
        dragged icon appears and the drop is not yet outside. */
    method OnBeginDrag(inv: UIInventory)
      requires inv.Valid() && inv.Holds(this)
      modifies `dragging, `droppedOutside
      ensures inv.State().Get(at).item.None? ==>
        dragging == old(dragging) && droppedOutside == old(droppedOutside)
      ensures inv.State().Get(at).item.Some? ==> dragging && !droppedOutside
    {
      var held := inv.ContentsOf(at.shelf);
      if held[at.index].item.None? {
        return;
      }
      dragging := true;
      droppedOutside := false;
    }

    /** ItemSlot.OnDrag: with a dragged icon, records whether the pointer is
        outside the inventory window (the hit test is the parameter). */
    method OnDrag(outsideWindow: bool)
      modifies `droppedOutside
      ensures droppedOutside == if dragging then outsideWindow else old(droppedOutside)
    {
      if !dragging {
        return;
      }
      droppedOutside := outsideWindow;
    }

    /** ItemSlot.OnEndDrag: the dragged icon goes away; a slot dropped
        outside the window while holding an item throws one unit of it into
        the world (ThrowItem refreshes both displays), is cleared, and the
        inventory is refreshed once more. When ThrowItem faults on a missing
        drop prefab the slot keeps its item. */
    method OnEndDrag(inv: UIInventory) returns (fault: bool)
      requires inv.Valid() && inv.Holds(this)
      modifies `dragging, inv`thrown, inv.player`curEquip
      modifies inv.hotbarContents, inv.inventoryContents, inv.hotbarUI.hotbarSlots
      ensures !dragging
      ensures var s0 := old(inv.State());
        var held := s0.Get(at).item;
        droppedOutside && held.Some? ==>
          && (fault <==> !held.value.hasDropPrefab)
          && inv.player.curEquip == (if old(inv.player.curEquip) == held then None else old(inv.player.curEquip))
          && (fault ==>
                && inv.thrown == old(inv.thrown) && inv.State() == s0
                && inv.hotbarUI.hotbarSlots[..] == old(inv.hotbarUI.hotbarSlots[..]))
          && (!fault ==>
                && inv.thrown == old(inv.thrown) + [held.value]
                && inv.State() == Refresh(Refresh(s0).Put(at, Cleared(Refresh(s0).Get(at))))
                && inv.hotbarUI.hotbarSlots[..] == Mirror(old(inv.hotbarUI.hotbarSlots[..]), Refresh(s0).hotbar))
      ensures !(droppedOutside && old(inv.State()).Get(at).item.Some?) ==>
        && !fault && inv.thrown == old(inv.thrown) && inv.State() == old(inv.State())
        && inv.hotbarUI.hotbarSlots[..] == old(inv.hotbarUI.hotbarSlots[..])
        && inv.player.curEquip == old(inv.player.curEquip)
    {
      dragging := false;
      var held := inv.ContentsOf(at.shelf);
      if droppedOutside && held[at.index].item.Some? {
        fault := inv.ThrowItem(held[at.index].item.value, 1);
        if fault {
          return;
        }
        Clear(inv);
        inv.UpdateUI();
      } else {
        fault := false;
      }
    }

    /** ItemSlot.OnDrop: a slot dragged onto another one is merged or
        exchanged with it; a drop of nothing, or of this slot onto itself,
        does nothing. */
    method OnDrop(fromSlot: ItemSlot?, inv: UIInventory) returns (fault: bool)
      requires inv.Valid() && inv.Holds(this)
      requires fromSlot != null ==> inv.Holds(fromSlot)
      modifies inv`hotbarData, inv.hotbarContents, inv.inventoryContents, inv.hotbarUI.hotbarSlots
      ensures fromSlot == null || fromSlot == this ==>
        && !fault && inv.State() == old(inv.State()) && inv.hotbarData == old(inv.hotbarData)
        && inv.hotbarUI.hotbarSlots[..] == old(inv.hotbarUI.hotbarSlots[..])
      ensures fromSlot != null && fromSlot != this ==>
        var r := AfterSwap(old(inv.State()), fromSlot.at, at);
        && (fault <==> r.None?)
        && (r.None? ==>
              && inv.State() == old(inv.State()) && inv.hotbarData == old(inv.hotbarData)
              && inv.hotbarUI.hotbarSlots[..] == old(inv.hotbarUI.hotbarSlots[..]))
        && (r.Some? ==>
              && inv.State() == r.value
              && inv.hotbarUI.hotbarSlots[..] == Mirror(old(inv.hotbarUI.hotbarSlots[..]), inv.State().hotbar)
              && inv.hotbarData == Logged(Logged(old(inv.hotbarData), inv.State().hotbar, index),
                                          inv.State().hotbar, fromSlot.index))
    {
      fault := false;
      if fromSlot != null && fromSlot != this {
        fault := inv.SwapSlots(fromSlot, this);
      }
    }
  }

  /** The hotbar strip: its own view slots mirroring the inventory's hotbar
      array, the selected position and the equip rule. */
  class UIHotbar {
    /** What each view slot shows. */
    const hotbarSlots: array<SlotState>
    var selectedIndex: int
    const player: Player

    /** The scene set-up and UIHotbar.Start: the view slots are the children
        of the hotbar panel, each cleared and with its outline off; nothing
        is selected. */
    constructor (panel: seq<SlotState>, player: Player)
      ensures fresh(hotbarSlots) && hotbarSlots.Length == |panel|
      ensures forall i :: 0 <= i < |panel| ==> hotbarSlots[i] == Cleared(panel[i]).(outline := false)
      ensures selectedIndex == -1 && this.player == player
    {
      hotbarSlots := new SlotState[|panel|](i requires 0 <= i < |panel| => panel[i]);
      selectedIndex := -1;
      this.player := player;
      new;
      for i := 0 to hotbarSlots.Length
        modifies hotbarSlots
        invariant forall j :: 0 <= j < i ==> hotbarSlots[j] == Cleared(panel[j]).(outline := false)
        invariant forall j :: i <= j < hotbarSlots.Length ==> hotbarSlots[j] == panel[j]
      {
        hotbarSlots[i] := hotbarSlots[i].(item := None, equipped := false);
        hotbarSlots[i] := hotbarSlots[i].(outline := false);
      }
    }

    /** UIHotbar.UpdateHotbarUI: each view slot copies the item and quantity
        of the inventory hotbar slot at its position, or is cleared when that
        slot is missing or empty. */
    method UpdateHotbarUI(inventoryHotbar: array<SlotState>)
      requires inventoryHotbar != hotbarSlots
      modifies hotbarSlots
      ensures hotbarSlots[..] == Mirror(old(hotbarSlots[..]), inventoryHotbar[..])
    {
      for i := 0 to hotbarSlots.Length
        invariant forall j :: 0 <= j < i ==> hotbarSlots[j] == Mirrored(old(hotbarSlots[j]), inventoryHotbar[..], j)
        invariant forall j :: i <= j < hotbarSlots.Length ==> hotbarSlots[j] == old(hotbarSlots[j])
      {
        if i < inventoryHotbar.Length && inventoryHotbar[i].item.Some? {
          hotbarSlots[i] := hotbarSlots[i].(item := inventoryHotbar[i].item, quantity := inventoryHotbar[i].quantity);
          hotbarSlots[i] := hotbarSlots[i].(outline := hotbarSlots[i].equipped);
        } else {
          hotbarSlots[i] := hotbarSlots[i].(item := None, equipped := false);
        }
      }
    }

    /** UIHotbar.SelectSlot: an out-of-range index changes nothing;
        otherwise the current equipment is taken off, the index is
        selected, only its outline is lit, and an Equipable item in it is
        equipped. */
    method SelectSlot(index: int)
      modifies this`selectedIndex, hotbarSlots, player`curEquip
      ensures !(0 <= index < hotbarSlots.Length) ==>
        && selectedIndex == old(selectedIndex) && hotbarSlots[..] == old(hotbarSlots[..])
        && player.curEquip == old(player.curEquip)
      ensures 0 <= index < hotbarSlots.Length ==>
        && selectedIndex == index
        && (forall i :: 0 <= i < hotbarSlots.Length ==>
              hotbarSlots[i] == old(hotbarSlots[i]).(outline := i == index))
        && player.curEquip ==
             (var it := hotbarSlots[index].item;
              if it.Some? && it.value.itemType == Equipable then it else None)
    {
      if index < 0 || index >= hotbarSlots.Length {
        return;
      }
      if player.curEquip.Some? {
        player.UnEquip();
      }
      selectedIndex := index;
      for i := 0 to hotbarSlots.Length
        modifies hotbarSlots
        invariant forall j :: 0 <= j < i ==> hotbarSlots[j] == old(hotbarSlots[j]).(outline := j == index)
        invariant forall j :: i <= j < hotbarSlots.Length ==> hotbarSlots[j] == old(hotbarSlots[j])
      {
        hotbarSlots[i] := hotbarSlots[i].(outline := i == selectedIndex);
      }
      var newSlot := hotbarSlots[selectedIndex];
      if newSlot.item.Some? && newSlot.item.value.itemType == Equipable {
        player.EquipNew(newSlot.item.value);
      }
    }

    /** UIHotbar.UseSelectedItem: uses the inventory hotbar slot at the
        selected position when the view slot there holds an item. Before any
        slot is selected the index is -1 and the lookup fails. */
    method UseSelectedItem(inv: UIInventory) returns (fault: bool)
      requires inv.Valid() && inv.hotbarUI == this
      modifies inv.buildingSystem`currentBuildItem, inv.hotbarContents, inv.inventoryContents, hotbarSlots
      ensures !(0 <= selectedIndex < hotbarSlots.Length) ==>
        && fault && inv.State() == old(inv.State()) && hotbarSlots[..] == old(hotbarSlots[..])
        && inv.buildingSystem.currentBuildItem == old(inv.buildingSystem.currentBuildItem)
      ensures 0 <= selectedIndex < hotbarSlots.Length && old(hotbarSlots[selectedIndex]).item.None? ==>
        && !fault && inv.State() == old(inv.State()) && hotbarSlots[..] == old(hotbarSlots[..])
        && inv.buildingSystem.currentBuildItem == old(inv.buildingSystem.currentBuildItem)
      ensures 0 <= selectedIndex < hotbarSlots.Length && old(hotbarSlots[selectedIndex]).item.Some? ==>
        && (fault <==> selectedIndex >= inv.hotbarContents.Length)
        && (fault ==>
              && inv.State() == old(inv.State()) && hotbarSlots[..] == old(hotbarSlots[..])
              && inv.buildingSystem.currentBuildItem == old(inv.buildingSystem.currentBuildItem))
        && (!fault ==>
              var r := Ref(HotbarShelf, selectedIndex);
              var it := old(inv.State()).Get(r).item;
              var eaten := it.Some? && it.value.itemType == Consumable;
              && inv.State() == AfterUse(old(inv.State()), r)
              && (eaten ==> hotbarSlots[..] == Mirror(old(hotbarSlots[..]), inv.State().hotbar))
              && (!eaten ==> hotbarSlots[..] == old(hotbarSlots[..]))
              && inv.buildingSystem.currentBuildItem ==
                   if it.Some? && it.value.itemType == Build && it.value.hasBuildPrefab then it
                   else old(inv.buildingSystem.currentBuildItem))
    {
      if selectedIndex < 0 || selectedIndex >= hotbarSlots.Length {
        return true;
      }
      if hotbarSlots[selectedIndex].item.None? {
        return false;
      }
      fault := inv.UseItem(selectedIndex, true);
    }
  }

  /** What ToggleUI does to the open menu: any open menu closes, and with
      nothing open the inventory opens. */
  function Toggled(m: ActiveMenu): (r: ActiveMenu)
    ensures m == NoMenu <==> r == InventoryMenu
    ensures m != NoMenu <==> r == NoMenu
  {
    if m != NoMenu then NoMenu else InventoryMenu
  }

  function ShelfOf(isHotbar: bool): Shelf {
    if isHotbar then HotbarShelf else InventoryShelf
  }

  /** The loop of UIInventory.Start over one slot array: every slot is
      Cleared. */
  method ClearEach(a: array<SlotState>)
    modifies a
    ensures forall j :: 0 <= j < a.Length ==> a[j] == Cleared(old(a[j]))
  {
    for i := 0 to a.Length
      invariant forall j :: 0 <= j < i ==> a[j] == Cleared(old(a[j]))
      invariant forall j :: i <= j < a.Length ==> a[j] == old(a[j])
    {
      a[i] := a[i].(item := None, equipped := false);
    }
  }

  /** UIInventory: the two slot arrays and their contents, the open menu,
      the selected slot, the saved hotbar list, and the drops it has thrown
      into the world. */
  class UIInventory {
    const hotbarSlots: array<ItemSlot>
    const inventorySlots: array<ItemSlot>
    /** What each slot holds: `hotbarContents[i]` belongs to `hotbarSlots[i]`. */
    const hotbarContents: array<SlotState>
    const inventoryContents: array<SlotState>
    const hotbarUI: UIHotbar
    const buildingSystem: BuildingSystem
    const player: Player
    var currentMenu: ActiveMenu
    var inventoryWindowOpen: bool
    var craftingWindowOpen: bool
    var selectedItem: ItemSlot?
    var selectedItemIndex: int
    var hotbarData: seq<SlotRecord>
    /** The drop prefabs ThrowItem has instantiated, in order. */
    var thrown: seq<ItemData>

    /** Every slot knows its position and its index, each slot array has its
        own array of contents, and the hotbar view has its own slots. */
    ghost predicate Valid()
      reads hotbarSlots, inventorySlots
    {
      && hotbarContents.Length == hotbarSlots.Length
      && inventoryContents.Length == inventorySlots.Length
      && hotbarContents != inventoryContents
      && hotbarUI.hotbarSlots != hotbarContents && hotbarUI.hotbarSlots != inventoryContents
      && (forall i :: 0 <= i < hotbarSlots.Length ==>
            hotbarSlots[i].at == Ref(HotbarShelf, i) && hotbarSlots[i].index == i)
      && (forall i :: 0 <= i < inventorySlots.Length ==>
            inventorySlots[i].at == Ref(InventoryShelf, i) && inventorySlots[i].index == i)
    }

    ghost predicate Has(r: Ref) {
      match r.shelf
      case HotbarShelf => r.index < hotbarSlots.Length
      case InventoryShelf => r.index < inventorySlots.Length
    }

    ghost function SlotAt(r: Ref): ItemSlot
      requires Has(r)
      reads hotbarSlots, inventorySlots
    {
      match r.shelf
      case HotbarShelf => hotbarSlots[r.index]
      case InventoryShelf => inventorySlots[r.index]
    }

    /** `s` is one of this inventory's slots, the one at its position. */
    ghost predicate Holds(s: ItemSlot)
      reads hotbarSlots, inventorySlots
    {
      Has(s.at) && SlotAt(s.at) == s
    }

    /** What both slot arrays hold. */
    ghost function State(): InvState
      reads hotbarContents, inventoryContents
    {
      InvState(hotbarContents[..], inventoryContents[..])
    }

    /** The contents array of one slot array. */
    function ContentsOf(shelf: Shelf): array<SlotState> {
      match shelf
      case HotbarShelf => hotbarContents
      case InventoryShelf => inventoryContents
    }

    /** What the slot at `r` holds. */
    function Read(r: Ref): (s: SlotState)
      requires Valid() && Has(r)
      reads hotbarSlots, inventorySlots, hotbarContents, inventoryContents
      ensures State().Has(r) && s == State().Get(r)
    {
      ContentsOf(r.shelf)[r.index]
    }

    /** Overwrites what the slot at `r` holds. */
    method Write(r: Ref, v: SlotState)
      requires Valid() && Has(r)
      modifies hotbarContents, inventoryContents
      ensures State().Has(r) && State() == old(State()).Put(r, v)
    {
      ContentsOf(r.shelf)[r.index] := v;
    }

    function GetHotbarSlots(): array<ItemSlot> {
      hotbarSlots
    }

    /** UIInventory.Start: the slots are the children of the two panels
        (their indices are their positions), each holding what the scene
        gave it and then cleared; both windows start closed. */
    constructor (hotbarPanel: seq<ItemSlot>, inventoryPanel: seq<ItemSlot>,
                 hotbarHeld: seq<SlotState>, inventoryHeld: seq<SlotState>,
                 hotbarUI: UIHotbar, buildingSystem: BuildingSystem, player: Player)
      requires |hotbarHeld| == |hotbarPanel| && |inventoryHeld| == |inventoryPanel|
      requires forall i :: 0 <= i < |hotbarPanel| ==>
        hotbarPanel[i].at == Ref(HotbarShelf, i) && hotbarPanel[i].index == i
      requires forall i :: 0 <= i < |inventoryPanel| ==>
        inventoryPanel[i].at == Ref(InventoryShelf, i) && inventoryPanel[i].index == i
      ensures Valid()
      ensures hotbarSlots[..] == hotbarPanel && inventorySlots[..] == inventoryPanel
      ensures this.hotbarUI == hotbarUI && this.buildingSystem == buildingSystem && this.player == player
      ensures fresh(hotbarContents) && fresh(inventoryContents)
      ensures |State().hotbar| == |hotbarHeld| && |State().inventory| == |inventoryHeld|
      ensures forall i :: 0 <= i < |hotbarHeld| ==> State().hotbar[i] == Cleared(hotbarHeld[i])
      ensures forall i :: 0 <= i < |inventoryHeld| ==> State().inventory[i] == Cleared(inventoryHeld[i])
      ensures currentMenu == NoMenu && !inventoryWindowOpen && !craftingWindowOpen
      ensures selectedItem == null && hotbarData == [] && thrown == []
    {
      this.hotbarUI := hotbarUI;
      this.buildingSystem := buildingSystem;
      this.player := player;
      currentMenu := NoMenu;
      inventoryWindowOpen := false;
      craftingWindowOpen := false;
      selectedItem := null;
      selectedItemIndex := 0;
      hotbarData := [];
      thrown := [];
      inventorySlots := new ItemSlot[|inventoryPanel|](i requires 0 <= i < |inventoryPanel| => inventoryPanel[i]);
      inventoryContents := new SlotState[|inventoryHeld|](i requires 0 <= i < |inventoryHeld| => inventoryHeld[i]);
      hotbarSlots := new ItemSlot[|hotbarPanel|](i requires 0 <= i < |hotbarPanel| => hotbarPanel[i]);
      hotbarContents := new SlotState[|hotbarHeld|](i requires 0 <= i < |hotbarHeld| => hotbarHeld[i]);
      new;
      ClearEach(inventoryContents);
      ClearEach(hotbarContents);
    }

    /** UIInventory.ToggleUI. */
    method ToggleUI()
      modifies `currentMenu, `inventoryWindowOpen, `craftingWindowOpen
      ensures currentMenu == Toggled(old(currentMenu))
      ensures inventoryWindowOpen == (currentMenu == InventoryMenu) && !craftingWindowOpen
    {
      if currentMenu != NoMenu {
        inventoryWindowOpen := false;
        craftingWindowOpen := false;
        currentMenu := NoMenu;
      } else {
        inventoryWindowOpen := true;
        craftingWindowOpen := false;
        currentMenu := InventoryMenu;
      }
    }

    /** UIInventory.AddItem: places the pending pickup as PlaceFor says,
        refreshes both displays and forgets the pickup; with no room left
        the item is thrown back into the world. */
    method AddItem() returns (fault: bool)
      requires Valid()
      modifies player`itemData, player`curEquip, `thrown, hotbarContents, inventoryContents, hotbarUI.hotbarSlots
      ensures player.itemData == if fault then old(player.itemData) else None
      ensures old(player.itemData).None? ==>
        && !fault && State() == old(State()) && thrown == old(thrown) && player.curEquip == old(player.curEquip)
        && hotbarUI.hotbarSlots[..] == old(hotbarUI.hotbarSlots[..])
      ensures old(player.itemData).Some? ==>
        var d := old(player.itemData).value;
        var away := PlaceFor(old(State()), d).ThrowAway?;
        && (fault <==> away && !d.hasDropPrefab)
        && player.curEquip == (if away && old(player.curEquip) == Some(d) then None else old(player.curEquip))
        && (fault ==>
              && State() == old(State()) && thrown == old(thrown)
              && hotbarUI.hotbarSlots[..] == old(hotbarUI.hotbarSlots[..]))
        && (!fault ==>
              && State() == AfterAdd(old(State()), d)
              && hotbarUI.hotbarSlots[..] == Mirror(old(hotbarUI.hotbarSlots[..]), State().hotbar)
              && thrown == old(thrown) + (if away then [d] else []))
    {
      var data := player.itemData;
      if data.None? {
        return false;
      }
      var d := data.value;
      ghost var s0 := State();
      if d.canStack {
        var i := 0;
        while i < hotbarContents.Length && !(hotbarContents[i].item == Some(d) && hotbarContents[i].quantity < d.maxStackAmount)
          invariant 0 <= i <= hotbarContents.Length
          invariant forall j :: 0 <= j < i ==> !Stackable(s0.hotbar[j], d)
        {
          i := i + 1;
        }
        if i < hotbarContents.Length {
          assert IsFirstStack(s0.hotbar, i, d);
          assert PlaceFor(s0, d) == TopUpHotbar(i);
          hotbarContents[i] := hotbarContents[i].(quantity := hotbarContents[i].quantity + 1);
          assert State() == Placed(s0, d, TopUpHotbar(i));
          UpdateUI();
          UpdateHotbarDisplay();
          player.itemData := None;
          return false;
        }
      }
      var e := 0;
      while e < hotbarContents.Length && hotbarContents[e].item.Some?
        invariant 0 <= e <= hotbarContents.Length
        invariant forall j :: 0 <= j < e ==> s0.hotbar[j].item.Some?
      {
        e := e + 1;
      }
      if e < hotbarContents.Length {
        assert IsFirstEmpty(s0.hotbar, e);
        assert PlaceFor(s0, d) == FillHotbar(e);
        hotbarContents[e] := hotbarContents[e].(item := Some(d), quantity := 1);
        assert State() == Placed(s0, d, FillHotbar(e));
        UpdateUI();
        UpdateHotbarDisplay();
        player.itemData := None;
        return false;
      }
      fault := AddToBag(d);
    }

    /** The second half of AddItem, reached when the hotbar has no room for
        `d`: a stack in the inventory, then an empty inventory slot, then
        throwing the unit back into the world. */
    method AddToBag(d: ItemData) returns (fault: bool)
      requires Valid() && player.itemData == Some(d)
      requires (!d.canStack || NoStack(State().hotbar, d)) && NoEmpty(State().hotbar)
      modifies player`itemData, player`curEquip, `thrown, hotbarContents, inventoryContents, hotbarUI.hotbarSlots
      ensures player.itemData == if fault then Some(d) else None
      ensures var away := PlaceFor(old(State()), d).ThrowAway?;
        && (fault <==> away && !d.hasDropPrefab)
        && player.curEquip == (if away && old(player.curEquip) == Some(d) then None else old(player.curEquip))
        && (fault ==>
              && State() == old(State()) && thrown == old(thrown)
              && hotbarUI.hotbarSlots[..] == old(hotbarUI.hotbarSlots[..]))
        && (!fault ==>
              && State() == AfterAdd(old(State()), d)
              && hotbarUI.hotbarSlots[..] == Mirror(old(hotbarUI.hotbarSlots[..]), State().hotbar)
              && thrown == old(thrown) + (if away then [d] else []))
    {
      ghost var s0 := State();
      if d.canStack {
        var stackSlot := GetStackSlot(d);
        if stackSlot != null {
          var k := stackSlot.index;
          assert PlaceFor(s0, d) == TopUpInventory(k);
          inventoryContents[k] := inventoryContents[k].(quantity := inventoryContents[k].quantity + 1);
          assert State() == Placed(s0, d, TopUpInventory(k));
          UpdateUI();
          UpdateHotbarDisplay();
          player.itemData := None;
          return false;
        }
      }
      fault := FillOrThrow(d);
    }

    /** The last two stages of AddItem: an empty inventory slot, then
        throwing the unit back into the world. */
    method FillOrThrow(d: ItemData) returns (fault: bool)
      requires Valid() && player.itemData == Some(d)
      requires (!d.canStack || (NoStack(State().hotbar, d) && NoStack(State().inventory, d))) && NoEmpty(State().hotbar)
      modifies player`itemData, player`curEquip, `thrown, hotbarContents, inventoryContents, hotbarUI.hotbarSlots
      ensures player.itemData == if fault then Some(d) else None
      ensures var away := PlaceFor(old(State()), d).ThrowAway?;
        && (fault <==> away && !d.hasDropPrefab)
        && player.curEquip == (if away && old(player.curEquip) == Some(d) then None else old(player.curEquip))
        && (fault ==>
              && State() == old(State()) && thrown == old(thrown)
              && hotbarUI.hotbarSlots[..] == old(hotbarUI.hotbarSlots[..]))
        && (!fault ==>
              && State() == AfterAdd(old(State()), d)
              && hotbarUI.hotbarSlots[..] == Mirror(old(hotbarUI.hotbarSlots[..]), State().hotbar)
              && thrown == old(thrown) + (if away then [d] else []))
    {
      ghost var s0 := State();
      var emptySlot := GetEmptySlot();
      if emptySlot != null {
        var k := emptySlot.index;
        assert PlaceFor(s0, d) == FillInventory(k);
        inventoryContents[k] := inventoryContents[k].(item := Some(d), quantity := 1);
        assert State() == Placed(s0, d, FillInventory(k));
        UpdateUI();
        UpdateHotbarDisplay();
        player.itemData := None;
        return false;
      }
      assert PlaceFor(s0, d).ThrowAway?;
      fault := ThrowItem(d, 1);
      if fault {
        return;
      }
      assert Copies(d, 1) == [d];
      player.itemData := None;
    }

    /** UIInventory.UpdateUI: every slot holding an item is Set (its outline
        shows its equipped flag), every other slot is Cleared. */
    method UpdateUI()
      requires Valid()
      modifies hotbarContents, inventoryContents
      ensures State() == Refresh(old(State()))
    {
      for i := 0 to inventoryContents.Length
        invariant forall j :: 0 <= j < i ==> inventoryContents[j] == Refreshed(old(inventoryContents[j]))
        invariant forall j :: i <= j < inventoryContents.Length ==> inventoryContents[j] == old(inventoryContents[j])
        invariant hotbarContents[..] == old(hotbarContents[..])
      {
        if inventoryContents[i].item.Some? {
          inventoryContents[i] := inventoryContents[i].(outline := inventoryContents[i].equipped);
        } else {
          inventoryContents[i] := inventoryContents[i].(item := None, equipped := false);
        }
      }
      for i := 0 to hotbarContents.Length
        invariant forall j :: 0 <= j < i ==> hotbarContents[j] == Refreshed(old(hotbarContents[j]))
        invariant forall j :: i <= j < hotbarContents.Length ==> hotbarContents[j] == old(hotbarContents[j])
        invariant forall j :: 0 <= j < inventoryContents.Length ==> inventoryContents[j] == Refreshed(old(inventoryContents[j]))
      {
        if hotbarContents[i].item.Some? {
          hotbarContents[i] := hotbarContents[i].(outline := hotbarContents[i].equipped);
        } else {
          hotbarContents[i] := hotbarContents[i].(item := None, equipped := false);
        }
      }
      assert hotbarContents[..] == RefreshAll(old(hotbarContents[..]));
      assert inventoryContents[..] == RefreshAll(old(inventoryContents[..]));
    }

    /** UIInventory.UpdateHotbarDisplay: the hotbar view mirrors the hotbar
        slots. */
    method UpdateHotbarDisplay()
      requires Valid()
      modifies hotbarUI.hotbarSlots
      ensures hotbarUI.hotbarSlots[..] == Mirror(old(hotbarUI.hotbarSlots[..]), State().hotbar)
    {
      hotbarUI.UpdateHotbarUI(hotbarContents);
    }

    /** UIInventory.HasItem: whether the slots holding `item` hold at least
        `amount` units between them. */
    method HasItem(item: Option<ItemData>, amount: int) returns (r: bool)
      ensures r <==> Total(State(), item) >= amount
    {
      ghost var st := State();
      var total := 0;
      for i := 0 to hotbarContents.Length
        invariant total == Count(st.hotbar[..i], item)
      {
        assert st.hotbar[..i + 1][..i] == st.hotbar[..i];
        if hotbarContents[i].item == item {
          total := total + hotbarContents[i].quantity;
        }
      }
      assert st.hotbar[..hotbarContents.Length] == st.hotbar;
      ghost var base := total;
      for i := 0 to inventoryContents.Length
        invariant total == base + Count(st.inventory[..i], item)
      {
        assert st.inventory[..i + 1][..i] == st.inventory[..i];
        if inventoryContents[i].item == item {
          total := total + inventoryContents[i].quantity;
        }
      }
      assert st.inventory[..inventoryContents.Length] == st.inventory;
      return total >= amount;
    }

    /** UIInventory.GetStackSlot: the first inventory slot that can take
        another unit of `data`. */
    method GetStackSlot(data: ItemData) returns (r: ItemSlot?)
      requires Valid()
      ensures var k := FirstStack(State().inventory, data);
        && (r == null <==> k.None?)
        && (k.Some? ==> r == inventorySlots[k.value] && r.index == k.value)
    {
      ghost var st := State();
      for i := 0 to inventorySlots.Length
        invariant forall j :: 0 <= j < i ==> !Stackable(st.inventory[j], data)
      {
        if inventoryContents[i].item == Some(data) && inventoryContents[i].quantity < data.maxStackAmount {
          assert IsFirstStack(st.inventory, i, data);
          return inventorySlots[i];
        }
      }
      return null;
    }

    /** UIInventory.GetEmptySlot: the first inventory slot holding nothing. */
    method GetEmptySlot() returns (r: ItemSlot?)
      requires Valid()
      ensures var k := FirstEmpty(State().inventory);
        && (r == null <==> k.None?)
        && (k.Some? ==> r == inventorySlots[k.value] && r.index == k.value)
    {
      ghost var st := State();
      for i := 0 to inventorySlots.Length
        invariant forall j :: 0 <= j < i ==> st.inventory[j].item.Some?
      {
        if inventoryContents[i].item.None? {
          assert IsFirstEmpty(st.inventory, i);
          return inventorySlots[i];
        }
      }
      return null;
    }

    /** UIInventory.ThrowItem: takes off the equipped item if it is the one
        thrown, spawns `amount` drops of it, and refreshes both displays.
        Instantiating a missing drop prefab is the fault: it happens at the
        first drop, after the unequip and before any refresh. */
    method ThrowItem(data: ItemData, amount: int) returns (fault: bool)
      requires Valid()
      modifies player`curEquip, `thrown, hotbarContents, inventoryContents, hotbarUI.hotbarSlots
      ensures player.curEquip == if old(player.curEquip) == Some(data) then None else old(player.curEquip)
      ensures fault <==> amount >= 1 && !data.hasDropPrefab
      ensures fault ==>
        && thrown == old(thrown) && State() == old(State())
        && hotbarUI.hotbarSlots[..] == old(hotbarUI.hotbarSlots[..])
      ensures !fault ==>
        && thrown == old(thrown) + Copies(data, amount)
        && State() == Refresh(old(State()))
        && hotbarUI.hotbarSlots[..] == Mirror(old(hotbarUI.hotbarSlots[..]), State().hotbar)
    {
      if player.curEquip == Some(data) {
        player.UnEquip();
      }
      var i := 0;
      while i < amount
        modifies `thrown
        invariant 0 <= i <= Max(0, amount)
        invariant thrown == old(thrown) + Copies(data, i)
        invariant i >= 1 ==> data.hasDropPrefab
      {
        if !data.hasDropPrefab {
          return true;
        }
        thrown := thrown + [data];
        i := i + 1;
      }
      UpdateUI();
      UpdateHotbarDisplay();
      return false;
    }

    /** UIInventory.SelectItem, without the text widgets: an out-of-range
        index fails, an empty slot is ignored, otherwise the slot is
        selected. */
    method SelectItem(index: int, isHotbar: bool) returns (fault: bool)
      requires Valid()
      modifies `selectedItem, `selectedItemIndex
      ensures fault <==> !(0 <= index < (if isHotbar then hotbarSlots else inventorySlots).Length)
      ensures fault ==> selectedItem == old(selectedItem) && selectedItemIndex == old(selectedItemIndex)
      ensures !fault ==>
        var target := if isHotbar then hotbarSlots else inventorySlots;
        && (State().Get(Ref(ShelfOf(isHotbar), index)).item.Some? ==>
              selectedItem == target[index] && selectedItemIndex == index)
        && (State().Get(Ref(ShelfOf(isHotbar), index)).item.None? ==>
              selectedItem == old(selectedItem) && selectedItemIndex == old(selectedItemIndex))
    {
      var target := if isHotbar then hotbarSlots else inventorySlots;
      if index < 0 || index >= target.Length {
        return true;
      }
      var held := ContentsOf(ShelfOf(isHotbar));
      if held[index].item.None? {
        return false;
      }
      selectedItem := target[index];
      selectedItemIndex := index;
      return false;
    }

    /** UIInventory.UseItem: an out-of-range index fails; a consumable loses
        one unit; a Build item starts placement; anything else is ignored.
        The effects of a consumable on the player are not modelled. */
    method UseItem(index: int, isHotbar: bool) returns (fault: bool)
      requires Valid()
      modifies buildingSystem`currentBuildItem, hotbarContents, inventoryContents, hotbarUI.hotbarSlots
      ensures fault <==> !(0 <= index < (if isHotbar then hotbarSlots else inventorySlots).Length)
      ensures fault ==>
        && State() == old(State()) && hotbarUI.hotbarSlots[..] == old(hotbarUI.hotbarSlots[..])
        && buildingSystem.currentBuildItem == old(buildingSystem.currentBuildItem)
      ensures !fault ==>
        var r := Ref(ShelfOf(isHotbar), index);
        var it := old(State()).Get(r).item;
        var eaten := it.Some? && it.value.itemType == Consumable;
        && State() == AfterUse(old(State()), r)
        && (eaten ==> hotbarUI.hotbarSlots[..] == Mirror(old(hotbarUI.hotbarSlots[..]), State().hotbar))
        && (!eaten ==> hotbarUI.hotbarSlots[..] == old(hotbarUI.hotbarSlots[..]))
        && buildingSystem.currentBuildItem ==
             if it.Some? && it.value.itemType == Build && it.value.hasBuildPrefab then it
             else old(buildingSystem.currentBuildItem)
    {
      var target := if isHotbar then hotbarSlots else inventorySlots;
      if index < 0 || index >= target.Length {
        return true;
      }
      var held := ContentsOf(ShelfOf(isHotbar));
      if held[index].item.None? {
        return false;
      }
      var data := held[index].item.value;
      if data.itemType == Consumable {
        held[index] := held[index].(quantity := held[index].quantity - 1);
        if held[index].quantity <= 0 {
          held[index] := held[index].(item := None, equipped := false);
        }
        UpdateUI();
        UpdateHotbarDisplay();
      } else if data.itemType == Build {
        buildingSystem.StartPlacing(Some(data));
      }
      return false;
    }

    /** UIInventory.SwapSlots: two slots of one stackable item are merged,
        any other pair exchanges item, quantity and equipped flag; both
        displays are refreshed and both indices are written to the saved
        hotbar list. Two empty slots make `fromSlot.item.canStack` fail on
        null. */
    method SwapSlots(fromSlot: ItemSlot?, toSlot: ItemSlot?) returns (fault: bool)
      requires Valid()
      requires fromSlot != null ==> Holds(fromSlot)
      requires toSlot != null ==> Holds(toSlot)
      modifies `hotbarData, hotbarContents, inventoryContents, hotbarUI.hotbarSlots
      ensures fromSlot == null || toSlot == null ==>
        && !fault && State() == old(State()) && hotbarData == old(hotbarData)
        && hotbarUI.hotbarSlots[..] == old(hotbarUI.hotbarSlots[..])
      ensures fromSlot != null && toSlot != null ==>
        var r := AfterSwap(old(State()), fromSlot.at, toSlot.at);
        && (fault <==> r.None?)
        && (r.None? ==>
              && State() == old(State()) && hotbarData == old(hotbarData)
              && hotbarUI.hotbarSlots[..] == old(hotbarUI.hotbarSlots[..]))
        && (r.Some? ==>
              && State() == r.value
              && hotbarUI.hotbarSlots[..] == Mirror(old(hotbarUI.hotbarSlots[..]), State().hotbar)
              && hotbarData == Logged(Logged(old(hotbarData), State().hotbar, toSlot.index),
                                      State().hotbar, fromSlot.index))
    {
      if fromSlot == null || toSlot == null {
        return false;
      }
      var f, t := fromSlot.at, toSlot.at;
      ghost var s0 := State();
      if Read(f).item == Read(t).item && Read(f).item.None? {
        return true;
      }
      if Read(f).item == Read(t).item && Read(f).item.value.canStack {
        MergeStacks(fromSlot, toSlot);
      } else {
        ExchangeSlots(f, t);
      }
      ghost var mid := State();
      assert AfterSwap(s0, f, t) == Some(Refresh(mid));
      ghost var v0 := hotbarUI.hotbarSlots[..];
      UpdateHotbarDisplay();
      UpdateUI();
      MirrorIgnoresRefresh(v0, mid.hotbar);
      ghost var s1 := State();
      UpdateHotbarData(toSlot.index);
      UpdateHotbarData(fromSlot.index);
      assert State() == s1;
      return false;
    }

    /** The stacking branch of SwapSlots. */
    method MergeStacks(fromSlot: ItemSlot, toSlot: ItemSlot)
      requires Valid() && Holds(fromSlot) && Holds(toSlot)
      requires Read(toSlot.at).item.Some?
      modifies hotbarContents, inventoryContents
      ensures State() == Merged(old(State()), fromSlot.at, toSlot.at)
    {
      var f, t := fromSlot.at, toSlot.at;
      var total := Read(f).quantity + Read(t).quantity;
      Write(t, Read(t).(quantity := Min(total, Read(t).item.value.maxStackAmount)));
      Write(f, Read(f).(quantity := total - Read(t).quantity));
      if Read(f).quantity <= 0 {
        fromSlot.Clear(this);
      }
    }

    /** The exchanging branch of SwapSlots. The three tuple swaps of the
        source exchange three different fields, each reading both slots
        before writing either, so together they are one exchange of the
        three fields (a no-op on a slot with itself). */
    method ExchangeSlots(f: Ref, t: Ref)
      requires Valid() && Has(f) && Has(t)
      modifies hotbarContents, inventoryContents
      ensures State() == Exchanged(old(State()), f, t)
    {
      var f0, t0 := Read(f), Read(t);
      Write(f, Read(f).(item := t0.item, quantity := t0.quantity, equipped := t0.equipped));
      Write(t, Read(t).(item := f0.item, quantity := f0.quantity, equipped := f0.equipped));
    }

    /** UIInventory.UpdateHotbarData: records hotbar slot `index` in the
        saved list, growing the list as needed. */
    method UpdateHotbarData(index: int)
      requires Valid()
      modifies `hotbarData
      ensures hotbarData == Logged(old(hotbarData), State().hotbar, index)
    {
      if index < 0 || index >= hotbarSlots.Length {
        return;
      }
      var slot := hotbarContents[index];
      while |hotbarData| <= index
        invariant Padded(hotbarData, index + 1) == Padded(old(hotbarData), index + 1)
        decreases index - |hotbarData|
      {
        hotbarData := hotbarData + [EmptyRecord];
      }
      hotbarData := hotbarData[index := if slot.item.Some? then SlotRecord(slot.item, slot.quantity, slot.equipped) else EmptyRecord];
    }

    /** UIInventory.RefreshHotbarData: records every hotbar position. */
    method RefreshHotbarData()
      requires Valid()
      modifies `hotbarData
      ensures |hotbarData| == Max(|old(hotbarData)|, hotbarSlots.Length)
      ensures forall i :: 0 <= i < hotbarSlots.Length ==> hotbarData[i] == Recorded(State().hotbar[i])
      ensures forall i :: hotbarSlots.Length <= i < |old(hotbarData)| ==> hotbarData[i] == old(hotbarData)[i]
    {
      for i := 0 to hotbarSlots.Length
        invariant |hotbarData| == Max(|old(hotbarData)|, i)
        invariant forall j :: 0 <= j < i ==> hotbarData[j] == Recorded(State().hotbar[j])
        invariant forall j :: i <= j < |old(hotbarData)| ==> hotbarData[j] == old(hotbarData)[j]
      {
        LoggedEntries(hotbarData, State().hotbar, i);
        UpdateHotbarData(i);
      }
    }

    /** One of RemoveItem's two loops, over `slots`: drains the slots of
        `item` in order, as DrainFrom says. */
    method RemoveFrom(slots: array<SlotState>, item: Option<ItemData>, remaining: int)
      returns (done: bool, left: int)
      modifies slots
      ensures var d := DrainFrom(old(slots[..]), 0, item, remaining);
        slots[..] == d.slots && done == d.done && left == d.remaining
    {
      ghost var goal := DrainFrom(slots[..], 0, item, remaining);
      left := remaining;
      for i := 0 to slots.Length
        invariant DrainFrom(slots[..], i, item, left) == goal
      {
        if slots[i].item == item {
          if slots[i].quantity >= left {
            slots[i] := slots[i].(quantity := slots[i].quantity - left);
            if slots[i].quantity <= 0 {
              slots[i] := slots[i].(item := None, equipped := false);
            }
            return true, left;
          } else {
            left := left - slots[i].quantity;
            slots[i] := slots[i].(item := None, equipped := false);
          }
        }
      }
      return false, left;
    }

    /** UIInventory.RemoveItem: takes `amount` units of `item`, from the
        hotbar first, and refreshes both displays. */
    method RemoveItem(item: Option<ItemData>, amount: int)
      requires Valid()
      modifies hotbarContents, inventoryContents, hotbarUI.hotbarSlots
      ensures State() == AfterRemove(old(State()), item, amount)
      ensures hotbarUI.hotbarSlots[..] == Mirror(old(hotbarUI.hotbarSlots[..]), State().hotbar)
    {
      ghost var s0 := State();
      var done, remaining := RemoveFrom(hotbarContents, item, amount);
      if done {
        UpdateUI();
        UpdateHotbarDisplay();
        return;
      }
      done, remaining := RemoveFrom(inventoryContents, item, remaining);
      UpdateUI();
      UpdateHotbarDisplay();
    }
  }

  /** BuildingSystem: the build item being placed, and the structures
      placed so far. The raycast hit and the mouse button are inputs. */
  class BuildingSystem {
    var currentBuildItem: Option<ItemData>
    /** The build prefabs PlaceObject has instantiated, in order. */
    var placed: seq<ItemData>

    constructor ()
      ensures currentBuildItem == None && placed == []
    {
      currentBuildItem := None;
      placed := [];
    }

    /** BuildingSystem.StartPlacing: only a Build item with a build prefab
        is taken up. */
    method StartPlacing(item: Option<ItemData>)
      modifies `currentBuildItem
      ensures currentBuildItem ==
        if item.Some? && item.value.itemType == Build && item.value.hasBuildPrefab then item
        else old(currentBuildItem)
    {
      if item.None? || item.value.itemType != Build || !item.value.hasBuildPrefab {
        return;
      }
      currentBuildItem := item;
    }

    /** BuildingSystem.CancelPlacement. */
    method CancelPlacement()
      modifies `currentBuildItem
      ensures currentBuildItem == None
    {
      currentBuildItem := None;
    }

    /** BuildingSystem.Update: a right click while placing places. */
    method Update(rightClick: bool, hit: bool, inv: UIInventory)
      requires inv.Valid() && inv.buildingSystem == this
      modifies `currentBuildItem, `placed, inv.hotbarContents, inv.inventoryContents, inv.hotbarUI.hotbarSlots
      ensures old(currentBuildItem).None? || !rightClick ==>
        && currentBuildItem == old(currentBuildItem) && placed == old(placed)
        && inv.State() == old(inv.State())
        && inv.hotbarUI.hotbarSlots[..] == old(inv.hotbarUI.hotbarSlots[..])
      ensures old(currentBuildItem).Some? && rightClick ==>
        Placement(old(currentBuildItem), hit, old(placed), old(inv.State()), old(inv.hotbarUI.hotbarSlots[..]), inv)
    {
      if currentBuildItem.None? {
        return;
      }
      if rightClick {
        PlaceObject(hit, inv);
      }
    }

    /** What a right click while holding `b` leads to, as PlaceObject
        promises. */
    ghost predicate Placement(b: Option<ItemData>, hit: bool, placed0: seq<ItemData>, s0: InvState,
                              view0: seq<SlotState>, inv: UIInventory)
      reads this, inv.hotbarContents, inv.inventoryContents, inv.hotbarUI.hotbarSlots
    {
      if b.Some? && b.value.hasBuildPrefab && hit then
        && placed == placed0 + [b.value]
        && inv.State() == AfterRemove(s0, b, 1)
        && inv.hotbarUI.hotbarSlots[..] == Mirror(view0, inv.State().hotbar)
        && (currentBuildItem == if Total(inv.State(), b) >= 1 then b else None)
      else
        && currentBuildItem == b && placed == placed0 && inv.State() == s0
        && inv.hotbarUI.hotbarSlots[..] == view0
    }

    /** BuildingSystem.PlaceObject: with a build prefab and a raycast hit,
        places one structure, takes one unit of the build item from the
        inventory and stops placing once none is left. */
    method PlaceObject(hit: bool, inv: UIInventory)
      requires inv.Valid() && inv.buildingSystem == this
      modifies `currentBuildItem, `placed, inv.hotbarContents, inv.inventoryContents, inv.hotbarUI.hotbarSlots
      ensures Placement(old(currentBuildItem), hit, old(placed), old(inv.State()), old(inv.hotbarUI.hotbarSlots[..]), inv)
    {
      if currentBuildItem.None? || !currentBuildItem.value.hasBuildPrefab {
        return;
      }
      if hit {
        placed := placed + [currentBuildItem.value];
        inv.RemoveItem(currentBuildItem, 1);
        var left := inv.HasItem(currentBuildItem, 1);
        if !left {
          CancelPlacement();
        }
      }
    }
  }
}
