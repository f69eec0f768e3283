/** The inventory as values: the contents of the hotbar and inventory slot
    arrays, the placement order of AddItem, the draining order of RemoveItem,
    the merge-or-exchange rule of SwapSlots and the refresh that UpdateUI and
    UpdateHotbarUI apply. The classes in module Inventory are proved to move
    their slot objects exactly as these functions say. */
module InventorySpec {
  import opened Items

  /** What one ItemSlot holds: its item (null is None), its quantity, its
      equipped flag and whether its outline is enabled. */
  datatype SlotState = SlotState(item: Option<ItemData>, quantity: int, equipped: bool, outline: bool)

  /** One ItemSlotData entry of HotbarData.slots. */
  datatype SlotRecord = SlotRecord(item: Option<ItemData>, quantity: int, equipped: bool)

  /** `new ItemSlotData()`. */
  const EmptyRecord := SlotRecord(None, 0, false)

  /** Which of the two slot arrays of UIInventory a slot belongs to. */
  datatype Shelf = HotbarShelf | InventoryShelf

  /** A slot position: an array and an index into it. */
  datatype Ref = Ref(shelf: Shelf, index: nat)

  /** The contents of both slot arrays, hotbar first. */
  datatype InvState = InvState(hotbar: seq<SlotState>, inventory: seq<SlotState>)
  {
    predicate Has(r: Ref) {
      match r.shelf
      case HotbarShelf => r.index < |hotbar|
      case InventoryShelf => r.index < |inventory|
    }

    function Get(r: Ref): SlotState
      requires Has(r)
    {
      match r.shelf
      case HotbarShelf => hotbar[r.index]
      case InventoryShelf => inventory[r.index]
    }

    function Put(r: Ref, v: SlotState): (st: InvState)
      requires Has(r)
      ensures st.Has(r) && st.Get(r) == v
      ensures |st.hotbar| == |hotbar| && |st.inventory| == |inventory|
      ensures forall q :: Has(q) && q != r ==> st.Get(q) == Get(q)
    {
      match r.shelf
      case HotbarShelf => InvState(hotbar[r.index := v], inventory)
      case InventoryShelf => InvState(hotbar, inventory[r.index := v])
    }
  }

  // ---------------------------------------------------------------------
  // ItemSlot.Clear, ItemSlot.Set and UIInventory.UpdateUI

  /** ItemSlot.Clear: the item becomes null and equipped false; the quantity
      is left as it was. */
  function Cleared(s: SlotState): SlotState {
    s.(item := None, equipped := false)
  }

  /** What UpdateUI does to one slot: Set (which shows the equipped flag on
      the outline) when it holds an item, Clear otherwise. */
  function Refreshed(s: SlotState): SlotState {
    if s.item.Some? then s.(outline := s.equipped) else Cleared(s)
  }

  function RefreshAll(s: seq<SlotState>): (r: seq<SlotState>)
    ensures |r| == |s|
    ensures forall i :: 0 <= i < |s| ==> r[i] == Refreshed(s[i])
  {
    seq(|s|, i requires 0 <= i < |s| => Refreshed(s[i]))
  }

  /** UpdateUI over both arrays. */
  function Refresh(st: InvState): InvState {
    InvState(RefreshAll(st.hotbar), RefreshAll(st.inventory))
  }

  // ---------------------------------------------------------------------
  // Counting units, as HasItem does

  /** The units a slot contributes to the count of `item`. */
  function Units(s: SlotState, item: Option<ItemData>): int {
    if s.item == item then s.quantity else 0
  }

  /** The sum of quantities over the slots of `s` holding `item`. */
  function Count(s: seq<SlotState>, item: Option<ItemData>): int {
    if s == [] then 0 else Count(s[..|s| - 1], item) + Units(s[|s| - 1], item)
  }

  /** Units of `item` over the hotbar and the inventory together. */
  function Total(st: InvState, item: Option<ItemData>): int {
    Count(st.hotbar, item) + Count(st.inventory, item)
  }

  /** Two arrays whose slots contribute alike have the same count. */
  lemma {:induction false} CountAlike(a: seq<SlotState>, b: seq<SlotState>, item: Option<ItemData>)
    requires |a| == |b|
    requires forall i :: 0 <= i < |a| ==> Units(a[i], item) == Units(b[i], item)
    ensures Count(a, item) == Count(b, item)
  {
    if a != [] {
      CountAlike(a[..|a| - 1], b[..|b| - 1], item);
    }
  }

  /** Overwriting one slot changes the count by the difference of what the
      old and the new slot contribute. */
  lemma {:induction false} CountUpdate(s: seq<SlotState>, i: nat, v: SlotState, item: Option<ItemData>)
    requires i < |s|
    ensures Count(s[i := v], item) == Count(s, item) - Units(s[i], item) + Units(v, item)
  {
    var n := |s| - 1;
    if i == n {
      assert s[i := v][..n] == s[..n];
    } else {
      assert s[i := v][..n] == s[..n][i := v];
      CountUpdate(s[..n], i, v, item);
    }
  }

  /** Counting a prefix and the rest separately gives the whole count. */
  lemma {:induction false} CountSplit(s: seq<SlotState>, i: nat, item: Option<ItemData>)
    requires i <= |s|
    ensures Count(s, item) == Count(s[..i], item) + Count(s[i..], item)
  {
    if i < |s| {
      var n := |s| - 1;
      assert s[..n][..i] == s[..i];
      assert s[i..][..|s[i..]| - 1] == s[..n][i..];
      CountSplit(s[..n], i, item);
    } else {
      assert s[i..] == [];
      assert s[..i] == s;
    }
  }

  /** Counting from the front: the first slot plus the count of the rest. */
  lemma CountHead(s: seq<SlotState>, item: Option<ItemData>)
    requires s != []
    ensures Count(s, item) == Units(s[0], item) + Count(s[1..], item)
  {
    CountSplit(s, 1, item);
    assert s[..1][..0] == [];
  }

  /** UpdateUI never changes what HasItem counts. */
  lemma RefreshKeepsTotals(st: InvState, item: Option<ItemData>)
    ensures Total(Refresh(st), item) == Total(st, item)
  {
    CountAlike(RefreshAll(st.hotbar), st.hotbar, item);
    CountAlike(RefreshAll(st.inventory), st.inventory, item);
  }

  /** Overwriting one slot of the whole inventory, as CountUpdate. */
  lemma TotalPut(st: InvState, r: Ref, v: SlotState, item: Option<ItemData>)
    requires st.Has(r)
    ensures Total(st.Put(r, v), item) == Total(st, item) - Units(st.Get(r), item) + Units(v, item)
  {
    match r.shelf
    case HotbarShelf => CountUpdate(st.hotbar, r.index, v, item);
    case InventoryShelf => CountUpdate(st.inventory, r.index, v, item);
  }

  // ---------------------------------------------------------------------
  // Stack bounds

  /** A slot that holds an item holds between one unit and the item's
      capacity. */
  predicate Stocked(s: SlotState) {
    s.item.Some? ==> 1 <= s.quantity <= Capacity(s.item.value)
  }

  predicate AllStocked(s: seq<SlotState>) {
    forall i :: 0 <= i < |s| ==> Stocked(s[i])
  }

  predicate WellStocked(st: InvState) {
    AllStocked(st.hotbar) && AllStocked(st.inventory)
  }

  lemma RefreshKeepsStocked(st: InvState)
    requires WellStocked(st)
    ensures WellStocked(Refresh(st))
  {
  }

  // ---------------------------------------------------------------------
  // AddItem: GetStackSlot, GetEmptySlot and the placement order

  /** A slot AddItem may top up with one more unit of `d`. */
  predicate Stackable(s: SlotState, d: ItemData) {
    s.item == Some(d) && s.quantity < d.maxStackAmount
  }

  predicate IsFirstStack(s: seq<SlotState>, i: nat, d: ItemData) {
    i < |s| && Stackable(s[i], d) && forall j :: 0 <= j < i ==> !Stackable(s[j], d)
  }

  predicate NoStack(s: seq<SlotState>, d: ItemData) {
    forall j :: 0 <= j < |s| ==> !Stackable(s[j], d)
  }

  predicate IsFirstEmpty(s: seq<SlotState>, i: nat) {
    i < |s| && s[i].item.None? && forall j :: 0 <= j < i ==> s[j].item.Some?
  }

  predicate NoEmpty(s: seq<SlotState>) {
    forall j :: 0 <= j < |s| ==> s[j].item.Some?
  }

  /** The first slot of `s` that can take one more unit of `d`. */
  function FirstStack(s: seq<SlotState>, d: ItemData): (r: Option<nat>)
    ensures r.Some? ==> IsFirstStack(s, r.value, d)
    ensures r.None? ==> NoStack(s, d)
  {
    if s == [] then None
    else if Stackable(s[0], d) then Some(0)
    else match FirstStack(s[1..], d)
      case None => None
      case Some(k) => Some(k + 1)
  }

  /** The first slot of `s` that holds no item. */
  function FirstEmpty(s: seq<SlotState>): (r: Option<nat>)
    ensures r.Some? ==> IsFirstEmpty(s, r.value)
    ensures r.None? ==> NoEmpty(s)
  {
    if s == [] then None
    else if s[0].item.None? then Some(0)
    else match FirstEmpty(s[1..])
      case None => None
      case Some(k) => Some(k + 1)
  }

  /** Where AddItem puts the unit it is given, in the order it tries. */
  datatype Placement =
    | TopUpHotbar(slot: nat)
    | FillHotbar(slot: nat)
    | TopUpInventory(slot: nat)
    | FillInventory(slot: nat)
    | ThrowAway

  /** The placement AddItem chooses. Each case names the conditions under
      which it is chosen; together they say that a stack in the hotbar beats
      an empty hotbar slot, that beats a stack in the inventory, that beats an
      empty inventory slot, that beats throwing the item away, and that each
      search takes the first slot that fits. */
  function PlaceFor(st: InvState, d: ItemData): (p: Placement)
    ensures p.TopUpHotbar? <==> d.canStack && !NoStack(st.hotbar, d)
    ensures p.TopUpHotbar? ==> IsFirstStack(st.hotbar, p.slot, d)
    ensures p.FillHotbar? <==> (!d.canStack || NoStack(st.hotbar, d)) && !NoEmpty(st.hotbar)
    ensures p.FillHotbar? ==> IsFirstEmpty(st.hotbar, p.slot)
    ensures p.TopUpInventory? <==>
      d.canStack && NoStack(st.hotbar, d) && NoEmpty(st.hotbar) && !NoStack(st.inventory, d)
    ensures p.TopUpInventory? ==> IsFirstStack(st.inventory, p.slot, d)
    ensures p.FillInventory? <==>
      (!d.canStack || (NoStack(st.hotbar, d) && NoStack(st.inventory, d)))
      && NoEmpty(st.hotbar) && !NoEmpty(st.inventory)
    ensures p.FillInventory? ==> IsFirstEmpty(st.inventory, p.slot)
    ensures p.ThrowAway? <==>
      (!d.canStack || (NoStack(st.hotbar, d) && NoStack(st.inventory, d)))
      && NoEmpty(st.hotbar) && NoEmpty(st.inventory)
  {
    var hotbarStack := if d.canStack then FirstStack(st.hotbar, d) else None;
    var hotbarEmpty := FirstEmpty(st.hotbar);
    var bagStack := if d.canStack then FirstStack(st.inventory, d) else None;
    var bagEmpty := FirstEmpty(st.inventory);
    if hotbarStack.Some? then TopUpHotbar(hotbarStack.value)
    else if hotbarEmpty.Some? then FillHotbar(hotbarEmpty.value)
    else if bagStack.Some? then TopUpInventory(bagStack.value)
    else if bagEmpty.Some? then FillInventory(bagEmpty.value)
    else ThrowAway
  }

  /** The slot a placement writes to. */
  function Target(p: Placement): Ref
    requires !p.ThrowAway?
  {
    match p
    case TopUpHotbar(i) => Ref(HotbarShelf, i)
    case FillHotbar(i) => Ref(HotbarShelf, i)
    case TopUpInventory(i) => Ref(InventoryShelf, i)
    case FillInventory(i) => Ref(InventoryShelf, i)
  }

  /** `slot.quantity++`. */
  function ToppedUp(s: SlotState): SlotState {
    s.(quantity := s.quantity + 1)
  }

  /** `slot.item = data; slot.quantity = 1;`. */
  function Filled(s: SlotState, d: ItemData): SlotState {
    s.(item := Some(d), quantity := 1)
  }

  /** The slot contents right after the placement, before UpdateUI. */
  function Placed(st: InvState, d: ItemData, p: Placement): InvState
    requires p == PlaceFor(st, d)
  {
    match p
    case TopUpHotbar(i) => st.Put(Target(p), ToppedUp(st.hotbar[i]))
    case FillHotbar(i) => st.Put(Target(p), Filled(st.hotbar[i], d))
    case TopUpInventory(i) => st.Put(Target(p), ToppedUp(st.inventory[i]))
    case FillInventory(i) => st.Put(Target(p), Filled(st.inventory[i], d))
    case ThrowAway => st
  }

  /** The slot contents after AddItem(d); every path ends in UpdateUI. */
  function AfterAdd(st: InvState, d: ItemData): InvState {
    Refresh(Placed(st, d, PlaceFor(st, d)))
  }

  /** AddItem raises the count of the added item by exactly one, unless it
      throws the item away, and leaves the count of every other item alone. */
  lemma AddCounts(st: InvState, d: ItemData, e: ItemData)
    ensures Total(AfterAdd(st, d), Some(d)) ==
      Total(st, Some(d)) + (if PlaceFor(st, d).ThrowAway? then 0 else 1)
    ensures e != d ==> Total(AfterAdd(st, d), Some(e)) == Total(st, Some(e))
  {
    var p := PlaceFor(st, d);
    var mid := Placed(st, d, p);
    RefreshKeepsTotals(mid, Some(d));
    RefreshKeepsTotals(mid, Some(e));
    if !p.ThrowAway? {
      TotalPut(st, Target(p), mid.Get(Target(p)), Some(d));
      TotalPut(st, Target(p), mid.Get(Target(p)), Some(e));
    }
  }

  /** AddItem keeps every slot between one unit and its item's capacity, as
      long as the added item is well formed. */
  lemma AddKeepsStocked(st: InvState, d: ItemData)
    requires WellStocked(st) && WellFormed(d)
    ensures WellStocked(AfterAdd(st, d))
  {
    var mid := Placed(st, d, PlaceFor(st, d));
    assert WellStocked(mid);
    RefreshKeepsStocked(mid);
  }

  // ---------------------------------------------------------------------
  // RemoveItem

  /** The state of one of RemoveItem's two loops: the slots so far, the units
      still to remove, and whether the loop returned early. */
  datatype Drained = Drained(slots: seq<SlotState>, remaining: int, done: bool)

  /** One `foreach` loop of RemoveItem, from slot `i` on, with `rem` units still
      to remove. A slot holding `item` with at least `rem` units gives them
      up (and is cleared if that leaves nothing) and the method returns;
      a smaller slot gives up all it has and is cleared. */
  function DrainFrom(s: seq<SlotState>, i: nat, item: Option<ItemData>, rem: int): (r: Drained)
    requires i <= |s|
    ensures |r.slots| == |s|
    decreases |s| - i
  {
    if i == |s| then Drained(s, rem, false)
    else if s[i].item == item then
      if s[i].quantity >= rem then
        var left := s[i].(quantity := s[i].quantity - rem);
        Drained(s[i := if left.quantity <= 0 then Cleared(left) else left], rem, true)
      else
        DrainFrom(s[i := Cleared(s[i])], i + 1, item, rem - s[i].quantity)
    else
      DrainFrom(s, i + 1, item, rem)
  }

  /** The slot contents after RemoveItem(item, amount): the hotbar first, the
      inventory only if the hotbar did not hold enough; UpdateUI at the end. */
  function AfterRemove(st: InvState, item: Option<ItemData>, amount: int): InvState {
    var h := DrainFrom(st.hotbar, 0, item, amount);
    if h.done then Refresh(InvState(h.slots, st.inventory))
    else Refresh(InvState(h.slots, DrainFrom(st.inventory, 0, item, h.remaining).slots))
  }

  predicate NonNegative(s: seq<SlotState>, item: Option<ItemData>) {
    forall j :: 0 <= j < |s| && s[j].item == item ==> s[j].quantity >= 0
  }

  /** What one draining loop removes: all it was asked for if it returned
      early, otherwise every unit of `item` from slot `i` on. */
  lemma {:induction false} DrainCounts(s: seq<SlotState>, i: nat, item: Option<ItemData>, rem: int)
    requires i <= |s| && item.Some? && rem >= 0 && NonNegative(s, item)
    ensures var r := DrainFrom(s, i, item, rem);
      && (r.done ==> Count(s[i..], item) >= rem && Count(r.slots, item) == Count(s, item) - rem)
      && (!r.done ==> Count(s[i..], item) <= rem && r.remaining == rem - Count(s[i..], item)
                      && Count(r.slots, item) == Count(s, item) - Count(s[i..], item))
    decreases |s| - i
  {
    if i == |s| {
      assert s[i..] == [];
    } else {
      CountHead(s[i..], item);
      assert s[i..][1..] == s[i + 1..];
      if s[i].item == item {
        if s[i].quantity >= rem {
          var left := s[i].(quantity := s[i].quantity - rem);
          var v := if left.quantity <= 0 then Cleared(left) else left;
          CountUpdate(s, i, v, item);
          CountSplit(s, i + 1, item);
          CountSplit(s, i, item);
          NonNegativeRest(s, i + 1, item);
        } else {
          var s' := s[i := Cleared(s[i])];
          CountUpdate(s, i, Cleared(s[i]), item);
          assert s'[i + 1..] == s[i + 1..];
          DrainCounts(s', i + 1, item, rem - s[i].quantity);
        }
      } else {
        DrainCounts(s, i + 1, item, rem);
      }
    }
  }

  lemma {:induction false} NonNegativeRest(s: seq<SlotState>, i: nat, item: Option<ItemData>)
    requires i <= |s| && NonNegative(s, item)
    ensures Count(s[i..], item) >= 0
    decreases |s| - i
  {
    if i < |s| {
      CountHead(s[i..], item);
      assert s[i..][1..] == s[i + 1..];
      NonNegativeRest(s, i + 1, item);
    } else {
      assert s[i..] == [];
    }
  }

  /** RemoveItem(item, amount) takes exactly `amount` units when HasItem(item,
      amount) held, and otherwise every unit there was. */
  lemma RemoveCounts(st: InvState, item: Option<ItemData>, amount: int)
    requires item.Some? && amount >= 0
    requires NonNegative(st.hotbar, item) && NonNegative(st.inventory, item)
    ensures Total(AfterRemove(st, item, amount), item) ==
      if Total(st, item) >= amount then Total(st, item) - amount else 0
  {
    var h := DrainFrom(st.hotbar, 0, item, amount);
    assert st.hotbar[0..] == st.hotbar;
    assert st.inventory[0..] == st.inventory;
    DrainCounts(st.hotbar, 0, item, amount);
    NonNegativeRest(st.inventory, 0, item);
    if h.done {
      RefreshKeepsTotals(InvState(h.slots, st.inventory), item);
    } else {
      DrainCounts(st.inventory, 0, item, h.remaining);
      RefreshKeepsTotals(InvState(h.slots, DrainFrom(st.inventory, 0, item, h.remaining).slots), item);
    }
  }

  /** A slot is unaffected when it keeps its item and its quantity. */
  predicate SameStock(a: SlotState, b: SlotState) {
    a.item == b.item && a.quantity == b.quantity
  }

  /** A draining loop touches no slot before `i` and no slot of another item,
      and it gets to a slot only after it has emptied every earlier slot of
      `item`. */
  lemma {:induction false} DrainInOrder(s: seq<SlotState>, i: nat, item: Option<ItemData>, rem: int)
    requires i <= |s| && item.Some?
    ensures var r := DrainFrom(s, i, item, rem);
      && (forall j :: 0 <= j < i ==> r.slots[j] == s[j])
      && (forall j :: 0 <= j < |s| && s[j].item != item ==> r.slots[j] == s[j])
      && (forall j, k :: i <= k < j < |s| && s[k].item == item && !SameStock(r.slots[j], s[j])
            ==> r.slots[k].item.None?)
      && (!r.done ==> forall k :: i <= k < |s| && s[k].item == item ==> r.slots[k].item.None?)
    decreases |s| - i
  {
    if i < |s| {
      if s[i].item == item {
        if s[i].quantity < rem {
          DrainInOrder(s[i := Cleared(s[i])], i + 1, item, rem - s[i].quantity);
        }
      } else {
        DrainInOrder(s, i + 1, item, rem);
      }
    }
  }

  /** RemoveItem leaves the slots of other items as they were, and it takes
      from the inventory only once every hotbar slot of the item is empty. */
  lemma RemoveDrainsHotbarFirst(st: InvState, item: Option<ItemData>, amount: int)
    requires item.Some?
    ensures var r := AfterRemove(st, item, amount);
      && |r.hotbar| == |st.hotbar| && |r.inventory| == |st.inventory|
      && (forall j :: 0 <= j < |st.hotbar| && st.hotbar[j].item != item ==> SameStock(r.hotbar[j], st.hotbar[j]))
      && (forall j :: 0 <= j < |st.inventory| && st.inventory[j].item != item ==> SameStock(r.inventory[j], st.inventory[j]))
      && ((forall j :: 0 <= j < |st.inventory| ==> SameStock(r.inventory[j], st.inventory[j]))
          || (forall k :: 0 <= k < |st.hotbar| && st.hotbar[k].item == item ==> r.hotbar[k].item.None?))
  {
    var h := DrainFrom(st.hotbar, 0, item, amount);
    DrainInOrder(st.hotbar, 0, item, amount);
    if !h.done {
      DrainInOrder(st.inventory, 0, item, h.remaining);
    }
  }

  /** No slot holding an item holds a negative quantity of it. Every state
      the inventory code builds from well-formed items has this property. */
  predicate NoDebt(s: seq<SlotState>) {
    forall j :: 0 <= j < |s| && s[j].item.Some? ==> s[j].quantity >= 0
  }

  /** A draining loop never changes the count of another item. */
  lemma {:induction false} DrainKeepsOthers(s: seq<SlotState>, i: nat, item: Option<ItemData>, rem: int, other: Option<ItemData>)
    requires i <= |s| && other != item && other.Some?
    ensures Count(DrainFrom(s, i, item, rem).slots, other) == Count(s, other)
    decreases |s| - i
  {
    if i < |s| {
      if s[i].item == item {
        if s[i].quantity >= rem {
          var left := s[i].(quantity := s[i].quantity - rem);
          CountUpdate(s, i, if left.quantity <= 0 then Cleared(left) else left, other);
        } else {
          CountUpdate(s, i, Cleared(s[i]), other);
          DrainKeepsOthers(s[i := Cleared(s[i])], i + 1, item, rem - s[i].quantity, other);
        }
      } else {
        DrainKeepsOthers(s, i + 1, item, rem, other);
      }
    }
  }

  /** Nor does it leave a slot holding an item with a negative quantity: a
      slot it takes the last units from is cleared. */
  lemma {:induction false} DrainKeepsNoDebt(s: seq<SlotState>, i: nat, item: Option<ItemData>, rem: int)
    requires i <= |s| && NoDebt(s)
    ensures NoDebt(DrainFrom(s, i, item, rem).slots)
    decreases |s| - i
  {
    if i < |s| {
      if s[i].item == item {
        if s[i].quantity < rem {
          DrainKeepsNoDebt(s[i := Cleared(s[i])], i + 1, item, rem - s[i].quantity);
        }
      } else {
        DrainKeepsNoDebt(s, i + 1, item, rem);
      }
    }
  }

  /** RemoveItem(item, amount) leaves the count of every other item as it
      was. */
  lemma RemoveKeepsOthers(st: InvState, item: Option<ItemData>, amount: int, other: Option<ItemData>)
    requires other != item && other.Some?
    ensures Total(AfterRemove(st, item, amount), other) == Total(st, other)
  {
    var h := DrainFrom(st.hotbar, 0, item, amount);
    DrainKeepsOthers(st.hotbar, 0, item, amount, other);
    if h.done {
      RefreshKeepsTotals(InvState(h.slots, st.inventory), other);
    } else {
      DrainKeepsOthers(st.inventory, 0, item, h.remaining, other);
      RefreshKeepsTotals(InvState(h.slots, DrainFrom(st.inventory, 0, item, h.remaining).slots), other);
    }
  }

  /** RemoveItem keeps every quantity of a held item non-negative. */
  lemma RemoveKeepsNoDebt(st: InvState, item: Option<ItemData>, amount: int)
    requires NoDebt(st.hotbar) && NoDebt(st.inventory)
    ensures var r := AfterRemove(st, item, amount); NoDebt(r.hotbar) && NoDebt(r.inventory)
  {
    var h := DrainFrom(st.hotbar, 0, item, amount);
    DrainKeepsNoDebt(st.hotbar, 0, item, amount);
    if !h.done {
      DrainKeepsNoDebt(st.inventory, 0, item, h.remaining);
    }
  }

  // ---------------------------------------------------------------------
  // SwapSlots

  /** The slot contents after SwapSlots(from, to) and UpdateUI, or None when
      both slots are empty: `fromSlot.item.canStack` then dereferences null.
      Both slots may be the same one; the assignments are made in the
      source's order, so that case is modelled too. */
  function AfterSwap(st: InvState, from: Ref, to: Ref): (r: Option<InvState>)
    requires st.Has(from) && st.Has(to)
    ensures r.None? <==> st.Get(from).item.None? && st.Get(to).item.None?
  {
    var f := st.Get(from);
    var t := st.Get(to);
    if f.item == t.item && f.item.None? then None
    else if f.item == t.item && f.item.value.canStack then Some(Refresh(Merged(st, from, to)))
    else Some(Refresh(Exchanged(st, from, to)))
  }

  /** The stacking branch of SwapSlots: `to` takes as much of the joint
      quantity as fits, `from` keeps the rest and is cleared if that is
      nothing. */
  function Merged(st: InvState, from: Ref, to: Ref): InvState
    requires st.Has(from) && st.Has(to) && st.Get(to).item.Some?
  {
    var t := st.Get(to);
    var total := st.Get(from).quantity + t.quantity;
    var s1 := st.Put(to, t.(quantity := Min(total, t.item.value.maxStackAmount)));
    var left := total - s1.Get(to).quantity;
    var s2 := s1.Put(from, s1.Get(from).(quantity := left));
    if left <= 0 then s2.Put(from, Cleared(s2.Get(from))) else s2
  }

  /** The exchanging branch of SwapSlots: item, quantity and equipped flag
      are copied from `to` to `from` and back from the saved values. */
  function Exchanged(st: InvState, from: Ref, to: Ref): InvState
    requires st.Has(from) && st.Has(to)
  {
    var f := st.Get(from);
    var t := st.Get(to);
    var s1 := st.Put(from, f.(item := t.item, quantity := t.quantity, equipped := t.equipped));
    s1.Put(to, s1.Get(to).(item := f.item, quantity := f.quantity, equipped := f.equipped))
  }

  /** Merging two stacks of one stackable item: the destination gets as much
      as fits, the source keeps the rest and is cleared when nothing is left,
      and the two quantities still add up to what they held before. */
  lemma SwapMerges(st: InvState, from: Ref, to: Ref)
    requires st.Has(from) && st.Has(to) && from != to
    requires st.Get(from).item.Some? && st.Get(from).item == st.Get(to).item
    requires st.Get(from).item.value.canStack
    ensures var r := AfterSwap(st, from, to).value;
      var total := st.Get(from).quantity + st.Get(to).quantity;
      var max := st.Get(from).item.value.maxStackAmount;
      && r.Get(to).quantity == Min(total, max)
      && r.Get(to).item == st.Get(to).item
      && r.Get(from).quantity + r.Get(to).quantity == total
      && (r.Get(from).item.None? <==> total - Min(total, max) <= 0)
      && (forall q :: st.Has(q) && q != from && q != to ==> SameStock(r.Get(q), st.Get(q)))
  {
    var m := Merged(st, from, to);
    MergedSlots(st, from, to);
    RefreshGet(m, from);
    RefreshGet(m, to);
    forall q | st.Has(q) && q != from && q != to
      ensures SameStock(AfterSwap(st, from, to).value.Get(q), st.Get(q))
    {
      RefreshGet(m, q);
    }
  }

  /** What Merged leaves in the two slots, and nothing else changed. */
  lemma MergedSlots(st: InvState, from: Ref, to: Ref)
    requires st.Has(from) && st.Has(to) && from != to && st.Get(to).item.Some?
    ensures var t := st.Get(to);
      var total := st.Get(from).quantity + t.quantity;
      var q := Min(total, t.item.value.maxStackAmount);
      var m := Merged(st, from, to);
      && m.Has(from) && m.Has(to)
      && m.Get(to) == t.(quantity := q)
      && m.Get(from) == (var v := st.Get(from).(quantity := total - q); if total - q <= 0 then Cleared(v) else v)
      && (forall r :: st.Has(r) && r != from && r != to ==> m.Get(r) == st.Get(r))
  {
  }

  /** UpdateUI refreshes each slot on its own. */
  lemma RefreshGet(st: InvState, q: Ref)
    requires st.Has(q)
    ensures Refresh(st).Has(q) && Refresh(st).Get(q) == Refreshed(st.Get(q))
  {
  }

  /** Otherwise the two slots exchange item, quantity and equipped flag. */
  lemma SwapExchanges(st: InvState, from: Ref, to: Ref)
    requires st.Has(from) && st.Has(to) && from != to
    requires st.Get(from).item != st.Get(to).item || (st.Get(from).item.Some? && !st.Get(from).item.value.canStack)
    ensures var r := AfterSwap(st, from, to).value;
      && SameStock(r.Get(to), st.Get(from)) && SameStock(r.Get(from), st.Get(to))
      && (forall q :: st.Has(q) && q != from && q != to ==> SameStock(r.Get(q), st.Get(q)))
  {
  }

  /** Dragging one slot onto another never creates or destroys units. */
  lemma SwapKeepsTotals(st: InvState, from: Ref, to: Ref, item: ItemData)
    requires st.Has(from) && st.Has(to) && from != to
    requires AfterSwap(st, from, to).Some?
    ensures Total(AfterSwap(st, from, to).value, Some(item)) == Total(st, Some(item))
  {
    var f := st.Get(from);
    var t := st.Get(to);
    if f.item == t.item && f.item.value.canStack {
      MergeKeepsTotals(st, from, to, Some(item));
      RefreshKeepsTotals(Merged(st, from, to), Some(item));
    } else {
      ExchangeKeepsTotals(st, from, to, Some(item));
      RefreshKeepsTotals(Exchanged(st, from, to), Some(item));
    }
  }

  lemma MergeKeepsTotals(st: InvState, from: Ref, to: Ref, e: Option<ItemData>)
    requires st.Has(from) && st.Has(to) && from != to
    requires st.Get(to).item.Some? && st.Get(from).item == st.Get(to).item
    ensures Total(Merged(st, from, to), e) == Total(st, e)
  {
    var t := st.Get(to);
    var total := st.Get(from).quantity + t.quantity;
    var v1 := t.(quantity := Min(total, t.item.value.maxStackAmount));
    var s1 := st.Put(to, v1);
    var left := total - s1.Get(to).quantity;
    var v2 := s1.Get(from).(quantity := left);
    var s2 := s1.Put(from, v2);
    TotalPut(st, to, v1, e);
    TotalPut(s1, from, v2, e);
    if left <= 0 {
      assert Merged(st, from, to) == s2.Put(from, Cleared(s2.Get(from)));
      TotalPut(s2, from, Cleared(s2.Get(from)), e);
    } else {
      assert Merged(st, from, to) == s2;
    }
  }

  lemma ExchangeKeepsTotals(st: InvState, from: Ref, to: Ref, e: Option<ItemData>)
    requires st.Has(from) && st.Has(to) && from != to
    ensures Total(Exchanged(st, from, to), e) == Total(st, e)
  {
    var f := st.Get(from);
    var t := st.Get(to);
    var v1 := f.(item := t.item, quantity := t.quantity, equipped := t.equipped);
    var s1 := st.Put(from, v1);
    var v2 := s1.Get(to).(item := f.item, quantity := f.quantity, equipped := f.equipped);
    TotalPut(st, from, v1, e);
    TotalPut(s1, to, v2, e);
  }

  /** Dragging keeps every slot between one unit and its capacity. */
  lemma SwapKeepsStocked(st: InvState, from: Ref, to: Ref)
    requires st.Has(from) && st.Has(to) && from != to
    requires WellStocked(st) && AfterSwap(st, from, to).Some?
    ensures WellStocked(AfterSwap(st, from, to).value)
  {
    var f := st.Get(from);
    var t := st.Get(to);
    if f.item == t.item && f.item.value.canStack {
      var r := AfterSwap(st, from, to).value;
      SwapMerges(st, from, to);
      assert Stocked(r.Get(to)) && Stocked(r.Get(from));
      forall q | st.Has(q) ensures Stocked(r.Get(q)) {
        if q != from && q != to {
          assert Stocked(st.Get(q));
        }
      }
      StockedByRef(r);
    } else {
      var r := AfterSwap(st, from, to).value;
      SwapExchanges(st, from, to);
      assert Stocked(st.Get(from)) && Stocked(st.Get(to));
      forall q | st.Has(q) ensures Stocked(r.Get(q)) {
        assert Stocked(st.Get(q));
      }
      StockedByRef(r);
    }
  }

  /** WellStocked, one slot position at a time. */
  lemma StockedByRef(st: InvState)
    requires forall q :: st.Has(q) ==> Stocked(st.Get(q))
    ensures WellStocked(st)
  {
    forall i | 0 <= i < |st.hotbar| ensures Stocked(st.hotbar[i]) {
      assert st.Has(Ref(HotbarShelf, i));
    }
    forall i | 0 <= i < |st.inventory| ensures Stocked(st.inventory[i]) {
      assert st.Has(Ref(InventoryShelf, i));
    }
  }

  // ---------------------------------------------------------------------
  // UseItem on a consumable

  /** `slot.quantity--; if (slot.quantity <= 0) slot.Clear();` then UpdateUI. */
  function AfterConsume(st: InvState, r: Ref): InvState
    requires st.Has(r)
  {
    var s := st.Get(r).(quantity := st.Get(r).quantity - 1);
    Refresh(st.Put(r, if s.quantity <= 0 then Cleared(s) else s))
  }

  /** Using a consumable takes exactly one unit of it and touches no other
      item. */
  lemma ConsumeCounts(st: InvState, r: Ref, e: ItemData)
    requires st.Has(r) && st.Get(r).item.Some? && st.Get(r).quantity >= 1
    ensures Total(AfterConsume(st, r), st.Get(r).item) == Total(st, st.Get(r).item) - 1
    ensures Some(e) != st.Get(r).item ==> Total(AfterConsume(st, r), Some(e)) == Total(st, Some(e))
  {
    var s := st.Get(r).(quantity := st.Get(r).quantity - 1);
    var v := if s.quantity <= 0 then Cleared(s) else s;
    TotalPut(st, r, v, st.Get(r).item);
    TotalPut(st, r, v, Some(e));
    RefreshKeepsTotals(st.Put(r, v), st.Get(r).item);
    RefreshKeepsTotals(st.Put(r, v), Some(e));
  }

  /** UseItem on slot `r`, as far as the slots are concerned: a consumable
      loses one unit, any other item (a Build item only starts placement)
      and an empty slot stay as they are. */
  function AfterUse(st: InvState, r: Ref): InvState
    requires st.Has(r)
  {
    match st.Get(r).item
    case None => st
    case Some(d) => if d.itemType == Consumable then AfterConsume(st, r) else st
  }

  // ---------------------------------------------------------------------
  // UIHotbar.UpdateHotbarUI

  /** What UpdateHotbarUI does to view slot `i`: copy item and quantity from
      the source slot (Set then shows the view's own equipped flag on its
      outline), or Clear the view when there is no source item. */
  function Mirrored(view: SlotState, src: seq<SlotState>, i: nat): SlotState {
    if i < |src| && src[i].item.Some? then
      view.(item := src[i].item, quantity := src[i].quantity, outline := view.equipped)
    else Cleared(view)
  }

  function Mirror(views: seq<SlotState>, src: seq<SlotState>): (r: seq<SlotState>)
    ensures |r| == |views|
    ensures forall i :: 0 <= i < |views| ==> r[i] == Mirrored(views[i], src, i)
  {
    seq(|views|, i requires 0 <= i < |views| => Mirrored(views[i], src, i))
  }

  /** After UpdateHotbarUI each view shows exactly the item of the source slot
      at its position (none past the end of the source), with its quantity;
      and refreshing a second time changes nothing. */
  lemma MirrorShowsSource(views: seq<SlotState>, src: seq<SlotState>)
    ensures var m := Mirror(views, src);
      && (forall i :: 0 <= i < |views| ==> m[i].item == (if i < |src| then src[i].item else None))
      && (forall i :: 0 <= i < |views| && i < |src| && src[i].item.Some? ==> m[i].quantity == src[i].quantity)
      && Mirror(m, src) == m
  {
  }

  // ---------------------------------------------------------------------
  // UpdateHotbarData

  /** The ItemSlotData that UpdateHotbarData stores for a slot. */
  function Recorded(s: SlotState): SlotRecord {
    if s.item.Some? then SlotRecord(s.item, s.quantity, s.equipped) else EmptyRecord
  }

  /** The list grown with fresh empty entries up to length `n`. */
  function Padded(data: seq<SlotRecord>, n: int): (r: seq<SlotRecord>)
    ensures |r| == Max(|data|, n)
    ensures forall j :: 0 <= j < |data| ==> r[j] == data[j]
    ensures forall j :: |data| <= j < |r| ==> r[j] == EmptyRecord
    decreases n - |data|
  {
    if |data| >= n then data else Padded(data + [EmptyRecord], n)
  }

  /** HotbarData.slots after UpdateHotbarData(i), given the hotbar slots. */
  function Logged(data: seq<SlotRecord>, hotbar: seq<SlotState>, i: int): seq<SlotRecord> {
    if i < 0 || i >= |hotbar| then data else Padded(data, i + 1)[i := Recorded(hotbar[i])]
  }

  /** UpdateHotbarData ignores a position outside the hotbar; otherwise it
      grows the list with empty entries to hold the position, records the
      slot there and leaves every other entry as it was. */
  lemma LoggedEntries(data: seq<SlotRecord>, hotbar: seq<SlotState>, i: int)
    ensures !(0 <= i < |hotbar|) ==> Logged(data, hotbar, i) == data
    ensures 0 <= i < |hotbar| ==>
      var r := Logged(data, hotbar, i);
      && |r| == Max(|data|, i + 1)
      && r[i] == Recorded(hotbar[i])
      && (forall j :: 0 <= j < |data| && j != i ==> r[j] == data[j])
      && (forall j :: |data| <= j < |r| && j != i ==> r[j] == EmptyRecord)
  {
  }

  /** A refreshed hotbar record is the same as the one taken before the
      refresh: UpdateUI never changes what UpdateHotbarData stores. */
  lemma RecordedIgnoresRefresh(s: SlotState)
    ensures Recorded(Refreshed(s)) == Recorded(s)
  {
  }

  /** The view copies only items and quantities, which UpdateUI keeps. */
  lemma MirrorIgnoresRefresh(views: seq<SlotState>, src: seq<SlotState>)
    ensures Mirror(views, RefreshAll(src)) == Mirror(views, src)
  {
  }

  /** `amount` copies of one item: the drops ThrowItem spawns. */
  function Copies(d: ItemData, amount: int): (r: seq<ItemData>)
    ensures |r| == Max(0, amount) && forall k :: 0 <= k < |r| ==> r[k] == d
  {
    if amount <= 0 then [] else Copies(d, amount - 1) + [d]
  }
}
