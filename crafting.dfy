/** CraftingManager.Craft: a recipe is crafted only when the inventory holds
    every ingredient; then each ingredient is removed in recipe order and the
    output is dropped into the world. */
module Crafting {
  import opened Items
  import opened InventorySpec
  import opened Inventory

  /** One entry of a recipe's inputs. */
  datatype Ingredient = Ingredient(item: Option<ItemData>, amount: int)

  /** A CraftingRecipe asset: its inputs in order, and `outputAmount` units of
      `outputItem` as output. */
  datatype CraftingRecipe = CraftingRecipe(
    inputs: seq<Ingredient>,
    outputItem: Option<ItemData>,
    outputAmount: int)

  /** What HasItem(ing.item, ing.amount) answers in state `st`. */
  predicate Enough(st: InvState, ing: Ingredient) {
    Total(st, ing.item) >= ing.amount
  }

  /** The first ingredient from position `i` on that the inventory lacks, the
      one at which Craft's checking loop returns. Every entry is checked
      against the same state: nothing is set aside for earlier entries. */
  function FirstMissing(st: InvState, inputs: seq<Ingredient>, i: nat): (r: Option<nat>)
    requires i <= |inputs|
    ensures r.None? <==> forall k :: i <= k < |inputs| ==> Enough(st, inputs[k])
    ensures r.Some? ==>
      && i <= r.value < |inputs| && !Enough(st, inputs[r.value])
      && forall k :: i <= k < r.value ==> Enough(st, inputs[k])
    decreases |inputs| - i
  {
    if i == |inputs| then None
    else if !Enough(st, inputs[i]) then Some(i)
    else FirstMissing(st, inputs, i + 1)
  }

  /** The slot contents together with what the hotbar view shows. */
  datatype Screen = Screen(st: InvState, view: seq<SlotState>)

  /** The screen after RemoveItem has run once for each of `inputs`, in
      order: each call drains the slots and then redraws the hotbar view. */
  function RemoveAll(sc: Screen, inputs: seq<Ingredient>): (r: Screen)
    ensures |r.view| == |sc.view|
    ensures |r.st.hotbar| == |sc.st.hotbar| && |r.st.inventory| == |sc.st.inventory|
  {
    if inputs == [] then sc
    else
      var mid := RemoveAll(sc, inputs[..|inputs| - 1]);
      var ing := inputs[|inputs| - 1];
      var st := AfterRemove(mid.st, ing.item, ing.amount);
      Screen(st, Mirror(mid.view, st.hotbar))
  }

  /** Recipe entries for pairwise different items, each a real item wanted
      in a non-negative amount. */
  predicate Distinct(inputs: seq<Ingredient>) {
    && (forall k :: 0 <= k < |inputs| ==> inputs[k].item.Some? && inputs[k].amount >= 0)
    && (forall j, k :: 0 <= j < k < |inputs| ==> inputs[j].item != inputs[k].item)
  }

  /** `x` is not asked for by any of `inputs`. */
  predicate Unused(inputs: seq<Ingredient>, x: Option<ItemData>) {
    forall k :: 0 <= k < |inputs| ==> inputs[k].item != x
  }

  /** When a recipe names each item once and the inventory holds every
      ingredient, crafting takes exactly the listed amount of each
      ingredient and leaves the count of every other item alone. */
  lemma {:induction false} CraftConsumes(sc: Screen, inputs: seq<Ingredient>)
    requires Distinct(inputs) && NoDebt(sc.st.hotbar) && NoDebt(sc.st.inventory)
    requires forall k :: 0 <= k < |inputs| ==> Enough(sc.st, inputs[k])
    ensures var r := RemoveAll(sc, inputs).st;
      && NoDebt(r.hotbar) && NoDebt(r.inventory)
      && (forall k :: 0 <= k < |inputs| ==>
            Total(r, inputs[k].item) == Total(sc.st, inputs[k].item) - inputs[k].amount)
      && (forall x: Option<ItemData> :: x.Some? && Unused(inputs, x) ==> Total(r, x) == Total(sc.st, x))
  {
    if inputs != [] {
      var init := inputs[..|inputs| - 1];
      var ing := inputs[|inputs| - 1];
      assert forall k :: 0 <= k < |init| ==> init[k] == inputs[k];
      CraftConsumes(sc, init);
      var mid := RemoveAll(sc, init).st;
      var r := AfterRemove(mid, ing.item, ing.amount);
      assert Unused(init, ing.item);
      assert Total(mid, ing.item) == Total(sc.st, ing.item);
      RemoveCounts(mid, ing.item, ing.amount);
      forall x: Option<ItemData> | x.Some? && x != ing.item
        ensures Total(r, x) == Total(mid, x)
      {
        RemoveKeepsOthers(mid, ing.item, ing.amount, x);
      }
      RemoveKeepsNoDebt(mid, ing.item, ing.amount);
      forall k | 0 <= k < |init|
        ensures Total(r, inputs[k].item) == Total(sc.st, inputs[k].item) - inputs[k].amount
      {
        assert inputs[k].item != ing.item;
      }
    }
  }

  /** The checks are made entry by entry: a recipe naming the same item
      twice passes them with three units held and four asked for, and the
      removal then takes the three there are. */
  lemma ChecksArePerEntry(d: ItemData)
    ensures var slot := SlotState(Some(d), 3, false, false);
      var sc := Screen(InvState([slot], []), [slot]);
      var inputs := [Ingredient(Some(d), 2), Ingredient(Some(d), 2)];
      && FirstMissing(sc.st, inputs, 0).None?
      && Total(RemoveAll(sc, inputs).st, Some(d)) == 0
  {
    var slot := SlotState(Some(d), 3, false, false);
    var sc := Screen(InvState([slot], []), [slot]);
    var inputs := [Ingredient(Some(d), 2), Ingredient(Some(d), 2)];
    assert inputs[..1] == [Ingredient(Some(d), 2)];
    assert [Ingredient(Some(d), 2)][..0] == [];
    var one := SlotState(Some(d), 1, false, false);
    var none := SlotState(None, 1, false, false);
    assert DrainFrom(sc.st.hotbar, 0, Some(d), 2) == Drained([one], 2, true);
    assert RefreshAll([one]) == [one] by { assert RefreshAll([one])[0] == one; }
    assert RefreshAll([]) == [];
    var mid := RemoveAll(sc, inputs[..1]);
    assert RemoveAll(sc, []) == sc;
    assert mid == RemoveAll(sc, [Ingredient(Some(d), 2)]);
    assert mid.st == AfterRemove(sc.st, Some(d), 2);
    assert mid.st == InvState([one], []);
    assert DrainFrom(mid.st.hotbar, 0, Some(d), 2) == DrainFrom([none], 1, Some(d), 1);
    assert RefreshAll([none]) == [none] by { assert RefreshAll([none])[0] == none; }
    assert RemoveAll(sc, inputs).st == InvState([none], []);
    assert Count([none], Some(d)) == 0 by { assert [none][..0] == []; }
  }

  /** CraftingManager: crafts against one inventory. */
  class CraftingManager {
    const inventory: UIInventory

    constructor (inventory: UIInventory)
      ensures this.inventory == inventory
    {
      this.inventory := inventory;
    }

    /** CraftingManager.Craft. A missing ingredient stops it before anything is
        removed; logging its name dereferences a null item, the fault. Once
        all checks pass every ingredient is removed, and the output is thrown
        out when it has a drop prefab; a null output item is the fault
        then, after the removals. */
    method Craft(recipe: CraftingRecipe) returns (fault: bool)
      requires inventory.Valid()
      modifies inventory.hotbarContents, inventory.inventoryContents, inventory.hotbarUI.hotbarSlots
      modifies inventory`thrown, inventory.player`curEquip
      ensures var m := FirstMissing(old(inventory.State()), recipe.inputs, 0);
        m.Some? ==>
          && fault == recipe.inputs[m.value].item.None?
          && inventory.State() == old(inventory.State())
          && inventory.hotbarUI.hotbarSlots[..] == old(inventory.hotbarUI.hotbarSlots[..])
          && inventory.thrown == old(inventory.thrown)
          && inventory.player.curEquip == old(inventory.player.curEquip)
      ensures var m := FirstMissing(old(inventory.State()), recipe.inputs, 0);
        var r := RemoveAll(Screen(old(inventory.State()), old(inventory.hotbarUI.hotbarSlots[..])), recipe.inputs);
        var out := recipe.outputItem;
        m.None? ==>
          && fault == out.None?
          && (out.Some? && out.value.hasDropPrefab ==>
                && inventory.State() == Refresh(r.st)
                && inventory.hotbarUI.hotbarSlots[..] == Mirror(r.view, inventory.State().hotbar)
                && inventory.thrown == old(inventory.thrown) + Copies(out.value, recipe.outputAmount)
                && inventory.player.curEquip ==
                     if old(inventory.player.curEquip) == out then None else old(inventory.player.curEquip))
          && (!(out.Some? && out.value.hasDropPrefab) ==>
                && inventory.State() == r.st
                && inventory.hotbarUI.hotbarSlots[..] == r.view
                && inventory.thrown == old(inventory.thrown)
                && inventory.player.curEquip == old(inventory.player.curEquip))
    {
      ghost var s0 := inventory.State();
      ghost var sc := Screen(s0, inventory.hotbarUI.hotbarSlots[..]);
      var inputs := recipe.inputs;
      for i := 0 to |inputs|
        modifies {}
        invariant FirstMissing(s0, inputs, 0) == FirstMissing(s0, inputs, i)
      {
        var has := inventory.HasItem(inputs[i].item, inputs[i].amount);
        if !has {
          return inputs[i].item.None?;
        }
      }
      for i := 0 to |inputs|
        invariant Screen(inventory.State(), inventory.hotbarUI.hotbarSlots[..]) == RemoveAll(sc, inputs[..i])
        invariant inventory.thrown == old(inventory.thrown)
        invariant inventory.player.curEquip == old(inventory.player.curEquip)
      {
        assert inputs[..i + 1][..i] == inputs[..i];
        inventory.RemoveItem(inputs[i].item, inputs[i].amount);
      }
      assert inputs[..|inputs|] == inputs;
      if recipe.outputItem.None? {
        return true;
      }
      if recipe.outputItem.value.hasDropPrefab {
        var thrownFault := inventory.ThrowItem(recipe.outputItem.value, recipe.outputAmount);
      }
      return false;
    }
  }
}
