/** Resource: a node in the world (a tree, a rock) that drops items when it
    is hit with an allowed tool, runs dry, and comes back after a while.
    Tool types are numbers here; the ToolType enumeration is not part of
    this model. */
module Gathering {
  import opened Items

  /** How many units one hit or one interaction takes from a node holding
      `capacity`, when each takes up to `perHit`: the loop stops at
      `perHit` iterations or when the node is empty, whichever comes first. */
  function Taken(capacity: int, perHit: int): (r: int)
    ensures 0 <= r <= Max(0, perHit)
    ensures capacity > 0 ==> r <= capacity
    ensures capacity <= 0 ==> r == 0
    ensures capacity > 0 && perHit > 0 ==> r >= 1
    ensures r == Max(0, perHit) || r == Max(0, capacity)
  {
    if capacity <= 0 || perHit <= 0 then 0 else Min(perHit, capacity)
  }

  /** What is left after a hit: never below zero when the node started at
      zero or more, and zero exactly when the hit emptied it. */
  lemma TakenLeaves(capacity: int, perHit: int)
    requires capacity >= 0
    ensures capacity - Taken(capacity, perHit) >= 0
    ensures capacity - Taken(capacity, perHit) == 0 <==> capacity == 0 || perHit >= capacity
  {
  }

  /** Resource. `dropped` counts the drop prefabs instantiated, `shown`
      stands for the renderer and the collider being enabled, and
      `respawning` for the coroutine Startrespawn starts. A drop needs the
      item's drop prefab: instantiating a missing one is the fault. */
  class Resource {
    const itemToGive: Option<ItemData>
    const quantityPerHit: int
    var capacity: int
    const allowedTools: seq<nat>
    var originalCapacity: int
    var curCapacity: int
    var isDepleted: bool
    var shown: bool
    var respawning: bool
    var dropped: nat

    /** A node with the given Inspector values, before Start. */
    constructor (itemToGive: Option<ItemData>, quantityPerHit: int, capacity: int, allowedTools: seq<nat>)
      ensures this.itemToGive == itemToGive && this.quantityPerHit == quantityPerHit
      ensures this.capacity == capacity && this.allowedTools == allowedTools
      ensures Valid() && !isDepleted && dropped == 0
    {
      this.itemToGive := itemToGive;
      this.quantityPerHit := quantityPerHit;
      this.capacity := capacity;
      this.allowedTools := allowedTools;
      originalCapacity := 0;
      curCapacity := 0;
      isDepleted := false;
      shown := true;
      respawning := false;
      dropped := 0;
    }

    /** The node is hidden, and its respawn coroutine running, exactly while
        it is depleted. */
    ghost predicate Valid()
      reads this
    {
      shown == !isDepleted && respawning == isDepleted
    }

    predicate CanDrop()
    {
      itemToGive.Some? && itemToGive.value.hasDropPrefab
    }

    /** Resource.Start: remembers the capacity to restore. */
    method Start()
      modifies this`originalCapacity, this`curCapacity
      ensures originalCapacity == capacity && curCapacity == capacity
    {
      originalCapacity := capacity;
      curCapacity := capacity;
    }

    /** Resource.Gather with a tool of type `tool`: nothing happens to a
        depleted node or with a tool it does not allow; otherwise up to
        `quantityPerHit` units drop, one drop each, and a node left with
        nothing is depleted until it respawns. The first missing drop prefab
        faults after its unit has been taken. */
    method Gather(tool: nat) returns (fault: bool)
      requires Valid()
      modifies this`capacity, this`isDepleted, this`shown, this`respawning, this`dropped
      ensures Valid()
      ensures old(isDepleted) || tool !in allowedTools ==>
        !fault && capacity == old(capacity) && dropped == old(dropped) && isDepleted == old(isDepleted)
      ensures !old(isDepleted) && tool in allowedTools ==>
        var taken := Taken(old(capacity), quantityPerHit);
        && (fault <==> taken >= 1 && !CanDrop())
        && (fault ==> capacity == old(capacity) - 1 && dropped == old(dropped) && !isDepleted)
        && (!fault ==> capacity == old(capacity) - taken && dropped == old(dropped) + taken
                       && isDepleted == (capacity <= 0))
    {
      if isDepleted || tool !in allowedTools {
        return false;
      }
      ghost var taken := Taken(capacity, quantityPerHit);
      var i := 0;
      while i < quantityPerHit
        modifies this`capacity, this`dropped
        invariant 0 <= i <= taken
        invariant capacity == old(capacity) - i && dropped == old(dropped) + i
        invariant i < taken ==> capacity > 0
        invariant i >= 1 ==> CanDrop()
        decreases quantityPerHit - i
      {
        if capacity <= 0 {
          break;
        }
        capacity := capacity - 1;
        if !CanDrop() {
          return true;
        }
        dropped := dropped + 1;
        i := i + 1;
      }
      if capacity <= 0 {
        Startrespawn();
      }
      return false;
    }

    /** Resource.Startrespawn: hides the node and starts the respawn
        coroutine. */
    method Startrespawn()
      modifies this`isDepleted, this`shown, this`respawning
      ensures Valid() && isDepleted
    {
      isDepleted := true;
      shown := false;
      respawning := true;
    }

    /** Resource.RespawnAfterTime, once its wait is over: the full capacity
        comes back and the node is shown again. */
    method RespawnAfterTime()
      modifies this`capacity, this`curCapacity, this`isDepleted, this`shown, this`respawning
      ensures capacity == originalCapacity && curCapacity == originalCapacity
      ensures Valid() && !isDepleted
    {
      capacity := originalCapacity;
      curCapacity := capacity;
      isDepleted := false;
      shown := true;
      respawning := false;
    }
  }
}
