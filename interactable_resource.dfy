/** InteractableResource: a node the player gathers from by pressing the
    interact key. It drains like a Resource, then counts down its respawn
    timer frame by frame. */
module Interactables {
  import opened Items
  import opened Gathering

  /** Mathf.Ceil of a timer, as the whole number the prompt shows. */
  function Ceil(x: real): (r: int)
    ensures x <= r as real < x + 1.0
  {
    -((-x).Floor)
  }

  /** The number a string of decimal digits stands for, read from the left
      (each digit multiplies what came before it by ten). */
  function DecimalValue(s: string): int
    decreases |s|
  {
    if s == [] then 0 else DecimalValue(s[..|s| - 1]) * 10 + (s[|s| - 1] as int - '0' as int)
  }

  /** The decimal digits of `n`: they read back as `n`, and only zero
      itself starts with the digit 0. */
  function Digits(n: nat): (r: string)
    ensures |r| >= 1
    ensures forall k :: 0 <= k < |r| ==> '0' <= r[k] <= '9'
    ensures DecimalValue(r) == n
    ensures n == 0 <==> r == "0"
    ensures n > 0 ==> r[0] != '0'
    decreases n
  {
    if n < 10 then [(48 + n) as char]
    else
      var front := Digits(n / 10);
      var r := front + [(48 + n % 10) as char];
      assert r[..|r| - 1] == front;
      r
  }

  /** An integer as C# string interpolation writes it: a minus sign below
      zero, then the digits of its magnitude without leading zeros. */
  function IntText(n: int): (r: string)
    ensures |r| >= 1
    ensures n >= 0 ==> forall k :: 0 <= k < |r| ==> '0' <= r[k] <= '9'
    ensures n >= 0 ==> DecimalValue(r) == n && (r[0] == '0' ==> r == "0")
    ensures n < 0 ==> |r| >= 2 && r[0] == '-' && forall k :: 1 <= k < |r| ==> '0' <= r[k] <= '9'
    ensures n < 0 ==> DecimalValue(r[1..]) == -n && r[1] != '0'
  {
    if n >= 0 then Digits(n)
    else
      var r := "-" + Digits(-n);
      assert r[1..] == Digits(-n);
      r
  }

  /** The countdown of RespawnAfterTime over frames of the given lengths:
      `timer` loses one frame's length per frame while it is above zero. It
      returns the timer and the number of frames used. */
  function Countdown(timer: real, frames: seq<real>): (r: (real, nat))
    ensures r.1 <= |frames|
    ensures r.0 > 0.0 ==> r.1 == |frames|
    ensures timer <= 0.0 ==> r == (timer, 0)
    decreases |frames|
  {
    if timer <= 0.0 || frames == [] then (timer, 0)
    else
      var rest := Countdown(timer - frames[0], frames[1..]);
      (rest.0, rest.1 + 1)
  }

  /** Frames of at least `dt > 0` each run a timer of `timer` down once there
      are enough of them to cover it. */
  lemma {:induction false} CountdownEnds(timer: real, frames: seq<real>, dt: real)
    requires dt > 0.0 && forall k :: 0 <= k < |frames| ==> frames[k] >= dt
    requires |frames| as real * dt >= timer
    ensures Countdown(timer, frames).0 <= 0.0
    decreases |frames|
  {
    if timer > 0.0 && frames != [] {
      assert forall k :: 0 <= k < |frames[1..]| ==> frames[1..][k] == frames[k + 1];
      assert (|frames| - 1) as real * dt >= timer - frames[0];
      CountdownEnds(timer - frames[0], frames[1..], dt);
    }
  }

  /** The timer only goes down while the countdown runs. */
  lemma {:induction false} CountdownDescends(timer: real, frames: seq<real>)
    requires forall k :: 0 <= k < |frames| ==> frames[k] >= 0.0
    ensures Countdown(timer, frames).0 <= timer
    decreases |frames|
  {
    if timer > 0.0 && frames != [] {
      assert forall k :: 0 <= k < |frames[1..]| ==> frames[1..][k] == frames[k + 1];
      CountdownDescends(timer - frames[0], frames[1..]);
    }
  }

  /** How the depleted prompt is laid out around the seconds text `t`. */
  lemma DepletedText(name: string, t: string)
    ensures var r := name + " (Depleted - " + t + "s left)";
      && |r| == |name| + 20 + |t| && r[..|name|] == name
      && name + " (Depleted - " <= r && r[|name| + 13..|r| - 7] == t
  {
    var head := name + " (Depleted - ";
    var r := head + t + "s left)";
    assert r[..|head|] == head;
    assert head[..|name|] == name;
    assert r[|name| + 13..|r| - 7] == t;
  }

  /** InteractableResource. `dropped` counts the drop prefabs instantiated
      and `respawning` stands for the countdown coroutine. */
  class InteractableResource {
    const name: string
    const item: Option<ItemData>
    const quantityPerInteract: int
    var capacity: int
    const respawnTime: real
    var originalCapacity: int
    var curCapacity: int
    var isDepleted: bool
    var respawnTimer: real
    var respawning: bool
    var dropped: nat

    /** A node with the given Inspector values (the source's defaults are
        one unit per interaction, a capacity of 5 and a respawn time of 5
        seconds), before Start. */
    constructor (name: string, item: Option<ItemData>, quantityPerInteract: int, capacity: int, respawnTime: real)
      ensures this.name == name && this.item == item && this.quantityPerInteract == quantityPerInteract
      ensures this.capacity == capacity && this.respawnTime == respawnTime
      ensures Valid() && !isDepleted && dropped == 0
    {
      this.name := name;
      this.item := item;
      this.quantityPerInteract := quantityPerInteract;
      this.capacity := capacity;
      this.respawnTime := respawnTime;
      originalCapacity := 0;
      curCapacity := 0;
      isDepleted := false;
      respawnTimer := 0.0;
      respawning := false;
      dropped := 0;
    }

    /** The countdown coroutine runs exactly while the node is depleted. */
    ghost predicate Valid()
      reads this
    {
      respawning == isDepleted
    }

    predicate CanDrop()
    {
      item.Some? && item.value.hasDropPrefab
    }

    /** InteractableResource.Start: remembers the capacity to restore. */
    method Start()
      modifies this`originalCapacity, this`curCapacity
      ensures originalCapacity == capacity && curCapacity == capacity
    {
      originalCapacity := capacity;
      curCapacity := capacity;
    }

    /** InteractableResource.GetInteractPrompt: the depleted text, with the
        whole seconds left, exactly when the node is depleted. */
    function GetInteractPrompt(): (r: string)
      reads this
      ensures |r| > |name| && r[..|name|] == name
      ensures isDepleted <==> name + " (Depleted - " <= r
      ensures isDepleted ==> |r| == |name| + 20 + |IntText(Ceil(respawnTimer))|
      ensures isDepleted ==> r[|name| + 13..|r| - 7] == IntText(Ceil(respawnTimer))
    {
      var gather := name + " (Press E to gather)";
      assert gather[|name| + 2] == 'P' && gather[..|name|] == name;
      if isDepleted then
        var t := IntText(Ceil(respawnTimer));
        DepletedText(name, t);
        name + " (Depleted - " + t + "s left)"
      else
        assert !(name + " (Depleted - " <= gather) by {
          assert (name + " (Depleted - ")[|name| + 2] == 'D';
        }
        gather
    }

    /** InteractableResource.OnInteract: nothing happens while depleted;
        otherwise up to `quantityPerInteract` units drop, and a node left
        with nothing starts its countdown. The first missing drop prefab
        faults after its unit has been taken. */
    method OnInteract() returns (fault: bool)
      requires Valid()
      modifies this`capacity, this`isDepleted, this`respawnTimer, this`respawning, this`dropped
      ensures Valid()
      ensures old(isDepleted) ==>
        !fault && capacity == old(capacity) && dropped == old(dropped) && isDepleted
        && respawnTimer == old(respawnTimer)
      ensures !old(isDepleted) ==>
        var taken := Taken(old(capacity), quantityPerInteract);
        && (fault <==> taken >= 1 && !CanDrop())
        && (fault ==> capacity == old(capacity) - 1 && dropped == old(dropped) && !isDepleted)
        && (!fault ==> capacity == old(capacity) - taken && dropped == old(dropped) + taken
                       && isDepleted == (capacity <= 0))
        && respawnTimer == if isDepleted then respawnTime else old(respawnTimer)
    {
      if isDepleted {
        return false;
      }
      ghost var taken := Taken(capacity, quantityPerInteract);
      var i := 0;
      while i < quantityPerInteract
        modifies this`capacity, this`dropped
        invariant 0 <= i <= taken
        invariant capacity == old(capacity) - i && dropped == old(dropped) + i
        invariant i < taken ==> capacity > 0
        invariant i >= 1 ==> CanDrop()
        decreases quantityPerInteract - i
      {
        if capacity <= 0 {
          break;
        }
        capacity := capacity - 1;
        if !CanDrop() {
          return true;
        }
        dropped := dropped + 1;
        i := i + 1;
      }
      if capacity <= 0 {
        StartRespawn();
      }
      return false;
    }

    /** InteractableResource.StartRespawn: depleted, with the full respawn
        time to count down. */
    method StartRespawn()
      modifies this`isDepleted, this`respawnTimer, this`respawning
      ensures Valid() && isDepleted && respawnTimer == respawnTime
    {
      isDepleted := true;
      respawnTimer := respawnTime;
      respawning := true;
    }

    /** InteractableResource.RespawnAfterTime over the frames `frames`: the
        timer loses each frame's length while it is above zero; once it is
        not, the capacity comes back and the node is no longer depleted. If
        the frames run out first the coroutine is still waiting. */
    method RespawnAfterTime(frames: seq<real>) returns (used: nat)
      requires Valid() && respawning
      modifies this`respawnTimer, this`capacity, this`curCapacity, this`isDepleted, this`respawning
      ensures Valid()
      ensures (respawnTimer, used) == Countdown(old(respawnTimer), frames)
      ensures respawnTimer <= 0.0 ==> capacity == originalCapacity && curCapacity == originalCapacity && !isDepleted
      ensures respawnTimer > 0.0 ==>
        capacity == old(capacity) && curCapacity == old(curCapacity) && isDepleted == old(isDepleted)
    {
      used := 0;
      while respawnTimer > 0.0 && used < |frames|
        modifies this`respawnTimer
        invariant used <= |frames|
        invariant Countdown(old(respawnTimer), frames) == (var rest := Countdown(respawnTimer, frames[used..]); (rest.0, rest.1 + used))
        decreases |frames| - used
      {
        assert frames[used..][1..] == frames[used + 1..];
        respawnTimer := respawnTimer - frames[used];
        used := used + 1;
      }
      if respawnTimer > 0.0 {
        return;
      }
      capacity := originalCapacity;
      curCapacity := capacity;
      isDepleted := false;
      respawning := false;
    }
  }
}
