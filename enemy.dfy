/** The monster components: Enemy, the AI state machine, and EnemyHealth,
    its hit-point ledger. Each holds a reference to the other (the AI sets
    the maximum from its type table, the ledger tells the AI when it dies),
    so they share one module.

    Positions are not modelled. The world an Enemy sees in one frame is a
    Scene: the objects carrying the target tag, with their distances from
    the enemy, and the distance of every live object. Unity's float
    arithmetic is modelled with `real`. */
module Monster {
  import opened Items

  /** Enemy.State. */
  datatype State = Idle | Chase | Attack | Dead

  /** An object FindGameObjectsWithTag returned: its identity, whether it is
      the enemy's own object, and its distance from the enemy. */
  datatype Tagged = Tagged(id: nat, isSelf: bool, dist: real)

  /** One frame's view of the world: the tagged objects in the order the
      engine lists them, and the distance from the enemy of every object
      still alive (a destroyed object is missing, which is when Unity's
      `!target` holds). */
  datatype Scene = Scene(tagged: seq<Tagged>, distance: map<nat, real>)

  /** The engine lists only live objects, at the distance it reports for
      them. */
  predicate Coherent(sc: Scene) {
    forall k :: 0 <= k < |sc.tagged| ==>
      sc.tagged[k].id in sc.distance && sc.distance[sc.tagged[k].id] == sc.tagged[k].dist
  }

  /** The target is set and still alive. */
  predicate Live(sc: Scene, target: Option<nat>) {
    target.Some? && target.value in sc.distance
  }

  /** The distance to a live target. */
  function DistanceTo(sc: Scene, target: Option<nat>): real
    requires Live(sc, target)
  {
    sc.distance[target.value]
  }

  /** The Inspector settings the state machine reads. */
  datatype Tuning = Tuning(
    visionRange: real,
    attackRange: real,
    attackCooldown: real,
    useAnimationEvent: bool)

  /** The source's defaults: vision 10, attack range 2, cooldown 1.2 s, and
      the hit dealt by an animation event. */
  const DefaultTuning := Tuning(10.0, 2.0, 1.2, true)

  /** What the state machine remembers between frames: the state, the
      attack cooldown timer, the target, and the delayed-hit coroutines
      started and not yet resumed. */
  datatype Brain = Brain(state: State, atkTimer: real, target: Option<nat>, pendingHits: nat)

  // ---------------------------------------------------------------------
  // FindClosestByTag

  /** Among `sc.tagged[..n]`, the position of the first object other than
      the enemy itself at the least distance (`d < bestDist` keeps the
      earliest of equally near objects), or None when there is none. */
  function Nearest(sc: Scene, n: nat): (r: Option<nat>)
    requires n <= |sc.tagged|
    ensures r.None? <==> forall k :: 0 <= k < n ==> sc.tagged[k].isSelf
    ensures r.Some? ==>
      && r.value < n && !sc.tagged[r.value].isSelf
      && (forall k :: 0 <= k < n && !sc.tagged[k].isSelf ==> sc.tagged[r.value].dist <= sc.tagged[k].dist)
      && (forall k :: 0 <= k < r.value && !sc.tagged[k].isSelf ==> sc.tagged[r.value].dist < sc.tagged[k].dist)
  {
    if n == 0 then None
    else
      var best := Nearest(sc, n - 1);
      var t := sc.tagged[n - 1];
      if t.isSelf then best
      else if best.None? || t.dist < sc.tagged[best.value].dist then Some(n - 1)
      else best
  }

  /** The object FindClosestByTag returns. */
  function Closest(sc: Scene): Option<nat> {
    var k := Nearest(sc, |sc.tagged|);
    if k.None? then None else Some(sc.tagged[k.value].id)
  }

  // ---------------------------------------------------------------------
  // One frame of Update

  /** Enemy.LookForTarget: keeps a live target within vision, otherwise
      looks for the closest tagged object; chases when the target is within
      vision. */
  function Looked(b: Brain, e: Tuning, sc: Scene): (r: Brain)
    ensures r.state == Idle || r.state == Chase
    ensures r.atkTimer == b.atkTimer && r.pendingHits == b.pendingHits
    ensures r.state == Chase <==> Live(sc, r.target) && DistanceTo(sc, r.target) <= e.visionRange
    ensures Live(sc, b.target) && DistanceTo(sc, b.target) <= e.visionRange ==> r.target == b.target
  {
    var target :=
      if !Live(sc, b.target) || DistanceTo(sc, b.target) > e.visionRange then Closest(sc) else b.target;
    if !Live(sc, target) then b.(target := target, state := Idle)
    else b.(target := target, state := if DistanceTo(sc, target) <= e.visionRange then Chase else Idle)
  }

  /** Enemy.StartAttack: attacks and restarts the cooldown; without animation
      events the hit is left to a delayed coroutine. */
  function Started(b: Brain, e: Tuning): (r: Brain)
    ensures r.state == Attack && r.atkTimer == e.attackCooldown && r.target == b.target
    ensures r.pendingHits == if e.useAnimationEvent then b.pendingHits else b.pendingHits + 1
  {
    b.(state := Attack, atkTimer := e.attackCooldown,
       pendingHits := if e.useAnimationEvent then b.pendingHits else b.pendingHits + 1)
  }

  /** Enemy.Chase: gives up on a lost or far target, attacks a target in
      range once the cooldown has run out, and otherwise keeps moving. */
  function Chased(b: Brain, e: Tuning, sc: Scene): (r: Brain)
    requires b.state == Chase
    ensures r.state == Idle <==> !Live(sc, b.target) || DistanceTo(sc, b.target) > e.visionRange * 1.25
    ensures r.state == Attack <==>
      && Live(sc, b.target) && DistanceTo(sc, b.target) <= e.visionRange * 1.25
      && DistanceTo(sc, b.target) <= e.attackRange && b.atkTimer <= 0.0
    ensures r.state == Attack ==> r == Started(b, e)
    ensures r.state != Attack ==> r == b.(state := r.state)
  {
    if !Live(sc, b.target) then b.(state := Idle)
    else if DistanceTo(sc, b.target) > e.visionRange * 1.25 then b.(state := Idle)
    else if DistanceTo(sc, b.target) <= e.attackRange && b.atkTimer <= 0.0 then Started(b, e)
    else b
  }

  /** An attack started in this frame. */
  predicate Attacked(b: Brain, r: Brain) {
    b.state != Attack && r.state == Attack
  }

  /** Enemy.Update for a frame of length `dt`. Dead is final; the cooldown
      runs down in every other frame; Attack is left alone, and only
      Chase can start an attack. */
  function Tick(b: Brain, e: Tuning, sc: Scene, dt: real): (r: Brain)
    ensures b.state == Dead ==> r == b
    ensures b.state != Dead ==> r.state != Dead
    ensures b.state == Attack ==> r.state == Attack
    ensures Attacked(b, r) ==>
      && b.state == Chase && Live(sc, b.target)
      && DistanceTo(sc, b.target) <= e.attackRange
      && (if b.atkTimer > 0.0 then b.atkTimer - dt else b.atkTimer) <= 0.0
      && r.atkTimer == e.attackCooldown
    ensures b.state != Dead && !Attacked(b, r) ==>
      r.atkTimer == if b.atkTimer > 0.0 then b.atkTimer - dt else b.atkTimer
    ensures r.pendingHits == if Attacked(b, r) && !e.useAnimationEvent then b.pendingHits + 1 else b.pendingHits
  {
    if b.state == Dead then b
    else
      var cooled := if b.atkTimer > 0.0 then b.(atkTimer := b.atkTimer - dt) else b;
      match cooled.state
      case Idle => Looked(cooled, e, sc)
      case Chase => Chased(cooled, e, sc)
      case Attack => cooled
  }

  /** When the scene lists its objects truthfully, LookForTarget ends in
      Chase exactly when the current target is alive within vision or some
      other tagged object is. */
  lemma LookSeesAnyoneInRange(b: Brain, e: Tuning, sc: Scene)
    requires Coherent(sc)
    ensures Looked(b, e, sc).state == Chase <==>
      || (Live(sc, b.target) && DistanceTo(sc, b.target) <= e.visionRange)
      || (exists k :: 0 <= k < |sc.tagged| && !sc.tagged[k].isSelf && sc.tagged[k].dist <= e.visionRange)
  {
    var n := Nearest(sc, |sc.tagged|);
    if n.Some? {
      assert sc.tagged[n.value].id in sc.distance;
    }
  }

  // ---------------------------------------------------------------------
  // Runs of frames and attack events

  /** What can happen to an enemy: a frame, the attack clip's hit event, a
      delayed hit coroutine resuming, and EnemyHealth reporting death. */
  datatype Event = Frame(scene: Scene, dt: real) | AnimationHit | DelayedHit | Killed

  /** The hit event as written: Enemy.AnimationAttackHit deals the hit and
      changes no state. */
  function AnimationHitAsWritten(b: Brain): (r: Brain)
    ensures r == b
  {
    b
  }

  /** The hit event as evidently intended: like the delayed hit, it puts a
      living enemy back into Chase. */
  function AnimationHitFixed(b: Brain): (r: Brain)
    ensures b.state == Dead ==> r == b
    ensures b.state != Dead ==> r == b.(state := Chase)
  {
    if b.state == Dead then b else b.(state := Chase)
  }

  /** Enemy.AttackHitAfter resuming: one started coroutine is used up, and a
      living enemy goes back to Chase. */
  function DelayedHitLanded(b: Brain): (r: Brain)
    ensures b.pendingHits == 0 ==> r == b
    ensures b.pendingHits > 0 ==> r.pendingHits == b.pendingHits - 1
    ensures b.pendingHits > 0 ==> r.state == if b.state == Dead then Dead else Chase
  {
    if b.pendingHits == 0 then b
    else b.(pendingHits := b.pendingHits - 1, state := if b.state == Dead then Dead else Chase)
  }

  /** One event, with the hit event as written or as fixed. */
  function Step(b: Brain, e: Tuning, ev: Event, fixed: bool): Brain {
    match ev
    case Frame(sc, dt) => Tick(b, e, sc, dt)
    case AnimationHit => if fixed then AnimationHitFixed(b) else AnimationHitAsWritten(b)
    case DelayedHit => DelayedHitLanded(b)
    case Killed => b.(state := Dead)
  }

  /** The events `evs`, one after the other. */
  function Run(b: Brain, e: Tuning, evs: seq<Event>, fixed: bool): Brain
    decreases |evs|
  {
    if evs == [] then b else Run(Step(b, e, evs[0], fixed), e, evs[1..], fixed)
  }

  /** As written, an enemy that hits by animation event (the default) never
      leaves Attack once it is there, whatever happens, until it dies: it
      attacks once and then stands still for good. */
  lemma {:induction false} AttackLatches(b: Brain, e: Tuning, evs: seq<Event>)
    requires e.useAnimationEvent && b.state == Attack && b.pendingHits == 0
    ensures Run(b, e, evs, false).state == Attack || Run(b, e, evs, false).state == Dead
    ensures (forall k :: 0 <= k < |evs| ==> evs[k] != Killed) ==> Run(b, e, evs, false).state == Attack
    decreases |evs|
  {
    if evs != [] {
      var next := Step(b, e, evs[0], false);
      if next.state == Dead {
        DeadStaysDead(next, e, evs[1..], false);
      } else {
        assert forall k :: 0 <= k < |evs[1..]| ==> evs[1..][k] == evs[k + 1];
        AttackLatches(next, e, evs[1..]);
      }
    }
  }

  /** Dead is final, whatever happens. */
  lemma {:induction false} DeadStaysDead(b: Brain, e: Tuning, evs: seq<Event>, fixed: bool)
    requires b.state == Dead
    ensures Run(b, e, evs, fixed).state == Dead
    decreases |evs|
  {
    if evs != [] {
      DeadStaysDead(Step(b, e, evs[0], fixed), e, evs[1..], fixed);
    }
  }

  /** With the fix, an enemy that attacks by animation event is chasing
      again right after its hit lands, as one that uses the delayed hit is. */
  lemma {:induction false} FixedHitEndsAttack(b: Brain, e: Tuning, evs: seq<Event>)
    requires e.useAnimationEvent && b.state == Attack
    requires forall k :: 0 <= k < |evs| ==> evs[k].Frame?
    ensures Run(b, e, evs + [AnimationHit], true).state == Chase
    decreases |evs|
  {
    if evs != [] {
      assert (evs + [AnimationHit])[1..] == evs[1..] + [AnimationHit];
      assert forall k :: 0 <= k < |evs[1..]| ==> evs[1..][k] == evs[k + 1];
      FixedHitEndsAttack(Step(b, e, evs[0], true), e, evs[1..]);
    }
  }

  // ---------------------------------------------------------------------
  // ApplyEnemyType

  /** Mathf.Clamp on integers: a value below `lo` gives `lo`, one above
      `hi` (and not below `lo`) gives `hi`, so when the bounds cross a value
      between them gives `hi`. */
  function Clamp(v: int, lo: int, hi: int): (r: int)
    ensures lo <= hi ==> lo <= r <= hi
    ensures lo <= v <= hi ==> r == v
    ensures v < lo ==> r == lo
    ensures lo <= v && hi < v ==> r == hi
  {
    if v < lo then lo else if v > hi then hi else v
  }

  /** The chase speed and attack damage of enemy types 1 to 5. */
  function TypeStats(enemyType: int): (r: Option<(real, int)>)
    ensures r.Some? <==> 1 <= enemyType <= 5
    ensures r.Some? ==> r.value.1 == [5, 8, 12, 16, 22][enemyType - 1]
    ensures r.Some? ==> r.value.0 == [2.5, 2.7, 3.0, 3.3, 3.6][enemyType - 1]
  {
    match enemyType
    case 1 => Some((2.5, 5))
    case 2 => Some((2.7, 8))
    case 3 => Some((3.0, 12))
    case 4 => Some((3.3, 16))
    case 5 => Some((3.6, 22))
    case _ => None
  }

  /** The entry of the hit-point table ApplyEnemyType reads: the type's own
      entry, or the nearest end of the table for a type outside it. An empty
      table has no entry to read. */
  function HpIndex(enemyType: int, count: int): (r: int)
    ensures count >= 1 ==> 0 <= r < count
    ensures 1 <= enemyType <= count ==> r == enemyType - 1
    ensures count >= 1 && enemyType < 1 ==> r == 0
    ensures count >= 1 && enemyType > count ==> r == count - 1
    ensures count <= 0 ==> r < 0 || r >= count
  {
    Clamp(enemyType - 1, 0, count - 1)
  }

  // ---------------------------------------------------------------------
  // The components

  /** Enemy: the AI of one monster. `swings` counts the melee hits it has
      dealt (DoMeleeHit itself is physics and is not modelled). */
  class Enemy {
    var state: State
    var atkTimer: real
    var target: Option<nat>
    var pendingHits: nat
    var swings: nat
    const enemyType: int
    const hpByType: seq<int>
    const visionRange: real
    const attackRange: real
    const attackCooldown: real
    const useAnimationEvent: bool
    var chaseSpeed: real
    var attackDamage: int
    const hp: EnemyHealth?

    /** A fresh enemy with the given Inspector settings, before Awake. */
    constructor (enemyType: int, hpByType: seq<int>, tuning: Tuning, target: Option<nat>, hp: EnemyHealth?)
      ensures this.enemyType == enemyType && this.hpByType == hpByType && this.hp == hp
      ensures Settings() == tuning && this.target == target
      ensures state == Idle && atkTimer == 0.0 && pendingHits == 0 && swings == 0
      ensures chaseSpeed == 3.0 && attackDamage == 10
    {
      this.enemyType := enemyType;
      this.hpByType := hpByType;
      visionRange := tuning.visionRange;
      attackRange := tuning.attackRange;
      attackCooldown := tuning.attackCooldown;
      useAnimationEvent := tuning.useAnimationEvent;
      this.target := target;
      this.hp := hp;
      state := Idle;
      atkTimer := 0.0;
      pendingHits := 0;
      swings := 0;
      chaseSpeed := 3.0;
      attackDamage := 10;
    }

    function Settings(): Tuning {
      Tuning(visionRange, attackRange, attackCooldown, useAnimationEvent)
    }

    function Snapshot(): Brain
      reads this
    {
      Brain(state, atkTimer, target, pendingHits)
    }

    /** Everything the AI keeps besides its state. */
    ghost function Memory(): (real, Option<nat>, nat, nat, real, int)
      reads this
    {
      (atkTimer, target, pendingHits, swings, chaseSpeed, attackDamage)
    }

    /** Enemy.Awake: the type's stats. */
    method Awake() returns (fault: bool)
      modifies this`chaseSpeed, this`attackDamage, hp
      ensures var s := TypeStats(enemyType);
        && chaseSpeed == (if s.Some? then s.value.0 else old(chaseSpeed))
        && attackDamage == (if s.Some? then s.value.1 else old(attackDamage))
      ensures hp == null ==> !fault
      ensures hp != null ==> (fault <==> |hpByType| == 0)
      ensures hp != null && fault ==> hp.Ledger() == old(hp.Ledger())
      ensures hp != null && !fault ==>
        && hp.maxHP == Max(1, hpByType[HpIndex(enemyType, |hpByType|)])
        && hp.currentHP == hp.maxHP
        && hp.isDead == old(hp.isDead) && hp.enemyAI == old(hp.enemyAI)
        && hp.destroyScheduled == old(hp.destroyScheduled)
    {
      fault := ApplyEnemyType();
    }

    /** Enemy.ApplyEnemyType: speed and damage from the type table, and the
        maximum hit points from `hpByType` at the clamped index; indexing an
        empty table is the fault. */
    method ApplyEnemyType() returns (fault: bool)
      modifies this`chaseSpeed, this`attackDamage, hp
      ensures var s := TypeStats(enemyType);
        && chaseSpeed == (if s.Some? then s.value.0 else old(chaseSpeed))
        && attackDamage == (if s.Some? then s.value.1 else old(attackDamage))
      ensures hp == null ==> !fault
      ensures hp != null ==> (fault <==> |hpByType| == 0)
      ensures hp != null && fault ==> hp.Ledger() == old(hp.Ledger())
      ensures hp != null && !fault ==>
        && hp.maxHP == Max(1, hpByType[HpIndex(enemyType, |hpByType|)])
        && hp.currentHP == hp.maxHP
        && hp.isDead == old(hp.isDead) && hp.enemyAI == old(hp.enemyAI)
        && hp.destroyScheduled == old(hp.destroyScheduled)
    {
      match enemyType {
        case 1 => chaseSpeed := 2.5; attackDamage := 5;
        case 2 => chaseSpeed := 2.7; attackDamage := 8;
        case 3 => chaseSpeed := 3.0; attackDamage := 12;
        case 4 => chaseSpeed := 3.3; attackDamage := 16;
        case 5 => chaseSpeed := 3.6; attackDamage := 22;
        case _ =>
      }
      if hp != null {
        var idx := Clamp(enemyType - 1, 0, |hpByType| - 1);
        if idx < 0 || idx >= |hpByType| {
          return true;
        }
        hp.SetMaxHP(hpByType[idx], true);
      }
      return false;
    }

    /** Enemy.Update for one frame of length `dt`. */
    method Update(sc: Scene, dt: real)
      modifies this`state, this`atkTimer, this`target, this`pendingHits
      ensures Snapshot() == Tick(old(Snapshot()), Settings(), sc, dt)
    {
      if state == Dead {
        return;
      }
      if atkTimer > 0.0 {
        atkTimer := atkTimer - dt;
      }
      match state {
        case Idle => LookForTarget(sc);
        case Chase => Chase(sc);
        case Attack =>
      }
    }

    /** Enemy.LookForTarget. */
    method LookForTarget(sc: Scene)
      modifies this`state, this`target
      ensures Snapshot() == Looked(old(Snapshot()), Settings(), sc)
    {
      if !Live(sc, target) || sc.distance[target.value] > visionRange {
        target := FindClosestByTag(sc);
      }
      if !Live(sc, target) {
        state := Idle;
        return;
      }
      var dist := sc.distance[target.value];
      state := if dist <= visionRange then State.Chase else Idle;
    }

    /** Enemy.Chase; the movement itself is not modelled. */
    method Chase(sc: Scene)
      requires state == State.Chase
      modifies this`state, this`atkTimer, this`pendingHits
      ensures Snapshot() == Chased(old(Snapshot()), Settings(), sc)
    {
      if !Live(sc, target) {
        state := Idle;
        return;
      }
      var dist := sc.distance[target.value];
      if dist > visionRange * 1.25 {
        state := Idle;
        return;
      }
      if dist <= attackRange && atkTimer <= 0.0 {
        StartAttack();
        return;
      }
    }

    /** Enemy.StartAttack; starting the coroutine is counted in
        `pendingHits`. */
    method StartAttack()
      modifies this`state, this`atkTimer, this`pendingHits
      ensures Snapshot() == Started(old(Snapshot()), Settings())
    {
      state := Attack;
      atkTimer := attackCooldown;
      if !useAnimationEvent {
        pendingHits := pendingHits + 1;
      }
    }

    /** Enemy.AttackHitAfter, from the end of its delay: the coroutine deals
        the hit and puts a living enemy back into Chase. */
    method AttackHitAfter()
      requires pendingHits > 0
      modifies this`state, this`pendingHits, this`swings
      ensures Snapshot() == DelayedHitLanded(old(Snapshot()))
      ensures swings == old(swings) + 1
    {
      pendingHits := pendingHits - 1;
      swings := swings + 1;
      if state != Dead {
        state := State.Chase;
      }
    }

    /** Enemy.AnimationAttackHit: a living enemy deals the hit; no state
        changes. */
    method AnimationAttackHit()
      modifies this`swings
      ensures Snapshot() == AnimationHitAsWritten(old(Snapshot()))
      ensures swings == if state == Dead then old(swings) else old(swings) + 1
    {
      if state == Dead {
        return;
      }
      swings := swings + 1;
    }

    /** Enemy.SetDeadState. */
    method SetDeadState()
      modifies this`state
      ensures state == Dead
    {
      state := Dead;
    }

    /** Enemy.FindClosestByTag: the closest tagged object other than the
        enemy itself, or None. */
    method FindClosestByTag(sc: Scene) returns (best: Option<nat>)
      ensures best == Closest(sc)
    {
      var objs := sc.tagged;
      var at: Option<nat> := None;
      var bestDist: Option<real> := None;
      for i := 0 to |objs|
        invariant at == Nearest(sc, i)
        invariant at.None? <==> bestDist.None?
        invariant at.Some? ==> bestDist == Some(objs[at.value].dist)
      {
        if objs[i].isSelf {
          continue;
        }
        var d := objs[i].dist;
        if bestDist.None? || d < bestDist.value {
          bestDist := Some(d);
          at := Some(i);
        }
      }
      best := if at.None? then None else Some(objs[at.value].id);
    }
  }

  /** EnemyHealth: the hit points of one monster. `destroyScheduled` records
      the Destroy call Die makes. */
  class EnemyHealth {
    var maxHP: int
    var currentHP: int
    var isDead: bool
    var enemyAI: Enemy?
    const destroyOnDeath: bool
    var destroyScheduled: bool

    /** The maximum is at least one, the hit points never exceed it, and
        only a dead enemy has negative hit points. */
    ghost predicate Valid()
      reads this
    {
      1 <= maxHP && currentHP <= maxHP && (!isDead ==> 0 <= currentHP)
    }

    /** Everything the component holds. */
    ghost function Ledger(): (int, int, bool, Enemy?, bool)
      reads this
    {
      (maxHP, currentHP, isDead, enemyAI, destroyScheduled)
    }

    /** A fresh component: the maximum of 50, and Unity's zero for the
        hit points until Start. */
    constructor (destroyOnDeath: bool)
      ensures Valid()
      ensures maxHP == 50 && currentHP == 0 && !isDead && enemyAI == null
      ensures this.destroyOnDeath == destroyOnDeath && !destroyScheduled
    {
      maxHP := 50;
      currentHP := 0;
      isDead := false;
      enemyAI := null;
      this.destroyOnDeath := destroyOnDeath;
      destroyScheduled := false;
    }

    /** EnemyHealth.Awake: finds the AI beside it. */
    method Awake(ai: Enemy?)
      modifies this`enemyAI
      ensures enemyAI == ai
    {
      enemyAI := ai;
    }

    /** EnemyHealth.Start. */
    method Start()
      requires Valid()
      modifies this`currentHP, this`isDead
      ensures Valid()
      ensures currentHP == Max(1, maxHP) && !isDead
    {
      currentHP := Max(1, maxHP);
      isDead := false;
    }

    /** EnemyHealth.SetMaxHP. */
    method SetMaxHP(newMax: int, fill: bool)
      modifies this`maxHP, this`currentHP
      ensures maxHP == Max(1, newMax)
      ensures currentHP == if fill then maxHP else Clamp(old(currentHP), 0, maxHP)
      ensures 0 <= currentHP <= maxHP
    {
      maxHP := Max(1, newMax);
      currentHP := if fill then maxHP else Clamp(currentHP, 0, maxHP);
    }

    /** EnemyHealth.TakeDamage: a dead enemy or a harmless hit changes
        nothing; otherwise the hit points drop by the full amount, below zero
        if need be, and the enemy dies when they reach zero. The knock-back
        and the hurt animation are not modelled. */
    method TakeDamage(amount: int)
      requires Valid()
      modifies this`currentHP, this`isDead, this`destroyScheduled, enemyAI
      ensures Valid()
      ensures old(isDead) || amount <= 0 ==>
        currentHP == old(currentHP) && isDead == old(isDead) && destroyScheduled == old(destroyScheduled)
      ensures !old(isDead) && amount > 0 ==>
        && currentHP == old(currentHP) - amount
        && (isDead <==> currentHP <= 0)
        && destroyScheduled == ((isDead && destroyOnDeath) || old(destroyScheduled))
        && (isDead && enemyAI != null ==> enemyAI.state == Dead)
      ensures enemyAI != null && !(!old(isDead) && amount > 0 && currentHP <= 0) ==>
        enemyAI.state == old(enemyAI.state)
      ensures enemyAI != null ==> enemyAI.Memory() == old(enemyAI.Memory())
    {
      if isDead {
        return;
      }
      var dmg := Max(0, amount);
      if dmg <= 0 {
        return;
      }
      currentHP := currentHP - dmg;
      if currentHP <= 0 {
        Die();
      }
    }

    /** EnemyHealth.Die: runs once, telling the AI and scheduling the
        object's destruction if so configured. */
    method Die()
      modifies this`isDead, this`destroyScheduled, enemyAI
      ensures isDead
      ensures old(isDead) ==> destroyScheduled == old(destroyScheduled)
      ensures old(isDead) && enemyAI != null ==> enemyAI.state == old(enemyAI.state)
      ensures !old(isDead) ==> destroyScheduled == (destroyOnDeath || old(destroyScheduled))
      ensures !old(isDead) && enemyAI != null ==> enemyAI.state == Dead
      ensures enemyAI != null ==> enemyAI.Memory() == old(enemyAI.Memory())
    {
      if isDead {
        return;
      }
      isDead := true;
      if enemyAI != null {
        enemyAI.SetDeadState();
      }
      if destroyOnDeath {
        destroyScheduled := true;
      }
    }

    /** EnemyHealth.GetCurrentHP. */
    function GetCurrentHP(): (r: int)
      reads this
      ensures r == currentHP
    {
      currentHP
    }

    /** EnemyHealth.Heal: a living enemy gains the non-negative part of
        `amount`, up to its maximum; a heal never lowers the hit points. */
    method Heal(amount: int)
      requires Valid()
      modifies this`currentHP
      ensures Valid()
      ensures isDead ==> currentHP == old(currentHP)
      ensures !isDead ==> currentHP == Clamp(old(currentHP) + Max(0, amount), 0, maxHP)
      ensures old(currentHP) <= currentHP <= maxHP
    {
      if isDead {
        return;
      }
      currentHP := Clamp(currentHP + Max(0, amount), 0, maxHP);
    }
  }
}
