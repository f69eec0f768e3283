/** GameManager: the days survived, and the achievements they unlock. The
    static `GameManager.Instance` is the field of a Registry object passed
    in. */
module Progress {
  import opened Achievements

  /** Where the single GameManager is registered. */
  class Registry {
    var instance: GameManager?

    constructor ()
      ensures instance == null
    {
      instance := null;
    }
  }

  /** The titles and thresholds of the achievements Awake creates. */
  const Seeded: seq<(string, int)> :=
    [("Survive 3 Days", 3), ("Survive 5 Days", 5), ("Survive 10 Days", 10)]

  /** Whether an achievement with threshold `required` is unlocked after a
      new day `day`, given whether it was unlocked before. */
  predicate UnlockedAfter(was: bool, required: int, day: int) {
    was || day >= required
  }

  class GameManager {
    var daysSurvived: int
    var achievements: seq<Achievement>

    /** A fresh manager: day one, no achievements yet. */
    constructor ()
      ensures daysSurvived == 1 && achievements == []
    {
      daysSurvived := 1;
      achievements := [];
    }

    /** GameManager.Awake: a second manager is discarded (`discarded`, the
        Destroy call) and changes nothing; the first registers itself and
        adds the three day-count achievements, in order, locked. */
    method Awake(registry: Registry) returns (discarded: bool)
      modifies registry`instance, this`achievements
      ensures discarded <==> old(registry.instance) != null && old(registry.instance) != this
      ensures discarded ==> registry.instance == old(registry.instance) && achievements == old(achievements)
      ensures !discarded ==>
        && registry.instance == this
        && |achievements| == |old(achievements)| + |Seeded|
        && achievements[..|old(achievements)|] == old(achievements)
        && forall k :: 0 <= k < |Seeded| ==>
             var a := achievements[|old(achievements)| + k];
             fresh(a) && a.title == Seeded[k].0 && a.daysRequired == Seeded[k].1 && !a.isUnlocked
    {
      if registry.instance != null && registry.instance != this {
        return true;
      }
      registry.instance := this;
      var a3 := new Achievement("Survive 3 Days", 3);
      var a5 := new Achievement("Survive 5 Days", 5);
      var a10 := new Achievement("Survive 10 Days", 10);
      achievements := achievements + [a3, a5, a10];
      return false;
    }

    /** GameManager.OnNewDay: records the day and unlocks every achievement
        whose threshold it reaches; none is ever locked again, and titles
        and thresholds stay. */
    method OnNewDay(currentDay: int)
      modifies this`daysSurvived, set k | 0 <= k < |achievements| :: achievements[k]
      ensures daysSurvived == currentDay && achievements == old(achievements)
      ensures forall k :: 0 <= k < |achievements| ==>
        achievements[k].isUnlocked == UnlockedAfter(old(achievements[k].isUnlocked), achievements[k].daysRequired, currentDay)
      ensures forall k :: 0 <= k < |achievements| ==>
        achievements[k].title == old(achievements[k].title) && achievements[k].daysRequired == old(achievements[k].daysRequired)
    {
      daysSurvived := currentDay;
      for i := 0 to |achievements|
        modifies set k | 0 <= k < |achievements| :: achievements[k]
        invariant forall k :: 0 <= k < i ==>
          achievements[k].isUnlocked == UnlockedAfter(old(achievements[k].isUnlocked), achievements[k].daysRequired, currentDay)
        invariant forall k :: i <= k < |achievements| ==>
          achievements[k].isUnlocked == old(achievements[k].isUnlocked)
            || exists j :: 0 <= j < i && achievements[j] == achievements[k]
        invariant forall k :: 0 <= k < |achievements| ==>
          achievements[k].title == old(achievements[k].title) && achievements[k].daysRequired == old(achievements[k].daysRequired)
      {
        var a := achievements[i];
        if !a.isUnlocked && currentDay >= a.daysRequired {
          a.Unlock();
        }
      }
    }
  }
}
