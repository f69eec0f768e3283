/** Achievement: a day-count milestone that, once reached, stays unlocked. */
module Achievements {

  class Achievement {
    var title: string
    var daysRequired: int
    var isUnlocked: bool

    /** A new achievement starts locked. */
    constructor (title: string, daysRequired: int)
      ensures this.title == title && this.daysRequired == daysRequired && !isUnlocked
    {
      this.title := title;
      this.daysRequired := daysRequired;
      isUnlocked := false;
    }

    /** Achievement.Unlock: unlocked whatever it was before, so unlocking
        twice is unlocking once; title and threshold stay. */
    method Unlock()
      modifies this`isUnlocked
      ensures isUnlocked
    {
      isUnlocked := true;
    }
  }
}
