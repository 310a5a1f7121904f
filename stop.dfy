/** The interview's stop rule and the configured question budgets. */
module Stop {

  /** Default budgets: at least three questions before an early stop, at most
      six in all, at most two per domain. */
  const MinQuestions: int := 3
  const MaxQuestions: int := 6
  const MaxDomainQuestions: int := 2

  /** should_stop: the hard ceiling first, then the soft floor once nothing is
      missing. */
  function ShouldStop(asked: int, missing: int, minQuestions: int, maxQuestions: int): (r: bool)
    ensures asked >= maxQuestions ==> r
    ensures asked >= minQuestions && missing == 0 ==> r
    ensures r ==> asked >= maxQuestions || (asked >= minQuestions && missing == 0)
  {
    if asked >= maxQuestions then true
    else if asked >= minQuestions && missing == 0 then true
    else false
  }

  /** Below both the floor and the ceiling the interview goes on, whatever is
      still missing. */
  lemma BelowFloorContinues(asked: int, missing: int, minQuestions: int, maxQuestions: int)
    requires asked < minQuestions && asked < maxQuestions
    ensures !ShouldStop(asked, missing, minQuestions, maxQuestions)
  {
  }

  /** Asking one more question never undoes a stop. */
  lemma StopMonotone(asked: int, missing: int, minQuestions: int, maxQuestions: int)
    requires ShouldStop(asked, missing, minQuestions, maxQuestions)
    ensures ShouldStop(asked + 1, missing, minQuestions, maxQuestions)
  {
  }

  /** With the default budgets, six questions stop the interview with any number
      of slots still missing, and two questions never do. */
  lemma DefaultBudgets(missing: int)
    ensures ShouldStop(6, missing, MinQuestions, MaxQuestions)
    ensures !ShouldStop(2, missing, MinQuestions, MaxQuestions)
    ensures ShouldStop(3, 0, MinQuestions, MaxQuestions)
  {
  }
}
