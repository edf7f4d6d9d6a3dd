module Wrappers {
  datatype Option<T> = None | Some(value: T)
}

/** The entries of a scoreboard: `Combination`, whose score is locked once by
    `set_score`, and `Bonus`, whose score is recomputed from the six upper
    entries every time it is asked for. */
module Combinations {
  import opened Wrappers
  import opened Rules

  /** The `AlreadyScored` exception. */
  datatype Error = AlreadyScored

  /** How a call to `set_score` ends: it returns, or it raises. */
  datatype Outcome = Done | Raised(error: Error)

  /** `locked_score or 0`: the points an entry counts with. */
  function Points(locked: Option<int>): (p: int)
    ensures locked.None? ==> p == 0
    ensures locked.Some? ==> p == locked.value
  {
    match locked
    case None => 0
    case Some(v) => v
  }

  /** `Combination.calculate_score` for the lock state `locked`. */
  function Calculate(locked: Option<int>, rule: Rule, dice: seq<Die>): (p: int)
    ensures locked.Some? ==> p == Points(locked)
    ensures locked.None? ==> p == Rules.Score(rule, dice)
  {
    if locked.Some? then locked.value else Rules.Score(rule, dice)
  }

  /** A named scoring rule with a one-shot lock. */
  class Combination {
    const name: string
    const rule: Rule
    var locked: Option<int>

    constructor (name: string, rule: Rule)
      ensures this.name == name && this.rule == rule && locked == None
    {
      this.name := name;
      this.rule := rule;
      locked := None;
    }

    /** `score`: the locked score, 0 while unlocked. */
    function Score(): (p: int)
      reads this
      ensures locked == None ==> p == 0
      ensures locked.Some? ==> p == locked.value
    {
      Points(locked)
    }

    /** `score_or_none` */
    function ScoreOrNone(): (r: Option<int>)
      reads this
      ensures r.None? <==> locked.None?
      ensures r.Some? ==> r.value == Score()
    {
      locked
    }

    /** `calculate_score`: the locked score if there is one, else the rule's
        score for `dice`. */
    function CalculateScore(dice: seq<Die>): (p: int)
      reads this
      ensures locked.Some? ==> p == locked.value
      ensures locked.None? ==> p == Rules.Score(rule, dice)
    {
      Calculate(locked, rule, dice)
    }

    /** `set_score`: lock the rule's score for `dice`, or raise `AlreadyScored`
        and change nothing when a score is already locked. */
    method SetScore(dice: seq<Die>) returns (outcome: Outcome)
      modifies this
      ensures old(locked).Some? ==> outcome == Raised(AlreadyScored) && locked == old(locked)
      ensures old(locked).None? ==> outcome == Done && locked == Some(Rules.Score(rule, dice))
      ensures outcome == Done ==> forall e :: CalculateScore(e) == Rules.Score(rule, dice)
    {
      if locked.Some? {
        return Raised(AlreadyScored);
      }
      locked := Some(Rules.Score(rule, dice));
      outcome := Done;
    }
  }

  /** Python's `sum` over a list of scores. */
  function SumOf(xs: seq<int>): int {
    if xs == [] then 0 else xs[0] + SumOf(xs[1..])
  }

  const BonusThreshold := 63
  const BonusPoints := 50

  /** `Bonus.calculate_score`: `upper` holds the `score()` of the first six
      entries of the scoreboard; the dice play no part. */
  function BonusScore(upper: seq<int>): (p: int)
    ensures p == 50 <==> SumOf(upper) >= 63
    ensures p == 0 <==> SumOf(upper) < 63
  {
    if SumOf(upper) >= BonusThreshold then BonusPoints else 0
  }

  /** `Bonus.score_or_none`: the bonus always has a score, so it never counts
      as unscored. */
  function BonusScoreOrNone(upper: seq<int>): (r: Option<int>)
    ensures r.Some? && r.value == BonusScore(upper)
  {
    Some(BonusScore(upper))
  }

  /** `Bonus.set_score`: does nothing and never raises. */
  method BonusSetScore(ignored: seq<Die>) returns (outcome: Outcome)
    ensures outcome == Done
  {
    outcome := Done;
  }

  /** An element of the scoreboard's list: a `Combination`, or the `Bonus`
      (whose reference to the scoreboard is replaced by passing the upper
      scores to `BonusScore`). */
  datatype Entry = Plain(c: Combination) | Bonus(name: string)
}
