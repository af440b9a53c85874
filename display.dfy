/** The statistics record the Home screen keeps and the two decisions it
    takes on it: the colour flag `isHighPercent` and the text of the
    highlight title. */
module Display {

  /** A JavaScript number as far as `percentage` needs it: the quotient of
      two counts times 100 is NaN (0/0), Infinity (positive/0), or the exact
      value `100 * numerator / denominator` with a positive denominator. */
  datatype Number = NaN | PosInf | Fraction(numerator: nat, denominator: nat)

  /** The statistics record handed to `setStats` and to the statistics screen. */
  datatype Stats = Stats(
    percentage: Number,
    betterSequence: nat,
    allMealsCount: nat,
    healthyMeals: nat,
    notHealthyMeals: nat)

  /** What the highlight title shows: "-", "0%" or the formatted percentage. */
  datatype Label = Dash | ZeroPercent | Percent(value: Number)

  /** `(healthyMeals / allMealsCount) * 100` with JavaScript division:
      0/0 is NaN, a positive number over 0 is Infinity, anything else is
      finite. */
  function Percentage(healthy: nat, total: nat): (p: Number)
    ensures p.NaN? <==> healthy == 0 && total == 0
    ensures p.PosInf? <==> healthy > 0 && total == 0
    ensures p.Fraction? ==> p.denominator > 0 && p.numerator * total == healthy * p.denominator
  {
    if total == 0 then (if healthy == 0 then NaN else PosInf)
    else Fraction(healthy, total)
  }

  /** The real value of a finite percentage. */
  function PercentValue(p: Number): real
    requires p.Fraction? && p.denominator > 0
  {
    (p.numerator as real / p.denominator as real) * 100.0
  }

  /** A record as the aggregation produces it: the counts add up, the best
      streak is within the count, and the percentage is the one computed
      from the counts. */
  predicate WellFormed(s: Stats)
  {
    && s.healthyMeals + s.notHealthyMeals == s.allMealsCount
    && s.betterSequence <= s.allMealsCount
    && s.percentage == Percentage(s.healthyMeals, s.allMealsCount)
  }

  /** JavaScript truthiness of a number: NaN and 0 are falsy. */
  predicate Truthy(n: Number): (b: bool)
    ensures n.NaN? ==> !b
    ensures n.Fraction? && n.denominator > 0 ==> (b <==> PercentValue(n) != 0.0)
  {
    match n
    case NaN => false
    case PosInf => true
    case Fraction(num, _) => num != 0
  }

  /** `percentage >= 50` on a finite percentage, cross-multiplied. */
  predicate AtLeastFifty(num: nat, den: nat): (b: bool)
    ensures den > 0 ==> (b <==> (num as real / den as real) * 100.0 >= 50.0)
  {
    100 * num >= 50 * den
  }

  /** `stats.percentage >= 50 || isNaN(stats.percentage)`: on a record the
      aggregation produced it holds exactly when there are no meals or at
      least half of them are healthy. */
  function IsHighPercent(s: Stats): (high: bool)
    ensures WellFormed(s) ==>
      (high <==> s.allMealsCount == 0 || 2 * s.healthyMeals >= s.allMealsCount)
  {
    match s.percentage
    case NaN => true
    case PosInf => true
    case Fraction(num, den) => AtLeastFifty(num, den)
  }

  /** The title of the highlight: a truthy percentage is shown as a number,
      otherwise "0%" when there are meals and "-" when there are none. On a
      record the aggregation produced the choice depends only on the counts. */
  function HighlightTitle(s: Stats): (l: Label)
    ensures WellFormed(s) ==> (l == Dash <==> s.allMealsCount == 0)
    ensures WellFormed(s) ==> (l == ZeroPercent <==> s.allMealsCount > 0 && s.healthyMeals == 0)
    ensures WellFormed(s) ==> (l.Percent? <==> s.healthyMeals > 0)
    ensures l.Percent? ==> l.value == s.percentage
  {
    if Truthy(s.percentage) then Percent(s.percentage)
    else if s.allMealsCount > 0 then ZeroPercent
    else Dash
  }
}
