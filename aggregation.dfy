/** `handleStats` of the Home screen: flatten the day groups into one list
    of meals, then walk that list once while keeping five counters, and
    build the statistics record from them.

    The walk is modelled exactly as written, including the two conditional
    updates of the streak: each is guarded by the value its count had
    BEFORE being incremented, so the streak moves only when that count was
    already non-zero. */
module Aggregation {
  import opened Meals
  import opened Display

  /** The five counters of the loop. */
  datatype Counters = Counters(
    allMealsCount: nat,
    healthyMeals: nat,
    notHealthyMeals: nat,
    sequence: nat,
    betterSequence: nat)

  /** All counters start at zero. */
  const Initial := Counters(0, 0, 0, 0, 0)

  /** One iteration of the counting loop on `meal`. */
  function Step(c: Counters, meal: Meal): (r: Counters)
    ensures r.allMealsCount == c.allMealsCount + 1
    ensures r.healthyMeals == c.healthyMeals + (if meal.isHealthy then 1 else 0)
    ensures r.notHealthyMeals == c.notHealthyMeals + (if meal.isHealthy then 0 else 1)
    ensures r.sequence <= c.sequence + 1
    ensures c.betterSequence <= r.betterSequence && r.sequence <= r.betterSequence
  {
    var healthy := if meal.isHealthy then c.healthyMeals + 1 else c.healthyMeals;
    var notHealthy := if meal.isHealthy then c.notHealthyMeals else c.notHealthyMeals + 1;
    var sequence :=
      if meal.isHealthy then (if c.healthyMeals != 0 then c.sequence + 1 else c.sequence)
      else (if c.notHealthyMeals != 0 then 0 else c.sequence);
    var better := if sequence > c.betterSequence then sequence else c.betterSequence;
    Counters(c.allMealsCount + 1, healthy, notHealthy, sequence, better)
  }

  /** The counters after the loop has visited every meal of `meals` in order. */
  function Run(meals: seq<Meal>): (r: Counters)
    ensures r.allMealsCount == |meals|
    ensures r.healthyMeals + r.notHealthyMeals == |meals|
    ensures r.sequence <= r.betterSequence
    decreases |meals|
  {
    if meals == [] then Initial else Step(Run(meals[..|meals| - 1]), meals[|meals| - 1])
  }

  /** The record passed to `setStats`. */
  function Summarize(c: Counters): (s: Stats)
    ensures c.healthyMeals + c.notHealthyMeals == c.allMealsCount && c.betterSequence <= c.allMealsCount
      ==> WellFormed(s)
    ensures s.allMealsCount == 0 ==> s.percentage.NaN? || s.percentage.PosInf?
  {
    Stats(Percentage(c.healthyMeals, c.allMealsCount), c.betterSequence,
          c.allMealsCount, c.healthyMeals, c.notHealthyMeals)
  }

  /** The largest value the streak counters can reach with `healthy` healthy
      meals: the first healthy meal never advances `sequence`. */
  function StreakCap(healthy: nat): nat
  {
    if healthy == 0 then 0 else healthy - 1
  }

  /** The first part of `handleStats`: append every day's meals to one
      list, days in order, each day's meals in order. */
  method CollectMeals(data: seq<Day>) returns (allMeals: seq<Meal>)
    ensures allMeals == Flatten(data)
    ensures |allMeals| == TotalMeals(data)
  {
    allMeals := [];
    var i := 0;
    while i < |data|
      invariant 0 <= i <= |data|
      invariant allMeals == Flatten(data[..i])
    {
      var meals := data[i].data;
      var j := 0;
      while j < |meals|
        invariant 0 <= j <= |meals|
        invariant allMeals == Flatten(data[..i]) + meals[..j]
      {
        allMeals := allMeals + [meals[j]];
        j := j + 1;
        assert meals[..j] == meals[..j - 1] + [meals[j - 1]];
      }
      assert meals[..j] == meals;
      assert data[..i + 1][..i] == data[..i];
      i := i + 1;
    }
    assert data[..i] == data;
    FlattenLength(data);
  }

  /** The second part of `handleStats`: walk the meals once, keeping the
      five counters. */
  method CountMeals(allMeals: seq<Meal>) returns (counters: Counters)
    ensures counters == Run(allMeals)
    ensures counters.allMealsCount == |allMeals|
    ensures counters.healthyMeals == CountHealthy(allMeals)
    ensures counters.betterSequence <= StreakCap(counters.healthyMeals)
  {
    var allMealsCount: nat := 0;
    var healthyMeals: nat := 0;
    var notHealthyMeals: nat := 0;
    var sequence: nat := 0;
    var betterSequence: nat := 0;

    var k := 0;
    while k < |allMeals|
      invariant 0 <= k <= |allMeals|
      invariant Counters(allMealsCount, healthyMeals, notHealthyMeals, sequence, betterSequence)
                == Run(allMeals[..k])
    {
      var meal := allMeals[k];
      allMealsCount := allMealsCount + 1;
      if meal.isHealthy {
        // Count the meal; advance the streak only if a healthy meal was counted before.
        var before := healthyMeals;
        healthyMeals := healthyMeals + 1;
        if before != 0 {
          sequence := sequence + 1;
        }
      } else {
        // Count the meal; reset the streak only if an unhealthy meal was counted before.
        var before := notHealthyMeals;
        notHealthyMeals := notHealthyMeals + 1;
        if before != 0 {
          sequence := 0;
        }
      }
      if sequence > betterSequence {
        betterSequence := sequence;
      }
      k := k + 1;
      assert allMeals[..k][..k - 1] == allMeals[..k - 1];
    }
    assert allMeals[..k] == allMeals;
    counters := Counters(allMealsCount, healthyMeals, notHealthyMeals, sequence, betterSequence);
    RunCounts(allMeals);
    RunStreakBounds(allMeals);
  }

  /** `handleStats(data)`, returning the record instead of calling `setStats`. */
  method HandleStats(data: seq<Day>) returns (stats: Stats)
    ensures stats == Summarize(Run(Flatten(data)))
    ensures stats.allMealsCount == TotalMeals(data)
    ensures stats.healthyMeals == CountHealthy(Flatten(data))
    ensures stats.healthyMeals + stats.notHealthyMeals == stats.allMealsCount
    ensures stats.betterSequence <= StreakCap(stats.healthyMeals)
    ensures WellFormed(stats)
  {
    var allMeals := CollectMeals(data);
    var c := CountMeals(allMeals);
    stats := Stats(Percentage(c.healthyMeals, c.allMealsCount), c.betterSequence,
                   c.allMealsCount, c.healthyMeals, c.notHealthyMeals);
    assert stats == Summarize(c);
    SummarizeWellFormed(allMeals);
  }

  /** Every meal is counted once, as healthy or as not healthy, and the
      healthy count is the number of meals flagged healthy. */
  lemma {:induction false} RunCounts(meals: seq<Meal>)
    ensures Run(meals).allMealsCount == |meals|
    ensures Run(meals).healthyMeals == CountHealthy(meals)
    ensures Run(meals).healthyMeals + Run(meals).notHealthyMeals == Run(meals).allMealsCount
    decreases |meals|
  {
    if meals != [] {
      RunCounts(meals[..|meals| - 1]);
    }
  }

  /** After every iteration the best streak is at least the current one,
      and neither exceeds one less than the number of healthy meals. */
  lemma {:induction false} RunStreakBounds(meals: seq<Meal>)
    ensures Run(meals).sequence <= Run(meals).betterSequence
    ensures Run(meals).betterSequence <= StreakCap(Run(meals).healthyMeals)
    ensures Run(meals).betterSequence <= Run(meals).allMealsCount
    decreases |meals|
  {
    if meals != [] {
      RunStreakBounds(meals[..|meals| - 1]);
      RunCounts(meals);
      RunCounts(meals[..|meals| - 1]);
    }
  }

  /** The best streak never decreases as more meals are visited. */
  lemma {:induction false} BestStreakGrows(meals: seq<Meal>, more: seq<Meal>)
    ensures Run(meals).betterSequence <= Run(meals + more).betterSequence
    decreases |more|
  {
    if more == [] {
      assert meals + more == meals;
    } else {
      var n := |more| - 1;
      assert (meals + more)[..|meals + more| - 1] == meals + more[..n];
      BestStreakGrows(meals, more[..n]);
    }
  }

  /** The short-circuit semantics, stated over the meals visited so far:
      a healthy meal advances the streak only if a healthy meal was seen
      before it, and an unhealthy meal resets the streak only if an
      unhealthy meal was seen before it; otherwise the streak is kept. */
  lemma {:induction false} ShortCircuitStep(meals: seq<Meal>, meal: Meal)
    ensures Run(meals + [meal]).sequence ==
      if meal.isHealthy then
        (if CountHealthy(meals) > 0 then Run(meals).sequence + 1 else Run(meals).sequence)
      else
        (if CountHealthy(meals) < |meals| then 0 else Run(meals).sequence)
    ensures Run(meals + [meal]).betterSequence ==
      if Run(meals + [meal]).sequence > Run(meals).betterSequence
      then Run(meals + [meal]).sequence else Run(meals).betterSequence
  {
    assert (meals + [meal])[..|meals|] == meals;
    RunCounts(meals);
  }

  /** A list of N >= 1 healthy meals yields a best streak of N - 1: the first
      healthy meal never starts a streak. */
  lemma {:induction false} AllHealthyStreak(meals: seq<Meal>)
    requires |meals| >= 1
    requires forall i :: 0 <= i < |meals| ==> meals[i].isHealthy
    ensures Run(meals).sequence == |meals| - 1
    ensures Run(meals).betterSequence == |meals| - 1
    decreases |meals|
  {
    var n := |meals| - 1;
    if n > 0 {
      AllHealthyStreak(meals[..n]);
      RunCounts(meals[..n]);
      CountHealthyBound(meals[..n]);
    }
  }

  /** Without any meal (no days, or only days with empty lists) every count
      and the best streak are zero and the percentage is NaN. */
  lemma {:induction false} NoMealsStats(data: seq<Day>)
    requires forall i :: 0 <= i < |data| ==> data[i].data == []
    ensures Summarize(Run(Flatten(data))) == Stats(NaN, 0, 0, 0, 0)
  {
    FlattenOfEmptyDays(data);
  }

  /** The record produced from any list of meals is well formed. */
  lemma {:induction false} SummarizeWellFormed(meals: seq<Meal>)
    ensures WellFormed(Summarize(Run(meals)))
    ensures Summarize(Run(meals)).allMealsCount == |meals|
    ensures Summarize(Run(meals)).healthyMeals == CountHealthy(meals)
  {
    RunCounts(meals);
    RunStreakBounds(meals);
  }

  /** Hence the title and colour decisions on it depend only on the counts:
      "-" exactly when there are no meals, and the high-percentage colour
      exactly when at least half of the meals are healthy. */
  lemma {:induction false} DisplayOfMeals(meals: seq<Meal>)
    ensures HighlightTitle(Summarize(Run(meals))) == Dash <==> meals == []
    ensures IsHighPercent(Summarize(Run(meals))) <==> 2 * CountHealthy(meals) >= |meals|
  {
    var s := Summarize(Run(meals));
    SummarizeWellFormed(meals);
    var title, high := HighlightTitle(s), IsHighPercent(s);
    assert high <==> s.allMealsCount == 0 || 2 * s.healthyMeals >= s.allMealsCount;
  }
}
