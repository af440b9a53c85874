/** The streak the statistics are meant to report, the longest run of
    consecutive healthy meals, as an independent reference, and how the
    counters of `handleStats` as written relate to it.

    The intended loop advances the current streak on every healthy meal
    and resets it on every unhealthy one. The written loop skips the
    advance on the first healthy meal and the reset on the first unhealthy
    meal (see module Aggregation). */
module Streak {
  import opened Meals
  import opened Display
  import opened Aggregation

  /** One iteration with unconditional advance and reset. */
  function IntendedStep(c: Counters, meal: Meal): (r: Counters)
    ensures r.allMealsCount == c.allMealsCount + 1
    ensures r.sequence > 0 <==> meal.isHealthy
    ensures c.betterSequence <= r.betterSequence && r.sequence <= r.betterSequence
  {
    var sequence := if meal.isHealthy then c.sequence + 1 else 0;
    Counters(
      c.allMealsCount + 1,
      if meal.isHealthy then c.healthyMeals + 1 else c.healthyMeals,
      if meal.isHealthy then c.notHealthyMeals else c.notHealthyMeals + 1,
      sequence,
      if sequence > c.betterSequence then sequence else c.betterSequence)
  }

  /** The intended counters after visiting `meals` in order. */
  function IntendedRun(meals: seq<Meal>): (r: Counters)
    ensures r.allMealsCount == |meals|
    ensures r.sequence <= r.betterSequence <= |meals|
    decreases |meals|
  {
    if meals == [] then Initial
    else IntendedStep(IntendedRun(meals[..|meals| - 1]), meals[|meals| - 1])
  }

  /** meals[i..j] is a run of consecutive healthy meals. */
  ghost predicate HealthySegment(meals: seq<Meal>, i: int, j: int)
  {
    0 <= i <= j <= |meals| && forall k :: i <= k < j ==> meals[k].isHealthy
  }

  /** The intended current streak is the run of healthy meals that ends the
      list: those meals are healthy and the one before them, if any, is not. */
  lemma {:induction false} IntendedStreakIsHealthySuffix(meals: seq<Meal>)
    ensures IntendedRun(meals).sequence <= |meals|
    ensures HealthySegment(meals, |meals| - IntendedRun(meals).sequence, |meals|)
    ensures IntendedRun(meals).sequence < |meals| ==>
      !meals[|meals| - IntendedRun(meals).sequence - 1].isHealthy
    decreases |meals|
  {
    if meals != [] {
      var n := |meals| - 1;
      var prefix, meal := meals[..n], meals[n];
      IntendedStreakIsHealthySuffix(prefix);
      var c := IntendedRun(prefix);
      assert IntendedRun(meals) == IntendedStep(c, meal);
      if meal.isHealthy {
        assert forall k :: n - c.sequence <= k < n ==> prefix[k] == meals[k];
      }
    }
  }

  /** The intended best streak is exactly the length of the longest run of
      consecutive healthy meals: every run is at most that long and some
      run reaches it. The current streak is the healthy run that ends the
      list. */
  lemma {:induction false} IntendedRunIsLongestStreak(meals: seq<Meal>)
    ensures IntendedRun(meals).sequence <= |meals|
    ensures HealthySegment(meals, |meals| - IntendedRun(meals).sequence, |meals|)
    ensures IntendedRun(meals).sequence < |meals| ==>
      !meals[|meals| - IntendedRun(meals).sequence - 1].isHealthy
    ensures forall i, j :: HealthySegment(meals, i, j) ==> j - i <= IntendedRun(meals).betterSequence
    ensures exists i, j :: HealthySegment(meals, i, j) && j - i == IntendedRun(meals).betterSequence
    decreases |meals|
  {
    IntendedStreakIsHealthySuffix(meals);
    if meals == [] {
      assert HealthySegment(meals, 0, 0);
    } else {
      var n := |meals| - 1;
      var prefix, meal := meals[..n], meals[n];
      IntendedRunIsLongestStreak(prefix);
      var c, d := IntendedRun(prefix), IntendedRun(meals);
      assert d == IntendedStep(c, meal);
      forall i, j | HealthySegment(meals, i, j)
        ensures j - i <= d.betterSequence
      {
        if j <= n {
          // A run that ends inside the prefix is a run of the prefix.
          assert HealthySegment(prefix, i, j) by {
            assert forall k :: i <= k < j ==> prefix[k] == meals[k];
          }
        }
        // A run that ends with the new meal cannot reach back past the
        // unhealthy meal before the prefix's streak.
      }
      var bi, bj :| HealthySegment(prefix, bi, bj) && bj - bi == c.betterSequence;
      assert HealthySegment(meals, bi, bj) by {
        assert forall k :: bi <= k < bj ==> prefix[k] == meals[k];
      }
      if meal.isHealthy {
        assert HealthySegment(meals, n - c.sequence, n + 1) by {
          assert forall k :: n - c.sequence <= k < n ==> prefix[k] == meals[k];
        }
      } else {
        assert HealthySegment(meals, n + 1, n + 1);
      }
    }
  }

  /** Both loops count the meals the same way; only the streaks differ. */
  lemma {:induction false} SameCounts(meals: seq<Meal>)
    ensures IntendedRun(meals).allMealsCount == Run(meals).allMealsCount
    ensures IntendedRun(meals).healthyMeals == Run(meals).healthyMeals
    ensures IntendedRun(meals).notHealthyMeals == Run(meals).notHealthyMeals
    decreases |meals|
  {
    if meals != [] {
      SameCounts(meals[..|meals| - 1]);
    }
  }

  /** The intended record differs from the written one in the best streak
      only, and is well formed too. */
  lemma {:induction false} IntendedSummary(meals: seq<Meal>)
    ensures Summarize(IntendedRun(meals)) ==
      Summarize(Run(meals)).(betterSequence := IntendedRun(meals).betterSequence)
    ensures WellFormed(Summarize(IntendedRun(meals)))
  {
    SameCounts(meals);
    SummarizeWellFormed(meals);
    IntendedRunIsLongestStreak(meals);
    assert HealthySegment(meals, 0, 0);
  }

  /** Once a healthy and an unhealthy meal have both been seen, the two
      loops take identical steps. */
  lemma StepsAgreeOnceBothSeen(c: Counters, meal: Meal)
    requires c.healthyMeals > 0 && c.notHealthyMeals > 0
    ensures Step(c, meal) == IntendedStep(c, meal)
  {
  }

  /** The written loop reports at most one less than the intended streak:
      the only loss is the skipped advance on the first healthy meal. */
  lemma {:induction false} WrittenLosesAtMostOne(meals: seq<Meal>)
    ensures Run(meals).sequence + 1 >= IntendedRun(meals).sequence
    ensures Run(meals).betterSequence + 1 >= IntendedRun(meals).betterSequence
    ensures Run(meals).healthyMeals == 0 ==>
      Run(meals).sequence == 0 && IntendedRun(meals).sequence == 0
    decreases |meals|
  {
    if meals != [] {
      var n := |meals| - 1;
      WrittenLosesAtMostOne(meals[..n]);
      RunStreakBounds(meals[..n]);
      SameCounts(meals[..n]);
    }
  }

  /** The meals without the first healthy meal and without the first
      unhealthy meal: the two meals on which the written loop skips its
      streak update. */
  function DropFirsts(meals: seq<Meal>): (r: seq<Meal>)
    ensures |r| == |meals| - (if CountHealthy(meals) > 0 then 1 else 0)
                           - (if CountHealthy(meals) < |meals| then 1 else 0)
    decreases |meals|
  {
    if meals == [] then []
    else
      var prefix, meal := meals[..|meals| - 1], meals[|meals| - 1];
      var firstOfItsKind :=
        if meal.isHealthy then CountHealthy(prefix) == 0 else CountHealthy(prefix) == |prefix|;
      if firstOfItsKind then DropFirsts(prefix) else DropFirsts(prefix) + [meal]
  }

  /** The exact relation: the written loop's streaks are those of the
      intended loop run on the meals without the first healthy and the first
      unhealthy meal. */
  lemma {:induction false} WrittenIsIntendedWithoutFirsts(meals: seq<Meal>)
    ensures Run(meals).sequence == IntendedRun(DropFirsts(meals)).sequence
    ensures Run(meals).betterSequence == IntendedRun(DropFirsts(meals)).betterSequence
    decreases |meals|
  {
    if meals != [] {
      var n := |meals| - 1;
      var prefix, meal := meals[..n], meals[n];
      WrittenIsIntendedWithoutFirsts(prefix);
      RunCounts(prefix);
      RunStreakBounds(prefix);
      var q := DropFirsts(prefix);
      assert (q + [meal])[..|q|] == q;
    }
  }

  /** Helper for WrittenOvershoots: the meals it keeps. */
  lemma DropFirstsSample(h: Meal, u: Meal)
    requires h.isHealthy && !u.isHealthy
    ensures DropFirsts([h, h, h, u, h, h, h]) == [h, h, h, h, h]
  {
    var m := [h, h, h, u, h, h, h];
    assert m[..6] == [h, h, h, u, h, h];
    assert m[..6][..5] == [h, h, h, u, h];
    assert m[..6][..5][..4] == [h, h, h, u];
    assert m[..6][..5][..4][..3] == [h, h, h];
    assert [h, h, h][..2] == [h, h];
    assert [h, h][..1] == [h];
    assert [h][..0] == [];
    assert CountHealthy([h]) == 1;
    assert DropFirsts([h]) == [];
    assert CountHealthy([h, h]) == 2;
    assert DropFirsts([h, h]) == [h];
    assert CountHealthy([h, h, h]) == 3;
    assert DropFirsts([h, h, h]) == [h, h];
    assert CountHealthy([h, h, h, u]) == 3;
    assert DropFirsts([h, h, h, u]) == [h, h];
    assert CountHealthy([h, h, h, u, h]) == 4;
    assert DropFirsts([h, h, h, u, h]) == [h, h, h];
    assert CountHealthy([h, h, h, u, h, h]) == 5;
    assert DropFirsts([h, h, h, u, h, h]) == [h, h, h, h];
  }

  /** Line 53 as written can overshoot by more than one: in three healthy,
      one unhealthy, three healthy meals the written best streak is 5,
      although no run of healthy meals is longer than 3. */
  lemma WrittenOvershoots(h: Meal, u: Meal)
    requires h.isHealthy && !u.isHealthy
    ensures Run([h, h, h, u, h, h, h]).betterSequence == 5
    ensures IntendedRun([h, h, h, u, h, h, h]).betterSequence == 3
  {
    var m := [h, h, h, u, h, h, h];
    WrittenIsIntendedWithoutFirsts(m);
    DropFirstsSample(h, u);
    AllHealthyOffByOne([h, h, h, h, h]);
    assert [h, h, h, h, h][4] == h;
    assert IntendedRun(m) == Counters(7, 6, 1, 3, 3) by {
      assert m[..6] == [h, h, h, u, h, h];
      assert m[..6][..5] == [h, h, h, u, h];
      assert m[..6][..5][..4] == [h, h, h, u];
      assert m[..6][..5][..4][..3] == [h, h, h];
      assert [h, h, h][..2] == [h, h];
      assert [h, h][..1] == [h];
      assert [h][..0] == [];
      assert IntendedRun([h]) == Counters(1, 1, 0, 1, 1);
      assert IntendedRun([h, h]) == Counters(2, 2, 0, 2, 2);
      assert IntendedRun([h, h, h]) == Counters(3, 3, 0, 3, 3);
      assert IntendedRun([h, h, h, u]) == Counters(4, 3, 1, 0, 3);
      assert IntendedRun([h, h, h, u, h]) == Counters(5, 4, 1, 1, 3);
    }
  }

  /** Line 52 as written: a single healthy meal yields a best streak of 0,
      although the longest run of healthy meals is 1. */
  lemma FirstHealthyMealStartsNoStreak(h: Meal)
    requires h.isHealthy
    ensures Run([h]).betterSequence == 0
    ensures IntendedRun([h]).betterSequence == 1
  {
  }

  /** Line 52 as written, for any all-healthy list: the written best streak
      is N - 1 where the intended one is N. */
  lemma AllHealthyOffByOne(meals: seq<Meal>)
    requires |meals| >= 1
    requires forall i :: 0 <= i < |meals| ==> meals[i].isHealthy
    ensures Run(meals).betterSequence == |meals| - 1
    ensures IntendedRun(meals).betterSequence == |meals|
  {
    AllHealthyStreak(meals);
    IntendedRunIsLongestStreak(meals);
    assert HealthySegment(meals, 0, |meals|);
  }

  /** Line 53 as written: in healthy, healthy, unhealthy, healthy, healthy
      the first unhealthy meal does not break the streak, so the written
      best streak is 3 although no run of healthy meals is longer than 2. */
  lemma FirstUnhealthyMealKeepsStreak(h: Meal, u: Meal)
    requires h.isHealthy && !u.isHealthy
    ensures Run([h, h, u, h, h]).betterSequence == 3
    ensures IntendedRun([h, h, u, h, h]).betterSequence == 2
  {
    assert [h][..0] == [];
    assert Run([h]) == Counters(1, 1, 0, 0, 0);
    assert IntendedRun([h]) == Counters(1, 1, 0, 1, 1);
    assert [h, h][..1] == [h];
    assert Run([h, h]) == Counters(2, 2, 0, 1, 1);
    assert IntendedRun([h, h]) == Counters(2, 2, 0, 2, 2);
    assert [h, h, u][..2] == [h, h];
    assert Run([h, h, u]) == Counters(3, 2, 1, 1, 1);
    assert IntendedRun([h, h, u]) == Counters(3, 2, 1, 0, 2);
    assert [h, h, u, h][..3] == [h, h, u];
    assert Run([h, h, u, h]) == Counters(4, 3, 1, 2, 2);
    assert IntendedRun([h, h, u, h]) == Counters(4, 3, 1, 1, 2);
    assert [h, h, u, h, h][..4] == [h, h, u, h];
  }
}
