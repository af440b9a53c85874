/** Worked inputs for `handleStats`, stated on the day groups it receives. */
module Scenarios {
  import opened Meals
  import opened Display
  import opened Aggregation

  /** One day with healthy, healthy, unhealthy, healthy: four meals, three
      healthy, 75%, best streak 2 (the first healthy meal is not counted in
      the streak, the first unhealthy one does not reset it). */
  lemma OneMixedDay(h: Meal, u: Meal)
    requires h.isHealthy && !u.isHealthy
    ensures Summarize(Run(Flatten([Day([h, h, u, h])]))) == Stats(Fraction(3, 4), 2, 4, 3, 1)
  {
    var days := [Day([h, h, u, h])];
    assert days[..0] == [];
    assert Flatten(days) == [h, h, u, h];
    assert [h][..0] == [];
    assert [h, h][..1] == [h];
    assert [h, h, u][..2] == [h, h];
    assert [h, h, u, h][..3] == [h, h, u];
    assert Run([h]) == Counters(1, 1, 0, 0, 0);
    assert Run([h, h]) == Counters(2, 2, 0, 1, 1);
    assert Run([h, h, u]) == Counters(3, 2, 1, 1, 1);
  }

  /** Two unhealthy meals on one day, then one healthy meal on the next:
      the healthy meal is the first one seen, so it does not start a streak
      and the best streak stays 0. */
  lemma HealthyAfterUnhealthyDay(h: Meal, u: Meal)
    requires h.isHealthy && !u.isHealthy
    ensures Summarize(Run(Flatten([Day([u, u]), Day([h])]))) == Stats(Fraction(1, 3), 0, 3, 1, 2)
  {
    var days := [Day([u, u]), Day([h])];
    assert days[..1] == [Day([u, u])];
    assert days[..1][..0] == [];
    assert Flatten(days[..1]) == [u, u];
    assert Flatten(days) == [u, u] + [h] == [u, u, h];
    assert [u][..0] == [];
    assert [u, u][..1] == [u];
    assert [u, u, h][..2] == [u, u];
    assert Run([u]) == Counters(1, 0, 1, 0, 0);
    assert Run([u, u]) == Counters(2, 0, 2, 0, 0);
  }
}
