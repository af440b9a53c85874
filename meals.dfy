/** The stored meal records as the Home screen receives them: day groups
    (one SectionList section per day), each holding the meals logged that day. */
module Meals {

  /** One logged meal. The statistics read nothing of it but whether it is
      within the diet. */
  datatype Meal = Meal(isHealthy: bool)

  /** A day group: the meals logged that day, in order. The statistics
      never read the date label of the group. */
  datatype Day = Day(data: seq<Meal>)

  /** The meals of all days, days in the given order and each day's meals
      in their own order: what the nested `forEach`/`push` loops build. */
  function Flatten(days: seq<Day>): (r: seq<Meal>)
    ensures forall m :: m in r <==> exists i :: 0 <= i < |days| && m in days[i].data
    decreases |days|
  {
    if days == [] then [] else Flatten(days[..|days| - 1]) + days[|days| - 1].data
  }

  /** Sum of the day lengths. */
  function TotalMeals(days: seq<Day>): nat
    decreases |days|
  {
    if days == [] then 0 else TotalMeals(days[..|days| - 1]) + |days[|days| - 1].data|
  }

  /** Number of meals flagged healthy. */
  function CountHealthy(meals: seq<Meal>): nat
    decreases |meals|
  {
    if meals == [] then 0
    else CountHealthy(meals[..|meals| - 1]) + (if meals[|meals| - 1].isHealthy then 1 else 0)
  }

  /** The flattened list is as long as all days together. */
  lemma {:induction false} FlattenLength(days: seq<Day>)
    ensures |Flatten(days)| == TotalMeals(days)
    decreases |days|
  {
    if days != [] {
      FlattenLength(days[..|days| - 1]);
    }
  }

  /** Flattening distributes over concatenation of day lists: the days keep
      their relative order and nothing is dropped or duplicated. */
  lemma {:induction false} FlattenAppend(a: seq<Day>, b: seq<Day>)
    ensures Flatten(a + b) == Flatten(a) + Flatten(b)
    decreases |b|
  {
    if b == [] {
      assert a + b == a;
    } else {
      var n := |b| - 1;
      assert (a + b)[..|a + b| - 1] == a + b[..n];
      FlattenAppend(a, b[..n]);
    }
  }

  /** The first day's meals come first, then the rest in order. */
  lemma FlattenCons(d: Day, rest: seq<Day>)
    ensures Flatten([d] + rest) == d.data + Flatten(rest)
  {
    FlattenAppend([d], rest);
    assert [d][..0] == [];
  }

  /** Where the j-th meal of day i lands in the flattened list. */
  lemma {:induction false} FlattenIndex(days: seq<Day>, i: nat, j: nat)
    requires i < |days| && j < |days[i].data|
    ensures TotalMeals(days[..i]) + j < |Flatten(days)|
    ensures Flatten(days)[TotalMeals(days[..i]) + j] == days[i].data[j]
  {
    FlattenAppend(days[..i], days[i..]);
    assert days[..i] + days[i..] == days;
    FlattenCons(days[i], days[i + 1..]);
    assert days[i..] == [days[i]] + days[i + 1..];
    FlattenLength(days[..i]);
  }

  /** Days whose lists are all empty contribute no meals. */
  lemma {:induction false} FlattenOfEmptyDays(days: seq<Day>)
    requires forall i :: 0 <= i < |days| ==> days[i].data == []
    ensures Flatten(days) == []
    decreases |days|
  {
    if days != [] {
      FlattenOfEmptyDays(days[..|days| - 1]);
    }
  }

  /** CountHealthy agrees with the set of positions of healthy meals. */
  lemma {:induction false} CountHealthyPositions(meals: seq<Meal>)
    ensures CountHealthy(meals) == |set i | 0 <= i < |meals| && meals[i].isHealthy|
    decreases |meals|
  {
    if meals != [] {
      var n := |meals| - 1;
      var init := meals[..n];
      CountHealthyPositions(init);
      var before := set i | 0 <= i < |init| && init[i].isHealthy;
      var after := set i | 0 <= i < |meals| && meals[i].isHealthy;
      if meals[n].isHealthy {
        assert after == before + {n};
      } else {
        assert after == before;
      }
    }
  }

  /** There are never more healthy meals than meals. */
  lemma {:induction false} CountHealthyBound(meals: seq<Meal>)
    ensures CountHealthy(meals) <= |meals|
    ensures CountHealthy(meals) == |meals| <==> forall i :: 0 <= i < |meals| ==> meals[i].isHealthy
    decreases |meals|
  {
    if meals != [] {
      var n := |meals| - 1;
      CountHealthyBound(meals[..n]);
      if forall i :: 0 <= i < |meals| ==> meals[i].isHealthy {
        assert forall i :: 0 <= i < n ==> meals[..n][i].isHealthy;
      } else if meals[n].isHealthy {
        var k :| 0 <= k < |meals| && !meals[k].isHealthy;
        assert meals[..n][k] == meals[k];
      }
    }
  }
}
