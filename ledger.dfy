/**
 * The nutrition ledger: the foods attached to each profile entry, and the totals over
 * every waypoint that `updateAverageConsumption` reports.
 */
module Ledger {
  import opened Common
  import opened Catalogue
  import opened Track
  import opened Waypoints

  /**
   * The `foods` property of each profile entry, by profile index: None while the entry has
   * never had a food added (the property is absent), then the list of foods added to it.
   */
  type FoodLists = seq<Option<seq<Food>>>

  /** Every waypoint refers to an entry that has a slot for its foods. */
  predicate Covers(foods: FoodLists, pts: seq<nat>)
  {
    forall i :: 0 <= i < |pts| ==> pts[i] < |foods|
  }

  /** The foods of entry `j`; an absent list contributes nothing. */
  function FoodsAt(foods: FoodLists, j: nat): seq<Food>
    requires j < |foods|
  {
    if foods[j].Some? then foods[j].value else []
  }

  /** The amount of nutrient `n` in a list of foods, one serving each. */
  function ListTotal(list: seq<Food>, n: Nutrient): real
  {
    if |list| == 0 then 0.0 else ListTotal(list[..|list| - 1], n) + Amount(list[|list| - 1], n)
  }

  /** The amount of nutrient `n` over every food of every waypoint, each waypoint counted as often as it occurs. */
  function Total(foods: FoodLists, pts: seq<nat>, n: Nutrient): real
    requires Covers(foods, pts)
  {
    if |pts| == 0 then 0.0
    else Total(foods, pts[..|pts| - 1], n) + ListTotal(FoodsAt(foods, pts[|pts| - 1]), n)
  }

  /** `foods.filter(f => f.name !== name)`. */
  function WithoutFood(list: seq<Food>, name: string): (r: seq<Food>)
    ensures |r| <= |list|
  {
    if |list| == 0 then [] else WithoutFood(list[..|list| - 1], name) + (if list[|list| - 1].name != name then [list[|list| - 1]] else [])
  }

  /** An hourly rate as `updateAverageConsumption` computes it: zero when no duration is set. */
  function Average(total: real, totalTime: real): (r: real)
    ensures totalTime != 0.0 ==> r * totalTime == total
    ensures totalTime == 0.0 ==> r == 0.0
  {
    if totalTime != 0.0 then total / totalTime else 0.0
  }

  /** The six figures `updateAverageConsumption` displays. */
  datatype Consumption = Consumption(
    totalCarbs: real, totalCalories: real, totalProteins: real,
    avgCarbs: real, avgCalories: real, avgProteins: real)

  /** The figures for the given foods, waypoints and planned duration in hours. */
  function Figures(foods: FoodLists, pts: seq<nat>, totalTime: real): (c: Consumption)
    requires Covers(foods, pts)
    ensures c.totalCarbs == Total(foods, pts, Carbs) && c.totalCalories == Total(foods, pts, Calories)
    ensures c.totalProteins == Total(foods, pts, Protein)
    ensures totalTime != 0.0 ==> c.avgCarbs * totalTime == c.totalCarbs && c.avgCalories * totalTime == c.totalCalories
                                 && c.avgProteins * totalTime == c.totalProteins
    ensures totalTime == 0.0 ==> c.avgCarbs == 0.0 && c.avgCalories == 0.0 && c.avgProteins == 0.0
  {
    var carbs, calories, proteins := Total(foods, pts, Carbs), Total(foods, pts, Calories), Total(foods, pts, Protein);
    Consumption(carbs, calories, proteins, Average(carbs, totalTime), Average(calories, totalTime), Average(proteins, totalTime))
  }

  // ---- Sums over concatenations ----

  lemma {:induction false} ListTotalConcat(a: seq<Food>, b: seq<Food>, n: Nutrient)
    ensures ListTotal(a + b, n) == ListTotal(a, n) + ListTotal(b, n)
    decreases |b|
  {
    if |b| > 0 {
      assert (a + b)[..|a + b| - 1] == a + b[..|b| - 1];
      ListTotalConcat(a, b[..|b| - 1], n);
    } else {
      assert a + b == a;
    }
  }

  lemma {:induction false} TotalConcat(foods: FoodLists, a: seq<nat>, b: seq<nat>, n: Nutrient)
    requires Covers(foods, a) && Covers(foods, b)
    ensures Covers(foods, a + b)
    ensures Total(foods, a + b, n) == Total(foods, a, n) + Total(foods, b, n)
    decreases |b|
  {
    if |b| > 0 {
      assert (a + b)[..|a + b| - 1] == a + b[..|b| - 1];
      TotalConcat(foods, a, b[..|b| - 1], n);
    } else {
      assert a + b == a;
    }
  }

  /**
   * The running totals are the sum over a brute-force list of every food of every waypoint:
   * how the totals relate to the foods themselves, independent of how they are grouped.
   */
  function AllFoods(foods: FoodLists, pts: seq<nat>): (r: seq<Food>)
    requires Covers(foods, pts)
    ensures forall f :: f in r ==> exists i :: 0 <= i < |pts| && f in FoodsAt(foods, pts[i])
  {
    if |pts| == 0 then []
    else
      var front := AllFoods(foods, pts[..|pts| - 1]);
      assert forall i :: 0 <= i < |pts| - 1 ==> pts[..|pts| - 1][i] == pts[i];
      front + FoodsAt(foods, pts[|pts| - 1])
  }

  /**
   * The list of all foods is built waypoint by waypoint: the foods of a concatenation of
   * waypoint lists are the foods of the first followed by those of the second, and one
   * waypoint contributes exactly the foods of its entry. So every food of every waypoint is
   * listed, once per occurrence of that waypoint, in waypoint order.
   */
  lemma {:induction false} AllFoodsConcat(foods: FoodLists, a: seq<nat>, b: seq<nat>)
    requires Covers(foods, a) && Covers(foods, b)
    ensures Covers(foods, a + b)
    ensures AllFoods(foods, a + b) == AllFoods(foods, a) + AllFoods(foods, b)
    decreases |b|
  {
    if |b| == 0 {
      assert a + b == a;
    } else {
      var front, x := b[..|b| - 1], b[|b| - 1];
      assert Covers(foods, front);
      AllFoodsConcat(foods, a, front);
      assert (a + b)[..|a + b| - 1] == a + front;
      assert (a + b)[|a + b| - 1] == x;
    }
  }

  /** One waypoint contributes exactly the foods of its profile entry. */
  lemma AllFoodsOfOne(foods: FoodLists, j: nat)
    requires j < |foods|
    ensures Covers(foods, [j]) && AllFoods(foods, [j]) == FoodsAt(foods, j)
  {
    assert [j][..0] == [];
  }

  lemma {:induction false} TotalIsSumOfAllFoods(foods: FoodLists, pts: seq<nat>, n: Nutrient)
    requires Covers(foods, pts)
    ensures Total(foods, pts, n) == ListTotal(AllFoods(foods, pts), n)
  {
    if |pts| > 0 {
      TotalIsSumOfAllFoods(foods, pts[..|pts| - 1], n);
      ListTotalConcat(AllFoods(foods, pts[..|pts| - 1]), FoodsAt(foods, pts[|pts| - 1]), n);
    }
  }

  // ---- How the operations move the totals ----

  /**
   * Adding a waypoint adds its entry's foods to the totals, including foods it kept from an
   * earlier time it was a waypoint, and again if it already is one.
   */
  lemma TotalAfterAddPoint(profile: seq<ProfilePoint>, foods: FoodLists, pts: seq<nat>, k: nat, n: Nutrient)
    requires |foods| == |profile| && InProfile(profile, pts) && k < |profile|
    ensures InProfile(profile, PushSorted(profile, pts, k))
    ensures Total(foods, PushSorted(profile, pts, k), n) == Total(foods, pts, n) + ListTotal(FoodsAt(foods, k), n)
  {
    PushSortedShape(profile, pts, k);
    var i := PrefixAtMost(profile, pts, profile[k].distance);
    var head, tail := pts[..i], pts[i..];
    TotalConcat(foods, head, [k] + tail, n);
    TotalConcat(foods, [k], tail, n);
    TotalConcat(foods, head, tail, n);
    assert Total(foods, [k], n) == ListTotal(FoodsAt(foods, k), n) by {
      assert [k][..0] == [];
    }
  }

  /**
   * Removing the waypoints at distance `d` takes exactly their foods out of the totals:
   * the totals split into those of the kept and those of the removed waypoints.
   */
  lemma {:induction false} TotalAfterRemovePoint(profile: seq<ProfilePoint>, foods: FoodLists, pts: seq<nat>, d: real, n: Nutrient)
    requires |foods| == |profile| && InProfile(profile, pts)
    ensures InProfile(profile, WithoutDistance(profile, pts, d)) && InProfile(profile, AtDistance(profile, pts, d))
    ensures Total(foods, pts, n) == Total(foods, WithoutDistance(profile, pts, d), n) + Total(foods, AtDistance(profile, pts, d), n)
  {
    RemovePointInProfile(profile, pts, d);
    if |pts| > 0 {
      var x, rest := pts[0], pts[1..];
      TotalAfterRemovePoint(profile, foods, rest, d, n);
      RemovePointInProfile(profile, rest, d);
      var kept, dropped := if profile[x].distance != d then [x] else [], if profile[x].distance == d then [x] else [];
      assert pts == [x] + rest;
      assert WithoutDistance(profile, pts, d) == kept + WithoutDistance(profile, rest, d);
      assert AtDistance(profile, pts, d) == dropped + AtDistance(profile, rest, d);
      TotalConcat(foods, kept, WithoutDistance(profile, rest, d), n);
      TotalConcat(foods, dropped, AtDistance(profile, rest, d), n);
      TotalConcat(foods, [x], rest, n);
      assert Total(foods, kept, n) + Total(foods, dropped, n) == Total(foods, [x], n) by {
        assert [x][..0] == [];
      }
    }
  }

  /** The number of times profile entry `j` occurs among the waypoints. */
  function Occurrences(pts: seq<nat>, j: nat): nat
  {
    if |pts| == 0 then 0 else Occurrences(pts[..|pts| - 1], j) + (if pts[|pts| - 1] == j then 1 else 0)
  }

  /** Counting occurrences one by one agrees with the multiset of the waypoints. */
  lemma {:induction false} OccurrencesIsMultiplicity(pts: seq<nat>, j: nat)
    ensures Occurrences(pts, j) == multiset(pts)[j]
  {
    if |pts| > 0 {
      var front, x := pts[..|pts| - 1], pts[|pts| - 1];
      OccurrencesIsMultiplicity(front, j);
      assert pts == front + [x];
    }
  }

  /** `x` added up `c` times. */
  function Times(c: nat, x: real): real
  {
    if c == 0 then 0.0 else Times(c - 1, x) + x
  }

  /** Adding `x` up `c` times is multiplying it by `c`. */
  lemma {:induction false} TimesIsProduct(c: nat, x: real)
    ensures Times(c, x) == (c as real) * x
  {
    if c > 0 {
      TimesIsProduct(c - 1, x);
      assert (c as real) * x == ((c - 1) as real) * x + x;
    }
  }

  /**
   * Replacing the food list of entry `j` moves each total by the change in that list,
   * once for every occurrence of `j` among the waypoints: a point added twice counts twice.
   */
  lemma {:induction false} TotalAfterFoodsChange(foods: FoodLists, pts: seq<nat>, j: nat, list: seq<Food>, n: Nutrient)
    requires Covers(foods, pts) && j < |foods|
    ensures Covers(foods[j := Some(list)], pts)
    ensures Total(foods[j := Some(list)], pts, n)
            == Total(foods, pts, n) + Times(Occurrences(pts, j), ListTotal(list, n) - ListTotal(FoodsAt(foods, j), n))
  {
    var changed := foods[j := Some(list)];
    if |pts| > 0 {
      var front, x := pts[..|pts| - 1], pts[|pts| - 1];
      TotalAfterFoodsChange(foods, front, j, list, n);
      var delta := ListTotal(list, n) - ListTotal(FoodsAt(foods, j), n);
      var step := if x == j then delta else 0.0;
      var lc, lf := ListTotal(FoodsAt(changed, x), n), ListTotal(FoodsAt(foods, x), n);
      assert lc == lf + step by {
        if x == j {
          assert FoodsAt(changed, x) == list;
        } else {
          assert FoodsAt(changed, x) == FoodsAt(foods, x);
        }
      }
      var c := Occurrences(front, j);
      assert Times(Occurrences(pts, j), delta) == Times(c, delta) + step by {
        assert Occurrences(pts, j) == c + (if x == j then 1 else 0);
      }
      assert Total(changed, pts, n) == Total(changed, front, n) + lc;
      assert Total(foods, pts, n) == Total(foods, front, n) + lf;
    }
  }

  /** Removing a name no food of the list has leaves the list as it was. */
  lemma {:induction false} RemoveAbsentFoodIsNoOp(list: seq<Food>, name: string)
    requires forall i :: 0 <= i < |list| ==> list[i].name != name
    ensures WithoutFood(list, name) == list
  {
    if |list| > 0 {
      RemoveAbsentFoodIsNoOp(list[..|list| - 1], name);
      assert list == list[..|list| - 1] + [list[|list| - 1]];
    }
  }

  /**
   * Removing by name keeps every food with another name as often as it was there, and none
   * with that name.
   */
  lemma {:induction false} RemoveFoodCounts(list: seq<Food>, name: string, f: Food)
    ensures multiset(WithoutFood(list, name))[f] == if f.name == name then 0 else multiset(list)[f]
  {
    if |list| > 0 {
      var front, x := list[..|list| - 1], list[|list| - 1];
      RemoveFoodCounts(front, name, f);
      assert list == front + [x];
      var kept := if x.name != name then [x] else [];
      assert WithoutFood(list, name) == WithoutFood(front, name) + kept;
      assert multiset(list)[f] == multiset(front)[f] + multiset([x])[f];
      assert multiset(WithoutFood(list, name))[f] == multiset(WithoutFood(front, name))[f] + multiset(kept)[f];
    }
  }

  /** Removing by name works piece by piece: the survivors keep their order. */
  lemma {:induction false} RemoveFoodConcat(a: seq<Food>, b: seq<Food>, name: string)
    ensures WithoutFood(a + b, name) == WithoutFood(a, name) + WithoutFood(b, name)
    decreases |b|
  {
    if |b| > 0 {
      assert (a + b)[..|a + b| - 1] == a + b[..|b| - 1];
      RemoveFoodConcat(a, b[..|b| - 1], name);
    } else {
      assert a + b == a;
    }
  }

  /** What removal by name takes off a list's total is the total of the removed foods. */
  lemma {:induction false} RemoveFoodTotal(list: seq<Food>, name: string, n: Nutrient)
    ensures ListTotal(list, n) == ListTotal(WithoutFood(list, name), n) + ListTotal(OnlyFood(list, name), n)
  {
    if |list| > 0 {
      var front, x := list[..|list| - 1], list[|list| - 1];
      RemoveFoodTotal(front, name, n);
      ListTotalConcat(front, [x], n);
      assert list == front + [x];
      assert ListTotal([x], n) == Amount(x, n) by {
        assert [x][..0] == [];
      }
      if x.name != name {
        assert WithoutFood(list, name) == WithoutFood(front, name) + [x];
        assert OnlyFood(list, name) == OnlyFood(front, name);
        ListTotalConcat(WithoutFood(front, name), [x], n);
      } else {
        assert WithoutFood(list, name) == WithoutFood(front, name);
        assert OnlyFood(list, name) == OnlyFood(front, name) + [x];
        ListTotalConcat(OnlyFood(front, name), [x], n);
      }
    }
  }

  /** The foods of a list that carry the given name, in order. */
  function OnlyFood(list: seq<Food>, name: string): (r: seq<Food>)
    ensures |r| <= |list|
  {
    if |list| == 0 then [] else OnlyFood(list[..|list| - 1], name) + (if list[|list| - 1].name == name then [list[|list| - 1]] else [])
  }
}
