/**
 * The planner's mutable state, which the page's script keeps in two global arrays and in
 * the `foods` property of the profile entries, and the event handlers that change it.
 */
module RoutePlanner {
  import opened Common
  import opened Track
  import opened Catalogue
  import opened Waypoints
  import opened Ledger

  /** Why a handler stops without changing anything (the script throws a TypeError there). */
  datatype Failure =
    | EmptyProfile  // `reduce` of an empty profile, before any track was loaded
    | NoSuchPoint   // `find` returned undefined: no waypoint at that distance
    | NoFoodList    // `filter` of an absent `foods` property

  datatype Outcome = Done | Fault(reason: Failure)

  class Planner {
    /** `elevationData`: the profile of the loaded track. */
    var profile: seq<ProfilePoint>
    /** The `foods` property of each profile entry, by index. */
    var foods: FoodLists
    /** `points`: the waypoints, as references (indices) to profile entries. */
    var points: seq<nat>

    ghost predicate Valid()
      reads this
    {
      |foods| == |profile| && InProfile(profile, points) && Sorted(profile, points)
    }

    /** The page starts with no profile and no waypoints. */
    constructor ()
      ensures Valid() && profile == [] && foods == [] && points == []
    {
      profile, foods, points := [], [], [];
    }

    /**
     * `parseGPX`: rebuild the profile from the track's samples, dropping every waypoint and,
     * with the old profile entries, every food.
     */
    method ParseGpx(samples: seq<Sample>, hav: Metric)
      modifies this
      ensures Valid()
      ensures profile == BuildProfile(samples, hav)
      ensures |foods| == |samples| && forall j :: 0 <= j < |foods| ==> foods[j] == None
      ensures points == []
    {
      profile, foods, points := [], [], [];
      var prev: Option<(real, real)> := None;
      var distance := 0.0;
      for i := 0 to |samples|
        invariant profile == BuildProfile(samples[..i], hav)
        invariant |foods| == i && forall j :: 0 <= j < i ==> foods[j] == None
        invariant points == []
        invariant prev == if i == 0 then None else Some((samples[i - 1].lat, samples[i - 1].lon))
        invariant distance == if i == 0 then 0.0 else profile[i - 1].distance
      {
        var s := samples[i];
        if prev.Some? {
          distance := distance + hav(prev.value.0, prev.value.1, s.lat, s.lon);
        }
        BuildProfileExtend(samples, hav, i);
        profile := profile + [ProfilePoint(distance, s.ele)];
        foods := foods + [None];
        prev := Some((s.lat, s.lon));
      }
      assert samples[..|samples|] == samples;
    }

    /**
     * `addPoint`: snap the clicked distance to the nearest profile entry (the earliest of
     * equally near ones), push a reference to it and sort the waypoints by distance.
     * A reference already present is pushed again.
     */
    method AddPoint(target: real) returns (r: Outcome)
      requires Valid()
      modifies this
      ensures Valid() && profile == old(profile) && foods == old(foods)
      ensures |profile| == 0 ==> r == Fault(EmptyProfile) && points == old(points)
      ensures |profile| > 0 ==> r == Done && (exists k :: IsNearest(profile, target, k)
                                                    && points == PushSorted(profile, old(points), k)
                                                    && multiset(points) == multiset(old(points)) + multiset{k})
    {
      if |profile| == 0 {
        return Fault(EmptyProfile);
      }
      var nearest := NearestIndex(profile, target);
      PushSortedSorted(profile, points, nearest);
      PushSortedAddsOne(profile, points, nearest);
      points := PushSorted(profile, points, nearest);
      r := Done;
    }

    /** `removePoint`: drop every waypoint at exactly that distance. */
    method RemovePoint(distance: real)
      requires Valid()
      modifies this
      ensures Valid() && profile == old(profile) && foods == old(foods)
      ensures points == WithoutDistance(profile, old(points), distance)
    {
      RemoveKeepsSorted(profile, points, distance);
      points := WithoutDistance(profile, points, distance);
    }

    /**
     * `addFood`: append the named catalogue entry to the foods of the first waypoint at that
     * distance, creating its list if it has none. The entry's other references share the list.
     */
    method AddFood(distance: real, name: string) returns (r: Outcome)
      requires Valid()
      requires Lookup(name).Some?
      modifies this
      ensures Valid() && profile == old(profile) && points == old(points)
      ensures FindPoint(profile, points, distance).None? ==> r == Fault(NoSuchPoint) && foods == old(foods)
      ensures FindPoint(profile, points, distance).Some? ==>
                var j := points[FindPoint(profile, points, distance).value];
                r == Done && foods == old(foods)[j := Some(FoodsAt(old(foods), j) + [Lookup(name).value])]
    {
      var found := FindPoint(profile, points, distance);
      if found.None? {
        return Fault(NoSuchPoint);
      }
      var j := points[found.value];
      var list := FoodsAt(foods, j);
      foods := foods[j := Some(list + [Lookup(name).value])];
      r := Done;
    }

    /** `removeFood`: drop every food with that name from the first waypoint at that distance. */
    method RemoveFood(distance: real, name: string) returns (r: Outcome)
      requires Valid()
      modifies this
      ensures Valid() && profile == old(profile) && points == old(points)
      ensures FindPoint(profile, points, distance).None? ==> r == Fault(NoSuchPoint) && foods == old(foods)
      ensures FindPoint(profile, points, distance).Some? ==>
                var j := points[FindPoint(profile, points, distance).value];
                if old(foods)[j].None? then r == Fault(NoFoodList) && foods == old(foods)
                else r == Done && foods == old(foods)[j := Some(WithoutFood(old(foods)[j].value, name))]
    {
      var found := FindPoint(profile, points, distance);
      if found.None? {
        return Fault(NoSuchPoint);
      }
      var j := points[found.value];
      if foods[j].None? {
        return Fault(NoFoodList);
      }
      foods := foods[j := Some(WithoutFood(foods[j].value, name))];
      r := Done;
    }

    /**
     * `updateAverageConsumption`: add up every food of every waypoint, then divide by the
     * planned duration in hours, or report 0 per hour when it is 0.
     */
    method UpdateAverageConsumption(totalTime: real) returns (c: Consumption)
      requires Valid()
      ensures Covers(foods, points) && c == Figures(foods, points, totalTime)
    {
      var totalCarbs, totalCalories, totalProteins := 0.0, 0.0, 0.0;
      for i := 0 to |points|
        invariant Covers(foods, points[..i])
        invariant totalCarbs == Total(foods, points[..i], Carbs)
        invariant totalCalories == Total(foods, points[..i], Calories)
        invariant totalProteins == Total(foods, points[..i], Protein)
      {
        assert points[..i + 1][..i] == points[..i];
        var list := foods[points[i]];
        if list.Some? && |list.value| > 0 {
          var pointFoods := list.value;
          for k := 0 to |pointFoods|
            invariant totalCarbs == Total(foods, points[..i], Carbs) + ListTotal(pointFoods[..k], Carbs)
            invariant totalCalories == Total(foods, points[..i], Calories) + ListTotal(pointFoods[..k], Calories)
            invariant totalProteins == Total(foods, points[..i], Protein) + ListTotal(pointFoods[..k], Protein)
          {
            assert pointFoods[..k + 1][..k] == pointFoods[..k];
            var food := pointFoods[k];
            totalCarbs := totalCarbs + food.carbs;
            totalCalories := totalCalories + food.calories;
            totalProteins := totalProteins + food.protein;
          }
          assert pointFoods[..|pointFoods|] == pointFoods;
        }
      }
      assert points[..|points|] == points;
      var avgCarbs := if totalTime != 0.0 then totalCarbs / totalTime else 0.0;
      var avgCalories := if totalTime != 0.0 then totalCalories / totalTime else 0.0;
      var avgProteins := if totalTime != 0.0 then totalProteins / totalTime else 0.0;
      c := Consumption(totalCarbs, totalCalories, totalProteins, avgCarbs, avgCalories, avgProteins);
    }
  }
}
