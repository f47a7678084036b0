/**
 * Client code that drives the planner through short sessions and checks, from the handlers'
 * contracts alone, what the page would show.
 */
module Scenarios {
  import opened Common
  import opened Track
  import opened Catalogue
  import opened Waypoints
  import opened Ledger
  import opened RoutePlanner

  /** A three-sample track one kilometre per step, elevations 100, 110 and 90. */
  method ThreeKilometres() returns (p: Planner)
    ensures fresh(p) && p.Valid()
    ensures p.profile == [ProfilePoint(0.0, 100.0), ProfilePoint(1.0, 110.0), ProfilePoint(2.0, 90.0)]
    ensures p.points == [] && |p.foods| == 3 && p.foods[1] == None
  {
    p := new Planner();
    var samples := [Sample(45.0, 6.0, 100.0), Sample(45.0, 6.01, 110.0), Sample(45.0, 6.02, 90.0)];
    p.ParseGpx(samples, (lat1, lon1, lat2, lon2) => 1.0);
  }

  /** A click at 0.9 km snaps to the entry at 1 km; removing 1 km empties the waypoints again. */
  method SnapThenRemove()
  {
    var p := ThreeKilometres();
    var r := p.AddPoint(0.9);
    assert IsNearest(p.profile, 0.9, 1) by {
      assert Gap(p.profile[0], 0.9) == 0.9 && Gap(p.profile[1], 0.9) == 0.1 && Gap(p.profile[2], 0.9) == 1.1;
    }
    ghost var k :| IsNearest(p.profile, 0.9, k) && p.points == PushSorted(p.profile, [], k);
    NearestUnique(p.profile, 0.9, k, 1);
    assert r == Done && p.points == [1];
    p.RemovePoint(1.0);
    assert p.points == [];
  }

  /** Clicking the same spot twice gives two waypoints referring to the same entry. */
  method SameClickTwice()
  {
    var p := ThreeKilometres();
    var r := p.AddPoint(1.0);
    assert IsNearest(p.profile, 1.0, 1);
    ghost var k :| IsNearest(p.profile, 1.0, k) && p.points == PushSorted(p.profile, [], k);
    NearestUnique(p.profile, 1.0, k, 1);
    assert p.points == [1];
    r := p.AddPoint(1.0);
    k :| IsNearest(p.profile, 1.0, k) && p.points == PushSorted(p.profile, [1], k);
    NearestUnique(p.profile, 1.0, k, 1);
    assert p.points == [1, 1];
  }

  /** The gel the food selector names "Maurten Gel 100": 25 g of carbohydrate, 100 kcal. */
  lemma GelLookup()
    ensures Lookup("Maurten Gel 100").Some?
    ensures Lookup("Maurten Gel 100").value.carbs == 25.0 && Lookup("Maurten Gel 100").value.calories == 100.0
  {
    NamesUnique();
    assert Lookup("Maurten Gel 100") == Some(Foods[2]);
  }

  /** One waypoint, at 1 km, with no foods yet. */
  method WaypointAtOneKilometre() returns (p: Planner)
    ensures fresh(p) && p.Valid()
    ensures p.profile == [ProfilePoint(0.0, 100.0), ProfilePoint(1.0, 110.0), ProfilePoint(2.0, 90.0)]
    ensures p.points == [1] && p.foods[1] == None
  {
    p := ThreeKilometres();
    var r := p.AddPoint(1.0);
    assert IsNearest(p.profile, 1.0, 1);
    ghost var k :| IsNearest(p.profile, 1.0, k) && p.points == PushSorted(p.profile, [], k);
    NearestUnique(p.profile, 1.0, k, 1);
  }

  /** Adding a gel to the only waypoint, whose entry had no list yet, gives it a list of one gel. */
  method OneGelAtOneKilometre() returns (p: Planner, ghost gel: Food)
    ensures fresh(p) && p.Valid()
    ensures p.profile == [ProfilePoint(0.0, 100.0), ProfilePoint(1.0, 110.0), ProfilePoint(2.0, 90.0)]
    ensures p.points == [1] && p.foods[1] == Some([gel])
    ensures gel == Lookup("Maurten Gel 100").value
  {
    p := WaypointAtOneKilometre();
    GelLookup();
    gel := Lookup("Maurten Gel 100").value;
    assert FindPoint(p.profile, p.points, 1.0) == Some(0);
    ghost var before := p.foods;
    assert FoodsAt(before, 1) == [];
    var r := p.AddFood(1.0, "Maurten Gel 100");
    assert p.foods == before[1 := Some([] + [gel])];
    assert [] + [gel] == [gel];
  }

  /** Adding a gel twice to the only waypoint gives it a list of two gels. */
  method TwoGelsAtOneKilometre() returns (p: Planner, ghost gel: Food)
    ensures fresh(p) && p.Valid()
    ensures p.profile == [ProfilePoint(0.0, 100.0), ProfilePoint(1.0, 110.0), ProfilePoint(2.0, 90.0)]
    ensures p.points == [1] && p.foods[1] == Some([gel, gel])
    ensures gel.carbs == 25.0 && gel.calories == 100.0
  {
    p, gel := OneGelAtOneKilometre();
    GelLookup();
    assert FindPoint(p.profile, p.points, 1.0) == Some(0);
    ghost var before := p.foods;
    assert FoodsAt(before, 1) == [gel];
    var r := p.AddFood(1.0, "Maurten Gel 100");
    assert p.foods == before[1 := Some([gel] + [gel])];
    assert [gel] + [gel] == [gel, gel];
  }

  /** Two gels over a two-hour plan: 50 g of carbohydrate and 200 kcal, 25 g and 100 kcal per hour. */
  method TwoGelsOverTwoHours()
  {
    var p, gel := TwoGelsAtOneKilometre();
    var c := p.UpdateAverageConsumption(2.0);
    assert [gel, gel][..1] == [gel] && [gel][..0] == [];
    assert ListTotal([gel], Carbs) == 25.0 && ListTotal([gel], Calories) == 100.0;
    assert p.points[..0] == [];
    assert Total(p.foods, p.points, Carbs) == ListTotal([gel, gel], Carbs) == 50.0;
    assert Total(p.foods, p.points, Calories) == ListTotal([gel, gel], Calories) == 200.0;
    assert c.totalCarbs == 50.0 && c.totalCalories == 200.0;
    assert c.avgCarbs == 25.0 && c.avgCalories == 100.0;
  }

  /** Removing the waypoint leaves no waypoint, but the gels stay on the profile entry. */
  method GelsAfterRemoval() returns (p: Planner, ghost gel: Food)
    ensures fresh(p) && p.Valid()
    ensures p.profile == [ProfilePoint(0.0, 100.0), ProfilePoint(1.0, 110.0), ProfilePoint(2.0, 90.0)]
    ensures p.points == [] && p.foods[1] == Some([gel, gel])
  {
    p, gel := TwoGelsAtOneKilometre();
    p.RemovePoint(1.0);
  }

  /** The gels are back when the waypoint is added again. */
  method GelsSurviveRemoval()
  {
    var p, gel := GelsAfterRemoval();
    var r := p.AddPoint(0.9);
    assert IsNearest(p.profile, 0.9, 1) by {
      assert Gap(p.profile[0], 0.9) == 0.9 && Gap(p.profile[1], 0.9) == 0.1 && Gap(p.profile[2], 0.9) == 1.1;
    }
    ghost var k :| IsNearest(p.profile, 0.9, k) && p.points == PushSorted(p.profile, [], k);
    NearestUnique(p.profile, 0.9, k, 1);
    assert p.points == [1] && p.foods[1] == Some([gel, gel]);
  }
}
