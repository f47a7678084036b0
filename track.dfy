/**
 * The track parser: an uploaded route, already read as one sample per `trkpt`,
 * becomes the cumulative-distance/elevation profile (`elevationData`).
 */
module Track {

  /** One `trkpt` of the route: latitude and longitude in degrees, elevation in metres. */
  datatype Sample = Sample(lat: real, lon: real, ele: real)

  /** One entry of the profile: kilometres from the start of the route, and elevation. */
  datatype ProfilePoint = ProfilePoint(distance: real, elevation: real)

  /**
   * The great-circle distance in kilometres between (lat1, lon1) and (lat2, lon2).
   * The haversine formula is floating-point trigonometry; the model takes it as a parameter.
   */
  type Metric = (real, real, real, real) -> real

  /** The distance function never returns a negative length. */
  ghost predicate NonNegative(hav: Metric)
  {
    forall lat1, lon1, lat2, lon2 :: hav(lat1, lon1, lat2, lon2) >= 0.0
  }

  /** The length of the step from sample `a` to sample `b`. */
  function Step(hav: Metric, a: Sample, b: Sample): real
  {
    hav(a.lat, a.lon, b.lat, b.lon)
  }

  /**
   * The profile the parser builds: one entry per sample, the first at distance 0,
   * each later one a step further than its predecessor, elevations copied.
   */
  function BuildProfile(samples: seq<Sample>, hav: Metric): (r: seq<ProfilePoint>)
    ensures |r| == |samples|
    ensures |r| > 0 ==> r[0].distance == 0.0
    ensures forall i :: 0 <= i < |r| ==> r[i].elevation == samples[i].ele
    ensures forall i :: 0 < i < |r| ==> r[i].distance == r[i - 1].distance + Step(hav, samples[i - 1], samples[i])
  {
    if |samples| == 0 then []
    else
      var front := BuildProfile(samples[..|samples| - 1], hav);
      var last := samples[|samples| - 1];
      var d := if |front| == 0 then 0.0 else front[|front| - 1].distance + Step(hav, samples[|samples| - 2], last);
      front + [ProfilePoint(d, last.ele)]
  }

  /** The profile of one more sample is the profile so far plus one entry a step further on. */
  lemma BuildProfileExtend(samples: seq<Sample>, hav: Metric, i: nat)
    requires i < |samples|
    ensures var front := BuildProfile(samples[..i], hav);
            BuildProfile(samples[..i + 1], hav)
            == front + [ProfilePoint(if i == 0 then 0.0 else front[i - 1].distance + Step(hav, samples[i - 1], samples[i]), samples[i].ele)]
  {
    assert samples[..i + 1][..i] == samples[..i];
  }

  /** With a non-negative distance function the profile's distances are non-negative and non-decreasing. */
  lemma {:induction false} ProfileNonDecreasing(samples: seq<Sample>, hav: Metric, i: nat, j: nat)
    requires NonNegative(hav)
    requires i <= j < |samples|
    ensures 0.0 <= BuildProfile(samples, hav)[i].distance <= BuildProfile(samples, hav)[j].distance
  {
    var r := BuildProfile(samples, hav);
    if j > 0 {
      ProfileNonDecreasing(samples, hav, if i < j then i else j - 1, j - 1);
      assert Step(hav, samples[j - 1], samples[j]) >= 0.0;
    }
  }

  /** The largest distance of a non-empty profile (`d3.max` over the distances). */
  function MaxDistance(profile: seq<ProfilePoint>): (m: real)
    requires |profile| > 0
    ensures forall i :: 0 <= i < |profile| ==> profile[i].distance <= m
    ensures exists i :: 0 <= i < |profile| && profile[i].distance == m
  {
    if |profile| == 1 then profile[0].distance
    else
      var rest := MaxDistance(profile[1..]);
      assert forall i :: 1 <= i < |profile| ==> profile[i] == profile[1..][i - 1];
      if profile[0].distance >= rest then profile[0].distance else rest
  }

  /** On a parsed profile the largest distance is that of the last entry: the length of the route. */
  lemma MaxDistanceIsRouteLength(samples: seq<Sample>, hav: Metric)
    requires NonNegative(hav)
    requires |samples| > 0
    ensures MaxDistance(BuildProfile(samples, hav)) == BuildProfile(samples, hav)[|samples| - 1].distance
    ensures MaxDistance(BuildProfile(samples, hav)) >= 0.0
  {
    var r := BuildProfile(samples, hav);
    var k :| 0 <= k < |r| && r[k].distance == MaxDistance(r);
    ProfileNonDecreasing(samples, hav, k, |samples| - 1);
  }
}
