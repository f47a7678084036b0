/**
 * The waypoint store: `points` holds references to entries of the profile,
 * modelled as indices into it, kept in ascending order of distance.
 */
module Waypoints {
  import opened Common
  import opened Track

  /** Every waypoint refers to an entry of the profile. */
  predicate InProfile(profile: seq<ProfilePoint>, pts: seq<nat>)
  {
    forall i :: 0 <= i < |pts| ==> pts[i] < |profile|
  }

  /** The waypoints are in ascending order of their entries' distances. */
  predicate Sorted(profile: seq<ProfilePoint>, pts: seq<nat>)
    requires InProfile(profile, pts)
  {
    forall i, j :: 0 <= i < j < |pts| ==> profile[pts[i]].distance <= profile[pts[j]].distance
  }

  /** How far the entry `p` lies from the clicked distance. */
  function Gap(p: ProfilePoint, target: real): real
  {
    if p.distance >= target then p.distance - target else target - p.distance
  }

  /** Entry `k` is as close to `target` as any other, and strictly closer than every earlier one. */
  ghost predicate IsNearest(profile: seq<ProfilePoint>, target: real, k: nat)
  {
    && k < |profile|
    && (forall j :: 0 <= j < |profile| ==> Gap(profile[k], target) <= Gap(profile[j], target))
    && (forall j :: 0 <= j < k ==> Gap(profile[k], target) < Gap(profile[j], target))
  }

  /** At most one entry is the nearest: the snap is deterministic. */
  lemma NearestUnique(profile: seq<ProfilePoint>, target: real, k1: nat, k2: nat)
    requires IsNearest(profile, target, k1) && IsNearest(profile, target, k2)
    ensures k1 == k2
  {
    assert Gap(profile[k1], target) == Gap(profile[k2], target);
  }

  /**
   * The `reduce` of `addPoint`: keep the running best, replace it only by a strictly closer entry.
   * The empty profile, on which `reduce` throws, is handled by the caller.
   */
  method NearestIndex(profile: seq<ProfilePoint>, target: real) returns (k: nat)
    requires |profile| > 0
    ensures IsNearest(profile, target, k)
  {
    k := 0;
    var i := 1;
    while i < |profile|
      invariant 1 <= i <= |profile|
      invariant k < i
      invariant forall j :: 0 <= j < i ==> Gap(profile[k], target) <= Gap(profile[j], target)
      invariant forall j :: 0 <= j < k ==> Gap(profile[k], target) < Gap(profile[j], target)
    {
      if Gap(profile[i], target) < Gap(profile[k], target) {
        k := i;
      }
      i := i + 1;
    }
  }

  /** The number of leading waypoints whose distance is at most `d`. */
  function PrefixAtMost(profile: seq<ProfilePoint>, pts: seq<nat>, d: real): (k: nat)
    requires InProfile(profile, pts)
    ensures k <= |pts|
    ensures forall i :: 0 <= i < k ==> profile[pts[i]].distance <= d
    ensures k < |pts| ==> profile[pts[k]].distance > d
  {
    if |pts| == 0 || profile[pts[0]].distance > d then 0
    else
      var k := PrefixAtMost(profile, pts[1..], d);
      assert forall i :: 1 <= i < |pts| ==> pts[i] == pts[1..][i - 1];
      1 + k
  }

  /**
   * `points.push(nearest)` followed by the stable `points.sort` by distance: the new
   * reference lands after every waypoint whose distance is at most its own.
   */
  function PushSorted(profile: seq<ProfilePoint>, pts: seq<nat>, n: nat): (r: seq<nat>)
    requires InProfile(profile, pts) && n < |profile|
  {
    var k := PrefixAtMost(profile, pts, profile[n].distance);
    pts[..k] + [n] + pts[k..]
  }

  /** The waypoints at exactly distance `e`, in their order. */
  function AtDistance(profile: seq<ProfilePoint>, pts: seq<nat>, e: real): (r: seq<nat>)
    requires InProfile(profile, pts)
  {
    if |pts| == 0 then []
    else (if profile[pts[0]].distance == e then [pts[0]] else []) + AtDistance(profile, pts[1..], e)
  }

  /** `points.filter(p => p.distance !== d)`. */
  function WithoutDistance(profile: seq<ProfilePoint>, pts: seq<nat>, d: real): (r: seq<nat>)
    requires InProfile(profile, pts)
    ensures forall i :: 0 <= i < |r| ==> r[i] in pts && profile[r[i]].distance != d
  {
    if |pts| == 0 then []
    else (if profile[pts[0]].distance != d then [pts[0]] else []) + WithoutDistance(profile, pts[1..], d)
  }

  /** `points.find(p => p.distance === d)`, as the position of the first waypoint at distance `d`. */
  function FindPoint(profile: seq<ProfilePoint>, pts: seq<nat>, d: real): (r: Option<nat>)
    requires InProfile(profile, pts)
    ensures r.None? <==> forall i :: 0 <= i < |pts| ==> profile[pts[i]].distance != d
    ensures r.Some? ==> r.value < |pts| && profile[pts[r.value]].distance == d
    ensures r.Some? ==> forall i :: 0 <= i < r.value ==> profile[pts[i]].distance != d
  {
    if |pts| == 0 then None
    else if profile[pts[0]].distance == d then Some(0)
    else
      var r := FindPoint(profile, pts[1..], d);
      assert forall i :: 1 <= i < |pts| ==> pts[i] == pts[1..][i - 1];
      if r.Some? then Some(r.value + 1) else None
  }

  // ---- Selecting waypoints at one distance ----

  lemma {:induction false} AtDistanceConcat(profile: seq<ProfilePoint>, a: seq<nat>, b: seq<nat>, e: real)
    requires InProfile(profile, a) && InProfile(profile, b)
    ensures InProfile(profile, a + b)
    ensures AtDistance(profile, a + b, e) == AtDistance(profile, a, e) + AtDistance(profile, b, e)
  {
    if |a| > 0 {
      assert (a + b)[1..] == a[1..] + b;
      AtDistanceConcat(profile, a[1..], b, e);
    } else {
      assert a + b == b;
    }
  }

  /** No waypoint lies at distance `e`: nothing is selected. */
  lemma {:induction false} AtDistanceNone(profile: seq<ProfilePoint>, pts: seq<nat>, e: real)
    requires InProfile(profile, pts)
    requires forall i :: 0 <= i < |pts| ==> profile[pts[i]].distance != e
    ensures AtDistance(profile, pts, e) == []
  {
    if |pts| > 0 {
      AtDistanceNone(profile, pts[1..], e);
    }
  }

  /** In a sorted list, a distance that has waypoints is no smaller than the first waypoint's. */
  lemma {:induction false} HeadIsLeast(profile: seq<ProfilePoint>, pts: seq<nat>, e: real)
    requires InProfile(profile, pts) && Sorted(profile, pts) && |pts| > 0
    requires AtDistance(profile, pts, e) != []
    ensures profile[pts[0]].distance <= e
  {
    if profile[pts[0]].distance != e {
      var rest := pts[1..];
      if |rest| > 0 {
        HeadIsLeast(profile, rest, e);
        assert profile[pts[0]].distance <= profile[pts[1]].distance;
      }
    }
  }

  /**
   * Two sorted waypoint lists that agree, distance by distance, on which waypoints lie there
   * and in what order, are the same list. With this, a sorted list is a stable sort of another
   * exactly when it selects the same waypoints at every distance.
   */
  lemma {:induction false} StableSortUnique(profile: seq<ProfilePoint>, s: seq<nat>, t: seq<nat>)
    requires InProfile(profile, s) && InProfile(profile, t)
    requires Sorted(profile, s) && Sorted(profile, t)
    requires forall e :: AtDistance(profile, s, e) == AtDistance(profile, t, e)
    ensures s == t
    decreases |s| + |t|
  {
    if |s| == 0 || |t| == 0 {
      var e := if |s| > 0 then profile[s[0]].distance else if |t| > 0 then profile[t[0]].distance else 0.0;
      assert AtDistance(profile, s, e) == AtDistance(profile, t, e);
    } else {
      var d0, e0 := profile[s[0]].distance, profile[t[0]].distance;
      HeadIsLeast(profile, t, d0);
      HeadIsLeast(profile, s, e0);
      assert AtDistance(profile, s, d0)[0] == s[0];
      assert AtDistance(profile, t, d0)[0] == t[0];
      forall e
        ensures AtDistance(profile, s[1..], e) == AtDistance(profile, t[1..], e)
      {
        var hs, ht := AtDistance(profile, s, e), AtDistance(profile, t, e);
        if e == d0 {
          assert hs == [s[0]] + AtDistance(profile, s[1..], e);
          assert ht == [t[0]] + AtDistance(profile, t[1..], e);
          assert hs[1..] == AtDistance(profile, s[1..], e);
          assert ht[1..] == AtDistance(profile, t[1..], e);
        } else {
          assert hs == AtDistance(profile, s[1..], e);
          assert ht == AtDistance(profile, t[1..], e);
        }
      }
      StableSortUnique(profile, s[1..], t[1..]);
      assert s == [s[0]] + s[1..] && t == [t[0]] + t[1..];
    }
  }

  // ---- addPoint ----

  /** Inserting `n` at position `k` shifts everything from `k` on by one place. */
  lemma InsertShape(pts: seq<nat>, k: nat, n: nat)
    requires k <= |pts|
    ensures pts == pts[..k] + pts[k..]
    ensures pts[..k] + [n] + pts[k..] == pts[..k] + ([n] + pts[k..])
    ensures var r := pts[..k] + [n] + pts[k..];
            |r| == |pts| + 1 && forall i :: 0 <= i < |r| ==> r[i] == if i < k then pts[i] else if i == k then n else pts[i - 1]
  {
    var r := pts[..k] + [n] + pts[k..];
    forall i | 0 <= i < |r|
      ensures r[i] == if i < k then pts[i] else if i == k then n else pts[i - 1]
    {
      if i < k {
        assert r[i] == pts[..k][i];
      } else if i > k {
        assert r[i] == pts[k..][i - k - 1];
      }
    }
  }

  /** Inserting a profile entry into waypoints of that profile gives waypoints of that profile. */
  lemma InsertInProfile(profile: seq<ProfilePoint>, pts: seq<nat>, k: nat, n: nat)
    requires InProfile(profile, pts) && k <= |pts| && n < |profile|
    ensures InProfile(profile, pts[..k] + [n] + pts[k..])
  {
    var r := pts[..k] + [n] + pts[k..];
    forall i | 0 <= i < |r|
      ensures r[i] < |profile|
    {
      if i < k {
        assert r[i] == pts[..k][i];
      } else if i > k {
        assert r[i] == pts[k..][i - k - 1];
      }
    }
  }

  /** The inserted reference splits the old list at the first waypoint lying beyond it. */
  lemma PushSortedShape(profile: seq<ProfilePoint>, pts: seq<nat>, n: nat)
    requires InProfile(profile, pts) && n < |profile|
    ensures InProfile(profile, PushSorted(profile, pts, n))
    ensures var k := PrefixAtMost(profile, pts, profile[n].distance);
            pts == pts[..k] + pts[k..] && PushSorted(profile, pts, n) == pts[..k] + ([n] + pts[k..])
    ensures var k, r := PrefixAtMost(profile, pts, profile[n].distance), PushSorted(profile, pts, n);
            |r| == |pts| + 1 && forall i :: 0 <= i < |r| ==> r[i] == if i < k then pts[i] else if i == k then n else pts[i - 1]
  {
    var k := PrefixAtMost(profile, pts, profile[n].distance);
    InsertShape(pts, k, n);
    InsertInProfile(profile, pts, k, n);
    assert PushSorted(profile, pts, n) == pts[..k] + [n] + pts[k..];
  }

  /** Pushing a reference and sorting keeps the waypoints sorted. */
  lemma PushSortedSorted(profile: seq<ProfilePoint>, pts: seq<nat>, n: nat)
    requires InProfile(profile, pts) && Sorted(profile, pts) && n < |profile|
    ensures InProfile(profile, PushSorted(profile, pts, n))
    ensures Sorted(profile, PushSorted(profile, pts, n))
  {
    PushSortedShape(profile, pts, n);
    var d := profile[n].distance;
    var k := PrefixAtMost(profile, pts, d);
    var r := PushSorted(profile, pts, n);
    forall i, j | 0 <= i < j < |r|
      ensures profile[r[i]].distance <= profile[r[j]].distance
    {
      if i == k {
        assert profile[pts[k]].distance <= profile[pts[j - 1]].distance;
      }
    }
  }

  /** Pushing a reference and sorting adds exactly one occurrence of it, duplicates included. */
  lemma PushSortedAddsOne(profile: seq<ProfilePoint>, pts: seq<nat>, n: nat)
    requires InProfile(profile, pts) && n < |profile|
    ensures multiset(PushSorted(profile, pts, n)) == multiset(pts) + multiset{n}
  {
    PushSortedShape(profile, pts, n);
  }

  /** Every waypoint after position `k` of a sorted list lies beyond distance `d` when the one at `k` does. */
  lemma SortedTailBeyond(profile: seq<ProfilePoint>, pts: seq<nat>, k: nat, d: real)
    requires InProfile(profile, pts) && Sorted(profile, pts)
    requires k < |pts| ==> profile[pts[k]].distance > d
    requires k <= |pts|
    ensures InProfile(profile, pts[k..])
    ensures forall i :: 0 <= i < |pts[k..]| ==> profile[pts[k..][i]].distance != d
  {
    forall i | 0 <= i < |pts[k..]|
      ensures profile[pts[k..][i]].distance > d
    {
      assert pts[k..][i] == pts[k + i];
      assert profile[pts[k]].distance <= profile[pts[k + i]].distance;
    }
  }

  /**
   * At every distance, pushing and sorting keeps the old waypoints there in their order with
   * the new one after them: the result is the stable sort of the old list followed by the new
   * reference (by StableSortUnique, the only sorted list that does so).
   */
  lemma PushSortedIsStable(profile: seq<ProfilePoint>, pts: seq<nat>, n: nat, e: real)
    requires InProfile(profile, pts) && Sorted(profile, pts) && n < |profile|
    ensures InProfile(profile, PushSorted(profile, pts, n)) && InProfile(profile, pts + [n])
    ensures AtDistance(profile, PushSorted(profile, pts, n), e) == AtDistance(profile, pts + [n], e)
  {
    PushSortedShape(profile, pts, n);
    var d := profile[n].distance;
    var k := PrefixAtMost(profile, pts, d);
    AtDistanceConcat(profile, pts[..k], [n] + pts[k..], e);
    AtDistanceConcat(profile, [n], pts[k..], e);
    AtDistanceConcat(profile, pts[..k], pts[k..], e);
    AtDistanceConcat(profile, pts, [n], e);
    if e == d {
      SortedTailBeyond(profile, pts, k, d);
      AtDistanceNone(profile, pts[k..], e);
    }
  }

  /**
   * Whatever stable sort `points.sort` performs, its result is PushSorted: any sorted list that
   * keeps, at every distance, the waypoints of the old list followed by the new one is it.
   */
  lemma PushSortedIsTheStableSort(profile: seq<ProfilePoint>, pts: seq<nat>, n: nat, q: seq<nat>)
    requires InProfile(profile, pts) && Sorted(profile, pts) && n < |profile|
    requires InProfile(profile, q) && Sorted(profile, q) && InProfile(profile, pts + [n])
    requires forall e :: AtDistance(profile, q, e) == AtDistance(profile, pts + [n], e)
    ensures q == PushSorted(profile, pts, n)
  {
    PushSortedSorted(profile, pts, n);
    forall e
      ensures AtDistance(profile, PushSorted(profile, pts, n), e) == AtDistance(profile, q, e)
    {
      PushSortedIsStable(profile, pts, n, e);
    }
    StableSortUnique(profile, PushSorted(profile, pts, n), q);
  }

  // ---- removePoint ----

  /**
   * Removing distance `d` drops every waypoint there and, at every other distance `e`, keeps
   * exactly the waypoints that were there, in their order.
   */
  lemma {:induction false} RemovePointExact(profile: seq<ProfilePoint>, pts: seq<nat>, d: real, e: real)
    requires InProfile(profile, pts)
    ensures InProfile(profile, WithoutDistance(profile, pts, d))
    ensures AtDistance(profile, WithoutDistance(profile, pts, d), e) == if e == d then [] else AtDistance(profile, pts, e)
  {
    if |pts| > 0 {
      var rest := WithoutDistance(profile, pts[1..], d);
      RemovePointExact(profile, pts[1..], d, e);
      var head := if profile[pts[0]].distance != d then [pts[0]] else [];
      AtDistanceConcat(profile, head, rest, e);
    }
  }

  /** The removed and the kept waypoints together are the old ones. */
  lemma {:induction false} RemovePointPartition(profile: seq<ProfilePoint>, pts: seq<nat>, d: real)
    requires InProfile(profile, pts)
    ensures multiset(WithoutDistance(profile, pts, d)) + multiset(AtDistance(profile, pts, d)) == multiset(pts)
  {
    if |pts| > 0 {
      RemovePointPartition(profile, pts[1..], d);
      assert pts == [pts[0]] + pts[1..];
    }
  }

  /** Both halves of a removal refer to entries of the profile. */
  lemma {:induction false} RemovePointInProfile(profile: seq<ProfilePoint>, pts: seq<nat>, d: real)
    requires InProfile(profile, pts)
    ensures InProfile(profile, WithoutDistance(profile, pts, d)) && InProfile(profile, AtDistance(profile, pts, d))
  {
    if |pts| > 0 {
      RemovePointInProfile(profile, pts[1..], d);
    }
  }

  /** Removing a distance no waypoint has leaves the list as it was. */
  lemma {:induction false} RemoveAbsentIsNoOp(profile: seq<ProfilePoint>, pts: seq<nat>, d: real)
    requires InProfile(profile, pts)
    requires forall i :: 0 <= i < |pts| ==> profile[pts[i]].distance != d
    ensures WithoutDistance(profile, pts, d) == pts
  {
    if |pts| > 0 {
      RemoveAbsentIsNoOp(profile, pts[1..], d);
      assert pts == [pts[0]] + pts[1..];
    }
  }

  /** Removing waypoints keeps the list sorted. */
  lemma {:induction false} RemoveKeepsSorted(profile: seq<ProfilePoint>, pts: seq<nat>, d: real)
    requires InProfile(profile, pts) && Sorted(profile, pts)
    ensures InProfile(profile, WithoutDistance(profile, pts, d))
    ensures Sorted(profile, WithoutDistance(profile, pts, d))
  {
    if |pts| > 0 {
      RemoveKeepsSorted(profile, pts[1..], d);
      var rest := WithoutDistance(profile, pts[1..], d);
      forall i | 0 <= i < |rest|
        ensures profile[pts[0]].distance <= profile[rest[i]].distance
      {
        var j :| 0 <= j < |pts[1..]| && pts[1..][j] == rest[i];
        assert pts[j + 1] == rest[i];
      }
    }
  }
}
