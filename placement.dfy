/**
 The marker placement resolver shared by both scripts (`adjust_marker_location`
 and its module-level `added_locations` set). Coordinates are reals; the
 longitude nudge is the script's `adjustment_factor` of 0.00005 degrees.
 */
module MarkerPlacement {

  datatype GeoPoint = GeoPoint(lat: real, lng: real)

  /** The longitude step added on every collision. */
  const Step: real := 0.00005

  /** The k-th probe for `p`: same latitude, longitude moved by k steps. */
  function ProbeAt(p: GeoPoint, k: nat): GeoPoint
  {
    GeoPoint(p.lat, p.lng + (k as real) * Step)
  }

  /** Probes at different step counts are different points. */
  lemma ProbeInjective(p: GeoPoint, j: nat, k: nat)
    requires j != k
    ensures ProbeAt(p, j) != ProbeAt(p, k)
  {
    assert (j as real) * Step != (k as real) * Step;
  }

  /** Every probe before `k` being occupied means `occupied` holds at least `k` points. */
  lemma {:induction false} ProbedBound(occupied: set<GeoPoint>, p: GeoPoint, k: nat)
    requires forall j :: 0 <= j < k ==> ProbeAt(p, j) in occupied
    ensures k <= |occupied|
  {
    if k > 0 {
      var rest := occupied - {ProbeAt(p, k - 1)};
      forall j | 0 <= j < k - 1
        ensures ProbeAt(p, j) in rest
      {
        ProbeInjective(p, j, k - 1);
      }
      ProbedBound(rest, p, k - 1);
    }
  }

  /** The number of steps from `k` on until the first probe that is not occupied. */
  function ProbeFrom(occupied: set<GeoPoint>, p: GeoPoint, k: nat): (r: nat)
    requires forall j :: 0 <= j < k ==> ProbeAt(p, j) in occupied
    ensures k <= r <= |occupied|
    ensures ProbeAt(p, r) !in occupied
    ensures forall j :: 0 <= j < r ==> ProbeAt(p, j) in occupied
    decreases |occupied| - k
  {
    ProbedBound(occupied, p, k);
    if ProbeAt(p, k) in occupied then
      ProbedBound(occupied, p, k + 1);
      ProbeFrom(occupied, p, k + 1)
    else
      k
  }

  /**
   The least number of steps that reaches a free coordinate; it never exceeds
   the number of coordinates already taken.
   */
  function FirstFree(occupied: set<GeoPoint>, p: GeoPoint): (k: nat)
    ensures k <= |occupied|
    ensures ProbeAt(p, k) !in occupied
    ensures forall j :: 0 <= j < k ==> ProbeAt(p, j) in occupied
  {
    ProbeFrom(occupied, p, 0)
  }

  /** The least free probe is unique: any step count with the least-free property is FirstFree. */
  lemma FirstFreeUnique(occupied: set<GeoPoint>, p: GeoPoint, k: nat)
    requires ProbeAt(p, k) !in occupied
    requires forall j :: 0 <= j < k ==> ProbeAt(p, j) in occupied
    ensures FirstFree(occupied, p) == k
  {
  }

  /** Where one call places a marker requested at `p`, given the coordinates already taken. */
  function Resolve(occupied: set<GeoPoint>, p: GeoPoint): GeoPoint
  {
    ProbeAt(p, FirstFree(occupied, p))
  }

  /** One call: the placed point is fresh, keeps the latitude and is the least free eastward probe. */
  lemma ResolveSpec(occupied: set<GeoPoint>, p: GeoPoint)
    ensures Resolve(occupied, p) !in occupied
    ensures Resolve(occupied, p).lat == p.lat
    ensures exists k: nat :: k <= |occupied| && Resolve(occupied, p) == ProbeAt(p, k)
                             && forall j :: 0 <= j < k ==> ProbeAt(p, j) in occupied
    ensures p !in occupied ==> Resolve(occupied, p) == p
  {
    var k := FirstFree(occupied, p);
    assert Resolve(occupied, p) == ProbeAt(p, k);
    if p !in occupied {
      assert ProbeAt(p, 0) == p;
      FirstFreeUnique(occupied, p, 0);
    }
  }

  /** What a run of resolver calls leaves behind: the placed points, in order, and the taken set. */
  datatype Run = Run(placed: seq<GeoPoint>, taken: set<GeoPoint>)

  /** A run that places `points`, requested in order, starting from the taken set `occupied`. */
  function PlaceRun(occupied: set<GeoPoint>, points: seq<GeoPoint>): Run
    decreases |points|
  {
    if points == [] then Run([], occupied)
    else
      var q := Resolve(occupied, points[0]);
      var rest := PlaceRun(occupied + {q}, points[1..]);
      Run([q] + rest.placed, rest.taken)
  }

  /**
   Across a run every placed point is new: none was taken before, no two are
   equal, each keeps its request's latitude, and the taken set grows by
   exactly the placed points.
   */
  lemma {:induction false} PlaceRunFresh(occupied: set<GeoPoint>, points: seq<GeoPoint>)
    ensures |PlaceRun(occupied, points).placed| == |points|
    ensures forall q :: q in PlaceRun(occupied, points).taken
                        <==> q in occupied || q in PlaceRun(occupied, points).placed
    ensures forall i :: 0 <= i < |points| ==> PlaceRun(occupied, points).placed[i] !in occupied
    ensures forall i :: 0 <= i < |points| ==> PlaceRun(occupied, points).placed[i].lat == points[i].lat
    ensures forall i, j :: 0 <= i < j < |points| ==>
              PlaceRun(occupied, points).placed[i] != PlaceRun(occupied, points).placed[j]
    decreases |points|
  {
    if points != [] {
      var q := Resolve(occupied, points[0]);
      ResolveSpec(occupied, points[0]);
      var rest := PlaceRun(occupied + {q}, points[1..]);
      PlaceRunFresh(occupied + {q}, points[1..]);
      var out := PlaceRun(occupied, points).placed;
      assert out == [q] + rest.placed;
      assert forall i :: 1 <= i < |points| ==> out[i] == rest.placed[i - 1];
      assert forall i :: 1 <= i < |points| ==> points[i] == points[1..][i - 1];
    }
  }

  /** `n` requests for the same coordinate `p`. */
  function Repeat(p: GeoPoint, n: nat): seq<GeoPoint>
  {
    if n == 0 then [] else [p] + Repeat(p, n - 1)
  }

  /** The `n` consecutive probes of `p` starting at step `m`. */
  function Fan(p: GeoPoint, m: nat, n: nat): seq<GeoPoint>
    decreases n
  {
    if n == 0 then [] else [ProbeAt(p, m)] + Fan(p, m + 1, n - 1)
  }

  /**
   When exactly the first `m` probes of `p` are taken, `n` more requests at
   `p` are placed at the next `n` probes.
   */
  lemma {:induction false} FanFrom(occupied: set<GeoPoint>, p: GeoPoint, m: nat, n: nat)
    requires forall j: nat :: j < m ==> ProbeAt(p, j) in occupied
    requires forall j: nat :: m <= j ==> ProbeAt(p, j) !in occupied
    ensures PlaceRun(occupied, Repeat(p, n)).placed == Fan(p, m, n)
    decreases n
  {
    if n > 0 {
      FirstFreeUnique(occupied, p, m);
      var next := occupied + {ProbeAt(p, m)};
      forall j: nat | m + 1 <= j
        ensures ProbeAt(p, j) !in next
      {
        ProbeInjective(p, j, m);
      }
      assert Repeat(p, n)[0] == p && Repeat(p, n)[1..] == Repeat(p, n - 1);
      FanFrom(next, p, m + 1, n - 1);
    }
  }

  /** The i-th point of a fan is i steps further east than the first. */
  lemma {:induction false} FanAt(p: GeoPoint, m: nat, n: nat, i: nat)
    requires i < n
    ensures |Fan(p, m, n)| == n && Fan(p, m, n)[i] == ProbeAt(p, m + i)
    decreases n
  {
    if n > 1 {
      FanAt(p, m + 1, n - 1, if i == 0 then 0 else i - 1);
    }
  }

  /**
   `n` requests at the same coordinate from an empty set fan out eastward at
   the original longitude, then one step, two steps, and so on.
   */
  lemma SameCoordinateFan(p: GeoPoint, n: nat)
    ensures |PlaceRun({}, Repeat(p, n)).placed| == n
    ensures forall i :: 0 <= i < n ==>
              PlaceRun({}, Repeat(p, n)).placed[i] == GeoPoint(p.lat, p.lng + (i as real) * Step)
  {
    FanFrom({}, p, 0, n);
    forall i | 0 <= i < n
      ensures |Fan(p, 0, n)| == n && Fan(p, 0, n)[i] == GeoPoint(p.lat, p.lng + (i as real) * Step)
    {
      FanAt(p, 0, n, i);
    }
    if n == 0 {
      assert Repeat(p, n) == [] && Fan(p, 0, n) == [];
    } else {
      FanAt(p, 0, n, 0);
    }
  }

  /** Three crimes reported at (51.0, 0.0) are drawn at longitudes 0.0, 0.00005 and 0.0001. */
  lemma ThreeCrimesAtOnePoint()
    ensures PlaceRun({}, [GeoPoint(51.0, 0.0), GeoPoint(51.0, 0.0), GeoPoint(51.0, 0.0)]).placed
            == [GeoPoint(51.0, 0.0), GeoPoint(51.0, 0.00005), GeoPoint(51.0, 0.0001)]
  {
    var p := GeoPoint(51.0, 0.0);
    assert [p, p, p] == Repeat(p, 3);
    SameCoordinateFan(p, 3);
  }

  /** The run-scoped `added_locations` set and the resolver that updates it. */
  class Placer {
    /** Every coordinate handed out so far in this run. */
    var added: set<GeoPoint>

    constructor ()
      ensures added == {}
    {
      added := {};
    }

    /**
     `adjust_marker_location`: probe eastward from (lat, lng) until the
     coordinate is free, record it, return it.
     */
    method AdjustMarkerLocation(lat: real, lng: real) returns (rLat: real, rLng: real)
      modifies this
      ensures GeoPoint(rLat, rLng) == Resolve(old(added), GeoPoint(lat, lng))
      ensures rLat == lat && GeoPoint(rLat, rLng) !in old(added)
      ensures added == old(added) + {GeoPoint(rLat, rLng)}
    {
      ghost var p := GeoPoint(lat, lng);
      ghost var k: nat := 0;
      rLng := lng;
      while GeoPoint(lat, rLng) in added
        invariant added == old(added)
        invariant GeoPoint(lat, rLng) == ProbeAt(p, k)
        invariant forall j :: 0 <= j < k ==> ProbeAt(p, j) in added
        invariant k <= |added|
        decreases |added| - k
      {
        ProbedBound(added, p, k + 1);
        rLng := rLng + Step;
        k := k + 1;
      }
      FirstFreeUnique(added, p, k);
      rLat := lat;
      added := added + {GeoPoint(rLat, rLng)};
    }

    /** The record loop's placement calls: one resolver call per requested point, in order. */
    method PlaceAll(points: seq<GeoPoint>) returns (placed: seq<GeoPoint>)
      modifies this
      ensures Run(placed, added) == PlaceRun(old(added), points)
    {
      placed := [];
      var i := 0;
      assert points[0..] == points;
      while i < |points|
        invariant 0 <= i <= |points|
        invariant PlaceRun(old(added), points).placed == placed + PlaceRun(added, points[i..]).placed
        invariant PlaceRun(old(added), points).taken == PlaceRun(added, points[i..]).taken
      {
        assert points[i..][0] == points[i] && points[i..][1..] == points[i + 1..];
        ghost var before := added;
        var lat, lng := AdjustMarkerLocation(points[i].lat, points[i].lng);
        assert PlaceRun(before, points[i..])
               == Run([GeoPoint(lat, lng)] + PlaceRun(added, points[i + 1..]).placed, PlaceRun(added, points[i + 1..]).taken);
        placed := placed + [GeoPoint(lat, lng)];
        i := i + 1;
      }
      assert points[i..] == [];
    }
  }
}
