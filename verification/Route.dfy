/** Stop ordering and arrival estimates for one delivery run (src/domain/geo.ts).

    The great-circle distance is a parameter: any function into the non-negative reals.
    Everything built on it (detour factor, rounding, speed, dwell) is exact. */
module Route {
  import opened Wrappers
  import Sequences

  datatype LatLng = LatLng(latitude: real, longitude: real)

  datatype Stop = Stop(key: string, point: Option<LatLng>)

  type Distance = (LatLng, LatLng) -> real

  const DETOUR_FACTOR: real := 1.35
  const STOP_DWELL_SECONDS := 120

  ghost predicate IsDistance(dist: Distance) {
    forall p, q :: dist(p, q) >= 0.0
  }

  /** `Math.round`: halves go up. */
  function Round(x: real): int {
    (x + 0.5).Floor
  }

  function LegMeters(dist: Distance, from: LatLng, to: LatLng): int {
    Round(dist(from, to) * DETOUR_FACTOR)
  }

  function LegSeconds(meters: int, averageSpeedKmh: real): int
    requires averageSpeedKmh > 0.0
  {
    Round(meters as real / (averageSpeedKmh * 1000.0 / 3600.0))
  }

  // ---------------------------------------------------------------- nearest neighbour

  function Located(stops: seq<Stop>): seq<Stop> {
    if stops == [] then []
    else (if stops[0].point.Some? then [stops[0]] else []) + Located(stops[1..])
  }

  function Unlocated(stops: seq<Stop>): seq<Stop> {
    if stops == [] then []
    else (if stops[0].point.None? then [stops[0]] else []) + Unlocated(stops[1..])
  }

  ghost predicate AllLocated(stops: seq<Stop>) {
    forall i :: 0 <= i < |stops| ==> stops[i].point.Some?
  }

  lemma {:induction false} LocatedHavePins(stops: seq<Stop>)
    ensures AllLocated(Located(stops))
    ensures forall i :: 0 <= i < |Unlocated(stops)| ==> Unlocated(stops)[i].point.None?
  {
    if stops != [] {
      LocatedHavePins(stops[1..]);
    }
  }

  lemma {:induction false} PartitionCounts(stops: seq<Stop>)
    ensures |Located(stops)| + |Unlocated(stops)| == |stops|
    ensures AllLocated(stops) <==> Unlocated(stops) == []
  {
    if stops != [] {
      PartitionCounts(stops[1..]);
      assert AllLocated(stops) <==> stops[0].point.Some? && AllLocated(stops[1..]);
    }
  }

  lemma {:induction false} PartitionKeepsStops(stops: seq<Stop>)
    ensures multiset(Located(stops)) + multiset(Unlocated(stops)) == multiset(stops)
  {
    if stops != [] {
      PartitionKeepsStops(stops[1..]);
      assert stops == [stops[0]] + stops[1..];
    }
  }

  function Points(stops: seq<Stop>): seq<LatLng>
    requires AllLocated(stops)
  {
    seq(|stops|, i requires 0 <= i < |stops| => stops[i].point.value)
  }

  function Range(n: nat): seq<nat> {
    seq(n, i => i)
  }

  ghost predicate IsPermutation(visits: seq<nat>, n: nat) {
    multiset(visits) == multiset(Range(n)) && forall i :: 0 <= i < |visits| ==> visits[i] < n
  }

  /** Where the rider stands before the i-th visit. */
  function StandsAt(start: LatLng, pins: seq<LatLng>, visits: seq<nat>, i: nat): LatLng
    requires i <= |visits| && forall k :: 0 <= k < |visits| ==> visits[k] < |pins|
  {
    if i == 0 then start else pins[visits[i - 1]]
  }

  /** Pin `a` is nearer to `from` than pin `b` is, or as near and earlier in the input. */
  predicate Precedes(dist: Distance, from: LatLng, pins: seq<LatLng>, a: nat, b: nat)
    requires a < |pins| && b < |pins|
  {
    dist(from, pins[a]) < dist(from, pins[b]) || (dist(from, pins[a]) == dist(from, pins[b]) && a < b)
  }

  /** Each of the first m visits beats every later one, seen from where the rider stood. */
  ghost predicate NearestFirst(dist: Distance, start: LatLng, pins: seq<LatLng>, visits: seq<nat>, m: nat)
    requires m <= |visits| && forall k :: 0 <= k < |visits| ==> visits[k] < |pins|
  {
    forall i, j :: 0 <= i < m && i < j < |visits| ==>
      Precedes(dist, StandsAt(start, pins, visits, i), pins, visits[i], visits[j])
  }

  /** The nearest-neighbour tour of the pins. */
  ghost predicate IsNearestTour(dist: Distance, start: LatLng, pins: seq<LatLng>, visits: seq<nat>) {
    IsPermutation(visits, |pins|) && NearestFirst(dist, start, pins, visits, |visits|)
  }

  /** There is only one such tour. */
  lemma NearestTourIsUnique(dist: Distance, start: LatLng, pins: seq<LatLng>, v: seq<nat>, w: seq<nat>)
    requires IsNearestTour(dist, start, pins, v) && IsNearestTour(dist, start, pins, w)
    ensures v == w
  {
    SameLength(v, w);
    ToursAgree(dist, start, pins, v, w, |v|);
    Sequences.SameEverywhere(v, w);
  }

  lemma SameLength<T>(v: seq<T>, w: seq<T>)
    requires multiset(v) == multiset(w)
    ensures |v| == |w|
  {
    assert |multiset(v)| == |v| && |multiset(w)| == |w|;
  }

  lemma {:induction false} ToursAgree(dist: Distance, start: LatLng, pins: seq<LatLng>, v: seq<nat>, w: seq<nat>,
      n: nat)
    requires IsNearestTour(dist, start, pins, v) && IsNearestTour(dist, start, pins, w)
    requires |v| == |w| && n <= |v|
    ensures forall i :: 0 <= i < n ==> v[i] == w[i]
  {
    if n > 0 {
      ToursAgree(dist, start, pins, v, w, n - 1);
      Sequences.SamePrefix(v, w, n - 1);
      ToursAgreeNext(dist, start, pins, v, w, n - 1);
    }
  }

  lemma BeatsLater(dist: Distance, start: LatLng, pins: seq<LatLng>, v: seq<nat>, i: nat, a: nat)
    requires IsNearestTour(dist, start, pins, v) && i < a < |v|
    ensures Precedes(dist, StandsAt(start, pins, v, i), pins, v[i], v[a])
  {}

  lemma ToursAgreeNext(dist: Distance, start: LatLng, pins: seq<LatLng>, v: seq<nat>, w: seq<nat>, i: nat)
    requires IsNearestTour(dist, start, pins, v) && IsNearestTour(dist, start, pins, w)
    requires |v| == |w| && i < |v| && v[..i] == w[..i]
    ensures v[i] == w[i]
  {
    var from := StandsAt(start, pins, v, i);
    assert from == StandsAt(start, pins, w, i) by {
      assert i == 0 || v[i - 1] == v[..i][i - 1] == w[..i][i - 1] == w[i - 1];
    }
    if v[i] != w[i] {
      var a := LaterIn(v, w, i);
      BeatsLater(dist, start, pins, v, i, a);
      var b := LaterIn(w, v, i);
      BeatsLater(dist, start, pins, w, i, b);
    }
  }

  /** Two rearrangements that first differ at i: what one has there, the other has later. */
  lemma LaterIn(v: seq<nat>, w: seq<nat>, i: nat) returns (a: nat)
    requires multiset(v) == multiset(w) && |v| == |w| && i < |v|
    requires v[..i] == w[..i] && v[i] != w[i]
    ensures i < a < |v| && v[a] == w[i]
  {
    var x := w[i];
    assert v == v[..i] + v[i..] && w == w[..i] + w[i..];
    assert multiset(v) == multiset(v[..i]) + multiset(v[i..]);
    assert multiset(w) == multiset(w[..i]) + multiset(w[i..]);
    assert multiset(v[i..]) == multiset(v) - multiset(v[..i]);
    assert multiset(w[i..]) == multiset(w) - multiset(w[..i]);
    assert w[i..][0] == x;
    assert x in w[i..];
    assert x in multiset(v[i..]);
    assert x in v[i..];
    a :| i <= a < |v| && v[a] == w[i];
  }

  /** The forEach scan: the first index at the least distance. */
  method NearestIndex(dist: Distance, cursor: LatLng, remaining: seq<Stop>) returns (bestIndex: nat)
    requires AllLocated(remaining) && remaining != []
    ensures bestIndex < |remaining|
    ensures forall k :: 0 <= k < |remaining| && k != bestIndex ==>
      Precedes(dist, cursor, Points(remaining), bestIndex, k)
  {
    ghost var pins := Points(remaining);
    bestIndex := 0;
    var bestDistance: Option<real> := None;
    for index := 0 to |remaining|
      invariant index == 0 ==> bestDistance.None? && bestIndex == 0
      invariant index > 0 ==> bestIndex < index && bestDistance == Some(dist(cursor, pins[bestIndex]))
      invariant forall k :: 0 <= k < index && k != bestIndex ==> Precedes(dist, cursor, pins, bestIndex, k)
    {
      var distance := dist(cursor, remaining[index].point.value);
      assert pins[index] == remaining[index].point.value;
      ghost var previous := bestIndex;
      if bestDistance.None? || distance < bestDistance.value {
        bestDistance := Some(distance);
        bestIndex := index;
        forall k | 0 <= k < index ensures Precedes(dist, cursor, pins, index, k) {
          assert k == previous || Precedes(dist, cursor, pins, previous, k);
        }
      }
    }
  }

  function Without<T>(s: seq<T>, k: nat): seq<T>
    requires k < |s|
  {
    s[..k] + s[k + 1..]
  }

  lemma WithoutTakesOne<T>(s: seq<T>, k: nat)
    requires k < |s|
    ensures multiset(Without(s, k)) + multiset{s[k]} == multiset(s)
  {
    assert s == s[..k] + ([s[k]] + s[k + 1..]);
  }

  /** Moves the entry at m + k forward to m, past those between. */
  function Promote(order: seq<nat>, m: nat, k: nat): seq<nat>
    requires m + k < |order|
  {
    order[..m] + ([order[m + k]] + Without(order[m..], k))
  }

  lemma PromoteAt(order: seq<nat>, m: nat, k: nat, j: nat)
    requires m + k < |order| && j < |order|
    ensures |Promote(order, m, k)| == |order|
    ensures Promote(order, m, k)[j]
         == if j < m then order[j] else if j == m then order[m + k] else if j <= m + k then order[j - 1] else order[j]
  {}

  lemma PromoteKeepsEntries(order: seq<nat>, m: nat, k: nat)
    requires m + k < |order|
    ensures multiset(Promote(order, m, k)) == multiset(order)
  {
    var tail := order[m..];
    Sequences.SplitAt(tail, k);
    Sequences.MultisetMoved(order[..m], tail[k], tail[..k], tail[k + 1..]);
    assert order == order[..m] + tail;
  }

  /** Where Promote takes the entry that it puts at j. */
  function PromotedFrom(m: nat, k: nat, j: nat): nat {
    if j < m then j else if j == m then m + k else if j <= m + k then j - 1 else j
  }

  /** Visiting the nearest of the stops left extends the tour by one. */
  lemma PromoteExtendsTour(dist: Distance, start: LatLng, pins: seq<LatLng>, order: seq<nat>, m: nat, k: nat,
      order': seq<nat>)
    requires m + k < |order| == |order'| && forall i :: 0 <= i < |order| ==> order[i] < |pins|
    requires forall i :: 0 <= i < |order'| ==> order'[i] == order[PromotedFrom(m, k, i)]
    requires NearestFirst(dist, start, pins, order, m)
    requires forall j :: m <= j < |order| && j != m + k ==>
               Precedes(dist, StandsAt(start, pins, order, m), pins, order[m + k], order[j])
    ensures forall i :: 0 <= i < |order'| ==> order'[i] < |pins|
    ensures NearestFirst(dist, start, pins, order', m + 1)
  {
    forall i, j | 0 <= i < m + 1 && i < j < |order'|
      ensures Precedes(dist, StandsAt(start, pins, order', i), pins, order'[i], order'[j])
    {
      assert StandsAt(start, pins, order', i) == StandsAt(start, pins, order, i);
      var j0 := PromotedFrom(m, k, j);
      assert i < m ==> i < j0;
      assert i == m ==> m <= j0 && j0 != m + k;
    }
  }

  /** `visits` tells where in `located` the ordered stops and then the remaining ones come
      from; the remaining ones are in input order. */
  ghost predicate Tracks(located: seq<Stop>, visits: seq<nat>, ordered: seq<Stop>, remaining: seq<Stop>) {
    && |ordered| + |remaining| == |visits| == |located|
    && IsPermutation(visits, |located|)
    && (forall i :: 0 <= i < |ordered| ==> ordered[i] == located[visits[i]])
    && (forall i :: 0 <= i < |remaining| ==> remaining[i] == located[visits[|ordered| + i]])
    && (forall i, j :: |ordered| <= i < j < |visits| ==> visits[i] < visits[j])
  }

  lemma PromoteIsPermutation(visits: seq<nat>, n: nat, m: nat, k: nat)
    requires IsPermutation(visits, n) && m + k < |visits|
    ensures |Promote(visits, m, k)| == |visits|
    ensures forall j :: 0 <= j < |visits| ==> Promote(visits, m, k)[j] == visits[PromotedFrom(m, k, j)]
    ensures IsPermutation(Promote(visits, m, k), n)
  {
    PromoteKeepsEntries(visits, m, k);
    forall j | 0 <= j < |visits| ensures Promote(visits, m, k)[j] == visits[PromotedFrom(m, k, j)] {
      PromoteAt(visits, m, k, j);
    }
  }

  /** `splice` and `push` do to the stops what Promote does to their positions. */
  lemma SpliceFollowsPromote(located: seq<Stop>, visits: seq<nat>, ordered: seq<Stop>, remaining: seq<Stop>, k: nat)
    requires Tracks(located, visits, ordered, remaining) && k < |remaining|
    ensures |Promote(visits, |ordered|, k)| == |visits|
    ensures forall j :: 0 <= j < |visits| ==> Promote(visits, |ordered|, k)[j] == visits[PromotedFrom(|ordered|, k, j)]
    ensures Tracks(located, Promote(visits, |ordered|, k), ordered + [remaining[k]], Without(remaining, k))
  {
    var m := |ordered|;
    var visits' := Promote(visits, m, k);
    PromoteIsPermutation(visits, |located|, m, k);
    var remaining' := Without(remaining, k);
    forall i | 0 <= i < |remaining'| ensures remaining'[i] == located[visits'[m + 1 + i]] {
      assert remaining'[i] == remaining[if i < k then i else i + 1];
    }
  }

  /** The index found by the scan is nearest among all positions still to visit. */
  lemma ScanFindsNearest(dist: Distance, cursor: LatLng, located: seq<Stop>, visits: seq<nat>, ordered: seq<Stop>,
      remaining: seq<Stop>, k: nat)
    requires AllLocated(located) && AllLocated(remaining)
    requires Tracks(located, visits, ordered, remaining) && k < |remaining|
    requires forall i :: 0 <= i < |remaining| && i != k ==> Precedes(dist, cursor, Points(remaining), k, i)
    ensures forall j :: |ordered| <= j < |visits| && j != |ordered| + k ==>
              Precedes(dist, cursor, Points(located), visits[|ordered| + k], visits[j])
  {
    forall j | |ordered| <= j < |visits| && j != |ordered| + k
      ensures Precedes(dist, cursor, Points(located), visits[|ordered| + k], visits[j])
    {
      assert Precedes(dist, cursor, Points(remaining), k, j - |ordered|);
    }
  }

  /** One turn of the ordering loop. */
  lemma VisitNearest(dist: Distance, start: LatLng, located: seq<Stop>, visits: seq<nat>, ordered: seq<Stop>,
      remaining: seq<Stop>, k: nat)
    requires AllLocated(located) && AllLocated(remaining)
    requires Tracks(located, visits, ordered, remaining) && k < |remaining|
    requires NearestFirst(dist, start, Points(located), visits, |ordered|)
    requires forall i :: 0 <= i < |remaining| && i != k ==>
               Precedes(dist, StandsAt(start, Points(located), visits, |ordered|), Points(remaining), k, i)
    ensures
      var ordered', visits' := ordered + [remaining[k]], Promote(visits, |ordered|, k);
      && Tracks(located, visits', ordered', Without(remaining, k))
      && NearestFirst(dist, start, Points(located), visits', |ordered'|)
      && StandsAt(start, Points(located), visits', |ordered'|) == remaining[k].point.value
  {
    var pins := Points(located);
    ScanFindsNearest(dist, StandsAt(start, pins, visits, |ordered|), located, visits, ordered, remaining, k);
    SpliceFollowsPromote(located, visits, ordered, remaining, k);
    PromoteExtendsTour(dist, start, pins, visits, |ordered|, k, Promote(visits, |ordered|, k));
  }

  lemma RemainingHavePins(located: seq<Stop>, visits: seq<nat>, ordered: seq<Stop>, remaining: seq<Stop>)
    requires AllLocated(located) && Tracks(located, visits, ordered, remaining)
    ensures AllLocated(remaining)
  {}

  /** Orders the located stops by repeatedly visiting the nearest one left. */
  method NearestTour(dist: Distance, start: LatLng, located: seq<Stop>)
      returns (ordered: seq<Stop>, ghost visits: seq<nat>)
    requires AllLocated(located)
    ensures IsNearestTour(dist, start, Points(located), visits)
    ensures Tracks(located, visits, ordered, [])
    ensures multiset(ordered) == multiset(located)
  {
    ghost var pins := Points(located);
    visits := Range(|located|);
    ordered := [];
    var remaining := located;
    var cursor := start;
    while remaining != []
      invariant Tracks(located, visits, ordered, remaining)
      invariant cursor == StandsAt(start, pins, visits, |ordered|)
      invariant NearestFirst(dist, start, pins, visits, |ordered|)
      decreases |remaining|
    {
      RemainingHavePins(located, visits, ordered, remaining);
      var bestIndex := NearestIndex(dist, cursor, remaining);
      VisitNearest(dist, start, located, visits, ordered, remaining, bestIndex);
      visits := Promote(visits, |ordered|, bestIndex);
      var next := remaining[bestIndex];
      remaining := Without(remaining, bestIndex);
      ordered := ordered + [next];
      cursor := next.point.value;
    }
    PermutationKeepsStops(located, visits, ordered);
  }

  /** Orders the drop-offs. With a known start the located stops come as the nearest-neighbour
      tour, the others after them in input order; without one both keep their input order. */
  method OrderByNearestNeighbour(dist: Distance, start: Option<LatLng>, stops: seq<Stop>)
    returns (result: seq<Stop>, ghost visits: seq<nat>)
    ensures |result| == |stops| && AllLocated(Located(stops)) && |Located(stops)| <= |stops|
    ensures IsPermutation(visits, |Located(stops)|) && |visits| == |Located(stops)|
    ensures forall k :: 0 <= k < |visits| ==> result[k] == Located(stops)[visits[k]]
    ensures result[|Located(stops)|..] == Unlocated(stops)
    ensures start.None? ==> result == Located(stops) + Unlocated(stops)
    ensures start.Some? ==> IsNearestTour(dist, start.value, Points(Located(stops)), visits)
  {
    LocatedHavePins(stops);
    PartitionCounts(stops);
    var located, unlocated := Located(stops), Unlocated(stops);
    if start.None? {
      visits := Range(|located|);
      return located + unlocated, visits;
    }
    var ordered;
    ordered, visits := NearestTour(dist, start.value, located);
    result := ordered + unlocated;
  }

  /** Stops taken along a permutation are the same stops, each as often as before. */
  lemma {:induction false} PermutationKeepsStops(stops: seq<Stop>, visits: seq<nat>, picked: seq<Stop>)
    requires IsPermutation(visits, |stops|) && |picked| == |visits|
    requires forall k :: 0 <= k < |visits| ==> picked[k] == stops[visits[k]]
    ensures multiset(picked) == multiset(stops)
    decreases |stops|
  {
    var n := |stops|;
    SameLength(visits, Range(n));
    if n > 0 {
      var last := n - 1;
      var k := PositionOfLast(visits, n);
      PermutationKeepsStops(stops[..last], Without(visits, k), Without(picked, k));
      WithoutTakesOne(picked, k);
      assert stops[..last] == Without(stops, last);
      WithoutTakesOne(stops, last);
    }
  }

  lemma PositionOfLast(visits: seq<nat>, n: nat) returns (k: nat)
    requires IsPermutation(visits, n) && n > 0
    ensures k < |visits| && visits[k] == n - 1 && IsPermutation(Without(visits, k), n - 1)
  {
    var last: nat := n - 1;
    RangeEndsWith(last);
    k := Sequences.IndexOf(visits, last);
    Sequences.MultisetWithout(visits, k);
    assert multiset(Without(visits, k)) == multiset(Range(n)) - multiset{last};
    assert multiset(Without(visits, k)) == multiset(Range(last));
    RearrangedRange(Without(visits, k), last);
  }

  lemma RearrangedRange(visits: seq<nat>, n: nat)
    requires multiset(visits) == multiset(Range(n))
    ensures IsPermutation(visits, n)
  {
    Sequences.SameMembers(visits, Range(n));
  }

  lemma RangeEndsWith(last: nat)
    ensures multiset(Range(last + 1)) == multiset(Range(last)) + multiset{last}
    ensures last in multiset(Range(last + 1))
  {
    assert Range(last + 1) == Range(last) + [last];
  }

  /** So the ordering rearranges its input: no stop is lost, added or repeated. */
  lemma OrderingRearranges(stops: seq<Stop>, visits: seq<nat>, result: seq<Stop>)
    requires |result| == |stops| && |Located(stops)| <= |stops|
    requires IsPermutation(visits, |Located(stops)|) && |visits| == |Located(stops)|
    requires forall k :: 0 <= k < |visits| ==> result[k] == Located(stops)[visits[k]]
    requires result[|Located(stops)|..] == Unlocated(stops)
    ensures multiset(result) == multiset(stops)
  {
    var n := |Located(stops)|;
    PermutationKeepsStops(Located(stops), visits, result[..n]);
    PartitionKeepsStops(stops);
    assert result == result[..n] + result[n..];
  }

  // ---------------------------------------------------------------- arrival estimates

  datatype PlannedStop = PlannedStop(
    stop: Stop,
    sequence: nat,
    legDistanceMeters: Option<int>,
    etaAt: Option<int>,
    etaMinutes: Option<int>)

  datatype RoutePlan = RoutePlan(stops: seq<PlannedStop>, totalDistanceMeters: Option<int>, finalEtaAt: Option<int>)

  /** Where the i-th leg starts: the origin, or the stop before, whether or not it has a pin. */
  function LegStart(origin: Option<LatLng>, stops: seq<Stop>, i: nat): Option<LatLng>
    requires i <= |stops|
  {
    if i == 0 then origin else stops[i - 1].point
  }

  function Leg(dist: Distance, origin: Option<LatLng>, stops: seq<Stop>, i: nat): Option<int>
    requires i < |stops|
  {
    var from, to := LegStart(origin, stops, i), stops[i].point;
    if from.Some? && to.Some? then Some(LegMeters(dist, from.value, to.value)) else None
  }

  /** The origin and the first n stops all have pins. */
  predicate Pinned(origin: Option<LatLng>, stops: seq<Stop>, n: nat)
    requires n <= |stops|
  {
    origin.Some? && forall i :: 0 <= i < n ==> stops[i].point.Some?
  }

  /** Metres of the measurable legs among the first n. */
  function MetersThrough(dist: Distance, origin: Option<LatLng>, stops: seq<Stop>, n: nat): int
    requires n <= |stops|
  {
    if n == 0 then 0
    else
      var leg := Leg(dist, origin, stops, n - 1);
      MetersThrough(dist, origin, stops, n - 1) + (if leg.Some? then leg.value else 0)
  }

  /** Riding seconds of the measurable legs among the first n. */
  function SecondsThrough(dist: Distance, origin: Option<LatLng>, stops: seq<Stop>, speed: real, n: nat): int
    requires n <= |stops| && speed > 0.0
  {
    if n == 0 then 0
    else
      var leg := Leg(dist, origin, stops, n - 1);
      SecondsThrough(dist, origin, stops, speed, n - 1) + (if leg.Some? then LegSeconds(leg.value, speed) else 0)
  }

  /** Seconds from departure to arrival at stop i: the rides through i and one hand-over at
      each stop before it. */
  function ArrivalSeconds(dist: Distance, origin: Option<LatLng>, stops: seq<Stop>, speed: real, i: nat): int
    requires i < |stops| && speed > 0.0
  {
    SecondsThrough(dist, origin, stops, speed, i + 1) + STOP_DWELL_SECONDS * i
  }

  function MinutesOf(seconds: int): int {
    var m := (seconds + 59) / 60;
    if m < 1 then 1 else m
  }

  /** The closed form of one planned stop. */
  function PlannedAt(dist: Distance, origin: Option<LatLng>, stops: seq<Stop>, now: int, speed: real,
      i: nat): PlannedStop
    requires i < |stops| && speed > 0.0
  {
    var known := Pinned(origin, stops, i + 1);
    var arrival := ArrivalSeconds(dist, origin, stops, speed, i);
    PlannedStop(
      stops[i],
      i + 1,
      Leg(dist, origin, stops, i),
      if known then Some(now + arrival * 1000) else None,
      if known then Some(MinutesOf(arrival)) else None)
  }

  /** Walks the stops, carrying the rider's position, the elapsed time and what is still
      known, and ends up with the closed form. `now` and the estimates are in milliseconds. */
  method PlanRoute(dist: Distance, origin: Option<LatLng>, stops: seq<Stop>, now: int, speed: real)
    returns (plan: RoutePlan)
    requires speed > 0.0
    ensures |plan.stops| == |stops|
    ensures forall i :: 0 <= i < |stops| ==> plan.stops[i] == PlannedAt(dist, origin, stops, now, speed, i)
    ensures plan.totalDistanceMeters ==
            if stops != [] && Pinned(origin, stops, |stops|) then Some(MetersThrough(dist, origin, stops, |stops|))
              else None
    ensures plan.finalEtaAt ==
            if stops != [] && Pinned(origin, stops, |stops|)
            then Some(now + 1000 * ArrivalSeconds(dist, origin, stops, speed, |stops| - 1)) else None
  {
    var cursor := origin;
    var elapsedSeconds, totalDistance := 0, 0;
    var etaKnown, distanceKnown := origin.Some?, origin.Some?;
    var planned: seq<PlannedStop> := [];
    for i := 0 to |stops|
      invariant cursor == LegStart(origin, stops, i)
      invariant etaKnown == Pinned(origin, stops, i) && distanceKnown == etaKnown
      invariant etaKnown ==> elapsedSeconds == SecondsThrough(dist, origin, stops, speed, i) + STOP_DWELL_SECONDS * i
      invariant totalDistance == MetersThrough(dist, origin, stops, i)
      invariant |planned| == i
      invariant forall k :: 0 <= k < i ==> planned[k] == PlannedAt(dist, origin, stops, now, speed, k)
    {
      var stop := stops[i];
      var legDistanceMeters: Option<int> := None;
      if cursor.Some? && stop.point.Some? {
        legDistanceMeters := Some(LegMeters(dist, cursor.value, stop.point.value));
        totalDistance := totalDistance + legDistanceMeters.value;
      } else {
        distanceKnown := false;
      }
      assert legDistanceMeters == Leg(dist, origin, stops, i);
      assert Pinned(origin, stops, i + 1) <==> Pinned(origin, stops, i) && stop.point.Some?;
      assert Pinned(origin, stops, i) ==> cursor.Some?;
      var etaAt: Option<int> := None;
      var etaMinutes: Option<int> := None;
      if etaKnown && legDistanceMeters.Some? {
        elapsedSeconds := elapsedSeconds + LegSeconds(legDistanceMeters.value, speed);
        etaAt := Some(now + elapsedSeconds * 1000);
        etaMinutes := Some(MinutesOf(elapsedSeconds));
        elapsedSeconds := elapsedSeconds + STOP_DWELL_SECONDS;
      } else {
        etaKnown := false;
      }
      cursor := if stop.point.Some? then stop.point else cursor;
      if stop.point.None? {
        cursor := None;
      }
      planned := planned + [PlannedStop(stop, i + 1, legDistanceMeters, etaAt, etaMinutes)];
    }
    plan := RoutePlan(
      planned,
      if distanceKnown && planned != [] then Some(totalDistance) else None,
      if planned == [] then None else planned[|planned| - 1].etaAt);
  }

  /** Metres and seconds of a leg are the nearest whole numbers to the distance with its detour,
      and to the time it takes at the given speed. */
  lemma LegsAreNearest(dist: Distance, p: LatLng, q: LatLng, meters: int, speed: real)
    requires speed > 0.0
    ensures LegMeters(dist, p, q) as real - 0.5 <= dist(p, q) * 1.35 < LegMeters(dist, p, q) as real + 0.5
    ensures
      var seconds := LegSeconds(meters, speed);
      seconds as real - 0.5 <= meters as real / (speed * 1000.0 / 3600.0) < seconds as real + 0.5
  {}

  lemma LegFrom(dist: Distance, origin: LatLng, stops: seq<Stop>, i: nat)
    requires i < |stops| && forall k :: 0 <= k <= i ==> stops[k].point.Some?
    ensures
      var from := if i == 0 then origin else stops[i - 1].point.value;
      Leg(dist, Some(origin), stops, i) == Some(LegMeters(dist, from, stops[i].point.value))
  {
    assert LegStart(Some(origin), stops, i) == Some(if i == 0 then origin else stops[i - 1].point.value);
  }

  /** The first estimate is the time to ride there from the origin, every other one the hand-over
      and the ride after the one before; and the distances of the legs add up. */
  lemma EstimatesAddUp(dist: Distance, origin: LatLng, stops: seq<Stop>, now: int, speed: real, i: nat)
    requires speed > 0.0 && i < |stops| && forall k :: 0 <= k <= i ==> stops[k].point.Some?
    ensures
      var leg := LegMeters(dist, if i == 0 then origin else stops[i - 1].point.value, stops[i].point.value);
      var planned := PlannedAt(dist, Some(origin), stops, now, speed, i);
      && planned.legDistanceMeters == Some(leg)
      && MetersThrough(dist, Some(origin), stops, i + 1) ==
           leg + (if i == 0 then 0 else MetersThrough(dist, Some(origin), stops, i))
      && planned.etaAt.Some?
      && (i == 0 ==> planned.etaAt.value == now + 1000 * LegSeconds(leg, speed))
      && (i > 0 ==>
           var before := PlannedAt(dist, Some(origin), stops, now, speed, i - 1).etaAt;
           before.Some? && planned.etaAt.value == before.value + 1000 * (120 + LegSeconds(leg, speed)))
  {
    LegFrom(dist, origin, stops, i);
    assert Pinned(Some(origin), stops, i + 1);
    if i == 0 {
      assert MetersThrough(dist, Some(origin), stops, 0) == 0;
      assert SecondsThrough(dist, Some(origin), stops, speed, 0) == 0;
    }
  }

  /** The minutes shown are the least whole number that covers the time, but at least one. */
  lemma MinutesCoverTheTime(dist: Distance, origin: Option<LatLng>, stops: seq<Stop>, now: int, speed: real, i: nat)
    requires i < |stops| && speed > 0.0
    ensures
      var planned := PlannedAt(dist, origin, stops, now, speed, i);
      && planned.stop == stops[i] && planned.sequence == i + 1
      && (planned.etaMinutes.Some? <==> planned.etaAt.Some?)
      && (planned.etaAt.Some? ==>
           var minutes, wait := planned.etaMinutes.value, planned.etaAt.value - now;
           minutes >= 1 && wait <= 60_000 * minutes && (minutes > 1 ==> 60_000 * (minutes - 1) < wait))
  {}

  lemma LegIsNonNegative(dist: Distance, from: LatLng, to: LatLng, speed: real)
    requires IsDistance(dist) && speed > 0.0
    ensures LegMeters(dist, from, to) >= 0
    ensures LegSeconds(LegMeters(dist, from, to), speed) >= 0
  {
    assert dist(from, to) * DETOUR_FACTOR >= 0.0;
    var m := LegMeters(dist, from, to);
    assert m as real / (speed * 1000.0 / 3600.0) >= 0.0;
  }

  /** Estimates rise along the route, each by at least the hand-over before it. */
  lemma EtasIncrease(dist: Distance, origin: Option<LatLng>, stops: seq<Stop>, now: int, speed: real, i: nat)
    requires IsDistance(dist) && speed > 0.0 && i + 1 < |stops|
    requires PlannedAt(dist, origin, stops, now, speed, i + 1).etaAt.Some?
    ensures PlannedAt(dist, origin, stops, now, speed, i).etaAt.Some?
    ensures PlannedAt(dist, origin, stops, now, speed, i).etaAt.value + 1000 * STOP_DWELL_SECONDS
         <= PlannedAt(dist, origin, stops, now, speed, i + 1).etaAt.value
  {
    assert Pinned(origin, stops, i + 1 + 1);
    assert stops[i].point.Some? && stops[i + 1].point.Some?;
    LegIsNonNegative(dist, stops[i].point.value, stops[i + 1].point.value, speed);
  }

  // ---------------------------------------------------------------- ordering, then planning

  function EtaCount(origin: Option<LatLng>, stops: seq<Stop>, n: nat): nat
    requires n <= |stops|
  {
    if n == 0 then 0 else EtaCount(origin, stops, n - 1) + (if Pinned(origin, stops, n) then 1 else 0)
  }

  /** The estimates stop at the first stop without a pin and never resume. */
  lemma {:induction false} EtasFormAPrefix(origin: Option<LatLng>, stops: seq<Stop>, n: nat)
    requires n <= |stops|
    ensures EtaCount(origin, stops, n) <= n && (Pinned(origin, stops, n) ==> EtaCount(origin, stops, n) == n)
    ensures origin.Some? ==> Pinned(origin, stops, EtaCount(origin, stops, n))
    ensures !Pinned(origin, stops, n) && EtaCount(origin, stops, n) < n && origin.Some? ==>
              stops[EtaCount(origin, stops, n)].point.None?
    ensures origin.None? ==> EtaCount(origin, stops, n) == 0
  {
    if n > 0 {
      EtasFormAPrefix(origin, stops, n - 1);
    }
  }

  lemma {:induction false} LocatedMultiplicity(stops: seq<Stop>, s: Stop)
    ensures multiset(Located(stops))[s] == if s.point.Some? then multiset(stops)[s] else 0
  {
    if stops != [] {
      LocatedMultiplicity(stops[1..], s);
      assert stops == [stops[0]] + stops[1..];
    }
  }

  lemma LocatedIsInvariant(a: seq<Stop>, b: seq<Stop>)
    requires multiset(a) == multiset(b)
    ensures |Located(a)| == |Located(b)|
  {
    forall s ensures multiset(Located(a))[s] == multiset(Located(b))[s] {
      LocatedMultiplicity(a, s);
      LocatedMultiplicity(b, s);
    }
    assert multiset(Located(a)) == multiset(Located(b));
    assert |multiset(Located(a))| == |Located(a)|;
  }

  /** A pinned prefix is no longer than the list of located stops. */
  lemma {:induction false} PinnedPrefixFits(stops: seq<Stop>, n: nat)
    requires n <= |stops| && forall i :: 0 <= i < n ==> stops[i].point.Some?
    ensures n <= |Located(stops)|
    decreases n
  {
    if n > 0 {
      PinnedPrefixFits(stops[1..], n - 1);
    }
  }

  /** No ordering of the stops gives more of them an estimate than have a pin. */
  lemma NoOrderingDoesBetter(origin: Option<LatLng>, stops: seq<Stop>, other: seq<Stop>)
    requires multiset(other) == multiset(stops)
    ensures EtaCount(origin, other, |other|) <= |Located(stops)|
  {
    EtasFormAPrefix(origin, other, |other|);
    LocatedIsInvariant(other, stops);
    if origin.Some? {
      PinnedPrefixFits(other, EtaCount(origin, other, |other|));
    }
  }

  /** From a known origin the nearest-neighbour ordering gives every located stop an
      estimate, and no ordering of the same stops gives more. `route` is any result that
      OrderByNearestNeighbour's contract allows. */
  lemma NearestOrderingReachesEveryPin(origin: LatLng, stops: seq<Stop>, route: seq<Stop>, other: seq<Stop>)
    requires multiset(route) == multiset(stops) == multiset(other)
    requires |Located(stops)| <= |route| && AllLocated(route[..|Located(stops)|])
    ensures EtaCount(Some(origin), route, |route|) == |Located(stops)|
    ensures EtaCount(Some(origin), other, |other|) <= EtaCount(Some(origin), route, |route|)
  {
    NoOrderingDoesBetter(Some(origin), stops, other);
    NoOrderingDoesBetter(Some(origin), stops, route);
    var n := |Located(stops)|;
    assert forall i :: 0 <= i < n ==> route[i] == route[..n][i];
    assert Pinned(Some(origin), route, n);
    EtasFormAPrefix(Some(origin), route, n);
    EtaCountGrows(Some(origin), route, n, |route|);
  }

  lemma {:induction false} EtaCountGrows(origin: Option<LatLng>, stops: seq<Stop>, m: nat, n: nat)
    requires m <= n <= |stops|
    ensures EtaCount(origin, stops, m) <= EtaCount(origin, stops, n)
    decreases n
  {
    if m < n {
      EtaCountGrows(origin, stops, m, n - 1);
    }
  }

  function StopsOf(planned: seq<PlannedStop>): seq<Stop> {
    seq(|planned|, i requires 0 <= i < |planned| => planned[i].stop)
  }

  /** The route of one assignment: the vendor first unless the food is picked up, then the
      drop-offs, ordered from the vendor or else from the rider. Without a recent position,
      or with a vendor that has no pin, nothing gets an estimate; otherwise the stops with an
      estimate are exactly those with a pin, and the run as a whole has one exactly when no
      pin is missing. */
  method BuildRoute(dist: Distance, active: bool, pickup: Option<Stop>, origin: Option<LatLng>, dropoffs: seq<Stop>,
      now: int, speed: real)
      returns (plan: RoutePlan)
    requires speed > 0.0
    ensures !active ==> plan == RoutePlan([], None, None)
    ensures
      var head := if pickup.Some? then [pickup.value] else [];
      active ==> multiset(StopsOf(plan.stops)) == multiset(head) + multiset(dropoffs)
    ensures active && pickup.Some? ==> plan.stops != [] && plan.stops[0].stop == pickup.value
    ensures forall i :: 0 <= i < |plan.stops| ==>
      (plan.stops[i].etaAt.Some? <==>
        origin.Some? && plan.stops[i].stop.point.Some? && (pickup.Some? ==> pickup.value.point.Some?))
    ensures plan.finalEtaAt.Some? <==>
      plan.stops != [] && origin.Some? && forall i :: 0 <= i < |plan.stops| ==> plan.stops[i].stop.point.Some?
    ensures plan.totalDistanceMeters.Some? <==> plan.finalEtaAt.Some?
  {
    if !active {
      return RoutePlan([], None, None);
    }
    var route := DraftRoute(dist, pickup, origin, dropoffs);
    plan := PlanRoute(dist, origin, route, now, speed);
    assert StopsOf(plan.stops) == route;
    RoutePins(origin, route, if pickup.Some? then 1 else 0);
  }

  /** After the first `h` stops the pins come first. */
  ghost predicate PinsLead(route: seq<Stop>, h: nat) {
    forall i, j :: h <= i < j < |route| && route[j].point.Some? ==> route[i].point.Some?
  }

  /** The stops in the order in which they will be visited. */
  method DraftRoute(dist: Distance, pickup: Option<Stop>, origin: Option<LatLng>, dropoffs: seq<Stop>)
      returns (route: seq<Stop>)
    ensures
      var head := if pickup.Some? then [pickup.value] else [];
      && multiset(route) == multiset(head) + multiset(dropoffs)
      && head <= route && PinsLead(route, |head|)
  {
    var head := if pickup.Some? then [pickup.value] else [];
    var start := if pickup.Some? then pickup.value.point else origin;
    var ordered := OrderDropoffs(dist, start, dropoffs);
    route := head + ordered;
    PinsLeadAfterHead(head, ordered);
  }

  /** What matters of the ordering here: it rearranges the stops and puts pins first. */
  method OrderDropoffs(dist: Distance, start: Option<LatLng>, dropoffs: seq<Stop>) returns (ordered: seq<Stop>)
    ensures multiset(ordered) == multiset(dropoffs) && PinsLead(ordered, 0)
  {
    ghost var visits;
    ordered, visits := OrderByNearestNeighbour(dist, start, dropoffs);
    OrderingRearranges(dropoffs, visits, ordered);
    PinsComeFirst(Some(LatLng(0.0, 0.0)), dropoffs, visits, ordered);
  }

  lemma PinsLeadAfterHead(head: seq<Stop>, ordered: seq<Stop>)
    requires PinsLead(ordered, 0)
    ensures PinsLead(head + ordered, |head|)
  {
    var route := head + ordered;
    forall i, j | |head| <= i < j < |route| && route[j].point.Some? ensures route[i].point.Some? {
      assert route[i] == ordered[i - |head|] && route[j] == ordered[j - |head|];
    }
  }

  lemma RoutePins(origin: Option<LatLng>, route: seq<Stop>, h: nat)
    requires h <= 1 && h <= |route| && PinsLead(route, h)
    ensures forall i :: 0 <= i < |route| ==>
      (Pinned(origin, route, i + 1) <==> origin.Some? && route[i].point.Some? && (h == 1 ==> route[0].point.Some?))
  {
    forall i | 0 <= i < |route|
      ensures Pinned(origin, route, i + 1) <==>
        origin.Some? && route[i].point.Some? && (h == 1 ==> route[0].point.Some?)
    {
      if route[i].point.Some? && (h == 1 ==> route[0].point.Some?) {
        assert forall k :: h <= k < i ==> route[k].point.Some?;
        assert forall k :: 0 <= k < i + 1 ==> route[k].point.Some?;
      }
    }
  }

  /** In an ordered route the pins come first, so the k-th estimate needs k pins only. */
  lemma PinsComeFirst(origin: Option<LatLng>, stops: seq<Stop>, visits: seq<nat>, route: seq<Stop>)
    requires |route| == |stops| && AllLocated(Located(stops)) && |Located(stops)| <= |stops| && origin.Some?
    requires IsPermutation(visits, |Located(stops)|) && |visits| == |Located(stops)|
    requires forall k :: 0 <= k < |visits| ==> route[k] == Located(stops)[visits[k]]
    requires route[|Located(stops)|..] == Unlocated(stops)
    ensures forall i :: 0 <= i < |route| ==> (route[i].point.Some? <==> i < |Located(stops)|)
    ensures forall i :: 0 <= i <= |route| ==> (Pinned(origin, route, i) <==> i <= |Located(stops)|)
  {
    LocatedHavePins(stops);
    var n := |Located(stops)|;
    forall i | 0 <= i < |route| ensures route[i].point.Some? <==> i < n {
      if i >= n {
        assert route[i] == route[n..][i - n];
      }
    }
    forall i | 0 <= i <= |route| ensures Pinned(origin, route, i) <==> i <= n {
      if i > n {
        assert route[n].point.None?;
      }
    }
  }
}
