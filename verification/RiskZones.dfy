/**
 The hazard test on routes, frontend/src/features/hazard/riskZones.ts: a bounding-box test of the route's
 vertices against each dangerous zone. Coordinates are real numbers.
 */
module RiskZones {

  type Point = (real, real)
  datatype RiskLevel = Low | Moderate | High | Severe | Unknown
  datatype Zone = Zone(id: string, riskLevel: RiskLevel, polygon: seq<Point>)

  /** Numbers with the two infinities the loop starts from. */
  datatype Number = MinusInfinity | Finite(value: real) | PlusInfinity

  predicate Below(a: Number, b: Number) {
    match a
    case MinusInfinity => b != MinusInfinity
    case PlusInfinity => false
    case Finite(x) => b == PlusInfinity || (b.Finite? && x < b.value)
  }

  predicate AtMost(a: Number, b: Number) {
    a == b || Below(a, b)
  }

  predicate Dangerous(z: Zone) {
    z.riskLevel == High || z.riskLevel == Severe
  }

  // ---- what is reported ----

  /** Between vertices of the polygon in both coordinates. */
  ghost predicate InBox(p: Point, polygon: seq<Point>) {
    && (exists i :: 0 <= i < |polygon| && polygon[i].0 <= p.0)
    && (exists i :: 0 <= i < |polygon| && p.0 <= polygon[i].0)
    && (exists i :: 0 <= i < |polygon| && polygon[i].1 <= p.1)
    && (exists i :: 0 <= i < |polygon| && p.1 <= polygon[i].1)
  }

  ghost predicate Touches(route: seq<Point>, polygon: seq<Point>) {
    exists k :: 0 <= k < |route| && InBox(route[k], polygon)
  }

  /** The dangerous zones whose box holds a route vertex, in the order given. */
  ghost function Reported(route: seq<Point>, zones: seq<Zone>): seq<Zone>
    decreases |zones|
  {
    if zones == [] then []
    else
      var last := zones[|zones| - 1];
      Reported(route, zones[..|zones| - 1]) + if Dangerous(last) && Touches(route, last.polygon) then [last] else []
  }

  // ---- the loops ----

  /** lo and hi are the least and the greatest of the first n numbers. */
  ghost predicate Extremes(xs: seq<real>, n: nat, lo: Number, hi: Number) {
    && n <= |xs|
    && (n == 0 ==> lo == PlusInfinity && hi == MinusInfinity)
    && (n > 0 ==> lo.Finite? && hi.Finite?
                  && (exists i :: 0 <= i < n && xs[i] == lo.value) && (exists i :: 0 <= i < n && xs[i] == hi.value)
                  && forall i :: 0 <= i < n ==> lo.value <= xs[i] <= hi.value)
  }

  lemma ExtremesStep(xs: seq<real>, n: nat, lo: Number, hi: Number)
    requires Extremes(xs, n, lo, hi) && n < |xs|
    ensures var x := Finite(xs[n]);
            Extremes(xs, n + 1, if Below(x, lo) then x else lo, if Below(hi, x) then x else hi)
  {
    if n > 0 {
      var i :| 0 <= i < n && xs[i] == lo.value;
      var j :| 0 <= j < n && xs[j] == hi.value;
      assert xs[i] == lo.value && xs[j] == hi.value && xs[n] == xs[n];
    } else {
      assert xs[0] == xs[n];
    }
  }

  lemma ExtremesBound(xs: seq<real>, lo: Number, hi: Number, x: real)
    requires Extremes(xs, |xs|, lo, hi)
    ensures AtMost(lo, Finite(x)) <==> exists i :: 0 <= i < |xs| && xs[i] <= x
    ensures AtMost(Finite(x), hi) <==> exists i :: 0 <= i < |xs| && x <= xs[i]
  {
  }

  ghost function Longitudes(polygon: seq<Point>): seq<real> {
    seq(|polygon|, i requires 0 <= i < |polygon| => polygon[i].0)
  }

  ghost function Latitudes(polygon: seq<Point>): seq<real> {
    seq(|polygon|, i requires 0 <= i < |polygon| => polygon[i].1)
  }

  lemma BoxIff(polygon: seq<Point>, minLon: Number, maxLon: Number, minLat: Number, maxLat: Number, p: Point)
    requires Extremes(Longitudes(polygon), |polygon|, minLon, maxLon)
    requires Extremes(Latitudes(polygon), |polygon|, minLat, maxLat)
    ensures AtMost(minLon, Finite(p.0)) && AtMost(Finite(p.0), maxLon) && AtMost(minLat, Finite(p.1)) && AtMost(Finite(p.1), maxLat)
            <==> InBox(p, polygon)
  {
    var lons, lats := Longitudes(polygon), Latitudes(polygon);
    ExtremesBound(lons, minLon, maxLon, p.0);
    ExtremesBound(lats, minLat, maxLat, p.1);
    assert forall i :: 0 <= i < |polygon| ==> lons[i] == polygon[i].0 && lats[i] == polygon[i].1;
  }

  method Crosses(route: seq<Point>, polygon: seq<Point>) returns (crosses: bool)
    ensures crosses <==> Touches(route, polygon)
  {
    var minLon, maxLon, minLat, maxLat := PlusInfinity, MinusInfinity, PlusInfinity, MinusInfinity;
    ghost var lons, lats := Longitudes(polygon), Latitudes(polygon);
    for n := 0 to |polygon|
      invariant Extremes(lons, n, minLon, maxLon) && Extremes(lats, n, minLat, maxLat)
    {
      ExtremesStep(lons, n, minLon, maxLon);
      ExtremesStep(lats, n, minLat, maxLat);
      var lon, lat := Finite(polygon[n].0), Finite(polygon[n].1);
      if Below(lon, minLon) { minLon := lon; }
      if Below(maxLon, lon) { maxLon := lon; }
      if Below(lat, minLat) { minLat := lat; }
      if Below(maxLat, lat) { maxLat := lat; }
    }
    for k := 0 to |route|
      invariant forall j :: 0 <= j < k ==> !InBox(route[j], polygon)
    {
      var lon, lat := Finite(route[k].0), Finite(route[k].1);
      BoxIff(polygon, minLon, maxLon, minLat, maxLat, route[k]);
      if AtMost(minLon, lon) && AtMost(lon, maxLon) && AtMost(minLat, lat) && AtMost(lat, maxLat) {
        return true;
      }
    }
    crosses := false;
  }

  method RouteCrossesHighRisk(route: seq<Point>, zones: seq<Zone>) returns (hits: seq<Zone>)
    ensures hits == Reported(route, zones)
  {
    hits := [];
    for n := 0 to |zones|
      invariant hits == Reported(route, zones[..n])
    {
      assert zones[..n + 1][..n] == zones[..n];
      if Dangerous(zones[n]) {
        var crosses := Crosses(route, zones[n].polygon);
        if crosses {
          hits := hits + [zones[n]];
        }
      }
    }
    assert zones[..|zones|] == zones;
  }

  /** Reported are exactly the HIGH and SEVERE zones whose box holds a vertex of the route. */
  lemma {:induction false} ReportedIff(route: seq<Point>, zones: seq<Zone>, z: Zone)
    ensures z in Reported(route, zones)
            <==> z in zones && (z.riskLevel == High || z.riskLevel == Severe) && Touches(route, z.polygon)
    decreases |zones|
  {
    if zones != [] {
      var n := |zones| - 1;
      ReportedIff(route, zones[..n], z);
      assert zones == zones[..n] + [zones[n]];
    }
  }

  lemma ReportedOne(route: seq<Point>, z: Zone)
    ensures Reported(route, [z]) == if (z.riskLevel == High || z.riskLevel == Severe) && Touches(route, z.polygon) then [z] else []
  {
    assert [z][..0] == [];
  }

  /** Each zone is judged by itself, and the reports keep the order and number of the zones given. */
  lemma {:induction false} ReportedAppend(route: seq<Point>, a: seq<Zone>, b: seq<Zone>)
    ensures Reported(route, a + b) == Reported(route, a) + Reported(route, b)
    decreases |b|
  {
    if b == [] {
      assert a + b == a;
    } else {
      var n := |b| - 1;
      ReportedAppend(route, a, b[..n]);
      ReportedStep(route, a, b[..n], b[n]);
      assert b == b[..n] + [b[n]];
    }
  }

  lemma ReportedStep(route: seq<Point>, a: seq<Zone>, b: seq<Zone>, z: Zone)
    requires Reported(route, a + b) == Reported(route, a) + Reported(route, b)
    ensures Reported(route, a + (b + [z])) == Reported(route, a) + Reported(route, b + [z])
  {
    ReportedLast(route, a + b, z);
    ReportedLast(route, b, z);
    assert a + (b + [z]) == (a + b) + [z];
  }

  lemma ReportedLast(route: seq<Point>, zones: seq<Zone>, z: Zone)
    ensures Reported(route, zones + [z]) == Reported(route, zones) + Reported(route, [z])
  {
    assert (zones + [z])[..|zones|] == zones && [z][..0] == [];
  }

  // ---- soundness for the zone's shape ----

  function Total(weights: seq<real>): real {
    if weights == [] then 0.0 else weights[0] + Total(weights[1..])
  }

  function Mean(weights: seq<real>, xs: seq<real>): real
    requires |weights| == |xs|
  {
    if weights == [] then 0.0 else weights[0] * xs[0] + Mean(weights[1..], xs[1..])
  }

  /** p is a weighted mean of the polygon's vertices: a point of its convex hull, so of the polygon itself. */
  ghost predicate InHull(p: Point, polygon: seq<Point>) {
    exists weights: seq<real> :: HullWeights(p, polygon, weights)
  }

  ghost predicate HullWeights(p: Point, polygon: seq<Point>, weights: seq<real>) {
    && |weights| == |polygon|
    && (forall i :: 0 <= i < |weights| ==> weights[i] >= 0.0)
    && Total(weights) == 1.0
    && Mean(weights, Longitudes(polygon)) == p.0
    && Mean(weights, Latitudes(polygon)) == p.1
  }

  lemma {:induction false} MeanBound(weights: seq<real>, xs: seq<real>, lo: real, hi: real)
    requires |weights| == |xs| && forall i :: 0 <= i < |xs| ==> weights[i] >= 0.0 && lo <= xs[i] <= hi
    ensures Bounds(lo, hi, Total(weights), Mean(weights, xs))
    decreases |weights|
  {
    if weights == [] {
      BoundZero(lo, hi, Total(weights), Mean(weights, xs));
    } else {
      MeanBound(weights[1..], xs[1..], lo, hi);
      BoundStep(weights[0], xs[0], lo, hi, Total(weights[1..]), Mean(weights[1..], xs[1..]), Total(weights), Mean(weights, xs));
    }
  }

  predicate Bounds(lo: real, hi: real, total: real, mean: real) {
    lo * total <= mean <= hi * total
  }

  lemma BoundZero(lo: real, hi: real, total: real, mean: real)
    requires total == 0.0 && mean == 0.0
    ensures Bounds(lo, hi, total, mean)
  {
  }

  lemma BoundStep(w: real, x: real, lo: real, hi: real, total: real, mean: real, total': real, mean': real)
    requires w >= 0.0 && lo <= x <= hi && Bounds(lo, hi, total, mean)
    requires total' == w + total && mean' == w * x + mean
    ensures Bounds(lo, hi, total', mean')
  {
    Product(w, x - lo);
    Product(w, hi - x);
    assert lo * total' == lo * w + lo * total && hi * total' == hi * w + hi * total;
    assert w * (x - lo) == w * x - lo * w && w * (hi - x) == hi * w - w * x;
  }

  lemma Product(x: real, y: real)
    requires x >= 0.0 && y >= 0.0
    ensures x * y >= 0.0
  {
  }

  lemma {:induction false} ExtremesExist(xs: seq<real>, n: nat) returns (lo: Number, hi: Number)
    requires n <= |xs|
    ensures Extremes(xs, n, lo, hi)
  {
    if n == 0 {
      lo, hi := PlusInfinity, MinusInfinity;
    } else {
      lo, hi := ExtremesExist(xs, n - 1);
      ExtremesStep(xs, n - 1, lo, hi);
      var x := Finite(xs[n - 1]);
      lo, hi := if Below(x, lo) then x else lo, if Below(hi, x) then x else hi;
    }
  }

  lemma MeanWithin(weights: seq<real>, xs: seq<real>)
    requires |weights| == |xs| && (forall i :: 0 <= i < |xs| ==> weights[i] >= 0.0) && Total(weights) == 1.0
    ensures exists i :: 0 <= i < |xs| && xs[i] <= Mean(weights, xs)
    ensures exists i :: 0 <= i < |xs| && Mean(weights, xs) <= xs[i]
  {
    var lo, hi := ExtremesExist(xs, |xs|);
    MeanBound(weights, xs, lo.value, hi.value);
  }

  lemma HullInBox(p: Point, polygon: seq<Point>)
    requires InHull(p, polygon)
    ensures InBox(p, polygon)
  {
    var weights :| HullWeights(p, polygon, weights);
    var lons, lats := Longitudes(polygon), Latitudes(polygon);
    MeanWithin(weights, lons);
    MeanWithin(weights, lats);
    assert forall i :: 0 <= i < |polygon| ==> lons[i] == polygon[i].0 && lats[i] == polygon[i].1;
  }

  /** A dangerous zone with a vertex of the route in its hull is never missed. */
  lemma VertexNeverMissed(route: seq<Point>, zones: seq<Zone>, z: Zone, k: nat)
    requires z in zones && Dangerous(z) && k < |route| && InHull(route[k], z.polygon)
    ensures z in Reported(route, zones)
  {
    HullInBox(route[k], z.polygon);
    ReportedIff(route, zones, z);
  }

  // ---- legs between vertices ----

  function Between(a: real, b: real, s: real): real {
    a + s * (b - a)
  }

  function Along(a: Point, b: Point, s: real): Point {
    (Between(a.0, b.0, s), Between(a.1, b.1, s))
  }

  /** Some point of the leg is in the box. */
  ghost predicate LegMeets(a: Point, b: Point, polygon: seq<Point>) {
    exists s: real :: 0.0 <= s <= 1.0 && InBox(Along(a, b, s), polygon)
  }

  datatype Box = Box(minLon: real, maxLon: real, minLat: real, maxLat: real)

  ghost predicate IsBox(box: Box, polygon: seq<Point>) {
    && polygon != []
    && Extremes(Longitudes(polygon), |polygon|, Finite(box.minLon), Finite(box.maxLon))
    && Extremes(Latitudes(polygon), |polygon|, Finite(box.minLat), Finite(box.maxLat))
  }

  predicate Inside(p: Point, box: Box) {
    box.minLon <= p.0 <= box.maxLon && box.minLat <= p.1 <= box.maxLat
  }

  /** The fraction of a leg at which one coordinate enters a range; past its end if it never does. */
  function Enter(from: real, step: real, lo: real, hi: real): real {
    if step > 0.0 then (lo - from) / step
    else if step < 0.0 then (hi - from) / step
    else if lo <= from <= hi then 0.0 else 2.0
  }

  function Leave(from: real, step: real, lo: real, hi: real): real {
    if step > 0.0 then (hi - from) / step
    else if step < 0.0 then (lo - from) / step
    else 1.0
  }

  /** Whether a leg passes through a box, by arithmetic on its ends. */
  predicate LegTest(a: Point, b: Point, box: Box) {
    var x, y := Enter(a.0, b.0 - a.0, box.minLon, box.maxLon), Enter(a.1, b.1 - a.1, box.minLat, box.maxLat);
    var x', y' := Leave(a.0, b.0 - a.0, box.minLon, box.maxLon), Leave(a.1, b.1 - a.1, box.minLat, box.maxLat);
    && x <= 1.0 && y <= 1.0 && 0.0 <= x' && 0.0 <= y'
    && x <= x' && x <= y' && y <= x' && y <= y'
  }

  lemma Distribute(x: real, y: real, d: real)
    ensures (y - x) * d == y * d - x * d
  {
  }

  lemma ScaleIff(x: real, y: real, d: real)
    requires d > 0.0
    ensures x <= y <==> x * d <= y * d
  {
    Distribute(x, y, d);
    if x <= y {
      Product(y - x, d);
    } else {
      StrictProduct(x - y, d);
      Distribute(y, x, d);
    }
  }

  lemma Quotient(n: real, d: real, s: real)
    requires d != 0.0
    ensures d > 0.0 ==> (n / d <= s <==> n <= s * d) && (s <= n / d <==> s * d <= n)
    ensures d < 0.0 ==> (n / d <= s <==> s * d <= n) && (s <= n / d <==> n <= s * d)
  {
    var q := n / d;
    assert q * d == n;
    if d > 0.0 {
      ScaleIff(q, s, d);
      ScaleIff(s, q, d);
    } else {
      ScaleIff(q, s, -d);
      ScaleIff(s, q, -d);
      assert q * -d == -(q * d) && s * -d == -(s * d);
    }
  }

  lemma StrictProduct(x: real, y: real)
    requires x > 0.0 && y > 0.0
    ensures x * y > 0.0
  {
  }

  predicate InSlab(from: real, to: real, lo: real, hi: real, s: real) {
    Enter(from, to - from, lo, hi) <= s <= Leave(from, to - from, lo, hi)
  }

  lemma StepIff(from: real, step: real, lo: real, hi: real, s: real)
    requires 0.0 <= s <= 1.0
    ensures lo <= from + s * step <= hi <==> Enter(from, step, lo, hi) <= s <= Leave(from, step, lo, hi)
  {
    if step != 0.0 {
      Quotient(lo - from, step, s);
      Quotient(hi - from, step, s);
    }
  }

  lemma SlabIff(from: real, to: real, lo: real, hi: real, s: real)
    requires 0.0 <= s <= 1.0
    ensures lo <= Between(from, to, s) <= hi <==> InSlab(from, to, lo, hi, s)
  {
    StepIff(from, to - from, lo, hi, s);
  }

  lemma InsideIff(p: Point, box: Box, polygon: seq<Point>)
    requires IsBox(box, polygon)
    ensures Inside(p, box) <==> InBox(p, polygon)
  {
    BoxIff(polygon, Finite(box.minLon), Finite(box.maxLon), Finite(box.minLat), Finite(box.maxLat), p);
  }

  lemma AlongIff(a: Point, b: Point, box: Box, s: real)
    requires 0.0 <= s <= 1.0
    ensures Inside(Along(a, b, s), box)
            <==> InSlab(a.0, b.0, box.minLon, box.maxLon, s) && InSlab(a.1, b.1, box.minLat, box.maxLat, s)
  {
    SlabIff(a.0, b.0, box.minLon, box.maxLon, s);
    SlabIff(a.1, b.1, box.minLat, box.maxLat, s);
  }

  function Largest(x: real, y: real): real {
    var m := if x < y then y else x;
    if m < 0.0 then 0.0 else m
  }

  /** The arithmetic test finds exactly the legs that meet the box. */
  lemma LegTestIff(a: Point, b: Point, box: Box, polygon: seq<Point>)
    requires IsBox(box, polygon)
    ensures LegMeets(a, b, polygon) <==> LegTest(a, b, box)
  {
    if LegMeets(a, b, polygon) {
      var s: real :| 0.0 <= s <= 1.0 && InBox(Along(a, b, s), polygon);
      InsideIff(Along(a, b, s), box, polygon);
      AlongIff(a, b, box, s);
    }
    if LegTest(a, b, box) {
      var s := Largest(Enter(a.0, b.0 - a.0, box.minLon, box.maxLon), Enter(a.1, b.1 - a.1, box.minLat, box.maxLat));
      TestedFraction(a, b, box, s);
      InsideIff(Along(a, b, s), box, polygon);
    }
  }

  lemma TestedFraction(a: Point, b: Point, box: Box, s: real)
    requires LegTest(a, b, box)
    requires s == Largest(Enter(a.0, b.0 - a.0, box.minLon, box.maxLon), Enter(a.1, b.1 - a.1, box.minLat, box.maxLat))
    ensures 0.0 <= s <= 1.0 && Inside(Along(a, b, s), box)
  {
    AlongIff(a, b, box, s);
  }

  ghost predicate SomeLegMeets(route: seq<Point>, polygon: seq<Point>) {
    exists k :: 0 <= k < |route| - 1 && LegMeets(route[k], route[k + 1], polygon)
  }

  lemma TouchMeets(route: seq<Point>, polygon: seq<Point>)
    requires |route| >= 2 && Touches(route, polygon)
    ensures SomeLegMeets(route, polygon)
  {
    var k :| 0 <= k < |route| && InBox(route[k], polygon);
    if k < |route| - 1 {
      assert Along(route[k], route[k + 1], 0.0) == route[k];
      assert LegMeets(route[k], route[k + 1], polygon);
    } else {
      assert Along(route[k - 1], route[k - 1 + 1], 1.0) == route[k];
      assert LegMeets(route[k - 1], route[k - 1 + 1], polygon);
    }
  }

  /** What the comment on the function asks, whether a leg meets the zone's box, by arithmetic on the ends of the legs. */
  lemma SomeLegIff(route: seq<Point>, polygon: seq<Point>, box: Box)
    requires IsBox(box, polygon)
    ensures SomeLegMeets(route, polygon) <==> exists k :: 0 <= k < |route| - 1 && LegTest(route[k], route[k + 1], box)
  {
    forall k | 0 <= k < |route| - 1 ensures LegMeets(route[k], route[k + 1], polygon) <==> LegTest(route[k], route[k + 1], box) {
      LegTestIff(route[k], route[k + 1], box, polygon);
    }
  }

  /**
   The comment on the function speaks of legs. The vertex test tells whether some leg meets the box if and
   only if some vertex is inside it or no leg passes the arithmetic test.
   */
  lemma LegsSeenIff(route: seq<Point>, polygon: seq<Point>, box: Box)
    requires |route| >= 2 && IsBox(box, polygon)
    ensures (Touches(route, polygon) <==> SomeLegMeets(route, polygon))
            <==> (exists k :: 0 <= k < |route| && Inside(route[k], box))
                 || (forall k :: 0 <= k < |route| - 1 ==> !LegTest(route[k], route[k + 1], box))
  {
    forall k | 0 <= k < |route| ensures Inside(route[k], box) <==> InBox(route[k], polygon) {
      InsideIff(route[k], box, polygon);
    }
    SomeLegIff(route, polygon, box);
    if Touches(route, polygon) {
      TouchMeets(route, polygon);
    }
  }

  lemma BoxOf(p: Point, polygon: seq<Point>, i: nat, j: nat)
    requires i < |polygon| && j < |polygon|
    requires polygon[i].0 <= p.0 <= polygon[j].0 && polygon[i].1 <= p.1 <= polygon[j].1
    ensures InBox(p, polygon)
  {
  }

  lemma NothingReported(route: seq<Point>, z: Zone)
    requires !Touches(route, z.polygon)
    ensures Reported(route, [z]) == []
  {
    ReportedOne(route, z);
  }

  /** A leg that runs straight through a zone unreported. */
  lemma LegCanBeMissed(a: Point, b: Point, z: Zone)
    requires a == (0.0, 0.0) && b == (3.0, 0.0)
    requires z == Zone("z", Severe, [(1.0, -1.0), (2.0, -1.0), (2.0, 1.0), (1.0, 1.0)])
    ensures LegMeets(a, b, z.polygon) && Reported([a, b], [z]) == []
  {
    var g := z.polygon;
    BoxOf(Along(a, b, 0.5), g, 0, 2);
    assert forall i :: 0 <= i < |g| ==> 0.0 < g[i].0 < 3.0;
    NothingReported([a, b], z);
  }
}
