/**
 Road geometry enrichment, backend/app/scripts/densify_seed_road_geometry.py. The routing server is an
 arbitrary answer for each edge and run; the straight-line distance is an arbitrary non-negative function.
 */
module Densify {
  import opened Common

  type Id = nat
  type Point = (real, real)
  type Length = x: real | 0.0 <= x witness 0.0

  /** A fetched polyline with its length; shorter ones are no answer. */
  type Shape = c: seq<Point> | |c| >= 2 witness [(0.0, 0.0), (0.0, 0.0)]
  datatype Answer = Answer(coords: Shape, length: real)
  type Run = Id -> Option<Answer>

  datatype Edge = Edge(
    source: Id,
    target: Id,
    speedLimit: int,
    geometry: seq<Point>,
    length: real,
    baseSeconds: real,
    reverseSeconds: Option<real>)

  /** Node positions and the distance between points, both fixed from run to run. */
  datatype Terrain = Terrain(nodes: map<Id, Point>, distance: (Point, Point) -> Length)

  predicate OnTerrain(e: Edge, t: Terrain) {
    e.source in t.nodes && e.target in t.nodes
  }

  function Straight(e: Edge, t: Terrain): Length
    requires OnTerrain(e, t)
  {
    t.distance(t.nodes[e.source], t.nodes[e.target])
  }

  predicate Plausible(length: real, straight: Length) {
    var ratio := if straight > 0.0 then length / straight else 0.0;
    0.95 <= ratio <= 5.0
  }

  predicate Rejected(e: Edge, t: Terrain, answer: Option<Answer>)
    requires OnTerrain(e, t)
  {
    answer.Some? && !Plausible(answer.value.length, Straight(e, t))
  }

  predicate Accepted(e: Edge, t: Terrain, answer: Option<Answer>)
    requires OnTerrain(e, t)
  {
    answer.Some? && Plausible(answer.value.length, Straight(e, t))
  }

  predicate OneWay(e: Edge) {
    e.reverseSeconds.Some? && e.reverseSeconds.value <= 0.0
  }

  function Seconds(length: real, speedLimit: int): real {
    var speed := speedLimit as real * 1000.0 / 3600.0;
    if speed > 0.0 then length / speed else length
  }

  /** The shape between two nodes: the answer pulled onto them, or the straight line. */
  function Snapped(coords: Shape, first: Point, last: Point): Shape {
    coords[0 := first][|coords| - 1 := last]
  }

  /** What one pass stores for an edge. */
  function Densified(e: Edge, t: Terrain, answer: Option<Answer>): Edge
    requires OnTerrain(e, t)
  {
    var first, last := t.nodes[e.source], t.nodes[e.target];
    var ok := Accepted(e, t, answer);
    var length := if ok then answer.value.length else Straight(e, t);
    var base := Seconds(length, e.speedLimit);
    e.(geometry := if ok then Snapped(answer.value.coords, first, last) else [first, last],
       length := length,
       baseSeconds := base,
       reverseSeconds := if OneWay(e) then e.reverseSeconds else Some(base))
  }

  ghost predicate Grounded(edges: map<Id, Edge>, t: Terrain) {
    forall id :: id in edges ==> OnTerrain(edges[id], t)
  }

  function Pass(edges: map<Id, Edge>, t: Terrain, run: Run): (after: map<Id, Edge>)
    requires Grounded(edges, t)
    ensures after.Keys == edges.Keys && Grounded(after, t)
  {
    map id | id in edges :: Densified(edges[id], t, run(id))
  }

  function RejectedCount(edges: map<Id, Edge>, t: Terrain, run: Run, rows: seq<Id>): nat
    requires Grounded(edges, t) && forall i :: 0 <= i < |rows| ==> rows[i] in edges
    decreases |rows|
  {
    if rows == [] then 0
    else
      var last := rows[|rows| - 1];
      RejectedCount(edges, t, run, rows[..|rows| - 1]) + if Rejected(edges[last], t, run(last)) then 1 else 0
  }

  /** The answer's shape with its ends on the two nodes, and its own inner points. */
  predicate Pulled(geometry: seq<Point>, coords: Shape, first: Point, last: Point) {
    && |geometry| == |coords| && geometry[0] == first && geometry[|geometry| - 1] == last
    && forall i :: 0 < i < |coords| - 1 ==> geometry[i] == coords[i]
  }

  /** The time at the speed limit, in km/h over metres; the length itself where there is no limit. */
  lemma SecondsAtLimit(length: real, speedLimit: int)
    ensures speedLimit > 0 ==> Seconds(length, speedLimit) * (speedLimit as real) * 1000.0 == length * 3600.0
    ensures speedLimit <= 0 ==> Seconds(length, speedLimit) == length
  {
    var speed := speedLimit as real * 1000.0 / 3600.0;
    if speedLimit > 0 {
      var seconds := length / speed;
      assert seconds * speed == length;
      assert seconds * (speedLimit as real) * 1000.0 == seconds * (speed * 3600.0);
      Associates(seconds, speed, 3600.0);
    }
  }

  lemma Associates(x: real, y: real, z: real)
    ensures x * (y * z) == (x * y) * z
  {
  }

  /** The body of the loop over edges: the values of one update statement. */
  method DensifyEdge(t: Terrain, row: Edge, result: Option<Answer>) returns (stored: Edge, rejected: nat)
    requires OnTerrain(row, t)
    ensures stored == Densified(row, t, result)
    ensures rejected == if Rejected(row, t, result) then 1 else 0
    ensures var first, last := t.nodes[row.source], t.nodes[row.target];
            var straight := t.distance(first, last);
            if result.Some? && straight > 0.0 && 0.95 <= result.value.length / straight <= 5.0 then
              rejected == 0 && stored.length == result.value.length && Pulled(stored.geometry, result.value.coords, first, last)
            else
              && stored.length == straight && stored.geometry == [first, last]
              && (rejected == 1 <==> result.Some?)
    ensures row.speedLimit > 0 ==> stored.baseSeconds * (row.speedLimit as real) * 1000.0 == stored.length * 3600.0
    ensures row.speedLimit <= 0 ==> stored.baseSeconds == stored.length
    ensures if row.reverseSeconds.Some? && row.reverseSeconds.value <= 0.0
            then stored.reverseSeconds == row.reverseSeconds else stored.reverseSeconds == Some(stored.baseSeconds)
    ensures stored.source == row.source && stored.target == row.target && stored.speedLimit == row.speedLimit
  {
    rejected := 0;
    var first, last := t.nodes[row.source], t.nodes[row.target];
    var straight := t.distance(first, last);
    var coords, length := [first, last], straight;
    if result.Some? {
      var ratio := if straight > 0.0 then result.value.length / straight else 0.0;
      if 0.95 <= ratio <= 5.0 {
        coords := result.value.coords;
        coords := coords[0 := first];
        coords := coords[|coords| - 1 := last];
        length := result.value.length;
      } else {
        rejected := 1;
      }
    }
    var speed := row.speedLimit as real * 1000.0 / 3600.0;
    var base := if speed > 0.0 then length / speed else length;
    var wasOneWay := row.reverseSeconds.Some? && row.reverseSeconds.value <= 0.0;
    var reverse := if wasOneWay then row.reverseSeconds else Some(base);
    SecondsAtLimit(length, row.speedLimit);
    stored := row.(geometry := coords, length := length, baseSeconds := base, reverseSeconds := reverse);
  }

  class Network {
    var edges: map<Id, Edge>

    constructor (initial: map<Id, Edge>)
      ensures edges == initial
    {
      edges := initial;
    }

    /** One run over the edge rows; foreign keys keep every edge on existing nodes. */
    method Densify(t: Terrain, run: Run, rows: seq<Id>) returns (updated: nat, rejected: nat)
      requires Grounded(edges, t)
      requires Distinct(rows) && (forall i :: 0 <= i < |rows| ==> rows[i] in edges) && forall id :: id in edges ==> id in rows
      modifies this
      ensures edges == Pass(old(edges), t, run)
      ensures updated == |rows|
      ensures rejected == RejectedCount(old(edges), t, run, rows)
      ensures rejected == |Refused(old(edges), t, run)|
    {
      RefusedCount(edges, t, run, rows);
      updated, rejected := DensifyRows(t, run, rows, Pass(edges, t, run));
    }

    /** The loop, against the map it works towards. */
    method DensifyRows(t: Terrain, run: Run, rows: seq<Id>, ghost goal: map<Id, Edge>) returns (updated: nat, rejected: nat)
      requires Grounded(edges, t) && goal.Keys == edges.Keys
      requires Distinct(rows) && (forall i :: 0 <= i < |rows| ==> rows[i] in edges) && forall id :: id in edges ==> id in rows
      requires forall id :: id in edges ==> goal[id] == Densified(edges[id], t, run(id))
      modifies this
      ensures edges == goal
      ensures updated == |rows|
      ensures rejected == RejectedCount(old(edges), t, run, rows)
    {
      updated, rejected := 0, 0;
      ghost var before := edges;
      for n := 0 to |rows|
        invariant updated == n
        invariant Halfway(before, goal, edges, rows, n)
        invariant rejected == RejectedCount(before, t, run, rows[..n])
      {
        var id := rows[n];
        assert edges[id] == before[id];
        var stored, refused := DensifyEdge(t, edges[id], run(id));
        HalfwayStep(before, goal, edges, rows, n);
        CountStep(before, t, run, rows, n);
        edges := edges[id := stored];
        rejected := rejected + refused;
        updated := updated + 1;
      }
      assert rows[..|rows|] == rows;
    }
  }

  /** The first n rows are rewritten, the others are as they were. */
  ghost predicate Halfway(before: map<Id, Edge>, goal: map<Id, Edge>, now: map<Id, Edge>, rows: seq<Id>, n: nat) {
    && now.Keys == before.Keys == goal.Keys
    && n <= |rows|
    && (forall i :: 0 <= i < |rows| ==> rows[i] in before)
    && (forall i :: 0 <= i < n ==> now[rows[i]] == goal[rows[i]])
    && (forall i :: n <= i < |rows| ==> now[rows[i]] == before[rows[i]])
  }

  lemma HalfwayStep(before: map<Id, Edge>, goal: map<Id, Edge>, now: map<Id, Edge>, rows: seq<Id>, n: nat)
    requires Halfway(before, goal, now, rows, n) && n < |rows| && Distinct(rows)
    ensures Halfway(before, goal, now[rows[n] := goal[rows[n]]], rows, n + 1)
  {
  }

  lemma CountStep(edges: map<Id, Edge>, t: Terrain, run: Run, rows: seq<Id>, n: nat)
    requires Grounded(edges, t) && (forall i :: 0 <= i < |rows| ==> rows[i] in edges) && n < |rows|
    ensures RejectedCount(edges, t, run, rows[..n + 1])
            == RejectedCount(edges, t, run, rows[..n]) + if Rejected(edges[rows[n]], t, run(rows[n])) then 1 else 0
  {
    assert rows[..n + 1][..n] == rows[..n];
  }

  /** The edges that got an answer whose length is out of proportion, or that join two nodes at one place. */
  function Refused(edges: map<Id, Edge>, t: Terrain, run: Run): (ids: set<Id>)
    requires Grounded(edges, t)
    ensures ids <= edges.Keys
  {
    set id | id in edges && run(id).Some?
             && OutOfProportion(run(id).value.length, t.distance(t.nodes[edges[id].source], t.nodes[edges[id].target]))
  }

  predicate OutOfProportion(length: real, straight: Length) {
    straight == 0.0 || length < 0.95 * straight || length > 5.0 * straight
  }

  lemma PlausibleIff(length: real, straight: Length)
    ensures Plausible(length, straight) <==> !OutOfProportion(length, straight)
  {
    if straight > 0.0 {
      var ratio := length / straight;
      assert ratio * straight == length;
      if ratio < 0.95 {
        StrictProduct(0.95 - ratio, straight);
      } else if ratio > 5.0 {
        StrictProduct(ratio - 5.0, straight);
      } else {
        RatioBounds(ratio, straight, length);
      }
    }
  }

  lemma StrictProduct(x: real, y: real)
    requires x > 0.0 && y > 0.0
    ensures x * y > 0.0
  {
  }

  lemma {:induction false} CountIsSet(edges: map<Id, Edge>, t: Terrain, run: Run, rows: seq<Id>, refused: set<Id>)
    requires Grounded(edges, t) && Distinct(rows) && forall i :: 0 <= i < |rows| ==> rows[i] in edges
    requires forall i :: 0 <= i < |rows| ==> (Rejected(edges[rows[i]], t, run(rows[i])) <==> rows[i] in refused)
    ensures RejectedCount(edges, t, run, rows) == |Elements(rows) * refused|
    decreases |rows|
  {
    if rows != [] {
      var n := |rows| - 1;
      CountIsSet(edges, t, run, rows[..n], refused);
      CountLast(edges, t, run, rows, rows[n] in refused);
      ElementsLast(rows, refused);
    }
  }

  lemma CountLast(edges: map<Id, Edge>, t: Terrain, run: Run, rows: seq<Id>, refused: bool)
    requires Grounded(edges, t) && rows != [] && forall i :: 0 <= i < |rows| ==> rows[i] in edges
    requires Rejected(edges[rows[|rows| - 1]], t, run(rows[|rows| - 1])) <==> refused
    ensures RejectedCount(edges, t, run, rows)
            == RejectedCount(edges, t, run, rows[..|rows| - 1]) + if refused then 1 else 0
  {
  }

  lemma ElementsLast(rows: seq<Id>, s: set<Id>)
    requires rows != [] && Distinct(rows)
    ensures var last := rows[|rows| - 1];
            |Elements(rows) * s| == |Elements(rows[..|rows| - 1]) * s| + if last in s then 1 else 0
  {
    var n := |rows| - 1;
    assert rows == rows[..n] + [rows[n]] && rows[n] !in Elements(rows[..n]);
    assert Elements(rows) * s == Elements(rows[..n]) * s + if rows[n] in s then {rows[n]} else {};
  }

  lemma RejectedIff(edges: map<Id, Edge>, t: Terrain, run: Run, id: Id)
    requires Grounded(edges, t) && id in edges
    ensures Rejected(edges[id], t, run(id)) <==> id in Refused(edges, t, run)
  {
    if run(id).Some? {
      PlausibleIff(run(id).value.length, Straight(edges[id], t));
    }
  }

  lemma RejectedRows(edges: map<Id, Edge>, t: Terrain, run: Run, rows: seq<Id>)
    requires Grounded(edges, t) && forall i :: 0 <= i < |rows| ==> rows[i] in edges
    ensures forall i :: 0 <= i < |rows| ==> (Rejected(edges[rows[i]], t, run(rows[i])) <==> rows[i] in Refused(edges, t, run))
  {
    forall i | 0 <= i < |rows| ensures Rejected(edges[rows[i]], t, run(rows[i])) <==> rows[i] in Refused(edges, t, run) {
      RejectedIff(edges, t, run, rows[i]);
    }
  }

  lemma RefusedCount(edges: map<Id, Edge>, t: Terrain, run: Run, rows: seq<Id>)
    requires Grounded(edges, t)
    requires Distinct(rows) && (forall i :: 0 <= i < |rows| ==> rows[i] in edges) && forall id :: id in edges ==> id in rows
    ensures RejectedCount(edges, t, run, rows) == |Refused(edges, t, run)|
  {
    RejectedRows(edges, t, run, rows);
    CountIsSet(edges, t, run, rows, Refused(edges, t, run));
    AllElements(rows, Refused(edges, t, run));
  }

  lemma AllElements(rows: seq<Id>, s: set<Id>)
    requires forall id :: id in s ==> id in rows
    ensures Elements(rows) * s == s
  {
  }

  // ---- any number of runs ----

  function Passes(edges: map<Id, Edge>, t: Terrain, runs: seq<Run>): (after: map<Id, Edge>)
    requires Grounded(edges, t)
    ensures after.Keys == edges.Keys && Grounded(after, t)
    decreases |runs|
  {
    if runs == [] then edges else Pass(Passes(edges, t, runs[..|runs| - 1]), t, runs[|runs| - 1])
  }

  lemma SecondsSign(length: Length, speedLimit: int)
    ensures Seconds(length, speedLimit) >= 0.0
    ensures Seconds(length, speedLimit) > 0.0 <==> length > 0.0
  {
    var speed := speedLimit as real * 1000.0 / 3600.0;
    if speed > 0.0 {
      assert length / speed * speed == length;
      if length > 0.0 {
        assert length / speed > 0.0;
      }
    }
  }

  /** Stored lengths stay within 0.95 and 5 times the straight line. */
  lemma LengthBounds(e: Edge, t: Terrain, answer: Option<Answer>)
    requires OnTerrain(e, t)
    ensures var d := Straight(e, t); 0.95 * d <= Densified(e, t, answer).length <= 5.0 * d
  {
    if Accepted(e, t, answer) {
      var d := Straight(e, t);
      RatioBounds(answer.value.length / d, d, answer.value.length);
    }
  }

  lemma RatioBounds(ratio: real, d: Length, length: real)
    requires length == ratio * d && 0.95 <= ratio <= 5.0
    ensures 0.95 * d <= length <= 5.0 * d
  {
    Product(ratio - 0.95, d);
    Product(5.0 - ratio, d);
  }

  lemma Product(x: real, y: real)
    requires x >= 0.0 && y >= 0.0
    ensures x * y >= 0.0
  {
  }

  /** An edge is stored as one-way afterwards exactly when it was, or its two ends coincide. */
  lemma OneWayIff(e: Edge, t: Terrain, answer: Option<Answer>)
    requires OnTerrain(e, t)
    ensures OneWay(Densified(e, t, answer)) <==> OneWay(e) || Straight(e, t) == 0.0
    ensures OneWay(e) ==> Densified(e, t, answer).reverseSeconds == e.reverseSeconds
  {
    LengthBounds(e, t, answer);
    SecondsSign(Densified(e, t, answer).length, e.speedLimit);
  }

  /** A later run replaces everything an earlier one stored. */
  lemma LaterRunWins(e: Edge, t: Terrain, first: Option<Answer>, second: Option<Answer>)
    requires OnTerrain(e, t)
    ensures Densified(Densified(e, t, first), t, second) == Densified(e, t, second)
  {
    var once := Densified(e, t, first);
    OneWayIff(e, t, first);
    OneWayIff(once, t, second);
    LengthBounds(e, t, first);
    LengthBounds(e, t, second);
    if Straight(e, t) == 0.0 {
      assert once.length == 0.0 && Densified(e, t, second).length == 0.0;
      ZeroSeconds(e.speedLimit);
    }
  }

  lemma ZeroSeconds(speedLimit: int)
    ensures Seconds(0.0, speedLimit) == 0.0
  {
    SecondsSign(0.0, speedLimit);
  }

  /** After any runs the network is what the last run alone would have made of the original: no error compounds. */
  lemma {:induction false} LastRunDecides(edges: map<Id, Edge>, t: Terrain, runs: seq<Run>)
    requires Grounded(edges, t) && runs != []
    ensures Passes(edges, t, runs) == Pass(edges, t, runs[|runs| - 1])
    decreases |runs|
  {
    var n := |runs| - 1;
    var before := Passes(edges, t, runs[..n]);
    PassesStep(edges, t, runs);
    if n > 0 {
      LastRunDecides(edges, t, runs[..n]);
      LaterPassWins(edges, t, runs[..n][n - 1], runs[n]);
    } else {
      assert before == edges;
    }
  }

  lemma PassesStep(edges: map<Id, Edge>, t: Terrain, runs: seq<Run>)
    requires Grounded(edges, t) && runs != []
    ensures Passes(edges, t, runs) == Pass(Passes(edges, t, runs[..|runs| - 1]), t, runs[|runs| - 1])
  {
  }

  lemma LaterPassWins(edges: map<Id, Edge>, t: Terrain, first: Run, second: Run)
    requires Grounded(edges, t)
    ensures Pass(Pass(edges, t, first), t, second) == Pass(edges, t, second)
  {
    var once := Pass(edges, t, first);
    var twice, direct := Pass(once, t, second), Pass(edges, t, second);
    forall id | id in edges ensures twice[id] == direct[id] {
      PassAt(edges, t, first, id);
      PassAt(once, t, second, id);
      PassAt(edges, t, second, id);
      LaterRunWins(edges[id], t, first(id), second(id));
    }
    assert twice == direct;
  }

  lemma PassAt(edges: map<Id, Edge>, t: Terrain, run: Run, id: Id)
    requires Grounded(edges, t) && id in edges
    ensures OnTerrain(edges[id], t) && Pass(edges, t, run)[id] == Densified(edges[id], t, run(id))
  {
  }

  /** A second run with the same answers changes nothing. */
  lemma RepeatChangesNothing(edges: map<Id, Edge>, t: Terrain, run: Run)
    requires Grounded(edges, t)
    ensures Pass(Pass(edges, t, run), t, run) == Pass(edges, t, run)
  {
    LastRunDecides(edges, t, [run, run]);
    assert [run, run][..1] == [run] && [run][..0] == [];
    assert Passes(edges, t, [run]) == Pass(Passes(edges, t, []), t, run);
  }

  /** Through any runs an edge between distinct places keeps its direction class. */
  lemma DirectionKept(edges: map<Id, Edge>, t: Terrain, runs: seq<Run>, id: Id)
    requires Grounded(edges, t) && id in edges && runs != []
    ensures OneWay(Passes(edges, t, runs)[id]) <==> OneWay(edges[id]) || Straight(edges[id], t) == 0.0
    ensures 0.95 * Straight(edges[id], t) <= Passes(edges, t, runs)[id].length <= 5.0 * Straight(edges[id], t)
  {
    LastRunDecides(edges, t, runs);
    OneWayIff(edges[id], t, runs[|runs| - 1](id));
    LengthBounds(edges[id], t, runs[|runs| - 1](id));
  }

  // ---- route lines have no gaps ----

  /** Edges each of which starts at the node where the one before ends. */
  ghost predicate Walk(edges: map<Id, Edge>, walk: seq<Id>) {
    && (forall i :: 0 <= i < |walk| ==> walk[i] in edges)
    && (forall i :: 0 <= i < |walk| - 1 ==> edges[walk[i]].target == edges[walk[i + 1]].source)
  }

  /** The geometry of a walk, each joint once: what a merged route line shows. */
  function Line(edges: map<Id, Edge>, walk: seq<Id>): seq<Point>
    requires forall i :: 0 <= i < |walk| ==> walk[i] in edges
    decreases |walk|
  {
    if walk == [] then []
    else if |walk| == 1 then edges[walk[0]].geometry
    else
      var g := edges[walk[0]].geometry;
      (if g == [] then [] else g[..|g| - 1]) + Line(edges, walk[1..])
  }

  ghost predicate Anchored(edges: map<Id, Edge>, t: Terrain)
    requires Grounded(edges, t)
  {
    forall id :: id in edges ==>
      var g := edges[id].geometry;
      |g| >= 2 && g[0] == t.nodes[edges[id].source] && g[|g| - 1] == t.nodes[edges[id].target]
  }

  ghost predicate Contains(line: seq<Point>, part: seq<Point>, at: int) {
    0 <= at <= at + |part| <= |line| && line[at..][..|part|] == part
  }

  ghost predicate Holds(line: seq<Point>, part: seq<Point>) {
    exists at :: Contains(line, part, at)
  }

  lemma ContainsAfter(line: seq<Point>, head: seq<Point>, rest: seq<Point>, part: seq<Point>, at: int)
    requires line == head + rest && Contains(rest, part, at)
    ensures Contains(line, part, |head| + at)
  {
    assert line[|head| + at..] == rest[at..];
  }

  lemma WalkTail(edges: map<Id, Edge>, walk: seq<Id>)
    requires Walk(edges, walk) && |walk| > 1
    ensures Walk(edges, walk[1..]) && edges[walk[0]].target == edges[walk[1..][0]].source
  {
    assert edges[walk[0]].target == edges[walk[0 + 1]].source;
    var tail := walk[1..];
    forall i | 0 <= i < |tail| - 1 ensures edges[tail[i]].target == edges[tail[i + 1]].source {
      assert edges[walk[i + 1]].target == edges[walk[i + 1 + 1]].source;
    }
  }

  /** The line runs from the first node of the walk to the last. */
  lemma {:induction false} LineEnds(edges: map<Id, Edge>, t: Terrain, walk: seq<Id>)
    requires Grounded(edges, t) && Anchored(edges, t) && Walk(edges, walk) && walk != []
    ensures var line := Line(edges, walk);
            && |line| >= 2
            && line[0] == t.nodes[edges[walk[0]].source]
            && line[|line| - 1] == t.nodes[edges[walk[|walk| - 1]].target]
    decreases |walk|
  {
    if |walk| > 1 {
      WalkTail(edges, walk);
      LineEnds(edges, t, walk[1..]);
    }
  }

  /** Every edge's shape is in the line whole: no joint is a jump. */
  lemma {:induction false} LineHolds(edges: map<Id, Edge>, t: Terrain, walk: seq<Id>, k: nat)
    requires Grounded(edges, t) && Anchored(edges, t) && Walk(edges, walk) && k < |walk|
    ensures Holds(Line(edges, walk), edges[walk[k]].geometry)
    decreases |walk|
  {
    var g := edges[walk[0]].geometry;
    if |walk| == 1 {
      assert Contains(Line(edges, walk), g, 0);
    } else {
      WalkTail(edges, walk);
      var line, rest := Line(edges, walk), Line(edges, walk[1..]);
      var head := g[..|g| - 1];
      assert line == head + rest;
      if k == 0 {
        LineEnds(edges, t, walk[1..]);
        assert line[0..][..|g|] == g;
        assert Contains(line, g, 0);
      } else {
        LineHolds(edges, t, walk[1..], k - 1);
        var at :| Contains(rest, edges[walk[1..][k - 1]].geometry, at);
        ContainsAfter(line, head, rest, edges[walk[k]].geometry, at);
      }
    }
  }

  lemma RunsAnchor(edges: map<Id, Edge>, t: Terrain, runs: seq<Run>, id: Id)
    requires Grounded(edges, t) && runs != [] && id in edges
    ensures var e := Passes(edges, t, runs)[id];
            && e.source == edges[id].source && e.target == edges[id].target
            && |e.geometry| >= 2
            && e.geometry[0] == t.nodes[e.source] && e.geometry[|e.geometry| - 1] == t.nodes[e.target]
  {
    LastRunDecides(edges, t, runs);
  }

  lemma RunsKeepWalks(edges: map<Id, Edge>, t: Terrain, runs: seq<Run>, walk: seq<Id>)
    requires Grounded(edges, t) && runs != [] && Walk(edges, walk)
    ensures Anchored(Passes(edges, t, runs), t) && Walk(Passes(edges, t, runs), walk)
  {
    var after := Passes(edges, t, runs);
    forall id | id in edges
      ensures var e := after[id];
              && e.source == edges[id].source && e.target == edges[id].target
              && |e.geometry| >= 2
              && e.geometry[0] == t.nodes[e.source] && e.geometry[|e.geometry| - 1] == t.nodes[e.target]
    {
      RunsAnchor(edges, t, runs, id);
    }
  }

  /** The line of a walk over anchored edges goes from end to end and holds every shape whole. */
  ghost predicate Gapless(edges: map<Id, Edge>, t: Terrain, walk: seq<Id>)
    requires Grounded(edges, t) && walk != [] && forall i :: 0 <= i < |walk| ==> walk[i] in edges
  {
    var line := Line(edges, walk);
    && |line| >= 2
    && line[0] == t.nodes[edges[walk[0]].source]
    && line[|line| - 1] == t.nodes[edges[walk[|walk| - 1]].target]
    && forall k :: 0 <= k < |walk| ==> Holds(line, edges[walk[k]].geometry)
  }

  lemma AnchoredIsGapless(edges: map<Id, Edge>, t: Terrain, walk: seq<Id>)
    requires Grounded(edges, t) && Anchored(edges, t) && Walk(edges, walk) && walk != []
    ensures Gapless(edges, t, walk)
  {
    LineEnds(edges, t, walk);
    forall k | 0 <= k < |walk| ensures Holds(Line(edges, walk), edges[walk[k]].geometry) {
      LineHolds(edges, t, walk, k);
    }
  }

  /** Along any walk of the network, after any runs, the route line is gapless from end to end. */
  lemma RouteHasNoGaps(edges: map<Id, Edge>, t: Terrain, runs: seq<Run>, walk: seq<Id>)
    requires Grounded(edges, t) && runs != [] && Walk(edges, walk) && walk != []
    ensures Gapless(Passes(edges, t, runs), t, walk)
  {
    RunsKeepWalks(edges, t, runs, walk);
    AnchoredIsGapless(Passes(edges, t, runs), t, walk);
  }
}
