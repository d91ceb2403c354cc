/**
 The periodic risk refresh, backend/app/workers/risk_refresh_worker.py: it only escalates, and
 writes one outbox row per escalation.
 */
module RiskRefresh {
  import opened Common
  import opened OutboxModel

  datatype AccessibilityStatus = OPEN | RESTRICTED | BLOCKED | PROVISIONAL_CAUTION | UNKNOWN

  datatype EdgeCurrent = EdgeCurrent(status: AccessibilityStatus, version: int)

  const BLOCKED_THRESHOLD: real := 0.75
  const RESTRICTED_THRESHOLD: real := 0.40

  function StatusText(s: AccessibilityStatus): string {
    match s
    case OPEN => "OPEN"
    case RESTRICTED => "RESTRICTED"
    case BLOCKED => "BLOCKED"
    case PROVISIONAL_CAUTION => "PROVISIONAL_CAUTION"
    case UNKNOWN => "UNKNOWN"
  }

  /** The severity table, and -1 for a status it does not hold. */
  function Severity(s: AccessibilityStatus): int {
    match s
    case OPEN => 0
    case RESTRICTED => 1
    case BLOCKED => 2
    case _ => -1
  }

  function StatusForProbability(p: real): (s: Option<AccessibilityStatus>)
    ensures s == Some(BLOCKED) <==> p >= 0.75
    ensures s == Some(RESTRICTED) <==> 0.40 <= p < 0.75
    ensures s.None? <==> p < 0.40
  {
    if p >= BLOCKED_THRESHOLD then Some(BLOCKED)
    else if p >= RESTRICTED_THRESHOLD then Some(RESTRICTED)
    else None
  }

  type Edges = map<Uuid, EdgeCurrent>

  function SeverityOf(edges: Edges, e: Uuid): int {
    if e in edges then Severity(edges[e].status) else -1
  }

  /** One edge of a pass: its prediction (None when the predictor raised) and the id uuid4() gives its event. */
  datatype Scored = Scored(edge: Uuid, probability: Option<real>, eventId: Uuid)

  datatype Escalation = Escalation(eventId: Uuid, edge: Uuid, status: AccessibilityStatus, version: int)

  /** The status projection, the outbox, and the escalations declared so far, oldest first. */
  datatype Network = Network(edges: Edges, outbox: map<Uuid, EventRow>, escalations: seq<Escalation>)

  function Target(s: Scored): Option<AccessibilityStatus> {
    if s.probability.None? then None else StatusForProbability(s.probability.value)
  }

  predicate Escalates(edges: Edges, s: Scored) {
    Target(s).Some? && Severity(Target(s).value) > SeverityOf(edges, s.edge)
  }

  /** The declaration: the new status with the next version. */
  function Declared(edges: Edges, e: Uuid, status: AccessibilityStatus): EdgeCurrent {
    EdgeCurrent(status, if e in edges then edges[e].version + 1 else 1)
  }

  function StatusEvent(codecs: Codecs, x: Escalation, now: Time): EventRow {
    EventRow("edge_status.updated",
             map["edge_id" := JStr(codecs.showUuid(x.edge)), "status" := JStr(StatusText(x.status)), "status_version" := JInt(x.version)],
             "PENDING", 0, 5, None, None, None, now, None, None)
  }

  function EscalationOf(edges: Edges, s: Scored): Escalation
    requires Escalates(edges, s)
  {
    var current := Declared(edges, s.edge, Target(s).value);
    Escalation(s.eventId, s.edge, current.status, current.version)
  }

  /** The network after one escalation has been declared and its row added. */
  function Escalate(codecs: Codecs, n: Network, now: Time, s: Scored): Network
    requires Escalates(n.edges, s)
  {
    var x := EscalationOf(n.edges, s);
    Network(n.edges[s.edge := EdgeCurrent(x.status, x.version)],
            n.outbox[s.eventId := StatusEvent(codecs, x, now)],
            n.escalations + [x])
  }

  /** The pass over its edges. None: an edge to escalate does not exist, which raises out of the pass. */
  function Refresh(codecs: Codecs, roads: set<Uuid>, n: Network, now: Time, scored: seq<Scored>): Option<Network>
    decreases |scored|
  {
    if scored == [] then Some(n)
    else if !Escalates(n.edges, scored[0]) then Refresh(codecs, roads, n, now, scored[1..])
    else if scored[0].edge !in roads then None
    else Refresh(codecs, roads, Escalate(codecs, n, now, scored[0]), now, scored[1..])
  }

  /** A pass that raises never commits. */
  function Pass(codecs: Codecs, roads: set<Uuid>, n: Network, now: Time, scored: seq<Scored>): Network {
    match Refresh(codecs, roads, n, now, scored)
    case Some(n') => n'
    case None => n
  }

  class Refresher {
    var edges: Edges
    var outbox: map<Uuid, EventRow>
    ghost var escalations: seq<Escalation>

    ghost function State(): Network
      reads this
    {
      Network(edges, outbox, escalations)
    }

    constructor (n: Network)
      ensures State() == n
    {
      edges, outbox, escalations := n.edges, n.outbox, n.escalations;
    }

    method Declare(roads: set<Uuid>, e: Uuid, status: AccessibilityStatus) returns (updated: Option<EdgeCurrent>)
      modifies this`edges
      ensures updated.None? <==> e !in roads
      ensures updated.None? ==> edges == old(edges)
      ensures updated.Some? ==>
                && updated.value == Declared(old(edges), e, status)
                && updated.value.status == status
                && (if e in old(edges) then updated.value.version == old(edges)[e].version + 1 else updated.value.version == 1)
                && edges == old(edges)[e := updated.value]
    {
      if e !in roads {
        return None;
      }
      var version := if e in edges then edges[e].version + 1 else 1;
      edges := edges[e := EdgeCurrent(status, version)];
      updated := Some(edges[e]);
    }

    /** One pass; None when a declaration raised and the transaction was rolled back. */
    method RefreshEdgeRisks(codecs: Codecs, roads: set<Uuid>, now: Time, scored: seq<Scored>) returns (escalated: Option<nat>)
      modifies this
      ensures State() == Pass(codecs, roads, old(State()), now, scored)
      ensures escalated.None? <==> Refresh(codecs, roads, old(State()), now, scored).None?
      ensures escalated.Some? ==> escalated.value == |State().escalations| - |old(State()).escalations|
    {
      var edges0, outbox0 := edges, outbox;
      ghost var before := State();
      var i, count := 0, 0;
      while i < |scored|
        invariant 0 <= i <= |scored|
        invariant Refresh(codecs, roads, before, now, scored) == Refresh(codecs, roads, State(), now, scored[i..])
        invariant count == |escalations| - |before.escalations|
      {
        var s := scored[i];
        assert scored[i..][0] == s && scored[i..][1..] == scored[i + 1..];
        i := i + 1;
        if s.probability.None? {
          continue;
        }
        var status := StatusForProbability(s.probability.value);
        if status.None? {
          continue;
        }
        var current := if s.edge in edges then Severity(edges[s.edge].status) else -1;
        if Severity(status.value) <= current {
          continue;
        }
        var updated := Declare(roads, s.edge, status.value);
        if updated.None? {
          edges, outbox, escalations := edges0, outbox0, before.escalations;
          return None;
        }
        var x := Escalation(s.eventId, s.edge, updated.value.status, updated.value.version);
        outbox := outbox[s.eventId := StatusEvent(codecs, x, now)];
        escalations := escalations + [x];
        count := count + 1;
      }
      escalated := Some(count);
    }
  }

  // ---- the refresh is a join ----

  /** The highest severity a pass asks for on an edge, or the given floor. */
  function Highest(scored: seq<Scored>, e: Uuid, floor: int): int {
    if scored == [] then floor
    else
      var s := scored[0];
      Highest(scored[1..], e, if s.edge == e && Target(s).Some? then Max(floor, Severity(Target(s).value)) else floor)
  }

  /** Escalations of one edge. */
  function EscalationsOf(xs: seq<Escalation>, e: Uuid): nat {
    if xs == [] then 0 else EscalationsOf(xs[..|xs| - 1], e) + if xs[|xs| - 1].edge == e then 1 else 0
  }

  lemma EscalationsOfLast(xs: seq<Escalation>, x: Escalation, e: Uuid)
    ensures EscalationsOf(xs + [x], e) == EscalationsOf(xs, e) + if x.edge == e then 1 else 0
  {
    assert (xs + [x])[..|xs|] == xs;
  }

  /** Room left above a severity: two rows at most, none once BLOCKED. */
  function Headroom(severity: int): int {
    2 - Max(0, severity)
  }

  lemma EscalateJoins(codecs: Codecs, n: Network, now: Time, s: Scored, e: Uuid)
    requires Escalates(n.edges, s)
    ensures var n' := Escalate(codecs, n, now, s);
            && SeverityOf(n'.edges, e) == Highest([s], e, SeverityOf(n.edges, e)) <= Max(2, SeverityOf(n.edges, e))
            && EscalationsOf(n'.escalations, e) - EscalationsOf(n.escalations, e)
               <= Headroom(SeverityOf(n.edges, e)) - Headroom(SeverityOf(n'.edges, e))
  {
    EscalationsOfLast(n.escalations, EscalationOf(n.edges, s), e);
    assert [s][1..] == [];
  }

  lemma {:induction false} RefreshJoins(codecs: Codecs, roads: set<Uuid>, n: Network, now: Time, scored: seq<Scored>, e: Uuid)
    requires Refresh(codecs, roads, n, now, scored).Some?
    ensures var n' := Refresh(codecs, roads, n, now, scored).value;
            && SeverityOf(n'.edges, e) == Highest(scored, e, SeverityOf(n.edges, e))
            && SeverityOf(n.edges, e) <= SeverityOf(n'.edges, e) <= 2
            && EscalationsOf(n'.escalations, e) - EscalationsOf(n.escalations, e)
               <= Headroom(SeverityOf(n.edges, e)) - Headroom(SeverityOf(n'.edges, e))
    decreases |scored|
  {
    if scored != [] {
      var s := scored[0];
      HighestStep(s, scored[1..], e, SeverityOf(n.edges, e));
      assert [s] + scored[1..] == scored;
      if Escalates(n.edges, s) {
        EscalateJoins(codecs, n, now, s, e);
        RefreshJoins(codecs, roads, Escalate(codecs, n, now, s), now, scored[1..], e);
      } else {
        RefreshJoins(codecs, roads, n, now, scored[1..], e);
      }
    }
  }

  lemma HighestStep(s: Scored, rest: seq<Scored>, e: Uuid, floor: int)
    ensures Highest([s] + rest, e, floor) == Highest(rest, e, Highest([s], e, floor))
    ensures Highest([s], e, floor) == if s.edge == e && Target(s).Some? then Max(floor, Severity(Target(s).value)) else floor
  {
    assert ([s] + rest)[1..] == rest && [s][1..] == [];
  }

  // ---- exactly which passes commit ----

  /** Some edge of the pass is gone, and its prediction is above its recorded severity. */
  ghost predicate LostEdge(roads: set<Uuid>, edges: Edges, scored: seq<Scored>) {
    exists i :: 0 <= i < |scored| && scored[i].edge !in roads && Escalates(edges, scored[i])
  }

  /** A pass raises, and so commits nothing, exactly if when it starts it holds an edge to escalate that is gone. */
  lemma {:induction false} RaisesIff(codecs: Codecs, roads: set<Uuid>, n: Network, now: Time, scored: seq<Scored>)
    ensures Refresh(codecs, roads, n, now, scored).None? <==> LostEdge(roads, n.edges, scored)
    decreases |scored|
  {
    if scored != [] {
      var s, rest := scored[0], scored[1..];
      assert scored == [s] + rest;
      if Escalates(n.edges, s) && s.edge in roads {
        var n' := Escalate(codecs, n, now, s);
        RaisesIff(codecs, roads, n', now, rest);
        LostEdgeTail(roads, n.edges, n'.edges, scored);
      } else if !Escalates(n.edges, s) {
        RaisesIff(codecs, roads, n, now, rest);
        LostEdgeTail(roads, n.edges, n.edges, scored);
      } else {
        assert scored[0].edge !in roads && Escalates(n.edges, scored[0]);
      }
    }
  }

  /** The first edge is no loss, and treating it changes nothing about edges that are gone. */
  lemma LostEdgeTail(roads: set<Uuid>, before: Edges, after: Edges, scored: seq<Scored>)
    requires scored != [] && (scored[0].edge in roads || !Escalates(before, scored[0]))
    requires forall e :: e !in roads ==> SeverityOf(before, e) == SeverityOf(after, e)
    ensures LostEdge(roads, before, scored) <==> LostEdge(roads, after, scored[1..])
  {
    var rest := scored[1..];
    if i :| 0 <= i < |scored| && scored[i].edge !in roads && Escalates(before, scored[i]) {
      assert rest[i - 1] == scored[i] && Escalates(after, rest[i - 1]);
    }
    if i :| 0 <= i < |rest| && rest[i].edge !in roads && Escalates(after, rest[i]) {
      assert scored[i + 1] == rest[i] && Escalates(before, scored[i + 1]);
    }
  }

  /** One edge deleted under a pass costs all the others their escalation. */
  lemma LostEdgeLosesPass(codecs: Codecs, n: Network, now: Time, kept: Scored, gone: Scored)
    requires n.edges == map[] && kept.edge != gone.edge
    requires kept.probability == Some(0.9) && gone.probability == Some(0.9)
    ensures Escalates(n.edges, kept) && Pass(codecs, {kept.edge}, n, now, [kept, gone]) == n
    ensures Pass(codecs, {kept.edge}, n, now, [kept]) != n
  {
    var both := [kept, gone];
    assert both[1].edge !in {kept.edge} && Escalates(n.edges, both[1]);
    RaisesIff(codecs, {kept.edge}, n, now, both);
    assert [kept][1..] == [];
    assert Refresh(codecs, {kept.edge}, n, now, [kept]) == Some(Escalate(codecs, n, now, kept));
  }

  /** A pass with the edges that exist when it declares them. */
  datatype PassCall = PassCall(now: Time, roads: set<Uuid>, scored: seq<Scored>)

  function Passes(codecs: Codecs, n: Network, calls: seq<PassCall>): Network
    decreases |calls|
  {
    if calls == [] then n
    else Passes(codecs, Pass(codecs, calls[0].roads, n, calls[0].now, calls[0].scored), calls[1..])
  }

  /** The highest severity asked for by the passes that lose no edge. */
  ghost function HighestOver(codecs: Codecs, n: Network, calls: seq<PassCall>, e: Uuid, floor: int): int
    decreases |calls|
  {
    if calls == [] then floor
    else
      var c := calls[0];
      HighestOver(codecs, Pass(codecs, c.roads, n, c.now, c.scored), calls[1..], e,
                  if LostEdge(c.roads, n.edges, c.scored) then floor else Highest(c.scored, e, floor))
  }

  /** Over any run: severity is the maximum of the start and the targets of passes that lost no edge; two rows per edge at most. */
  lemma {:induction false} PassesJoin(codecs: Codecs, n: Network, calls: seq<PassCall>, e: Uuid)
    ensures var n' := Passes(codecs, n, calls);
            && SeverityOf(n'.edges, e) == HighestOver(codecs, n, calls, e, SeverityOf(n.edges, e))
            && SeverityOf(n.edges, e) <= SeverityOf(n'.edges, e)
            && EscalationsOf(n'.escalations, e) - EscalationsOf(n.escalations, e)
               <= Headroom(SeverityOf(n.edges, e)) - Headroom(SeverityOf(n'.edges, e)) <= 2
    decreases |calls|
  {
    if calls != [] {
      var c := calls[0];
      RaisesIff(codecs, c.roads, n, c.now, c.scored);
      if !LostEdge(c.roads, n.edges, c.scored) {
        RefreshJoins(codecs, c.roads, n, c.now, c.scored, e);
      }
      PassesJoin(codecs, Pass(codecs, c.roads, n, c.now, c.scored), calls[1..], e);
    }
  }

  /** All the predictions of a run, in order. */
  function AllScored(calls: seq<PassCall>): seq<Scored> {
    if calls == [] then [] else calls[0].scored + AllScored(calls[1..])
  }

  lemma {:induction false} HighestAppend(a: seq<Scored>, b: seq<Scored>, e: Uuid, floor: int)
    ensures Highest(a + b, e, floor) == Highest(b, e, Highest(a, e, floor))
    decreases |a|
  {
    if a == [] {
      assert a + b == b;
    } else {
      var s := a[0];
      assert (a + b)[0] == s && (a + b)[1..] == a[1..] + b;
      HighestAppend(a[1..], b, e, if s.edge == e && Target(s).Some? then Max(floor, Severity(Target(s).value)) else floor);
    }
  }

  /** While no edge is deleted under a pass: severity is the maximum of the start and every target of the whole run. */
  lemma {:induction false} UndisturbedPassesJoin(codecs: Codecs, n: Network, calls: seq<PassCall>, e: Uuid)
    requires forall k, i :: 0 <= k < |calls| && 0 <= i < |calls[k].scored| ==> calls[k].scored[i].edge in calls[k].roads
    ensures SeverityOf(Passes(codecs, n, calls).edges, e) == Highest(AllScored(calls), e, SeverityOf(n.edges, e))
    decreases |calls|
  {
    if calls != [] {
      var c := calls[0];
      assert forall i :: 0 <= i < |c.scored| ==> calls[0].scored[i].edge in calls[0].roads;
      RaisesIff(codecs, c.roads, n, c.now, c.scored);
      RefreshJoins(codecs, c.roads, n, c.now, c.scored, e);
      HighestAppend(c.scored, AllScored(calls[1..]), e, SeverityOf(n.edges, e));
      UndisturbedPassesJoin(codecs, Pass(codecs, c.roads, n, c.now, c.scored), calls[1..], e);
    }
  }

  // ---- versions count escalations ----

  /** The version of an edge's status, 0 before its first declaration. */
  function VersionOf(edges: Edges, e: Uuid): int {
    if e in edges then edges[e].version else 0
  }

  /** From n to m the escalations of m were added, and each carries its edge's next version. */
  ghost predicate Numbered(n: Network, m: Network) {
    && n.escalations <= m.escalations
    && (forall e :: VersionOf(m.edges, e) - VersionOf(n.edges, e) == EscalationsOf(m.escalations, e) - EscalationsOf(n.escalations, e))
    && (forall i :: |n.escalations| <= i < |m.escalations| ==> NextVersion(n, m.escalations, i))
  }

  ghost predicate NextVersion(n: Network, xs: seq<Escalation>, i: nat)
    requires i < |xs|
  {
    xs[i].version == VersionOf(n.edges, xs[i].edge) + EscalationsOf(xs[..i + 1], xs[i].edge) - EscalationsOf(n.escalations, xs[i].edge)
  }

  lemma NumberedThen(n: Network, m: Network, l: Network)
    requires Numbered(n, m) && Numbered(m, l)
    ensures Numbered(n, l)
  {
    forall i | |n.escalations| <= i < |l.escalations| ensures NextVersion(n, l.escalations, i) {
      if i < |m.escalations| {
        assert NextVersion(n, m.escalations, i);
        assert l.escalations[i] == m.escalations[i] && l.escalations[..i + 1] == m.escalations[..i + 1];
      } else {
        assert NextVersion(m, l.escalations, i);
      }
    }
  }

  lemma EscalateNumbers(codecs: Codecs, n: Network, now: Time, s: Scored)
    requires Escalates(n.edges, s)
    ensures Numbered(n, Escalate(codecs, n, now, s))
  {
    var m := Escalate(codecs, n, now, s);
    forall e ensures VersionOf(m.edges, e) - VersionOf(n.edges, e) == EscalationsOf(m.escalations, e) - EscalationsOf(n.escalations, e) {
      EscalationsOfLast(n.escalations, EscalationOf(n.edges, s), e);
    }
    assert m.escalations[..|m.escalations|] == m.escalations;
  }

  lemma {:induction false} RefreshNumbers(codecs: Codecs, roads: set<Uuid>, n: Network, now: Time, scored: seq<Scored>)
    requires Refresh(codecs, roads, n, now, scored).Some?
    ensures Numbered(n, Refresh(codecs, roads, n, now, scored).value)
    decreases |scored|
  {
    if scored != [] {
      if Escalates(n.edges, scored[0]) {
        var m := Escalate(codecs, n, now, scored[0]);
        EscalateNumbers(codecs, n, now, scored[0]);
        RefreshNumbers(codecs, roads, m, now, scored[1..]);
        NumberedThen(n, m, Refresh(codecs, roads, m, now, scored[1..]).value);
      } else {
        RefreshNumbers(codecs, roads, n, now, scored[1..]);
      }
    }
  }

  /** Over any run an edge's version rises by its escalations, and the k-th of them carries the k-th next version. */
  lemma {:induction false} VersionsCountEscalations(codecs: Codecs, n: Network, calls: seq<PassCall>)
    ensures Numbered(n, Passes(codecs, n, calls))
    decreases |calls|
  {
    if calls != [] {
      var c := calls[0];
      var m := Pass(codecs, c.roads, n, c.now, c.scored);
      if Refresh(codecs, c.roads, n, c.now, c.scored).Some? {
        RefreshNumbers(codecs, c.roads, n, c.now, c.scored);
      }
      VersionsCountEscalations(codecs, m, calls[1..]);
      NumberedThen(n, m, Passes(codecs, m, calls[1..]));
    }
  }

  lemma {:induction false} CountsGrow(xs: seq<Escalation>, i: nat, j: nat, e: Uuid)
    requires i <= j <= |xs|
    ensures EscalationsOf(xs[..i], e) <= EscalationsOf(xs[..j], e)
    ensures i < j && xs[j - 1].edge == e ==> EscalationsOf(xs[..i], e) < EscalationsOf(xs[..j], e)
    decreases j
  {
    if i < j {
      CountsGrow(xs, i, j - 1, e);
      EscalationsOfLast(xs[..j - 1], xs[j - 1], e);
      assert xs[..j] == xs[..j - 1] + [xs[j - 1]];
    }
  }

  /** So no two escalations of a run that concern one edge carry the same version. */
  lemma NoVersionTwice(codecs: Codecs, n: Network, calls: seq<PassCall>, i: nat, j: nat)
    requires var xs := Passes(codecs, n, calls).escalations;
             |n.escalations| <= i < j < |xs| && xs[i].edge == xs[j].edge
    ensures var xs := Passes(codecs, n, calls).escalations; xs[i].version < xs[j].version
  {
    VersionsCountEscalations(codecs, n, calls);
    VersionsGrow(n, Passes(codecs, n, calls), i, j);
  }

  lemma VersionsGrow(n: Network, m: Network, i: nat, j: nat)
    requires Numbered(n, m) && |n.escalations| <= i < j < |m.escalations| && m.escalations[i].edge == m.escalations[j].edge
    ensures m.escalations[i].version < m.escalations[j].version
  {
    var e := m.escalations[i].edge;
    CountsGrow(m.escalations, i + 1, j + 1, e);
    assert NextVersion(n, m.escalations, i) && NextVersion(n, m.escalations, j);
  }

  // ---- what a pass leaves, in statuses and probabilities ----

  function StatusOf(edges: Edges, e: Uuid): Option<AccessibilityStatus> {
    if e in edges then Some(edges[e].status) else None
  }

  ghost predicate Predicted(scored: seq<Scored>, e: Uuid, p: real) {
    exists i :: 0 <= i < |scored| && scored[i].edge == e && scored[i].probability.Some? && scored[i].probability.value >= p
  }

  lemma PredictedStep(scored: seq<Scored>, e: Uuid, p: real)
    requires scored != []
    ensures Predicted(scored, e, p)
            <==> Predicted(scored[1..], e, p)
                 || (scored[0].edge == e && scored[0].probability.Some? && scored[0].probability.value >= p)
  {
    if Predicted(scored[1..], e, p) {
      var i :| 0 <= i < |scored[1..]| && scored[1..][i].edge == e && scored[1..][i].probability.Some?
               && scored[1..][i].probability.value >= p;
      assert scored[i + 1] == scored[1..][i];
    }
    if Predicted(scored, e, p) {
      var i :| 0 <= i < |scored| && scored[i].edge == e && scored[i].probability.Some? && scored[i].probability.value >= p;
      assert i > 0 ==> scored[1..][i - 1] == scored[i];
    }
  }

  /** A pass that commits blocks the edges predicted from 0.75, restricts those from 0.40 that are not blocked, and leaves the rest. */
  lemma {:induction false} StatusAfterPass(codecs: Codecs, roads: set<Uuid>, n: Network, now: Time, scored: seq<Scored>, e: Uuid)
    requires Refresh(codecs, roads, n, now, scored).Some?
    ensures StatusOf(Refresh(codecs, roads, n, now, scored).value.edges, e)
            == if Predicted(scored, e, 0.75) then Some(BLOCKED)
               else if Predicted(scored, e, 0.40) && StatusOf(n.edges, e) != Some(BLOCKED) then Some(RESTRICTED)
               else StatusOf(n.edges, e)
    decreases |scored|
  {
    if scored != [] {
      PredictedStep(scored, e, 0.75);
      PredictedStep(scored, e, 0.40);
      if Escalates(n.edges, scored[0]) {
        StatusAfterPass(codecs, roads, Escalate(codecs, n, now, scored[0]), now, scored[1..], e);
      } else {
        StatusAfterPass(codecs, roads, n, now, scored[1..], e);
      }
    }
  }

  /** The row an escalation adds to the outbox: pending, never tried, and announcing the edge, its new status and version. */
  lemma EscalationWritesRow(codecs: Codecs, n: Network, now: Time, s: Scored)
    requires Escalates(n.edges, s)
    ensures var m := Escalate(codecs, n, now, s);
            && m.outbox.Keys == n.outbox.Keys + {s.eventId} && s.edge in m.edges
            && (forall id :: id in n.outbox && id != s.eventId ==> m.outbox[id] == n.outbox[id])
            && var row, current := m.outbox[s.eventId], m.edges[s.edge];
            && row.eventType == "edge_status.updated" && row.payload.Keys == {"edge_id", "status", "status_version"}
            && row.payload["edge_id"] == JStr(codecs.showUuid(s.edge))
            && row.payload["status_version"] == JInt(current.version)
            && (row.payload["status"] == JStr("BLOCKED") <==> current.status == BLOCKED)
            && (row.payload["status"] == JStr("RESTRICTED") <==> current.status == RESTRICTED)
            && row.status == "PENDING" && row.retryCount == 0 && row.maxRetries == 5 && row.createdAt == now
            && row.nextAttemptAt.None? && row.deadLetteredAt.None? && row.dispatchedAt.None? && row.failedAt.None?
  {
  }

  // ---- repeating a pass ----

  /** Same edges with the same predictions; only the ids of would-be events differ. */
  ghost predicate SamePredictions(a: seq<Scored>, b: seq<Scored>) {
    |a| == |b| && forall i :: 0 <= i < |a| ==> a[i].edge == b[i].edge && a[i].probability == b[i].probability
  }

  lemma {:induction false} NothingToDo(codecs: Codecs, roads: set<Uuid>, n: Network, now: Time, scored: seq<Scored>)
    requires forall i :: 0 <= i < |scored| ==> !Escalates(n.edges, scored[i])
    ensures Refresh(codecs, roads, n, now, scored) == Some(n)
    decreases |scored|
  {
    if scored != [] {
      assert forall i :: 0 <= i < |scored[1..]| ==> scored[1..][i] == scored[i + 1];
      NothingToDo(codecs, roads, n, now, scored[1..]);
    }
  }

  lemma {:induction false} HighestCovers(scored: seq<Scored>, e: Uuid, floor: int, i: nat)
    requires i < |scored| && scored[i].edge == e && Target(scored[i]).Some?
    ensures Highest(scored, e, floor) >= Severity(Target(scored[i]).value)
    decreases |scored|
  {
    var s := scored[0];
    var floor' := if s.edge == e && Target(s).Some? then Max(floor, Severity(Target(s).value)) else floor;
    if i == 0 {
      HighestFloor(scored[1..], e, floor');
    } else {
      HighestCovers(scored[1..], e, floor', i - 1);
    }
  }

  lemma {:induction false} HighestFloor(scored: seq<Scored>, e: Uuid, floor: int)
    ensures Highest(scored, e, floor) >= floor
    decreases |scored|
  {
    if scored != [] {
      var s := scored[0];
      HighestFloor(scored[1..], e, if s.edge == e && Target(s).Some? then Max(floor, Severity(Target(s).value)) else floor);
    }
  }

  lemma {:induction false} RaisesAgain(
    codecs: Codecs, roads: set<Uuid>, n: Network, m: Network, now: Time, now': Time, a: seq<Scored>, b: seq<Scored>)
    requires SamePredictions(a, b) && n.edges == m.edges
    ensures Refresh(codecs, roads, n, now, a).None? <==> Refresh(codecs, roads, m, now', b).None?
    decreases |a|
  {
    if a != [] {
      var s, t := a[0], b[0];
      if Escalates(n.edges, s) && s.edge in roads {
        RaisesAgain(codecs, roads, Escalate(codecs, n, now, s), Escalate(codecs, m, now', t), now, now', a[1..], b[1..]);
      } else {
        RaisesAgain(codecs, roads, n, m, now, now', a[1..], b[1..]);
      }
    }
  }

  /** Repeating a pass with the same predictions writes nothing. */
  lemma RepeatWritesNothing(codecs: Codecs, roads: set<Uuid>, n: Network, now: Time, now': Time, a: seq<Scored>, b: seq<Scored>)
    requires SamePredictions(a, b)
    ensures var n' := Pass(codecs, roads, n, now, a);
            Pass(codecs, roads, n', now', b) == n'
  {
    var n' := Pass(codecs, roads, n, now, a);
    if Refresh(codecs, roads, n, now, a).Some? {
      forall i | 0 <= i < |b| ensures !Escalates(n'.edges, b[i]) {
        assert Target(b[i]) == Target(a[i]);
        if Target(b[i]).Some? {
          RefreshJoins(codecs, roads, n, now, a, b[i].edge);
          HighestCovers(a, b[i].edge, SeverityOf(n.edges, b[i].edge), i);
        }
      }
      NothingToDo(codecs, roads, n', now', b);
    } else {
      RaisesAgain(codecs, roads, n, n, now, now', a, b);
    }
  }
}
