/**
 Escalation to evaluation, end to end: refresh passes write outbox rows, the dispatcher turns them
 into evaluations, and nothing is lost or doubled on the way.
 */
module Pipeline {
  import opened Common
  import opened OutboxModel
  import opened OutboxWorkers
  import opened OutboxDrain
  import opened RiskRefresh

  const STATUS_UPDATED := "edge_status.updated"

  datatype System = System(edges: Edges, db: Db, escalations: seq<Escalation>)

  /**
   A refresh pass over the edges that exist at the time, any change others make to the status projection (a
   declaration by a person, a deleted edge), another producer's event, or one batch of the lone evaluating worker.
   */
  datatype Action =
    | RefreshPass(now: Time, roads: set<Uuid>, scored: seq<Scored>)
    | ChangeEdges(edges: Edges)
    | PublishOther(id: Uuid, row: EventRow)
    | Dispatch(round: Round)

  function NetworkOf(sys: System): Network {
    Network(sys.edges, sys.db.events, sys.escalations)
  }

  function Join(n: Network, db: Db): System {
    System(n.edges, db.(events := n.outbox), n.escalations)
  }

  ghost predicate FreshIds(db: Db, scored: seq<Scored>) {
    && (forall i, j :: 0 <= i < j < |scored| ==> scored[i].eventId != scored[j].eventId)
    && (forall i :: 0 <= i < |scored| ==> scored[i].eventId !in db.events)
  }

  ghost predicate Legal(sys: System, a: Action) {
    match a
    case RefreshPass(_, _, scored) => FreshIds(sys.db, scored)
    case ChangeEdges(_) => true
    case PublishOther(id, row) => id !in sys.db.events && row.eventType != STATUS_UPDATED
    case Dispatch(round) => Possible(sys.db, IMPACT_EVALUATOR, round)
  }

  ghost function Act(codecs: Codecs, sys: System, a: Action): System
    requires Legal(sys, a)
  {
    match a
    case RefreshPass(now, roads, scored) => Join(Pass(codecs, roads, NetworkOf(sys), now, scored), sys.db)
    case ChangeEdges(edges) => sys.(edges := edges)
    case PublishOther(id, row) => sys.(db := sys.db.(events := sys.db.events[id := row]))
    case Dispatch(round) => sys.(db := RunRound(codecs, sys.db, IMPACT_EVALUATOR, round))
  }

  ghost predicate History(codecs: Codecs, start: System, actions: seq<Action>, end: System)
    decreases |actions|
  {
    if actions == [] then start == end
    else Legal(start, actions[0]) && History(codecs, Act(codecs, start, actions[0]), actions[1..], end)
  }

  /** The evaluation an escalation must lead to. */
  function Expected(x: Escalation): Evaluation {
    if x.status == BLOCKED
    then Evaluation(x.edge, x.version, x.eventId, None, BLOCKED_ROUTE, CRITICAL, 3600)
    else Evaluation(x.edge, x.version, x.eventId, None, RESTRICTED_DELAY, HIGH, 1800)
  }

  // ---- invariant ----

  /** The event's immutable columns are those the escalation wrote. */
  ghost predicate Recorded(codecs: Codecs, events: map<Uuid, EventRow>, x: Escalation) {
    && x.eventId in events
    && (x.status == BLOCKED || x.status == RESTRICTED)
    && events[x.eventId].eventType == STATUS_UPDATED
    && events[x.eventId].payload == StatusEvent(codecs, x, 0).payload
  }

  /** Escalations and status events correspond one to one. */
  ghost predicate Matched(codecs: Codecs, events: map<Uuid, EventRow>, xs: seq<Escalation>) {
    && (forall i, j :: 0 <= i < j < |xs| ==> xs[i].eventId != xs[j].eventId)
    && (forall i :: 0 <= i < |xs| ==> Recorded(codecs, events, xs[i]))
    && (forall id :: id in events && events[id].eventType == STATUS_UPDATED ==>
          exists i :: 0 <= i < |xs| && xs[i].eventId == id)
  }

  ghost predicate Sound(codecs: Codecs, sys: System) {
    && ReceiptsHaveEvents(sys.db) && ExactlyOnce(codecs, sys.db)
    && Matched(codecs, sys.db.events, sys.escalations)
  }

  lemma MatchedExtends(codecs: Codecs, n: Network, now: Time, s: Scored)
    requires Matched(codecs, n.outbox, n.escalations) && Escalates(n.edges, s) && s.eventId !in n.outbox
    ensures Matched(codecs, Escalate(codecs, n, now, s).outbox, Escalate(codecs, n, now, s).escalations)
  {
    var x := EscalationOf(n.edges, s);
    OneMoreMatched(codecs, n.outbox, n.escalations, x, StatusEvent(codecs, x, now));
  }

  lemma OneMoreMatched(codecs: Codecs, events: map<Uuid, EventRow>, xs: seq<Escalation>, x: Escalation, row: EventRow)
    requires Matched(codecs, events, xs) && x.eventId !in events
    requires Recorded(codecs, map[x.eventId := row], x)
    ensures Matched(codecs, events[x.eventId := row], xs + [x])
  {
    var events', xs' := events[x.eventId := row], xs + [x];
    forall i | 0 <= i < |xs'| ensures Recorded(codecs, events', xs'[i]) {
      assert i < |xs| ==> Recorded(codecs, events, xs[i]);
    }
    forall id | id in events' && events'[id].eventType == STATUS_UPDATED
      ensures exists i :: 0 <= i < |xs'| && xs'[i].eventId == id
    {
      if id == x.eventId {
        assert xs'[|xs|].eventId == id;
      } else {
        var i :| 0 <= i < |xs| && xs[i].eventId == id;
        assert xs'[i].eventId == id;
      }
    }
  }

  lemma {:induction false} RefreshKeepsSound(codecs: Codecs, roads: set<Uuid>, n: Network, db: Db, now: Time, scored: seq<Scored>)
    requires Sound(codecs, Join(n, db)) && FreshIds(Join(n, db).db, scored)
    requires Refresh(codecs, roads, n, now, scored).Some?
    ensures Sound(codecs, Join(Refresh(codecs, roads, n, now, scored).value, db))
    decreases |scored|
  {
    if scored != [] {
      var s := scored[0];
      assert forall i :: 0 <= i < |scored[1..]| ==> scored[1..][i] == scored[i + 1];
      if Escalates(n.edges, s) {
        var n' := Escalate(codecs, n, now, s);
        MatchedExtends(codecs, n, now, s);
        PublishedSound(codecs, db.(events := n.outbox), s.eventId, n'.outbox[s.eventId]);
        assert FreshIds(Join(n', db).db, scored[1..]);
        RefreshKeepsSound(codecs, roads, n', db, now, scored[1..]);
      } else {
        RefreshKeepsSound(codecs, roads, n, db, now, scored[1..]);
      }
    }
  }

  lemma PublishedSound(codecs: Codecs, db: Db, id: Uuid, row: EventRow)
    requires ReceiptsHaveEvents(db) && ExactlyOnce(codecs, db) && id !in db.events
    ensures var db' := db.(events := db.events[id := row]);
            ReceiptsHaveEvents(db') && ExactlyOnce(codecs, db')
  {
    var db' := db.(events := db.events[id := row]);
    forall e ensures OnceFor(codecs, db', e) {
      assert OnceFor(codecs, db, e);
    }
  }

  lemma ColumnsKept(codecs: Codecs, db: Db, r: Round, id: Uuid)
    requires Possible(db, IMPACT_EVALUATOR, r) && id in db.events
    ensures var db' := RunRound(codecs, db, IMPACT_EVALUATOR, r);
            id in db'.events && db'.events[id].eventType == db.events[id].eventType && db'.events[id].payload == db.events[id].payload
  {
    RoundTouches(codecs, db, IMPACT_EVALUATOR, r, id);
  }

  lemma DispatchKeepsMatched(codecs: Codecs, sys: System, r: Round)
    requires Sound(codecs, sys) && Possible(sys.db, IMPACT_EVALUATOR, r)
    ensures Matched(codecs, RunRound(codecs, sys.db, IMPACT_EVALUATOR, r).events, sys.escalations)
  {
    var db' := RunRound(codecs, sys.db, IMPACT_EVALUATOR, r);
    BatchKeys(codecs, sys.db, IMPACT_EVALUATOR, r.now, Fetch(sys.db, r.ids), r.attempts);
    forall id | id in sys.db.events
      ensures db'.events[id].eventType == sys.db.events[id].eventType && db'.events[id].payload == sys.db.events[id].payload
    {
      ColumnsKept(codecs, sys.db, r, id);
    }
    SameColumnsMatched(codecs, sys.db.events, db'.events, sys.escalations);
  }

  lemma SameColumnsMatched(codecs: Codecs, events: map<Uuid, EventRow>, events': map<Uuid, EventRow>, xs: seq<Escalation>)
    requires Matched(codecs, events, xs) && events'.Keys == events.Keys
    requires forall id :: id in events ==>
               events'[id].eventType == events[id].eventType && events'[id].payload == events[id].payload
    ensures Matched(codecs, events', xs)
  {
    assert forall i :: 0 <= i < |xs| ==> Recorded(codecs, events, xs[i]);
  }

  lemma ActKeepsSound(codecs: Codecs, sys: System, a: Action)
    requires Sound(codecs, sys) && Legal(sys, a)
    ensures Sound(codecs, Act(codecs, sys, a))
  {
    match a
    case RefreshPass(now, roads, scored) =>
      assert Join(NetworkOf(sys), sys.db) == sys;
      if Refresh(codecs, roads, NetworkOf(sys), now, scored).Some? {
        RefreshKeepsSound(codecs, roads, NetworkOf(sys), sys.db, now, scored);
      }
    case ChangeEdges(_) =>
    case PublishOther(id, row) =>
      PublishedSound(codecs, sys.db, id, row);
      assert forall i :: 0 <= i < |sys.escalations| ==> Recorded(codecs, sys.db.events, sys.escalations[i]);
    case Dispatch(round) =>
      BatchKeepsExactlyOnce(codecs, sys.db, IMPACT_EVALUATOR, round.batchSize, round.now, round.ids, round.attempts);
      DispatchKeepsMatched(codecs, sys, round);
  }

  lemma {:induction false} HistoryKeepsSound(codecs: Codecs, start: System, actions: seq<Action>, end: System)
    requires Sound(codecs, start) && History(codecs, start, actions, end)
    ensures Sound(codecs, end)
    decreases |actions|
  {
    if actions != [] {
      ActKeepsSound(codecs, start, actions[0]);
      HistoryKeepsSound(codecs, Act(codecs, start, actions[0]), actions[1..], end);
    }
  }

  // ---- one evaluation per escalation ----

  lemma PlanOfEscalation(codecs: Codecs, version: int, x: Escalation)
    requires Lawful(codecs) && (x.status == BLOCKED || x.status == RESTRICTED)
    ensures Plan(codecs, version, x.eventId, STATUS_UPDATED, StatusEvent(codecs, x, 0).payload) == Planned([Expected(x)], None)
  {
    assert Upper("BLOCKED") == "BLOCKED" && Upper("RESTRICTED") == "RESTRICTED";
    assert "RESTRICTED"[0] != "BLOCKED"[0] && "RESTRICTED"[0] != "IMPASSABLE"[0];
  }

  lemma EscalationEvaluated(codecs: Codecs, sys: System, x: Escalation)
    requires Lawful(codecs) && Sound(codecs, sys) && x in sys.escalations
    ensures EvaluationsOf(sys.db.evaluations, x.eventId)
            == if Succeeded(sys.db, IMPACT_EVALUATOR, x.eventId) then [Expected(x)] else []
  {
    assert OnceFor(codecs, sys.db, x.eventId);
    assert Recorded(codecs, sys.db.events, x);
    if Succeeded(sys.db, IMPACT_EVALUATOR, x.eventId) {
      var row := sys.db.events[x.eventId];
      var version :| Plan(codecs, version, x.eventId, row.eventType, row.payload)
                     == Planned(EvaluationsOf(sys.db.evaluations, x.eventId), None);
      PlanOfEscalation(codecs, version, x);
    }
  }

  /** Committed evaluations whose source is a status event. */
  function StatusEvaluations(events: map<Uuid, EventRow>, evaluations: seq<Evaluation>): seq<Evaluation> {
    if evaluations == [] then []
    else
      var v := evaluations[0];
      (if v.sourceEventId in events && events[v.sourceEventId].eventType == STATUS_UPDATED then [v] else [])
      + StatusEvaluations(events, evaluations[1..])
  }

  function ExpectedAll(xs: seq<Escalation>): seq<Evaluation> {
    seq(|xs|, i requires 0 <= i < |xs| => Expected(xs[i]))
  }

  lemma {:induction false} CountBySource(events: map<Uuid, EventRow>, evaluations: seq<Evaluation>, v: Evaluation)
    ensures multiset(StatusEvaluations(events, evaluations))[v]
            == if v.sourceEventId in events && events[v.sourceEventId].eventType == STATUS_UPDATED
               then multiset(EvaluationsOf(evaluations, v.sourceEventId))[v] else 0
  {
    if evaluations != [] {
      CountBySource(events, evaluations[1..], v);
    }
  }

  lemma {:induction false} CountExpected(xs: seq<Escalation>, v: Evaluation)
    requires forall i, j :: 0 <= i < j < |xs| ==> xs[i].eventId != xs[j].eventId
    ensures multiset(ExpectedAll(xs))[v] == if exists i :: 0 <= i < |xs| && Expected(xs[i]) == v then 1 else 0
  {
    if xs != [] {
      var n := |xs| - 1;
      CountExpected(xs[..n], v);
      assert ExpectedAll(xs) == ExpectedAll(xs[..n]) + [Expected(xs[n])];
      assert forall i :: 0 <= i < n ==> Expected(xs[i]) == Expected(xs[..n][i]);
      if Expected(xs[n]) == v {
        assert forall i :: 0 <= i < n ==> Expected(xs[i]).sourceEventId != v.sourceEventId;
      }
    }
  }

  /** Every status event has succeeded; other events may stand as they will. */
  ghost predicate AllDelivered(sys: System) {
    forall id :: id in sys.db.events && sys.db.events[id].eventType == STATUS_UPDATED ==> Succeeded(sys.db, IMPACT_EVALUATOR, id)
  }

  /** Whatever happened before, once every status event has succeeded the two sides agree, multiplicities included. */
  lemma EvaluationsMatchEscalations(codecs: Codecs, start: System, actions: seq<Action>, end: System)
    requires Lawful(codecs) && Sound(codecs, start) && History(codecs, start, actions, end)
    requires AllDelivered(end)
    ensures multiset(StatusEvaluations(end.db.events, end.db.evaluations)) == multiset(ExpectedAll(end.escalations))
  {
    HistoryKeepsSound(codecs, start, actions, end);
    DeliveredMatch(codecs, end);
  }

  lemma DeliveredMatch(codecs: Codecs, sys: System)
    requires Lawful(codecs) && Sound(codecs, sys) && AllDelivered(sys)
    ensures multiset(StatusEvaluations(sys.db.events, sys.db.evaluations)) == multiset(ExpectedAll(sys.escalations))
  {
    var a := multiset(StatusEvaluations(sys.db.events, sys.db.evaluations));
    var b := multiset(ExpectedAll(sys.escalations));
    forall v: Evaluation ensures a[v] == b[v] {
      CountBySource(sys.db.events, sys.db.evaluations, v);
      CountExpected(sys.escalations, v);
      CountsAgree(codecs, sys, v);
    }
  }

  /** At any time, evaluations and escalations agree exactly if every status event has succeeded. */
  lemma MatchIffDelivered(codecs: Codecs, sys: System)
    requires Lawful(codecs) && Sound(codecs, sys)
    ensures multiset(StatusEvaluations(sys.db.events, sys.db.evaluations)) == multiset(ExpectedAll(sys.escalations))
            <==> AllDelivered(sys)
  {
    if AllDelivered(sys) {
      DeliveredMatch(codecs, sys);
    } else {
      var id :| id in sys.db.events && sys.db.events[id].eventType == STATUS_UPDATED && !Succeeded(sys.db, IMPACT_EVALUATOR, id);
      var i :| 0 <= i < |sys.escalations| && sys.escalations[i].eventId == id;
      var x := sys.escalations[i];
      EscalationEvaluated(codecs, sys, x);
      CountBySource(sys.db.events, sys.db.evaluations, Expected(x));
      CountExpected(sys.escalations, Expected(x));
    }
  }

  lemma CountsAgree(codecs: Codecs, sys: System, v: Evaluation)
    requires Lawful(codecs) && Sound(codecs, sys) && AllDelivered(sys)
    ensures (if v.sourceEventId in sys.db.events && sys.db.events[v.sourceEventId].eventType == STATUS_UPDATED
             then multiset(EvaluationsOf(sys.db.evaluations, v.sourceEventId))[v] else 0)
         == if exists i :: 0 <= i < |sys.escalations| && Expected(sys.escalations[i]) == v then 1 else 0
  {
    var xs := sys.escalations;
    assert forall i :: 0 <= i < |xs| ==> Recorded(codecs, sys.db.events, xs[i]);
    if v.sourceEventId in sys.db.events && sys.db.events[v.sourceEventId].eventType == STATUS_UPDATED {
      var i :| 0 <= i < |xs| && xs[i].eventId == v.sourceEventId;
      EscalationEvaluated(codecs, sys, xs[i]);
      OneExpected(xs, v, i);
    }
  }

  /** At most one escalation has the evaluation's source. */
  lemma OneExpected(xs: seq<Escalation>, v: Evaluation, i: nat)
    requires forall i, j :: 0 <= i < j < |xs| ==> xs[i].eventId != xs[j].eventId
    requires i < |xs| && xs[i].eventId == v.sourceEventId
    ensures (exists j :: 0 <= j < |xs| && Expected(xs[j]) == v) <==> Expected(xs[i]) == v
  {
    forall j | 0 <= j < |xs| && Expected(xs[j]) == v ensures j == i {
      assert Expected(xs[j]).sourceEventId == xs[j].eventId;
    }
  }

  // ---- draining ----

  lemma {:induction false} TraceKeepsSound(codecs: Codecs, sys: System, dbs: seq<Db>, rounds: seq<Round>, n: nat)
    requires Sound(codecs, sys) && Trace(codecs, IMPACT_EVALUATOR, dbs, rounds) && dbs[0] == sys.db && n < |dbs|
    ensures Sound(codecs, sys.(db := dbs[n]))
  {
    if n > 0 {
      TraceKeepsSound(codecs, sys, dbs, rounds, n - 1);
      ActKeepsSound(codecs, sys.(db := dbs[n - 1]), Dispatch(rounds[n - 1]));
    }
  }

  /** The escalation has its evaluation and a receipt, or its event was dead-lettered and it has none. */
  ghost predicate Settled(db: Db, x: Escalation) {
    && x.eventId in db.events
    && if Succeeded(db, IMPACT_EVALUATOR, x.eventId) then EvaluationsOf(db.evaluations, x.eventId) == [Expected(x)]
       else EvaluationsOf(db.evaluations, x.eventId) == [] && db.events[x.eventId].deadLetteredAt.Some?
            && db.events[x.eventId].retryCount == Budget(db.events[x.eventId])
  }

  /** Whatever the handlers do, a full drain settles every escalation one way or the other. */
  lemma DrainSettles(codecs: Codecs, sys: System, dbs: seq<Db>, rounds: seq<Round>, x: Escalation)
    requires Lawful(codecs) && Sound(codecs, sys) && Accounted(sys.db) && x in sys.escalations
    requires Trace(codecs, IMPACT_EVALUATOR, dbs, rounds) && dbs[0] == sys.db
    requires forall i :: 0 <= i < |rounds| ==> Due(dbs[i], rounds[i])
    requires |rounds| >= Measure(sys.db, IMPACT_EVALUATOR)
    ensures Settled(dbs[|rounds|], x)
  {
    var end := sys.(db := dbs[|rounds|]);
    TraceKeepsSound(codecs, sys, dbs, rounds, |rounds|);
    DrainTerminates(codecs, IMPACT_EVALUATOR, dbs, rounds);
    assert Recorded(codecs, sys.db.events, x);
    assert Finished(end.db, IMPACT_EVALUATOR, x.eventId);
    EscalationEvaluated(codecs, end, x);
  }

  /** In these rounds no read and no use case raises. */
  ghost predicate Quiet(r: Round) {
    forall id :: r.attempts(id).raisesAt.None? && r.attempts(id).globalVersion.Some?
  }

  /** An escalation's event is live. */
  ghost predicate Live(db: Db, x: Escalation) {
    x.eventId in db.events && db.events[x.eventId].deadLetteredAt.None?
  }

  lemma QuietHandling(codecs: Codecs, x: Escalation, row: EventRow, a: Attempt)
    requires Lawful(codecs) && (x.status == BLOCKED || x.status == RESTRICTED) && a.raisesAt.None? && a.globalVersion.Some?
    requires row.eventType == STATUS_UPDATED && row.payload == StatusEvent(codecs, x, 0).payload
    ensures Handle(codecs, IMPACT_EVALUATOR, x.eventId, row, a) == Ok([Expected(x)])
  {
    PlanOfEscalation(codecs, a.globalVersion.value, x);
  }

  /** Only a raise in the use case can use up the event of an escalation. */
  lemma QuietRoundKeepsLive(codecs: Codecs, sys: System, r: Round, x: Escalation)
    requires Lawful(codecs) && Sound(codecs, sys) && x in sys.escalations
    requires Possible(sys.db, IMPACT_EVALUATOR, r) && Quiet(r) && Live(sys.db, x)
    ensures Live(RunRound(codecs, sys.db, IMPACT_EVALUATOR, r), x)
  {
    assert Recorded(codecs, sys.db.events, x);
    RoundTouches(codecs, sys.db, IMPACT_EVALUATOR, r, x.eventId);
    QuietHandling(codecs, x, sys.db.events[x.eventId], r.attempts(x.eventId));
  }

  lemma {:induction false} QuietTraceKeepsLive(
    codecs: Codecs, sys: System, dbs: seq<Db>, rounds: seq<Round>, x: Escalation, n: nat)
    requires Lawful(codecs) && Sound(codecs, sys) && x in sys.escalations && Live(sys.db, x)
    requires Trace(codecs, IMPACT_EVALUATOR, dbs, rounds) && dbs[0] == sys.db && n < |dbs|
    requires forall i :: 0 <= i < |rounds| ==> Quiet(rounds[i])
    ensures Live(dbs[n], x)
  {
    if n > 0 {
      QuietTraceKeepsLive(codecs, sys, dbs, rounds, x, n - 1);
      TraceKeepsSound(codecs, sys, dbs, rounds, n - 1);
      QuietRoundKeepsLive(codecs, sys.(db := dbs[n - 1]), rounds[n - 1], x);
    }
  }

  /** A full drain in which no use case raises delivers every escalation, whatever the other events are. */
  lemma DrainDelivers(codecs: Codecs, sys: System, dbs: seq<Db>, rounds: seq<Round>)
    requires Lawful(codecs) && Sound(codecs, sys) && Healthy(sys)
    requires Trace(codecs, IMPACT_EVALUATOR, dbs, rounds) && dbs[0] == sys.db
    requires forall i :: 0 <= i < |rounds| ==> Due(dbs[i], rounds[i]) && Quiet(rounds[i])
    requires |rounds| >= Measure(sys.db, IMPACT_EVALUATOR)
    ensures var end := dbs[|rounds|];
            && (forall x :: x in sys.escalations ==>
                  Succeeded(end, IMPACT_EVALUATOR, x.eventId) && EvaluationsOf(end.evaluations, x.eventId) == [Expected(x)])
            && multiset(StatusEvaluations(end.events, end.evaluations)) == multiset(ExpectedAll(sys.escalations))
  {
    var end := sys.(db := dbs[|rounds|]);
    TraceKeepsSound(codecs, sys, dbs, rounds, |rounds|);
    forall x | x in sys.escalations
      ensures Succeeded(end.db, IMPACT_EVALUATOR, x.eventId) && EvaluationsOf(end.db.evaluations, x.eventId) == [Expected(x)]
    {
      DrainSettles(codecs, sys, dbs, rounds, x);
      QuietTraceKeepsLive(codecs, sys, dbs, rounds, x, |rounds|);
    }
    DeliveredMatch(codecs, end);
  }

  // ---- end to end ----

  /** Every event is within its budget, and no escalation's event has been dead-lettered. */
  ghost predicate Healthy(sys: System) {
    Accounted(sys.db) && forall x :: x in sys.escalations ==> Live(sys.db, x)
  }

  /** No use case raises, and other producers publish events nobody has tried. */
  ghost predicate Calm(a: Action) {
    match a
    case RefreshPass(_, _, _) => true
    case ChangeEdges(_) => true
    case PublishOther(_, row) => Untried(row)
    case Dispatch(round) => Quiet(round)
  }

  lemma PublishedHealthy(sys: System, id: Uuid, row: EventRow)
    requires Healthy(sys) && id !in sys.db.events && Untried(row)
    ensures Healthy(sys.(db := sys.db.(events := sys.db.events[id := row])))
  {
    var sys' := sys.(db := sys.db.(events := sys.db.events[id := row]));
    forall x | x in sys.escalations ensures Live(sys'.db, x) {
      assert Live(sys.db, x);
    }
  }

  lemma {:induction false} RefreshKeepsHealthy(codecs: Codecs, roads: set<Uuid>, n: Network, db: Db, now: Time, scored: seq<Scored>)
    requires Healthy(Join(n, db)) && FreshIds(Join(n, db).db, scored)
    requires Refresh(codecs, roads, n, now, scored).Some?
    ensures Healthy(Join(Refresh(codecs, roads, n, now, scored).value, db))
    decreases |scored|
  {
    if scored != [] {
      var s := scored[0];
      assert forall i :: 0 <= i < |scored[1..]| ==> scored[1..][i] == scored[i + 1];
      if Escalates(n.edges, s) {
        var n' := Escalate(codecs, n, now, s);
        PublishedHealthy(Join(n, db), s.eventId, n'.outbox[s.eventId]);
        assert Healthy(Join(n', db));
        assert FreshIds(Join(n', db).db, scored[1..]);
        RefreshKeepsHealthy(codecs, roads, n', db, now, scored[1..]);
      } else {
        RefreshKeepsHealthy(codecs, roads, n, db, now, scored[1..]);
      }
    }
  }

  lemma ActKeepsHealthy(codecs: Codecs, sys: System, a: Action)
    requires Lawful(codecs) && Sound(codecs, sys) && Healthy(sys) && Legal(sys, a) && Calm(a)
    ensures Healthy(Act(codecs, sys, a))
  {
    match a
    case RefreshPass(now, roads, scored) =>
      assert Join(NetworkOf(sys), sys.db) == sys;
      if Refresh(codecs, roads, NetworkOf(sys), now, scored).Some? {
        RefreshKeepsHealthy(codecs, roads, NetworkOf(sys), sys.db, now, scored);
      }
    case ChangeEdges(_) =>
    case PublishOther(id, row) => PublishedHealthy(sys, id, row);
    case Dispatch(round) =>
      AccountedStep(codecs, IMPACT_EVALUATOR, sys.db, round);
      forall x | x in sys.escalations ensures Live(RunRound(codecs, sys.db, IMPACT_EVALUATOR, round), x) {
        QuietRoundKeepsLive(codecs, sys, round, x);
      }
  }

  lemma {:induction false} HistoryKeepsHealthy(codecs: Codecs, start: System, actions: seq<Action>, end: System)
    requires Lawful(codecs) && Sound(codecs, start) && Healthy(start) && History(codecs, start, actions, end)
    requires forall i :: 0 <= i < |actions| ==> Calm(actions[i])
    ensures Sound(codecs, end) && Healthy(end)
    decreases |actions|
  {
    if actions != [] {
      ActKeepsSound(codecs, start, actions[0]);
      ActKeepsHealthy(codecs, start, actions[0]);
      HistoryKeepsHealthy(codecs, Act(codecs, start, actions[0]), actions[1..], end);
    }
  }

  /**
   End to end: any mixture of refresh passes, other producers and batches, then a full drain, and the
   committed evaluations of status events are exactly those of the escalations ever declared.
   */
  lemma EscalationsAreDelivered(
    codecs: Codecs, start: System, actions: seq<Action>, mid: System, dbs: seq<Db>, rounds: seq<Round>)
    requires Lawful(codecs) && Sound(codecs, start) && Healthy(start) && History(codecs, start, actions, mid)
    requires forall i :: 0 <= i < |actions| ==> Calm(actions[i])
    requires Trace(codecs, IMPACT_EVALUATOR, dbs, rounds) && dbs[0] == mid.db
    requires forall i :: 0 <= i < |rounds| ==> Due(dbs[i], rounds[i]) && Quiet(rounds[i])
    requires |rounds| >= Measure(mid.db, IMPACT_EVALUATOR)
    ensures var end := dbs[|rounds|];
            && multiset(StatusEvaluations(end.events, end.evaluations)) == multiset(ExpectedAll(mid.escalations))
            && forall x :: x in mid.escalations ==> EvaluationsOf(end.evaluations, x.eventId) == [Expected(x)]
  {
    HistoryKeepsHealthy(codecs, start, actions, mid);
    DrainDelivers(codecs, mid, dbs, rounds);
  }
}
