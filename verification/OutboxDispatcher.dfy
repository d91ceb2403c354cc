/**
 The dispatcher with its tables as fields, updated in place as
 backend/app/workers/outbox_dispatcher.py does. Every method is proved against OutboxModel.
 */
module OutboxDispatcher {
  import opened Common
  import opened OutboxModel

  class Dispatcher {
    var events: map<Uuid, EventRow>
    var receipts: map<ReceiptKey, Receipt>
    var evaluations: seq<Evaluation>

    ghost function Tables(): Db
      reads this
    {
      Db(events, receipts, evaluations)
    }

    constructor (db: Db)
      ensures Tables() == db
    {
      events, receipts, evaluations := db.events, db.receipts, db.evaluations;
    }

    /** The use case appends one evaluation or raises. */
    method Execute(e: Evaluation, call: nat, a: Attempt) returns (raised: Option<string>)
      modifies this`evaluations
      ensures raised == if a.raisesAt == Some(call) then Some(a.error) else None
      ensures evaluations == if raised.None? then old(evaluations) + [e] else old(evaluations)
    {
      if a.raisesAt == Some(call) {
        return Some(a.error);
      }
      evaluations := evaluations + [e];
      raised := None;
    }

    /** The loop over affected edges; a raise leaves the calls made before it for the savepoint to undo. */
    method EvaluateIncident(
      codecs: Codecs, edges: seq<Json>, version: int, id: Uuid, incident: Option<Uuid>, severity: ImpactSeverity, a: Attempt)
      returns (raised: Option<string>)
      modifies this`evaluations
      ensures
        match Outcome(IncidentCalls(codecs, edges, version, id, incident, severity), a)
        case Ok(calls) => raised.None? && evaluations == old(evaluations) + calls
        case Err(e) => raised == Some(e)
    {
      ghost var planned := IncidentCalls(codecs, edges, version, id, incident, severity);
      var i := 0;
      ghost var made: seq<Evaluation> := [];
      while i < |edges|
        invariant 0 <= i <= |edges| && |made| == i
        invariant evaluations == old(evaluations) + made
        invariant a.raisesAt.None? || a.raisesAt.value >= i
        invariant planned.calls == made + IncidentCalls(codecs, edges[i..], version, id, incident, severity).calls
        invariant planned.error == IncidentCalls(codecs, edges[i..], version, id, incident, severity).error
      {
        IncidentCallsStep(codecs, edges, i, version, id, incident, severity, made);
        match AsUuid(codecs, edges[i]) {
          case Err(e) =>
            return Some(e);
          case Ok(edge) =>
            var e := Evaluation(edge, version, id, incident, BLOCKED_ROUTE, severity, 1800);
            assert evaluations + [e] == old(evaluations) + (made + [e]);
            raised := Execute(e, i, a);
            if raised.Some? {
              return;
            }
            made := made + [e];
        }
        i := i + 1;
      }
      assert planned.calls == made;
      raised := None;
    }

    method HandleImpactEvaluatorEvent(codecs: Codecs, id: Uuid, row: EventRow, a: Attempt) returns (raised: Option<string>)
      modifies this`evaluations
      ensures
        match Handle(codecs, IMPACT_EVALUATOR, id, row, a)
        case Ok(calls) => raised.None? && evaluations == old(evaluations) + calls
        case Err(e) => raised == Some(e)
    {
      var p := row.payload;
      if a.globalVersion.None? {
        return Some(a.error);
      }
      var globalVersion := a.globalVersion.value;
      raised := None;
      if row.eventType == "incident.verified" || row.eventType == "incident.created" {
        match IncidentId(codecs, p) {
          case Err(e) => raised := Some(e);
          case Ok(incident) =>
            match AffectedEdges(p) {
              case Err(e) => raised := Some(e);
              case Ok(edges) =>
                raised := EvaluateIncident(codecs, edges, globalVersion, id, incident, IncidentSeverity(p), a);
            }
        }
      } else if row.eventType == "edge_status.updated" {
        if !Truthy(Get(p, "edge_id")) {
          return;
        }
        var edge := AsUuid(codecs, p["edge_id"]);
        if edge.Err? {
          return Some(edge.error);
        }
        var version := if "status_version" in p then AsInt(codecs, p["status_version"]) else Ok(globalVersion);
        if version.Err? {
          return Some(version.error);
        }
        var status := Get(p, "status");
        if ReadsAs(status, "BLOCKED") || ReadsAs(status, "IMPASSABLE") {
          raised := Execute(Evaluation(edge.value, version.value, id, None, BLOCKED_ROUTE, CRITICAL, 3600), 0, a);
        } else if ReadsAs(status, "RESTRICTED") {
          raised := Execute(Evaluation(edge.value, version.value, id, None, RESTRICTED_DELAY, HIGH, 1800), 0, a);
        }
      }
    }

    /** One event inside its savepoint; the tables as the commit that follows leaves them. */
    method DispatchEvent(codecs: Codecs, consumer: string, now: Time, f: Fetched, a: Attempt) returns (ok: bool)
      requires f.id in events
      modifies this
      ensures Tables() == Settle(old(Tables()), consumer, now, f, Handle(codecs, consumer, f.id, f.row, a))
      ensures ok == Handle(codecs, consumer, f.id, f.row, a).Ok?
    {
      var savepoint := evaluations;
      var raised: Option<string> := None;
      if consumer == IMPACT_EVALUATOR {
        raised := HandleImpactEvaluatorEvent(codecs, f.id, f.row, a);
      } else {
        assert evaluations + [] == evaluations;
      }
      ok := raised.None?;
      if ok {
        receipts := receipts[(consumer, f.id) := Receipt(SUCCESS, None, now)];
        events := events[f.id := Dispatched(events[f.id], now)];
      } else {
        evaluations := savepoint;
        events := events[f.id := Retried(events[f.id], f.row, now, raised.value)];
        receipts := receipts[(consumer, f.id) := Receipt(FAILED, raised, now)];
      }
    }

    /**
     Dispatch the rows a query returned, committing after every event whether it succeeded or failed.
     The rows are those read when the batch was selected: nothing re-reads them in between.
     */
    method DispatchOutboxBatch(
      codecs: Codecs, consumer: string, batchSize: nat, now: Time,
      ghost locked: set<Uuid>, ids: seq<Uuid>, attempts: Uuid -> Attempt)
      returns (processed: nat)
      requires Selection(Tables(), locked, consumer, now, batchSize, ids)
      modifies this
      ensures Tables() == RunBatch(codecs, old(Tables()), consumer, now, Fetch(old(Tables()), ids), attempts)
      ensures processed == Processed(codecs, consumer, Fetch(old(Tables()), ids), attempts)
    {
      var batch := Fetch(Db(events, receipts, evaluations), ids);
      processed := 0;
      var i := 0;
      while i < |batch|
        invariant 0 <= i <= |batch|
        invariant BatchIn(Tables(), batch[i..])
        invariant RunBatch(codecs, old(Tables()), consumer, now, batch, attempts)
               == RunBatch(codecs, Tables(), consumer, now, batch[i..], attempts)
        invariant Processed(codecs, consumer, batch, attempts)
               == processed + Processed(codecs, consumer, batch[i..], attempts)
      {
        var f := batch[i];
        assert batch[i..][0] == f && batch[i..][1..] == batch[i + 1..];
        var ok := DispatchEvent(codecs, consumer, now, f, attempts(f.id));
        if ok {
          processed := processed + 1;
        }
        i := i + 1;
      }
    }
  }
}
