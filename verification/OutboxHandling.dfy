/**
 What the impact evaluator makes of an event, read off the payload, and what one attempt writes into the tables, column by
 column: backend/app/workers/outbox_dispatcher.py:32-94 and 136-194.
 */
module OutboxHandling {
  import opened Common
  import opened OutboxModel

  // ---- reading payloads ----

  /** The text is the upper-case word in any mixture of cases. */
  predicate Says(j: Json, word: string) {
    j.JStr? && |j.s| == |word|
    && forall i :: 0 <= i < |word| ==> j.s[i] == word[i] || j.s[i] as int == word[i] as int + 32
  }

  lemma SaysIff(j: Json, word: string)
    requires forall i :: 0 <= i < |word| ==> 'A' <= word[i] <= 'Z'
    ensures ReadsAs(j, word) <==> Says(j, word)
  {
    if Says(j, word) {
      forall i | 0 <= i < |word| ensures Upper(j.s)[i] == word[i] {}
      assert Upper(j.s) == word;
    }
    if ReadsAs(j, word) {
      forall i | 0 <= i < |word| ensures j.s[i] == word[i] || j.s[i] as int == word[i] as int + 32 {
        assert Upper(j.s)[i] == word[i];
      }
    }
  }

  /** Absent, or a value that counts as false. */
  predicate Missing(p: Payload, key: string) {
    || key !in p || p[key] == JNull || p[key] == JStr("") || p[key] == JList([])
    || p[key] == JBool(false) || p[key] == JInt(0)
  }

  predicate NamesUuid(codecs: Codecs, p: Payload, key: string, u: Uuid) {
    key in p && p[key] == JStr(codecs.showUuid(u))
  }

  /** A text that is no UUID. */
  predicate Malformed(codecs: Codecs, j: Json) {
    j.JStr? && j.s != "" && codecs.parseUuid(j.s).None?
  }

  predicate IncidentNamed(codecs: Codecs, p: Payload, incident: Option<Uuid>) {
    match incident
    case None => Missing(p, "incident_id")
    case Some(u) => NamesUuid(codecs, p, "incident_id", u)
  }

  function Texts(codecs: Codecs, edges: seq<Uuid>): seq<Json> {
    seq(|edges|, i requires 0 <= i < |edges| => JStr(codecs.showUuid(edges[i])))
  }

  predicate ListsEdges(codecs: Codecs, p: Payload, edges: seq<Uuid>) {
    edges != [] && "affected_edges" in p && p["affected_edges"] == JList(Texts(codecs, edges))
  }

  /** The edges an incident concerns: those it lists, or without a list the one it names, if any. */
  predicate Concerns(codecs: Codecs, p: Payload, edges: seq<Uuid>) {
    || ListsEdges(codecs, p, edges)
    || (Missing(p, "affected_edges") && |edges| == 1 && NamesUuid(codecs, p, "edge_id", edges[0]))
    || (Missing(p, "affected_edges") && edges == [] && "edge_id" !in p)
  }

  predicate IsIncident(row: EventRow) {
    row.eventType == "incident.verified" || row.eventType == "incident.created"
  }

  /** Critical unless a severity is given that is neither CRITICAL nor HIGH. */
  predicate Grave(p: Payload) {
    "severity" in p ==> Says(p["severity"], "CRITICAL") || Says(p["severity"], "HIGH")
  }

  // ---- incidents ----

  lemma {:induction false} CallsForTexts(
    codecs: Codecs, edges: seq<Uuid>, version: int, id: Uuid, incident: Option<Uuid>, severity: ImpactSeverity)
    requires Lawful(codecs)
    ensures var r := IncidentCalls(codecs, Texts(codecs, edges), version, id, incident, severity);
            && r.error.None? && |r.calls| == |edges|
            && forall i :: 0 <= i < |edges| ==>
                 r.calls[i] == Evaluation(edges[i], version, id, incident, BLOCKED_ROUTE, severity, 1800)
  {
    if edges != [] {
      CallsForTexts(codecs, edges[1..], version, id, incident, severity);
      assert Texts(codecs, edges)[1..] == Texts(codecs, edges[1..]);
    }
  }

  lemma EdgesRead(codecs: Codecs, p: Payload, edges: seq<Uuid>)
    requires Concerns(codecs, p, edges)
    ensures AffectedEdges(p) == Ok(Texts(codecs, edges))
  {
    if ListsEdges(codecs, p, edges) {
      assert |Texts(codecs, edges)| > 0;
    } else if edges == [] {
      assert Texts(codecs, edges) == [];
    } else {
      assert Texts(codecs, edges) == [p["edge_id"]];
    }
  }

  lemma SeverityRead(p: Payload)
    ensures IncidentSeverity(p) == if Grave(p) then CRITICAL else MODERATE
  {
    if "severity" in p {
      SaysIff(p["severity"], "CRITICAL");
      SaysIff(p["severity"], "HIGH");
    }
  }

  lemma IncidentPlan(codecs: Codecs, version: int, id: Uuid, row: EventRow, edges: seq<Uuid>, incident: Option<Uuid>)
    requires Lawful(codecs) && IsIncident(row)
    requires Concerns(codecs, row.payload, edges) && IncidentNamed(codecs, row.payload, incident)
    ensures Plan(codecs, version, id, row.eventType, row.payload)
            == IncidentCalls(codecs, Texts(codecs, edges), version, id, incident, if Grave(row.payload) then CRITICAL else MODERATE)
  {
    EdgesRead(codecs, row.payload, edges);
    SeverityRead(row.payload);
    assert IncidentId(codecs, row.payload) == Ok(incident);
  }

  /**
   An incident of either kind is evaluated for each edge it concerns, in order, at the global version: a blocked route of
   half an hour, critical or moderate. A use case that raises on the way raises out of the handling.
   */
  lemma IncidentEvaluated(codecs: Codecs, id: Uuid, row: EventRow, a: Attempt, edges: seq<Uuid>, incident: Option<Uuid>)
    requires Lawful(codecs) && IsIncident(row) && a.globalVersion.Some?
    requires Concerns(codecs, row.payload, edges) && IncidentNamed(codecs, row.payload, incident)
    ensures var r := Handle(codecs, IMPACT_EVALUATOR, id, row, a);
            if a.raisesAt.Some? && a.raisesAt.value < |edges| then r == Err(a.error)
            else
              && r.Ok? && |r.value| == |edges|
              && forall i :: 0 <= i < |edges| ==>
                   && r.value[i].edgeId == edges[i] && r.value[i].sourceStatusVersion == a.globalVersion.value
                   && r.value[i].sourceEventId == id && r.value[i].incidentId == incident
                   && r.value[i].impactType == BLOCKED_ROUTE && r.value[i].delaySeconds == 1800
                   && r.value[i].severity == if Grave(row.payload) then CRITICAL else MODERATE
  {
    var severity := if Grave(row.payload) then CRITICAL else MODERATE;
    IncidentPlan(codecs, a.globalVersion.value, id, row, edges, incident);
    CallsForTexts(codecs, edges, a.globalVersion.value, id, incident, severity);
  }

  /** A malformed incident id raises before any call. */
  lemma MalformedIncident(codecs: Codecs, id: Uuid, row: EventRow, a: Attempt)
    requires IsIncident(row) && "incident_id" in row.payload && Malformed(codecs, row.payload["incident_id"])
    ensures Handle(codecs, IMPACT_EVALUATOR, id, row, a).Err?
  {
  }

  /** So does a malformed edge anywhere in the list, whatever comes before it, or as the one edge named without a list. */
  lemma MalformedEdge(codecs: Codecs, id: Uuid, row: EventRow, a: Attempt, items: seq<Json>, k: nat)
    requires IsIncident(row)
    requires || ("affected_edges" in row.payload && row.payload["affected_edges"] == JList(items))
             || (Missing(row.payload, "affected_edges") && "edge_id" in row.payload && items == [row.payload["edge_id"]])
    requires k < |items| && Malformed(codecs, items[k])
    ensures Handle(codecs, IMPACT_EVALUATOR, id, row, a).Err?
  {
    var p := row.payload;
    assert AffectedEdges(p) == Ok(items);
    if a.globalVersion.Some? && IncidentId(codecs, p).Ok? {
      IncidentCallsMean(codecs, items, a.globalVersion.value, id, IncidentId(codecs, p).value, IncidentSeverity(p));
    }
  }

  /** A list of edges that is a number or true cannot be gone through. */
  lemma UnreadableList(codecs: Codecs, id: Uuid, row: EventRow, a: Attempt)
    requires IsIncident(row) && !Missing(row.payload, "affected_edges")
    requires row.payload["affected_edges"].JBool? || row.payload["affected_edges"].JInt?
    ensures Handle(codecs, IMPACT_EVALUATOR, id, row, a).Err?
  {
  }

  // ---- status changes ----

  /** The version a status event carries: its own, as a number or as text, or the global one where it has none. */
  predicate Versioned(codecs: Codecs, p: Payload, globalVersion: int, version: int) {
    if "status_version" !in p then version == globalVersion
    else p["status_version"] == JInt(version)
         || (p["status_version"] == JBool(version == 1) && (version == 0 || version == 1))
         || (p["status_version"].JStr? && codecs.parseInt(p["status_version"].s) == Some(version))
  }

  predicate StatusIs(p: Payload, word: string) {
    "status" in p && Says(p["status"], word)
  }

  /** What a changed edge status is worth: a blocked edge an hour, a restricted one half an hour, any other nothing. */
  lemma StatusEvaluated(codecs: Codecs, id: Uuid, row: EventRow, a: Attempt, edge: Uuid, version: int)
    requires Lawful(codecs) && row.eventType == "edge_status.updated" && a.globalVersion.Some? && a.raisesAt.None?
    requires NamesUuid(codecs, row.payload, "edge_id", edge) && Versioned(codecs, row.payload, a.globalVersion.value, version)
    ensures var r := Handle(codecs, IMPACT_EVALUATOR, id, row, a);
            && (StatusIs(row.payload, "BLOCKED") || StatusIs(row.payload, "IMPASSABLE") ==>
                  r == Ok([Evaluation(edge, version, id, None, BLOCKED_ROUTE, CRITICAL, 3600)]))
            && (StatusIs(row.payload, "RESTRICTED") ==>
                  r == Ok([Evaluation(edge, version, id, None, RESTRICTED_DELAY, HIGH, 1800)]))
            && (!StatusIs(row.payload, "BLOCKED") && !StatusIs(row.payload, "IMPASSABLE") && !StatusIs(row.payload, "RESTRICTED")
                ==> r == Ok([]))
  {
    var j := Get(row.payload, "status");
    SaysIff(j, "BLOCKED");
    SaysIff(j, "IMPASSABLE");
    SaysIff(j, "RESTRICTED");
  }

  /** A raise in the one call raises; without a call there is nothing to raise. */
  lemma StatusRaises(codecs: Codecs, id: Uuid, row: EventRow, a: Attempt)
    requires row.eventType == "edge_status.updated" && a.raisesAt == Some(0) && a.globalVersion.Some?
    requires Handle(codecs, IMPACT_EVALUATOR, id, row, a.(raisesAt := None)).Ok?
    ensures var quiet := Handle(codecs, IMPACT_EVALUATOR, id, row, a.(raisesAt := None));
            Handle(codecs, IMPACT_EVALUATOR, id, row, a) == if quiet.value == [] then Ok([]) else Err(a.error)
  {
  }

  /** A status event without an edge is passed over; one with a malformed edge or version raises. */
  lemma StatusWithoutEdge(codecs: Codecs, id: Uuid, row: EventRow, a: Attempt)
    requires row.eventType == "edge_status.updated" && a.globalVersion.Some?
    ensures Missing(row.payload, "edge_id") ==> Handle(codecs, IMPACT_EVALUATOR, id, row, a) == Ok([])
    ensures "edge_id" in row.payload && Malformed(codecs, row.payload["edge_id"]) ==>
              Handle(codecs, IMPACT_EVALUATOR, id, row, a).Err?
    ensures !Missing(row.payload, "edge_id") && "status_version" in row.payload
            && (row.payload["status_version"] == JNull || row.payload["status_version"].JList?
                || (row.payload["status_version"].JStr? && codecs.parseInt(row.payload["status_version"].s).None?)) ==>
              Handle(codecs, IMPACT_EVALUATOR, id, row, a).Err?
  {
  }

  /** Other events, and all events of other consumers, are dispatched without any effect; an unreadable version fails them. */
  lemma NothingToEvaluate(codecs: Codecs, consumer: string, id: Uuid, row: EventRow, a: Attempt)
    ensures consumer != "impact_evaluator" ==> Handle(codecs, consumer, id, row, a) == Ok([])
    ensures consumer == "impact_evaluator" && a.globalVersion.None? ==> Handle(codecs, consumer, id, row, a) == Err(a.error)
    ensures consumer == "impact_evaluator" && a.globalVersion.Some?
            && row.eventType !in {"incident.verified", "incident.created", "edge_status.updated"} ==>
              Handle(codecs, consumer, id, row, a) == Ok([])
  {
  }

  // ---- what an attempt writes ----

  /** Only the event's own row and the consumer's own receipt for it are written. */
  ghost predicate OthersStay(before: Db, after: Db, consumer: string, id: Uuid) {
    && after.events.Keys == before.events.Keys && after.receipts.Keys == before.receipts.Keys + {(consumer, id)}
    && (forall e :: e in before.events && e != id ==> after.events[e] == before.events[e])
    && (forall k :: k in before.receipts && k != (consumer, id) ==> after.receipts[k] == before.receipts[k])
  }

  /** The columns no attempt writes. */
  predicate SameEvent(a: EventRow, b: EventRow) {
    a.eventType == b.eventType && a.payload == b.payload && a.maxRetries == b.maxRetries && a.createdAt == b.createdAt
  }

  lemma SettledOk(db: Db, consumer: string, now: Time, f: Fetched, evals: seq<Evaluation>)
    requires f.id in db.events
    ensures var after := Settle(db, consumer, now, f, Ok(evals));
            && OthersStay(db, after, consumer, f.id) && after.evaluations == db.evaluations + evals
            && var receipt := after.receipts[(consumer, f.id)];
            && receipt.status == SUCCESS && receipt.errorMessage.None? && receipt.processedAt == now
            && var a, b := db.events[f.id], after.events[f.id];
            && SameEvent(a, b) && b.status == "DISPATCHED" && b.dispatchedAt == Some(now)
            && b.retryCount == a.retryCount && b.lastError == a.lastError && b.nextAttemptAt == a.nextAttemptAt
            && b.deadLetteredAt == a.deadLetteredAt && b.failedAt == a.failedAt
  {
  }

  /** Seconds to wait after the n-th failure. */
  function Delay(n: nat): int {
    if n <= 1 then 5 else if n == 2 then 15 else if n == 3 then 30 else if n == 4 then 60 else 300
  }

  lemma DelayIsBackoff(n: nat)
    requires n >= 1
    ensures BackoffSeconds(n) == Delay(n)
  {
    assert BACKOFF_SECONDS == [5, 15, 30, 60, 300];
  }

  lemma SettledErr(db: Db, consumer: string, now: Time, f: Fetched, error: string)
    requires f.id in db.events
    ensures var after := Settle(db, consumer, now, f, Err(error));
            && OthersStay(db, after, consumer, f.id) && after.evaluations == db.evaluations
            && var receipt := after.receipts[(consumer, f.id)];
            && receipt.status == FAILED && receipt.errorMessage == Some(error) && receipt.processedAt == now
            && var a, b := db.events[f.id], after.events[f.id];
            && SameEvent(a, b) && b.retryCount == f.row.retryCount + 1 && b.lastError == Some(error)
            && b.dispatchedAt == a.dispatchedAt
            && if f.row.retryCount + 1 >= f.row.maxRetries then
                 && b.deadLetteredAt == Some(now) && b.failedAt == Some(now) && b.status == "FAILED"
                 && b.nextAttemptAt == a.nextAttemptAt
               else
                 && b.nextAttemptAt == Some(now + Delay(f.row.retryCount + 1) * 1_000_000)
                 && b.deadLetteredAt == a.deadLetteredAt && b.failedAt == a.failedAt && b.status == a.status
  {
    DelayIsBackoff(f.row.retryCount + 1);
  }

  // ---- what a batch selects ----

  /** Alive, not put off, not succeeded for the consumer, and not locked by another worker. */
  predicate Due(db: Db, locked: set<Uuid>, consumer: string, now: Time, id: Uuid) {
    && id in db.events && id !in locked && db.events[id].deadLetteredAt.None?
    && (db.events[id].nextAttemptAt.Some? ==> db.events[id].nextAttemptAt.value <= now)
    && ((consumer, id) in db.receipts ==> db.receipts[(consumer, id)].status == FAILED)
  }

  /** With room for everything a batch is exactly the due events; with less it is full, and nothing left out is older. */
  lemma OldestDueSelected(db: Db, locked: set<Uuid>, consumer: string, now: Time, limit: nat, ids: seq<Uuid>)
    requires Selection(db, locked, consumer, now, limit, ids)
    ensures |ids| <= limit && forall i, j :: 0 <= i < j < |ids| ==> ids[i] != ids[j]
    ensures forall i, j :: 0 <= i < j < |ids| ==> db.events[ids[i]].createdAt <= db.events[ids[j]].createdAt
    ensures forall id :: id in ids ==> Due(db, locked, consumer, now, id)
    ensures |ids| < limit ==> forall id :: Due(db, locked, consumer, now, id) ==> id in ids
    ensures forall id, i :: Due(db, locked, consumer, now, id) && id !in ids && 0 <= i < |ids| ==>
              db.events[ids[i]].createdAt <= db.events[id].createdAt
  {
    forall id ensures Due(db, locked, consumer, now, id) <==> Eligible(db, consumer, now, id) && id !in locked {}
    forall id | id in ids ensures Due(db, locked, consumer, now, id) {
      var i :| 0 <= i < |ids| && ids[i] == id;
    }
  }
}
