/**
 The outbox tables and what one dispatch attempt does to them: the value-level meaning of
 backend/app/workers/outbox_dispatcher.py. The class that updates the tables in place is in
 OutboxDispatcher.dfy, the interleaving of several workers in OutboxWorkers.dfy.
 */
module OutboxModel {
  import opened Common

  type Uuid = nat

  /** Microseconds since the epoch, the resolution of the timestamps the tables hold. */
  type Time = int

  const SECOND: Time := 1_000_000
  const BACKOFF_SECONDS: seq<int> := [5, 15, 30, 60, 300]
  const IMPACT_EVALUATOR := "impact_evaluator"

  datatype Json = JNull | JBool(b: bool) | JInt(i: int) | JStr(s: string) | JList(items: seq<Json>)

  type Payload = map<string, Json>

  datatype EventRow = EventRow(
    eventType: string,
    payload: Payload,
    status: string,
    retryCount: nat,
    maxRetries: int,
    lastError: Option<string>,
    nextAttemptAt: Option<Time>,
    deadLetteredAt: Option<Time>,
    createdAt: Time,
    dispatchedAt: Option<Time>,
    failedAt: Option<Time>)

  datatype ReceiptStatus = SUCCESS | FAILED

  datatype Receipt = Receipt(status: ReceiptStatus, errorMessage: Option<string>, processedAt: Time)

  datatype ImpactType = BLOCKED_ROUTE | RESTRICTED_DELAY

  datatype ImpactSeverity = CRITICAL | HIGH | MODERATE

  datatype Evaluation = Evaluation(
    edgeId: Uuid,
    sourceStatusVersion: int,
    sourceEventId: Uuid,
    incidentId: Option<Uuid>,
    impactType: ImpactType,
    severity: ImpactSeverity,
    delaySeconds: int)

  type ReceiptKey = (string, Uuid)

  /** The committed contents of the tables the dispatcher touches. */
  datatype Db = Db(
    events: map<Uuid, EventRow>,
    receipts: map<ReceiptKey, Receipt>,
    evaluations: seq<Evaluation>)

  /** Library text codecs: uuid.UUID(text), str(uuid) and int(text). */
  datatype Codecs = Codecs(
    parseUuid: string -> Option<Uuid>,
    showUuid: Uuid -> string,
    parseInt: string -> Option<int>)

  ghost predicate Lawful(codecs: Codecs) {
    forall u: Uuid :: codecs.showUuid(u) != "" && codecs.parseUuid(codecs.showUuid(u)) == Some(u)
  }

  // ---- the impact-evaluator handler ----

  function UpperChar(c: char): char {
    if 'a' <= c <= 'z' then c - 'a' + 'A' else c
  }

  function Upper(s: string): string {
    seq(|s|, i requires 0 <= i < |s| => UpperChar(s[i]))
  }

  predicate Truthy(j: Json) {
    match j
    case JNull => false
    case JBool(b) => b
    case JInt(i) => i != 0
    case JStr(s) => s != ""
    case JList(items) => items != []
  }

  function Get(p: Payload, key: string): Json {
    if key in p then p[key] else JNull
  }

  /** str(value).upper() compared with an upper-case word: only a string can match one. */
  predicate ReadsAs(j: Json, word: string) {
    j.JStr? && Upper(j.s) == word
  }

  function AsUuid(codecs: Codecs, j: Json): Result<Uuid> {
    if j.JStr? then
      match codecs.parseUuid(j.s)
      case Some(u) => Ok(u)
      case None => Err("badly formed hexadecimal UUID string")
    else Err("not a uuid")
  }

  function AsInt(codecs: Codecs, j: Json): Result<int> {
    match j
    case JInt(i) => Ok(i)
    case JBool(b) => Ok(if b then 1 else 0)
    case JStr(s) =>
      (match codecs.parseInt(s)
       case Some(i) => Ok(i)
       case None => Err("invalid literal for int()"))
    case _ => Err("int() argument must be a string or a number")
  }

  function AffectedEdges(p: Payload): Result<seq<Json>> {
    var edges := Get(p, "affected_edges");
    if !Truthy(edges) then Ok(if "edge_id" in p then [p["edge_id"]] else [])
    else
      match edges
      case JList(items) => Ok(items)
      case JStr(s) => Ok(seq(|s|, i requires 0 <= i < |s| => JStr([s[i]])))
      case _ => Err("object is not iterable")
  }

  function IncidentSeverity(p: Payload): ImpactSeverity {
    if "severity" !in p || ReadsAs(p["severity"], "CRITICAL") || ReadsAs(p["severity"], "HIGH")
    then CRITICAL else MODERATE
  }

  function IncidentId(codecs: Codecs, p: Payload): Result<Option<Uuid>> {
    var j := Get(p, "incident_id");
    if !Truthy(j) then Ok(None)
    else
      match AsUuid(codecs, j)
      case Ok(u) => Ok(Some(u))
      case Err(e) => Err(e)
  }

  /** The use-case calls a handling makes, in order, and the error its own parsing then raises, if any. */
  datatype Planned = Planned(calls: seq<Evaluation>, error: Option<string>)

  predicate FromEvent(evals: seq<Evaluation>, id: Uuid) {
    forall i :: 0 <= i < |evals| ==> evals[i].sourceEventId == id
  }

  function IncidentCalls(
    codecs: Codecs, edges: seq<Json>, version: int, id: Uuid, incident: Option<Uuid>, severity: ImpactSeverity)
    : (r: Planned)
    ensures FromEvent(r.calls, id)
  {
    if edges == [] then Planned([], None)
    else
      match AsUuid(codecs, edges[0])
      case Err(e) => Planned([], Some(e))
      case Ok(edge) =>
        var rest := IncidentCalls(codecs, edges[1..], version, id, incident, severity);
        Planned([Evaluation(edge, version, id, incident, BLOCKED_ROUTE, severity, 1800)] + rest.calls, rest.error)
  }

  /** One call for each affected edge, in order, up to the first that is no UUID; an error exactly if there is one. */
  lemma {:induction false} IncidentCallsMean(
    codecs: Codecs, edges: seq<Json>, version: int, id: Uuid, incident: Option<Uuid>, severity: ImpactSeverity)
    ensures
      var r := IncidentCalls(codecs, edges, version, id, incident, severity);
      && |r.calls| <= |edges|
      && (forall i :: 0 <= i < |r.calls| ==>
            && AsUuid(codecs, edges[i]) == Ok(r.calls[i].edgeId)
            && r.calls[i] == Evaluation(r.calls[i].edgeId, version, id, incident, BLOCKED_ROUTE, severity, 1800))
      && (r.error.None? <==> |r.calls| == |edges|)
      && (r.error.Some? ==> AsUuid(codecs, edges[|r.calls|]) == Err(r.error.value))
    decreases |edges|
  {
    if edges != [] {
      IncidentCallsMean(codecs, edges[1..], version, id, incident, severity);
    }
  }

  /** One more edge of the list, after the calls already made. */
  lemma IncidentCallsStep(
    codecs: Codecs, edges: seq<Json>, i: nat, version: int, id: Uuid, incident: Option<Uuid>, severity: ImpactSeverity,
    made: seq<Evaluation>)
    requires i < |edges|
    ensures
      var now := IncidentCalls(codecs, edges[i..], version, id, incident, severity);
      var rest := IncidentCalls(codecs, edges[i + 1..], version, id, incident, severity);
      var edge := AsUuid(codecs, edges[i]);
      if edge.Err? then now == Planned([], Some(edge.error)) && made + now.calls == made
      else
        var e := Evaluation(edge.value, version, id, incident, BLOCKED_ROUTE, severity, 1800);
        now == Planned([e] + rest.calls, rest.error) && made + now.calls == made + [e] + rest.calls
  {
    assert edges[i..][0] == edges[i] && edges[i..][1..] == edges[i + 1..];
  }

  function StatusCalls(p: Payload, edge: Uuid, version: int, id: Uuid): (calls: seq<Evaluation>)
    ensures FromEvent(calls, id)
  {
    if ReadsAs(Get(p, "status"), "BLOCKED") || ReadsAs(Get(p, "status"), "IMPASSABLE") then
      [Evaluation(edge, version, id, None, BLOCKED_ROUTE, CRITICAL, 3600)]
    else if ReadsAs(Get(p, "status"), "RESTRICTED") then
      [Evaluation(edge, version, id, None, RESTRICTED_DELAY, HIGH, 1800)]
    else []
  }

  function Plan(codecs: Codecs, globalVersion: int, id: Uuid, eventType: string, p: Payload): (r: Planned)
    ensures FromEvent(r.calls, id)
  {
    if eventType == "incident.verified" || eventType == "incident.created" then
      match IncidentId(codecs, p)
      case Err(e) => Planned([], Some(e))
      case Ok(incident) =>
        match AffectedEdges(p)
        case Err(e) => Planned([], Some(e))
        case Ok(edges) => IncidentCalls(codecs, edges, globalVersion, id, incident, IncidentSeverity(p))
    else if eventType == "edge_status.updated" && Truthy(Get(p, "edge_id")) then
      match AsUuid(codecs, p["edge_id"])
      case Err(e) => Planned([], Some(e))
      case Ok(edge) =>
        match (if "status_version" in p then AsInt(codecs, p["status_version"]) else Ok(globalVersion))
        case Err(e) => Planned([], Some(e))
        case Ok(version) => Planned(StatusCalls(p, edge, version, id), None)
    else Planned([], None)
  }

  /** The surroundings of one handling: the version it reads, unless that raises, and the use-case call that raises, if any. */
  datatype Attempt = Attempt(globalVersion: Option<int>, raisesAt: Option<nat>, error: string)

  function Outcome(planned: Planned, a: Attempt): Result<seq<Evaluation>> {
    if a.raisesAt.Some? && a.raisesAt.value < |planned.calls| then Err(a.error)
    else if planned.error.Some? then Err(planned.error.value)
    else Ok(planned.calls)
  }

  function Handle(codecs: Codecs, consumer: string, id: Uuid, row: EventRow, a: Attempt): (r: Result<seq<Evaluation>>)
    ensures r.Ok? ==> FromEvent(r.value, id)
  {
    if consumer != IMPACT_EVALUATOR then Ok([])
    else if a.globalVersion.None? then Err(a.error)
    else Outcome(Plan(codecs, a.globalVersion.value, id, row.eventType, row.payload), a)
  }

  // ---- selection ----

  predicate Succeeded(db: Db, consumer: string, id: Uuid) {
    (consumer, id) in db.receipts && db.receipts[(consumer, id)].status == SUCCESS
  }

  predicate Eligible(db: Db, consumer: string, now: Time, id: Uuid) {
    && id in db.events
    && db.events[id].deadLetteredAt.None?
    && (db.events[id].nextAttemptAt.None? || db.events[id].nextAttemptAt.value <= now)
    && !Succeeded(db, consumer, id)
  }

  /** What the SELECT ... ORDER BY created_at LIMIT n FOR UPDATE SKIP LOCKED may return. */
  ghost predicate Selection(db: Db, locked: set<Uuid>, consumer: string, now: Time, limit: nat, ids: seq<Uuid>) {
    && Distinct(ids)
    && |ids| <= limit
    && (forall i :: 0 <= i < |ids| ==> Eligible(db, consumer, now, ids[i]) && ids[i] !in locked)
    && (forall i, j :: 0 <= i < j < |ids| ==> db.events[ids[i]].createdAt <= db.events[ids[j]].createdAt)
    && (forall id :: Eligible(db, consumer, now, id) && id !in locked && id !in ids ==>
          && |ids| == limit
          && forall i :: 0 <= i < |ids| ==> db.events[ids[i]].createdAt <= db.events[id].createdAt)
  }

  // ---- outcome of one attempt ----

  /** Seconds until the next attempt once an event has failed n times. */
  function BackoffSeconds(n: nat): int
    requires n >= 1
  {
    BACKOFF_SECONDS[Min(n - 1, |BACKOFF_SECONDS| - 1)]
  }

  /** The row a batch read when it selected the event; later commits do not refresh it. */
  datatype Fetched = Fetched(id: Uuid, row: EventRow)

  function Dispatched(row: EventRow, now: Time): EventRow {
    row.(dispatchedAt := Some(now), status := "DISPATCHED")
  }

  /** The UPDATE after a failure: columns are computed from the fetched row and written over the current one. */
  function Retried(current: EventRow, fetched: EventRow, now: Time, error: string): EventRow {
    var n := fetched.retryCount + 1;
    var counted := current.(retryCount := n, lastError := Some(error));
    if n >= fetched.maxRetries then
      counted.(deadLetteredAt := Some(now), status := "FAILED", failedAt := Some(now))
    else
      counted.(nextAttemptAt := Some(now + BackoffSeconds(n) * SECOND))
  }

  function Settle(db: Db, consumer: string, now: Time, f: Fetched, outcome: Result<seq<Evaluation>>): Db
    requires f.id in db.events
  {
    match outcome
    case Ok(evals) =>
      Db(db.events[f.id := Dispatched(db.events[f.id], now)],
         db.receipts[(consumer, f.id) := Receipt(SUCCESS, None, now)],
         db.evaluations + evals)
    case Err(error) =>
      Db(db.events[f.id := Retried(db.events[f.id], f.row, now, error)],
         db.receipts[(consumer, f.id) := Receipt(FAILED, Some(error), now)],
         db.evaluations)
  }

  function Fetch(db: Db, ids: seq<Uuid>): (batch: seq<Fetched>)
    requires forall i :: 0 <= i < |ids| ==> ids[i] in db.events
    ensures |batch| == |ids|
    ensures forall i :: 0 <= i < |ids| ==> batch[i] == Fetched(ids[i], db.events[ids[i]])
  {
    seq(|ids|, i requires 0 <= i < |ids| => Fetched(ids[i], db.events[ids[i]]))
  }

  ghost predicate BatchIn(db: Db, batch: seq<Fetched>) {
    forall i :: 0 <= i < |batch| ==> batch[i].id in db.events
  }

  /** One whole batch by a worker nobody interferes with. */
  function RunBatch(codecs: Codecs, db: Db, consumer: string, now: Time, batch: seq<Fetched>, attempts: Uuid -> Attempt): Db
    requires BatchIn(db, batch)
    decreases |batch|
  {
    if batch == [] then db
    else
      var f := batch[0];
      var next := Settle(db, consumer, now, f, Handle(codecs, consumer, f.id, f.row, attempts(f.id)));
      assert BatchIn(next, batch[1..]);
      RunBatch(codecs, next, consumer, now, batch[1..], attempts)
  }

  /** Attempts of the batch whose handler did not raise: the count the batch returns. */
  function Processed(codecs: Codecs, consumer: string, batch: seq<Fetched>, attempts: Uuid -> Attempt): nat {
    if batch == [] then 0
    else
      var f := batch[0];
      (if Handle(codecs, consumer, f.id, f.row, attempts(f.id)).Ok? then 1 else 0)
      + Processed(codecs, consumer, batch[1..], attempts)
  }

  // ---- exactly-once: evaluations against receipts ----

  function EvaluationsOf(evaluations: seq<Evaluation>, id: Uuid): seq<Evaluation> {
    if evaluations == [] then []
    else
      (if evaluations[0].sourceEventId == id then [evaluations[0]] else []) + EvaluationsOf(evaluations[1..], id)
  }

  lemma {:induction false} EvaluationsOfAppend(a: seq<Evaluation>, b: seq<Evaluation>, id: Uuid)
    ensures EvaluationsOf(a + b, id) == EvaluationsOf(a, id) + EvaluationsOf(b, id)
  {
    if a == [] {
      assert a + b == b;
    } else {
      EvaluationsOfAppend(a[1..], b, id);
      assert (a + b)[0] == a[0] && (a + b)[1..] == a[1..] + b;
      var head := if a[0].sourceEventId == id then [a[0]] else [];
      assert EvaluationsOf(a + b, id) == head + EvaluationsOf(a[1..] + b, id);
      assert EvaluationsOf(a, id) == head + EvaluationsOf(a[1..], id);
    }
  }

  lemma {:induction false} EvaluationsOfOwn(a: seq<Evaluation>, source: Uuid, id: Uuid)
    requires FromEvent(a, source)
    ensures EvaluationsOf(a, id) == if id == source then a else []
  {
    if a != [] {
      EvaluationsOfOwn(a[1..], source, id);
      assert a == [a[0]] + a[1..];
    }
  }

  /** Some complete, error-free handling of the event wants exactly these evaluations. */
  ghost predicate IsWholePlan(codecs: Codecs, id: Uuid, row: EventRow, evals: seq<Evaluation>) {
    exists version :: Plan(codecs, version, id, row.eventType, row.payload) == Planned(evals, None)
  }

  /** The event's effects are in the tables once and whole if it has a SUCCESS receipt, and absent if not. */
  ghost predicate OnceFor(codecs: Codecs, db: Db, id: Uuid) {
    if Succeeded(db, IMPACT_EVALUATOR, id)
    then id in db.events && IsWholePlan(codecs, id, db.events[id], EvaluationsOf(db.evaluations, id))
    else EvaluationsOf(db.evaluations, id) == []
  }

  ghost predicate ExactlyOnce(codecs: Codecs, db: Db) {
    forall id :: OnceFor(codecs, db, id)
  }

  /** Settling an attempt whose handling saw the event's immutable columns, on an event not yet done, keeps ExactlyOnce. */
  lemma SettleKeepsExactlyOnce(
    codecs: Codecs, db: Db, consumer: string, now: Time, f: Fetched, outcome: Result<seq<Evaluation>>)
    requires ExactlyOnce(codecs, db)
    requires f.id in db.events
    requires consumer == IMPACT_EVALUATOR ==> !Succeeded(db, consumer, f.id)
    requires consumer != IMPACT_EVALUATOR && outcome.Ok? ==> outcome.value == []
    requires consumer == IMPACT_EVALUATOR && outcome.Ok? ==>
               && IsWholePlan(codecs, f.id, db.events[f.id], outcome.value)
               && FromEvent(outcome.value, f.id)
    ensures ExactlyOnce(codecs, Settle(db, consumer, now, f, outcome))
  {
    var db' := Settle(db, consumer, now, f, outcome);
    forall id ensures OnceFor(codecs, db', id) {
      assert OnceFor(codecs, db, id);
      if outcome.Ok? {
        EvaluationsOfAppend(db.evaluations, outcome.value, id);
        if consumer == IMPACT_EVALUATOR {
          EvaluationsOfOwn(outcome.value, f.id, id);
        } else {
          assert db.evaluations + outcome.value == db.evaluations;
        }
      }
      if Succeeded(db', IMPACT_EVALUATOR, id) {
        if id == f.id && consumer == IMPACT_EVALUATOR {
          assert EvaluationsOf(db'.evaluations, id) == outcome.value;
        } else {
          assert Succeeded(db, IMPACT_EVALUATOR, id);
          assert EvaluationsOf(db'.evaluations, id) == EvaluationsOf(db.evaluations, id);
        }
        WholePlanStable(codecs, id, db.events[id], db'.events[id], EvaluationsOf(db'.evaluations, id));
      }
    }
  }

  lemma WholePlanStable(codecs: Codecs, id: Uuid, row: EventRow, row': EventRow, evals: seq<Evaluation>)
    requires IsWholePlan(codecs, id, row, evals)
    requires row.eventType == row'.eventType && row.payload == row'.payload
    ensures IsWholePlan(codecs, id, row', evals)
  {
    var version :| Plan(codecs, version, id, row.eventType, row.payload) == Planned(evals, None);
    assert Plan(codecs, version, id, row'.eventType, row'.payload) == Planned(evals, None);
  }

  /** A handling that succeeds wants a whole plan; for any other consumer it wants nothing. */
  lemma HandleIsWhole(codecs: Codecs, consumer: string, id: Uuid, row: EventRow, current: EventRow, a: Attempt)
    requires row.eventType == current.eventType && row.payload == current.payload
    requires Handle(codecs, consumer, id, row, a).Ok?
    ensures consumer == IMPACT_EVALUATOR ==>
              IsWholePlan(codecs, id, current, Handle(codecs, consumer, id, row, a).value)
    ensures consumer != IMPACT_EVALUATOR ==> Handle(codecs, consumer, id, row, a).value == []
  {
    if consumer == IMPACT_EVALUATOR {
      assert Plan(codecs, a.globalVersion.value, id, current.eventType, current.payload).error.None?;
    }
  }
}
