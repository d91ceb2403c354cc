/**
 Draining a backlog with one worker for one consumer: what any sequence of batches does to one
 event, when it can be dead-lettered, and why draining ends.
 */
module OutboxDrain {
  import opened Common
  import opened OutboxModel
  import opened OutboxWorkers

  /** One call of the dispatcher: its clock reading, batch size, what the query returned, and the handlers' fate. */
  datatype Round = Round(now: Time, batchSize: nat, ids: seq<Uuid>, attempts: Uuid -> Attempt)

  ghost predicate Possible(db: Db, consumer: string, r: Round) {
    Selection(db, {}, consumer, r.now, r.batchSize, r.ids)
  }

  ghost function RunRound(codecs: Codecs, db: Db, consumer: string, r: Round): Db
    requires Possible(db, consumer, r)
  {
    RunBatch(codecs, db, consumer, r.now, Fetch(db, r.ids), r.attempts)
  }

  /** dbs are the committed tables before the first round and after each one. */
  ghost predicate Trace(codecs: Codecs, consumer: string, dbs: seq<Db>, rounds: seq<Round>) {
    && |dbs| == |rounds| + 1
    && forall i :: 0 <= i < |rounds| ==>
         Possible(dbs[i], consumer, rounds[i]) && dbs[i + 1] == RunRound(codecs, dbs[i], consumer, rounds[i])
  }

  // ---- the effect of one round on one event ----

  /** What a round leaves of an event: its row and this consumer's receipt, from those before. */
  ghost predicate RoundEffect(codecs: Codecs, db: Db, consumer: string, r: Round, db': Db, id: Uuid) {
    && id in db.events && id in db'.events
    && if id in r.ids then
         && Eligible(db, consumer, r.now, id)
         && var row := db.events[id];
         match Handle(codecs, consumer, id, row, r.attempts(id))
         case Ok(_) => db'.events[id] == Dispatched(row, r.now) && Succeeded(db', consumer, id)
         case Err(e) => db'.events[id] == Retried(row, row, r.now, e) && !Succeeded(db', consumer, id)
       else
         db'.events[id] == db.events[id] && (Succeeded(db', consumer, id) <==> Succeeded(db, consumer, id))
  }

  /** Batches of distinct events whose rows have not moved since they were fetched. */
  ghost predicate CleanBatch(db: Db, batch: seq<Fetched>) {
    && (forall i :: 0 <= i < |batch| ==> batch[i].id in db.events && db.events[batch[i].id] == batch[i].row)
    && (forall i, j :: 0 <= i < j < |batch| ==> batch[i].id != batch[j].id)
  }

  lemma {:induction false} BatchTouches(
    codecs: Codecs, db: Db, consumer: string, now: Time, batch: seq<Fetched>, attempts: Uuid -> Attempt, id: Uuid)
    requires CleanBatch(db, batch) && id in db.events
    ensures BatchIn(db, batch)
    ensures var db' := RunBatch(codecs, db, consumer, now, batch, attempts);
            && db'.events.Keys == db.events.Keys
            && if id in Ids(batch) then
                 var row := db.events[id];
                 match Handle(codecs, consumer, id, row, attempts(id))
                 case Ok(_) => db'.events[id] == Dispatched(row, now) && Succeeded(db', consumer, id)
                 case Err(e) => db'.events[id] == Retried(row, row, now, e) && !Succeeded(db', consumer, id)
               else
                 db'.events[id] == db.events[id] && (Succeeded(db', consumer, id) <==> Succeeded(db, consumer, id))
    decreases |batch|
  {
    if batch != [] {
      var f := batch[0];
      var next := Settle(db, consumer, now, f, Handle(codecs, consumer, f.id, f.row, attempts(f.id)));
      assert forall i :: 0 <= i < |batch[1..]| ==> batch[1..][i] == batch[i + 1];
      BatchTouches(codecs, next, consumer, now, batch[1..], attempts, id);
      assert id in Ids(batch) <==> id == f.id || id in Ids(batch[1..]) by {
        if id in Ids(batch) && id != f.id {
          var i :| 0 <= i < |batch| && batch[i].id == id;
          assert batch[1..][i - 1].id == id;
        }
        if id in Ids(batch[1..]) {
          var i :| 0 <= i < |batch[1..]| && batch[1..][i].id == id;
          assert batch[i + 1].id == id;
        }
      }
    }
  }

  lemma RoundTouches(codecs: Codecs, db: Db, consumer: string, r: Round, id: Uuid)
    requires Possible(db, consumer, r) && id in db.events
    ensures RoundEffect(codecs, db, consumer, r, RunRound(codecs, db, consumer, r), id)
  {
    var batch := Fetch(db, r.ids);
    BatchTouches(codecs, db, consumer, r.now, batch, r.attempts, id);
    assert id in r.ids <==> id in Ids(batch) by {
      if id in r.ids {
        var i :| 0 <= i < |r.ids| && r.ids[i] == id;
        assert batch[i].id == id;
      }
    }
  }

  ghost function SucceededOf(db: Db, consumer: string, ids: set<Uuid>): set<Uuid> {
    set id | id in ids && Succeeded(db, consumer, id)
  }

  lemma OneMoreSucceeded(db: Db, consumer: string, ids: set<Uuid>, id: Uuid)
    requires id !in ids
    ensures |SucceededOf(db, consumer, {id} + ids)| == |SucceededOf(db, consumer, ids)| + if Succeeded(db, consumer, id) then 1 else 0
  {
    assert SucceededOf(db, consumer, {id} + ids)
           == SucceededOf(db, consumer, ids) + if Succeeded(db, consumer, id) then {id} else {};
  }

  /** The number a batch returns is that of its events that have succeeded when it ends. */
  lemma {:induction false} ProcessedSucceeded(
    codecs: Codecs, db: Db, consumer: string, now: Time, batch: seq<Fetched>, attempts: Uuid -> Attempt)
    requires CleanBatch(db, batch)
    ensures BatchIn(db, batch)
    ensures Processed(codecs, consumer, batch, attempts)
            == |SucceededOf(RunBatch(codecs, db, consumer, now, batch, attempts), consumer, Ids(batch))|
    decreases |batch|
  {
    if batch != [] {
      var f, rest := batch[0], batch[1..];
      var next := Settle(db, consumer, now, f, Handle(codecs, consumer, f.id, f.row, attempts(f.id)));
      assert forall i :: 0 <= i < |rest| ==> rest[i] == batch[i + 1];
      ProcessedSucceeded(codecs, next, consumer, now, rest, attempts);
      BatchTouches(codecs, next, consumer, now, rest, attempts, f.id);
      IdsCons(batch);
      OneMoreSucceeded(RunBatch(codecs, next, consumer, now, rest, attempts), consumer, Ids(rest), f.id);
    } else {
      assert SucceededOf(db, consumer, Ids(batch)) == {};
    }
  }

  lemma IdsCons(batch: seq<Fetched>)
    requires batch != []
    ensures Ids(batch) == {batch[0].id} + Ids(batch[1..])
  {
    forall id | id in Ids(batch) ensures id == batch[0].id || id in Ids(batch[1..]) {
      var i :| 0 <= i < |batch| && batch[i].id == id;
      assert i > 0 ==> batch[1..][i - 1].id == id;
    }
    forall id | id in Ids(batch[1..]) ensures id in Ids(batch) {
      var i :| 0 <= i < |batch[1..]| && batch[1..][i].id == id;
      assert batch[i + 1].id == id;
    }
  }

  // ---- backoff ----

  /** Seconds from the first failure to the earliest (n+1)-th attempt. */
  function SumOfDelays(n: nat): int {
    if n == 0 then 0 else SumOfDelays(n - 1) + BackoffSeconds(n)
  }

  lemma {:induction false} SumOfDelaysClosedForm(n: nat)
    requires n >= 4
    ensures SumOfDelays(n) == 110 + 300 * (n - 4)
  {
    if n == 4 {
      assert SumOfDelays(1) == 5 && SumOfDelays(2) == 20 && SumOfDelays(3) == 50;
    } else {
      SumOfDelaysClosedForm(n - 1);
    }
  }

  lemma {:induction false} BackoffMonotone(m: nat, n: nat)
    requires 1 <= m <= n
    ensures 0 < BackoffSeconds(m) <= BackoffSeconds(n)
    decreases n
  {
    if m < n {
      BackoffMonotone(m, n - 1);
    }
  }

  predicate Untried(row: EventRow) {
    row.retryCount == 0 && row.deadLetteredAt.None?
  }

  function Budget(row: EventRow): nat {
    Max(1, row.maxRetries)
  }

  /** Attempts are spaced: with n failures behind it, the event waited n-1 delays and owes the n-th. */
  ghost predicate Spaced(row: EventRow, first: Time) {
    && row.retryCount >= 1
    && (row.deadLetteredAt.None? ==>
          && row.retryCount < Budget(row)
          && row.nextAttemptAt.Some?
          && row.nextAttemptAt.value >= first + SumOfDelays(row.retryCount) * SECOND)
    && (row.deadLetteredAt.Some? ==>
          && row.retryCount == Budget(row)
          && row.deadLetteredAt.value >= first + SumOfDelays(row.retryCount - 1) * SECOND)
  }

  /** Round j is the first one in which the event fails. */
  ghost predicate FirstFailure(dbs: seq<Db>, id: Uuid, j: nat) {
    && j + 1 < |dbs| && id in dbs[j].events && id in dbs[j + 1].events
    && Untried(dbs[j].events[id]) && dbs[j + 1].events[id].retryCount == 1
  }

  lemma SpacedStep(codecs: Codecs, consumer: string, db: Db, r: Round, id: Uuid, first: Time)
    requires Possible(db, consumer, r) && id in db.events
    requires Spaced(db.events[id], first) || (Untried(db.events[id]) && first == r.now)
    ensures id in RunRound(codecs, db, consumer, r).events
    ensures var row := RunRound(codecs, db, consumer, r).events[id];
            Spaced(row, first) || (Untried(db.events[id]) && Untried(row))
  {
    RoundTouches(codecs, db, consumer, r, id);
    if id in r.ids {
      var row := db.events[id];
      match Handle(codecs, consumer, id, row, r.attempts(id))
      case Ok(_) =>
      case Err(e) => FailureIsSpaced(row, r.now, e, first);
    }
  }

  /** A failure no earlier than the attempt was owed. */
  lemma FailureIsSpaced(row: EventRow, now: Time, error: string, first: Time)
    requires row.deadLetteredAt.None?
    requires (Spaced(row, first) && row.nextAttemptAt.value <= now) || (Untried(row) && first == now)
    ensures Spaced(Retried(row, row, now, error), first)
  {
    var n := row.retryCount;
    assert SumOfDelays(n + 1) == SumOfDelays(n) + BackoffSeconds(n + 1);
    assert SumOfDelays(0) == 0;
  }

  lemma {:induction false} AttemptsAreSpaced(
    codecs: Codecs, consumer: string, dbs: seq<Db>, rounds: seq<Round>, id: Uuid, j: nat, n: nat)
    requires Trace(codecs, consumer, dbs, rounds) && FirstFailure(dbs, id, j) && j < n < |dbs|
    ensures id in dbs[n].events && Spaced(dbs[n].events[id], rounds[j].now)
    decreases n
  {
    if n > j + 1 {
      AttemptsAreSpaced(codecs, consumer, dbs, rounds, id, j, n - 1);
      SpacedStep(codecs, consumer, dbs[n - 1], rounds[n - 1], id, rounds[j].now);
    } else {
      SpacedStep(codecs, consumer, dbs[j], rounds[j], id, rounds[j].now);
    }
  }

  /** An event with budget m is never dead-lettered before the first m-1 delays have passed since its first failure. */
  lemma DeadLetterBound(codecs: Codecs, consumer: string, dbs: seq<Db>, rounds: seq<Round>, id: Uuid, j: nat, n: nat)
    requires Trace(codecs, consumer, dbs, rounds) && FirstFailure(dbs, id, j) && j < n < |dbs|
    requires id in dbs[n].events && dbs[n].events[id].deadLetteredAt.Some?
    ensures var row := dbs[n].events[id];
            && row.retryCount == Budget(row)
            && row.deadLetteredAt.value >= rounds[j].now + SumOfDelays(Budget(row) - 1) * SECOND
            && (row.maxRetries >= 5 ==>
                  row.deadLetteredAt.value >= rounds[j].now + (110 + 300 * (row.maxRetries - 5)) * SECOND)
  {
    AttemptsAreSpaced(codecs, consumer, dbs, rounds, id, j, n);
    var row := dbs[n].events[id];
    if row.maxRetries >= 5 {
      SumOfDelaysClosedForm(row.maxRetries - 1);
    }
  }

  /** Round i failed the event and scheduled another attempt. */
  ghost predicate Rescheduled(dbs: seq<Db>, id: Uuid, i: nat) {
    && i + 1 < |dbs| && id in dbs[i].events && id in dbs[i + 1].events
    && dbs[i + 1].events[id].retryCount > dbs[i].events[id].retryCount
    && dbs[i + 1].events[id].deadLetteredAt.None?
    && dbs[i + 1].events[id].nextAttemptAt.Some?
  }

  lemma RoundNeverDrops(codecs: Codecs, consumer: string, db: Db, r: Round, id: Uuid)
    requires Possible(db, consumer, r) && id in db.events
    ensures var db' := RunRound(codecs, db, consumer, r);
            id in db'.events && db'.events[id].retryCount >= db.events[id].retryCount
  {
    RoundTouches(codecs, db, consumer, r, id);
  }

  lemma {:induction false} RetriesNeverDrop(
    codecs: Codecs, consumer: string, dbs: seq<Db>, rounds: seq<Round>, id: Uuid, i: nat, n: nat)
    requires Trace(codecs, consumer, dbs, rounds) && i <= n < |dbs| && id in dbs[i].events
    ensures id in dbs[n].events && dbs[n].events[id].retryCount >= dbs[i].events[id].retryCount
    decreases n
  {
    if i < n {
      RetriesNeverDrop(codecs, consumer, dbs, rounds, id, i, n - 1);
      RoundNeverDrops(codecs, consumer, dbs[n - 1], rounds[n - 1], id);
    }
  }

  lemma RescheduledDelay(codecs: Codecs, consumer: string, db: Db, r: Round, id: Uuid)
    requires Possible(db, consumer, r) && id in db.events
    ensures id in RunRound(codecs, db, consumer, r).events
    ensures var row := RunRound(codecs, db, consumer, r).events[id];
            row.retryCount > db.events[id].retryCount && row.deadLetteredAt.None? ==>
              row.nextAttemptAt == Some(r.now + BackoffSeconds(row.retryCount) * SECOND)
  {
    RoundTouches(codecs, db, consumer, r, id);
  }

  /** The delays an event is given never shrink from one failure to a later one. */
  lemma DelaysNeverShrink(codecs: Codecs, consumer: string, dbs: seq<Db>, rounds: seq<Round>, id: Uuid, i: nat, k: nat)
    requires Trace(codecs, consumer, dbs, rounds) && i <= k
    requires Rescheduled(dbs, id, i) && Rescheduled(dbs, id, k)
    ensures 0 < dbs[i + 1].events[id].nextAttemptAt.value - rounds[i].now
              <= dbs[k + 1].events[id].nextAttemptAt.value - rounds[k].now
  {
    RescheduledDelay(codecs, consumer, dbs[i], rounds[i], id);
    RescheduledDelay(codecs, consumer, dbs[k], rounds[k], id);
    if i < k {
      RetriesNeverDrop(codecs, consumer, dbs, rounds, id, i + 1, k);
    }
    BackoffMonotone(dbs[i + 1].events[id].retryCount, dbs[k + 1].events[id].retryCount);
  }

  // ---- termination ----

  /** Attempts the event can still use up. */
  function Remaining(db: Db, consumer: string, id: Uuid): nat
    requires id in db.events
  {
    var row := db.events[id];
    if Succeeded(db, consumer, id) || row.deadLetteredAt.Some? then 0 else Max(1, row.maxRetries - row.retryCount)
  }

  function RemainingOf(db: Db, consumer: string): map<Uuid, nat> {
    map id | id in db.events :: Remaining(db, consumer, id)
  }

  ghost function Measure(db: Db, consumer: string): nat {
    SumValues(RemainingOf(db, consumer))
  }

  /** Handler attempts made by the first n rounds of a run. */
  function Attempts(rounds: seq<Round>, n: nat): nat
    requires n <= |rounds|
  {
    if n == 0 then 0 else Attempts(rounds, n - 1) + |rounds[n - 1].ids|
  }

  lemma SettleUsesBudget(
    db: Db, consumer: string, now: Time, f: Fetched, outcome: Result<seq<Evaluation>>)
    requires f.id in db.events && db.events[f.id] == f.row && Remaining(db, consumer, f.id) > 0
    ensures Measure(Settle(db, consumer, now, f, outcome), consumer) < Measure(db, consumer)
    ensures forall id :: id in db.events && id != f.id ==>
              Remaining(Settle(db, consumer, now, f, outcome), consumer, id) == Remaining(db, consumer, id)
  {
    var next := Settle(db, consumer, now, f, outcome);
    OneLess(db, consumer, now, f, outcome);
    MeasureUpdate(db, next, consumer, f.id);
  }

  lemma MeasureUpdate(db: Db, next: Db, consumer: string, id: Uuid)
    requires id in db.events && next.events.Keys == db.events.Keys
    requires forall e :: e in db.events && e != id ==> Remaining(next, consumer, e) == Remaining(db, consumer, e)
    ensures Measure(next, consumer) == Measure(db, consumer) - Remaining(db, consumer, id) + Remaining(next, consumer, id)
  {
    var before, after := RemainingOf(db, consumer), RemainingOf(next, consumer);
    SumValuesUpdate(before, id, after[id]);
    assert after == before[id := after[id]];
  }

  /** An attempt costs its own event budget and no other event any. */
  lemma OneLess(db: Db, consumer: string, now: Time, f: Fetched, outcome: Result<seq<Evaluation>>)
    requires f.id in db.events && db.events[f.id] == f.row && Remaining(db, consumer, f.id) > 0
    ensures var next := Settle(db, consumer, now, f, outcome);
            && next.events.Keys == db.events.Keys
            && Remaining(next, consumer, f.id) < Remaining(db, consumer, f.id)
            && forall id :: id in db.events && id != f.id ==> Remaining(next, consumer, id) == Remaining(db, consumer, id)
  {
  }

  lemma {:induction false} BatchUsesBudget(
    codecs: Codecs, db: Db, consumer: string, now: Time, batch: seq<Fetched>, attempts: Uuid -> Attempt)
    requires CleanBatch(db, batch)
    requires forall i :: 0 <= i < |batch| ==> Remaining(db, consumer, batch[i].id) > 0
    ensures BatchIn(db, batch)
    ensures Measure(RunBatch(codecs, db, consumer, now, batch, attempts), consumer) + |batch| <= Measure(db, consumer)
    decreases |batch|
  {
    if batch != [] {
      var f := batch[0];
      var next := Settle(db, consumer, now, f, Handle(codecs, consumer, f.id, f.row, attempts(f.id)));
      SettleUsesBudget(db, consumer, now, f, Handle(codecs, consumer, f.id, f.row, attempts(f.id)));
      forall i | 0 <= i < |batch[1..]|
        ensures batch[1..][i] == batch[i + 1] && Remaining(next, consumer, batch[1..][i].id) > 0
      {
        assert Remaining(db, consumer, batch[i + 1].id) > 0;
      }
      BatchUsesBudget(codecs, next, consumer, now, batch[1..], attempts);
    }
  }

  lemma RoundUsesBudget(codecs: Codecs, db: Db, consumer: string, r: Round)
    requires Possible(db, consumer, r)
    ensures Measure(RunRound(codecs, db, consumer, r), consumer) + |r.ids| <= Measure(db, consumer)
  {
    forall i | 0 <= i < |r.ids| ensures Remaining(db, consumer, Fetch(db, r.ids)[i].id) > 0 {
      assert Eligible(db, consumer, r.now, r.ids[i]);
    }
    BatchUsesBudget(codecs, db, consumer, r.now, Fetch(db, r.ids), r.attempts);
  }

  /** Every attempt uses up budget: a run never makes more attempts than the backlog allows. */
  lemma {:induction false} AttemptsBounded(codecs: Codecs, consumer: string, dbs: seq<Db>, rounds: seq<Round>, n: nat)
    requires Trace(codecs, consumer, dbs, rounds) && n <= |rounds|
    ensures Measure(dbs[n], consumer) + Attempts(rounds, n) <= Measure(dbs[0], consumer)
  {
    if n > 0 {
      AttemptsBounded(codecs, consumer, dbs, rounds, n - 1);
      RoundUsesBudget(codecs, dbs[n - 1], consumer, rounds[n - 1]);
    }
  }

  function BudgetsOf(db: Db): map<Uuid, nat> {
    map id | id in db.events :: Budget(db.events[id])
  }

  lemma FreshMeasure(db: Db, consumer: string)
    requires forall id :: id in db.events ==> Untried(db.events[id]) && !Succeeded(db, consumer, id)
    ensures Measure(db, consumer) == SumValues(BudgetsOf(db))
  {
    assert RemainingOf(db, consumer) == BudgetsOf(db);
  }

  /** From a fresh backlog: at most one attempt per unit of max(1, max_retries), over all events together. */
  lemma FreshAttemptsBounded(codecs: Codecs, consumer: string, dbs: seq<Db>, rounds: seq<Round>)
    requires Trace(codecs, consumer, dbs, rounds)
    requires forall id :: id in dbs[0].events ==> Untried(dbs[0].events[id]) && !Succeeded(dbs[0], consumer, id)
    ensures Attempts(rounds, |rounds|) <= SumValues(BudgetsOf(dbs[0]))
  {
    AttemptsBounded(codecs, consumer, dbs, rounds, |rounds|);
    FreshMeasure(dbs[0], consumer);
  }

  /** The query always has an answer, so every state has a possible round of any size at any time. */
  lemma {:induction false} SelectionExists(db: Db, locked: set<Uuid>, consumer: string, now: Time, limit: nat)
    returns (ids: seq<Uuid>)
    ensures Selection(db, locked, consumer, now, limit, ids)
    decreases limit
  {
    if limit == 0 {
      return [];
    }
    ids := SelectionExists(db, locked, consumer, now, limit - 1);
    var left := set id | id in db.events && Eligible(db, consumer, now, id) && id !in locked && id !in ids;
    assert forall id :: Eligible(db, consumer, now, id) && id !in locked && id !in ids ==> id in left;
    if left != {} {
      var e := Oldest(db, left);
      assert |ids| == limit - 1;
      ids := ids + [e];
    }
  }

  lemma {:induction false} Oldest(db: Db, candidates: set<Uuid>) returns (e: Uuid)
    requires candidates != {} && candidates <= db.events.Keys
    ensures e in candidates && forall id :: id in candidates ==> db.events[e].createdAt <= db.events[id].createdAt
    decreases |candidates|
  {
    e :| e in candidates;
    if candidates != {e} {
      assert candidates == (candidates - {e}) + {e};
      var f := Oldest(db, candidates - {e});
      if db.events[f].createdAt < db.events[e].createdAt {
        e := f;
      }
    }
  }

  /** A round with room for an event, at a time no scheduled attempt is still waiting for. */
  ghost predicate Due(db: Db, r: Round) {
    r.batchSize >= 1 &&
    forall id :: id in db.events && db.events[id].nextAttemptAt.Some? ==> db.events[id].nextAttemptAt.value <= r.now
  }

  lemma DueRoundAttempts(db: Db, consumer: string, r: Round)
    requires Possible(db, consumer, r) && Due(db, r)
    ensures Measure(db, consumer) == 0 || r.ids != []
  {
    if r.ids == [] {
      forall id | id in db.events ensures Remaining(db, consumer, id) == 0 {
        assert !Eligible(db, consumer, r.now, id);
      }
      AllZero(RemainingOf(db, consumer));
    }
  }

  lemma {:induction false} AllZero(m: map<Uuid, nat>)
    requires forall id :: id in m ==> m[id] == 0
    ensures SumValues(m) == 0
    decreases |m|
  {
    if id :| id in m {
      SumValuesRemove(m, id);
      AllZero(m - {id});
    }
  }

  /** Nothing is left to do for the event: it succeeded, or it used exactly its budget and was dead-lettered. */
  ghost predicate Finished(db: Db, consumer: string, id: Uuid) {
    && id in db.events
    && (Succeeded(db, consumer, id)
        || (db.events[id].deadLetteredAt.Some? && db.events[id].retryCount == Budget(db.events[id])))
  }

  /** A live event is within its budget, a dead one has used it exactly. */
  predicate RowAccounted(row: EventRow) {
    if row.deadLetteredAt.Some? then row.retryCount == Budget(row) else row.retryCount < Budget(row)
  }

  /** True of freshly published events. */
  ghost predicate Accounted(db: Db) {
    forall id :: id in db.events ==> RowAccounted(db.events[id])
  }

  lemma AccountedStep(codecs: Codecs, consumer: string, db: Db, r: Round)
    requires Possible(db, consumer, r) && Accounted(db)
    ensures RunRound(codecs, db, consumer, r).events.Keys == db.events.Keys
    ensures Accounted(RunRound(codecs, db, consumer, r))
  {
    var db' := RunRound(codecs, db, consumer, r);
    BatchKeys(codecs, db, consumer, r.now, Fetch(db, r.ids), r.attempts);
    forall id | id in db'.events ensures RowAccounted(db'.events[id]) {
      RoundTouches(codecs, db, consumer, r, id);
    }
  }

  lemma {:induction false} BatchKeys(
    codecs: Codecs, db: Db, consumer: string, now: Time, batch: seq<Fetched>, attempts: Uuid -> Attempt)
    requires BatchIn(db, batch)
    ensures RunBatch(codecs, db, consumer, now, batch, attempts).events.Keys == db.events.Keys
    decreases |batch|
  {
    if batch != [] {
      var f := batch[0];
      BatchKeys(codecs, Settle(db, consumer, now, f, Handle(codecs, consumer, f.id, f.row, attempts(f.id))), consumer, now,
                batch[1..], attempts);
    }
  }

  lemma {:induction false} DueRoundsDrain(codecs: Codecs, consumer: string, dbs: seq<Db>, rounds: seq<Round>)
    requires Trace(codecs, consumer, dbs, rounds)
    requires forall i :: 0 <= i < |rounds| ==> Due(dbs[i], rounds[i])
    ensures Measure(dbs[|rounds|], consumer) == 0 || Measure(dbs[|rounds|], consumer) + |rounds| <= Measure(dbs[0], consumer)
    decreases |rounds|
  {
    if rounds != [] {
      var n := |rounds| - 1;
      DueRoundsDrain(codecs, consumer, dbs[..n + 1], rounds[..n]);
      RoundUsesBudget(codecs, dbs[n], consumer, rounds[n]);
      DueRoundAttempts(dbs[n], consumer, rounds[n]);
    }
  }

  lemma {:induction false} AccountedAlong(codecs: Codecs, consumer: string, dbs: seq<Db>, rounds: seq<Round>, n: nat)
    requires Trace(codecs, consumer, dbs, rounds) && n < |dbs| && Accounted(dbs[0])
    ensures Accounted(dbs[n]) && dbs[n].events.Keys == dbs[0].events.Keys
  {
    if n > 0 {
      AccountedAlong(codecs, consumer, dbs, rounds, n - 1);
      AccountedStep(codecs, consumer, dbs[n - 1], rounds[n - 1]);
    }
  }

  /** As many due rounds as there is budget finish every event of the backlog. */
  lemma DrainTerminates(codecs: Codecs, consumer: string, dbs: seq<Db>, rounds: seq<Round>)
    requires Trace(codecs, consumer, dbs, rounds) && Accounted(dbs[0])
    requires forall i :: 0 <= i < |rounds| ==> Due(dbs[i], rounds[i])
    requires |rounds| >= Measure(dbs[0], consumer)
    ensures forall id :: id in dbs[0].events ==> Finished(dbs[|rounds|], consumer, id)
  {
    DueRoundsDrain(codecs, consumer, dbs, rounds);
    AccountedAlong(codecs, consumer, dbs, rounds, |rounds|);
    var db := dbs[|rounds|];
    SumValuesZero(RemainingOf(db, consumer));
    forall id | id in dbs[0].events ensures Finished(db, consumer, id) {
      assert RemainingOf(db, consumer)[id] == 0;
    }
  }

  lemma {:induction false} LatestAttempt(events: map<Uuid, EventRow>) returns (now: Time)
    ensures forall id :: id in events && events[id].nextAttemptAt.Some? ==> events[id].nextAttemptAt.value <= now
    decreases |events|
  {
    now := 0;
    if id :| id in events {
      now := LatestAttempt(events - {id});
      if events[id].nextAttemptAt.Some? {
        now := Max(now, events[id].nextAttemptAt.value);
      }
      assert forall e :: e in events ==> e == id || (e in events - {id} && (events - {id})[e] == events[e]);
    }
  }

  lemma TraceExtends(codecs: Codecs, consumer: string, dbs: seq<Db>, rounds: seq<Round>, r: Round)
    requires Trace(codecs, consumer, dbs, rounds) && Possible(dbs[|rounds|], consumer, r)
    ensures Trace(codecs, consumer, dbs + [RunRound(codecs, dbs[|rounds|], consumer, r)], rounds + [r])
  {
    var dbs', rounds' := dbs + [RunRound(codecs, dbs[|rounds|], consumer, r)], rounds + [r];
    forall i | 0 <= i < |rounds'|
      ensures Possible(dbs'[i], consumer, rounds'[i]) && dbs'[i + 1] == RunRound(codecs, dbs'[i], consumer, rounds'[i])
    {
      assert i < |rounds| ==> rounds'[i] == rounds[i] && dbs'[i] == dbs[i] && dbs'[i + 1] == dbs[i + 1];
    }
  }

  /** From any tables, due rounds of any number exist: a drain is always possible. */
  lemma {:induction false} DrainExists(codecs: Codecs, consumer: string, db: Db, attempts: Uuid -> Attempt, n: nat)
    returns (dbs: seq<Db>, rounds: seq<Round>)
    ensures Trace(codecs, consumer, dbs, rounds) && |rounds| == n && dbs[0] == db
    ensures forall i :: 0 <= i < n ==> Due(dbs[i], rounds[i]) && rounds[i].attempts == attempts
  {
    if n == 0 {
      dbs, rounds := [db], [];
    } else {
      dbs, rounds := DrainExists(codecs, consumer, db, attempts, n - 1);
      var last := dbs[n - 1];
      var now := LatestAttempt(last.events);
      var ids := SelectionExists(last, {}, consumer, now, 1);
      var r := Round(now, 1, ids, attempts);
      TraceExtends(codecs, consumer, dbs, rounds, r);
      dbs, rounds := dbs + [RunRound(codecs, last, consumer, r)], rounds + [r];
    }
  }

  /** A finished event stays finished, row and all, and no later query returns it. */
  lemma {:induction false} FinishedForever(
    codecs: Codecs, consumer: string, dbs: seq<Db>, rounds: seq<Round>, id: Uuid, i: nat, n: nat)
    requires Trace(codecs, consumer, dbs, rounds) && i <= n < |dbs| && Finished(dbs[i], consumer, id)
    ensures Finished(dbs[n], consumer, id) && dbs[n].events[id] == dbs[i].events[id]
    ensures n < |rounds| ==> id !in rounds[n].ids
    decreases n
  {
    if i < n {
      FinishedForever(codecs, consumer, dbs, rounds, id, i, n - 1);
      RoundTouches(codecs, dbs[n - 1], consumer, rounds[n - 1], id);
    }
    if n < |rounds| {
      assert !Eligible(dbs[n], consumer, rounds[n].now, id);
    }
  }

  lemma {:induction false} DeadRowStays(
    codecs: Codecs, consumer: string, dbs: seq<Db>, rounds: seq<Round>, id: Uuid, i: nat, n: nat)
    requires Trace(codecs, consumer, dbs, rounds) && i <= n < |dbs|
    requires id in dbs[i].events && dbs[i].events[id].deadLetteredAt.Some?
    ensures id in dbs[n].events && dbs[n].events[id] == dbs[i].events[id]
    decreases n
  {
    if i < n {
      DeadRowStays(codecs, consumer, dbs, rounds, id, i, n - 1);
      RoundTouches(codecs, dbs[n - 1], consumer, rounds[n - 1], id);
      assert !Eligible(dbs[n - 1], consumer, rounds[n - 1].now, id);
    }
  }

  /** The columns are shared: an event one consumer has used up keeps its row and is never selected for any other. */
  lemma DeadForEveryConsumer(
    codecs: Codecs, consumer: string, dbs: seq<Db>, rounds: seq<Round>, id: Uuid, i: nat, n: nat,
    other: string, locked: set<Uuid>, now: Time, limit: nat, ids: seq<Uuid>)
    requires Trace(codecs, consumer, dbs, rounds) && i <= n < |dbs|
    requires id in dbs[i].events && dbs[i].events[id].deadLetteredAt.Some?
    requires Selection(dbs[n], locked, other, now, limit, ids)
    ensures id !in ids
    ensures id in dbs[n].events && dbs[n].events[id] == dbs[i].events[id]
  {
    DeadRowStays(codecs, consumer, dbs, rounds, id, i, n);
    assert !Eligible(dbs[n], other, now, id);
  }
}
