/**
 The retry counter when any number of workers of any consumers share it. A failing attempt writes the count it read
 with its row plus one (backend/app/workers/outbox_dispatcher.py:163-176), so a row read before another worker's
 failure loses that failure. When the counter counts every failure, and what the retry budget then promises.
 */
module OutboxRetries {
  import opened Common
  import opened OutboxModel
  import opened OutboxWorkers
  import opened OutboxDrain

  // ---- which configurations keep the count ----

  ghost predicate Mates(cfg: Config, v: WorkerId, w: WorkerId) {
    v in cfg.consumerOf && w in cfg.consumerOf && v != w && cfg.consumerOf[v] == cfg.consumerOf[w]
  }

  /**
   v can fail an attempt that w takes no part in: its handler may raise, or its receipt collide with the one of a
   third worker of its consumer.
   */
  ghost predicate FailsWithout(cfg: Config, v: WorkerId, w: WorkerId) {
    v in cfg.consumerOf && (IsEvaluator(cfg, v) || exists m :: m != w && Mates(cfg, v, m))
  }

  ghost predicate Rivals(cfg: Config, v: WorkerId, w: WorkerId) {
    v != w && FailsWithout(cfg, v, w) && FailsWithout(cfg, w, v)
  }

  /** One event per batch, or no two workers that can fail independently of each other. */
  ghost predicate Counted(cfg: Config) {
    cfg.batchSize <= 1 || forall v, w :: !Rivals(cfg, v, w)
  }

  /** The next commit of w records a failed attempt. */
  ghost predicate AboutToFail(cfg: Config, world: World, w: WorkerId) {
    Enabled(cfg, world, Commit(w)) && world.workers[w].phase.Failing?
  }

  function Head(k: Worker): Fetched
    requires k.Running? && k.batch != []
  {
    k.batch[0]
  }

  /** Committing the failure adds exactly one to the event's count. */
  ghost predicate AddsOne(codecs: Codecs, cfg: Config, world: World, w: WorkerId)
    requires AboutToFail(cfg, world, w)
  {
    var id := Head(world.workers[w]).id;
    Next(codecs, cfg, world, Commit(w)).db.events[id].retryCount == world.db.events[id].retryCount + 1
  }

  ghost predicate AlwaysCounts(codecs: Codecs, cfg: Config) {
    forall world, steps, end, w ::
      Initial(codecs, cfg, world) && Reaches(codecs, cfg, world, steps, end) && AboutToFail(cfg, end, w)
      ==> AddsOne(codecs, cfg, end, w)
  }

  // ---- a row that can still fail is never stale ----

  /** The columns only a failed attempt writes, and the budget. */
  predicate SameSchedule(a: EventRow, b: EventRow) {
    && a.retryCount == b.retryCount && a.maxRetries == b.maxRetries
    && a.nextAttemptAt == b.nextAttemptAt && a.deadLetteredAt == b.deadLetteredAt
  }

  /** Its attempt has failed, or will if a receipt it has not seen turns up. */
  predicate Armed(k: Worker) {
    k.Running? && k.batch != [] && (k.phase.Failing? || (k.phase.Succeeding? && !k.phase.receiptSeen))
  }

  ghost predicate HasMate(cfg: Config, w: WorkerId) {
    exists m :: Mates(cfg, w, m)
  }

  /** The attempt of w at its i-th event may still end in a failure. */
  ghost predicate MayFail(cfg: Config, db: Db, w: WorkerId, k: Worker, i: nat)
    requires w in cfg.consumerOf && k.Running? && i < |k.batch|
  {
    || IsEvaluator(cfg, w)
    || (HasMate(cfg, w)
        && if i == 0 && !k.phase.Ready? then Armed(k) else (cfg.consumerOf[w], k.batch[i].id) !in db.receipts)
  }

  /** A row as a selection may have returned it. */
  predicate WasEligible(row: EventRow, now: Time) {
    row.deadLetteredAt.None? && (row.nextAttemptAt.None? || row.nextAttemptAt.value <= now)
  }

  ghost predicate BatchOk(cfg: Config, db: Db, w: WorkerId, k: Worker)
    requires w in cfg.consumerOf && k.Running?
  {
    && k.batch != []
    && (forall i, j :: 0 <= i < j < |k.batch| ==> k.batch[i].id != k.batch[j].id)
    && (forall i :: 0 <= i < |k.batch| ==> k.batch[i].id in db.events && WasEligible(k.batch[i].row, k.now))
    && (forall i :: 0 <= i < |k.batch| && MayFail(cfg, db, w, k, i) ==>
          SameSchedule(k.batch[i].row, db.events[k.batch[i].id]))
    && (cfg.batchSize <= 1 ==> |k.batch| == 1 && k.locked)
  }

  /** Other consumers' attempts fail by collision alone, and collisions take a second worker. */
  ghost predicate PhaseOk(cfg: Config, db: Db, w: WorkerId, k: Worker)
    requires w in cfg.consumerOf && k.Running? && k.batch != []
  {
    var key := (cfg.consumerOf[w], k.batch[0].id);
    !IsEvaluator(cfg, w) ==>
      (k.phase.Failing? ==> key in db.receipts) && (Armed(k) && key in db.receipts ==> HasMate(cfg, w))
  }

  ghost predicate HolderOk(cfg: Config, db: Db, w: WorkerId, k: Worker)
    requires w in cfg.consumerOf
  {
    k.Running? ==> BatchOk(cfg, db, w, k) && PhaseOk(cfg, db, w, k)
  }

  /** Two workers of one consumer are both about to fail on one event only if a third settled it. */
  ghost predicate PairOk(cfg: Config, world: World, v: WorkerId, w: WorkerId)
    requires v in world.workers && w in world.workers
  {
    (&& Mates(cfg, v, w) && !IsEvaluator(cfg, v) && Armed(world.workers[v]) && Armed(world.workers[w])
     && Head(world.workers[v]).id == Head(world.workers[w]).id
     && (cfg.consumerOf[v], Head(world.workers[v]).id) in world.db.receipts)
    ==> exists m :: m != w && Mates(cfg, v, m)
  }

  ghost predicate CountInv(cfg: Config, world: World) {
    && world.workers.Keys == cfg.consumerOf.Keys
    && (forall w :: w in world.workers ==> HolderOk(cfg, world.db, w, world.workers[w]))
    && (forall v, w :: v in world.workers && w in world.workers ==> PairOk(cfg, world, v, w))
    && (cfg.batchSize <= 1 ==>
          forall v, w :: v in world.workers && w in world.workers && v != w ==>
            Pending(world.workers[v]) !! Pending(world.workers[w]))
  }

  lemma PublishKeepsCount(codecs: Codecs, cfg: Config, world: World, id: Uuid, row: EventRow)
    requires CountInv(cfg, world) && Enabled(cfg, world, Publish(id, row))
    ensures CountInv(cfg, Next(codecs, cfg, world, Publish(id, row)))
  {
    var world' := Next(codecs, cfg, world, Publish(id, row));
    forall w | w in world'.workers ensures HolderOk(cfg, world'.db, w, world'.workers[w]) {
      assert HolderOk(cfg, world.db, w, world.workers[w]);
    }
    forall v, w | v in world'.workers && w in world'.workers ensures PairOk(cfg, world', v, w) {
      assert PairOk(cfg, world, v, w);
    }
  }

  lemma SelectKeepsCount(codecs: Codecs, cfg: Config, world: World, w: WorkerId, now: Time, ids: seq<Uuid>)
    requires CountInv(cfg, world) && Enabled(cfg, world, Select(w, now, ids))
    ensures CountInv(cfg, Next(codecs, cfg, world, Select(w, now, ids)))
  {
    var world' := Next(codecs, cfg, world, Select(w, now, ids));
    forall i | 0 <= i < |ids| ensures ids[i] in world.db.events && WasEligible(world.db.events[ids[i]], now) {
      assert Eligible(world.db, cfg.consumerOf[w], now, ids[i]);
    }
    forall v | v in world'.workers ensures HolderOk(cfg, world'.db, v, world'.workers[v]) {
      assert HolderOk(cfg, world.db, v, world.workers[v]);
    }
    forall u, v | u in world'.workers && v in world'.workers ensures PairOk(cfg, world', u, v) {
      assert PairOk(cfg, world, u, v);
    }
    if cfg.batchSize <= 1 {
      SelectsUnheld(codecs, cfg, world, w, now, ids);
    }
  }

  lemma SelectsUnheld(codecs: Codecs, cfg: Config, world: World, w: WorkerId, now: Time, ids: seq<Uuid>)
    requires CountInv(cfg, world) && Enabled(cfg, world, Select(w, now, ids)) && cfg.batchSize <= 1
    ensures var world' := Next(codecs, cfg, world, Select(w, now, ids));
            forall v :: v in world.workers && v != w ==> Pending(world'.workers[v]) !! Pending(world'.workers[w])
  {
    var world' := Next(codecs, cfg, world, Select(w, now, ids));
    forall v, id | v in world.workers && v != w && id in Pending(world.workers[v]) ensures id !in Pending(world'.workers[w]) {
      assert HolderOk(cfg, world.db, v, world.workers[v]);
      assert id in LockedByOthers(world, w);
    }
  }

  lemma HandleKeepsCount(codecs: Codecs, cfg: Config, world: World, w: WorkerId, attempt: Attempt)
    requires CountInv(cfg, world) && Enabled(cfg, world, HandleEvent(w, attempt))
    ensures CountInv(cfg, Next(codecs, cfg, world, HandleEvent(w, attempt)))
  {
    var world' := Next(codecs, cfg, world, HandleEvent(w, attempt));
    var k, k' := world.workers[w], world'.workers[w];
    assert HolderOk(cfg, world.db, w, k);
    assert forall i :: 0 <= i < |k.batch| && MayFail(cfg, world.db, w, k', i) ==> MayFail(cfg, world.db, w, k, i);
    assert HolderOk(cfg, world'.db, w, k');
    forall v | v in world'.workers ensures HolderOk(cfg, world'.db, v, world'.workers[v]) {
      assert HolderOk(cfg, world.db, v, world.workers[v]);
    }
    forall u, v | u in world'.workers && v in world'.workers ensures PairOk(cfg, world', u, v) {
      assert PairOk(cfg, world, u, v);
    }
    assert Pending(k') == Pending(k);
  }

  lemma CollideKeepsCount(codecs: Codecs, cfg: Config, world: World, w: WorkerId, error: string)
    requires CountInv(cfg, world) && Enabled(cfg, world, Collide(w, error))
    ensures CountInv(cfg, Next(codecs, cfg, world, Collide(w, error)))
  {
    var world' := Next(codecs, cfg, world, Collide(w, error));
    var k, k' := world.workers[w], world'.workers[w];
    assert HolderOk(cfg, world.db, w, k);
    assert forall i :: 0 <= i < |k.batch| && MayFail(cfg, world.db, w, k', i) ==> MayFail(cfg, world.db, w, k, i);
    assert HolderOk(cfg, world'.db, w, k');
    forall v | v in world'.workers ensures HolderOk(cfg, world'.db, v, world'.workers[v]) {
      assert HolderOk(cfg, world.db, v, world.workers[v]);
    }
    forall u, v | u in world'.workers && v in world'.workers ensures PairOk(cfg, world', u, v) {
      assert PairOk(cfg, world, u, v);
    }
    assert Pending(k') == Pending(k);
  }

  lemma CrashKeepsCount(codecs: Codecs, cfg: Config, world: World, w: WorkerId)
    requires CountInv(cfg, world) && Enabled(cfg, world, Crash(w))
    ensures CountInv(cfg, Next(codecs, cfg, world, Crash(w)))
  {
    var world' := Next(codecs, cfg, world, Crash(w));
    forall v | v in world'.workers ensures HolderOk(cfg, world'.db, v, world'.workers[v]) {
      assert HolderOk(cfg, world.db, v, world.workers[v]);
    }
    assert Pending(Idle) == {};
    forall u, v | u in world'.workers && v in world'.workers ensures PairOk(cfg, world', u, v) {
      assert PairOk(cfg, world, u, v);
    }
  }

  /** A worker that failed on an event leaves no other worker that may still fail on it. */
  lemma NobodyElseFails(cfg: Config, world: World, w: WorkerId, v: WorkerId, i: nat)
    requires Counted(cfg) && CountInv(cfg, world) && AboutToFail(cfg, world, w)
    requires v in world.workers && v != w && world.workers[v].Running? && i < |world.workers[v].batch|
    requires world.workers[v].batch[i].id == Head(world.workers[w]).id
    ensures !MayFail(cfg, world.db, v, world.workers[v], i)
  {
    var j, k := world.workers[v], world.workers[w];
    assert HolderOk(cfg, world.db, w, k) && HolderOk(cfg, world.db, v, j);
    assert PairOk(cfg, world, w, v);
    assert j.batch[i].id in Pending(j) && k.batch[0].id in Pending(k);
    assert cfg.batchSize > 1;
    assert !Rivals(cfg, v, w);
    if MayFail(cfg, world.db, v, j, i) {
      if FailsWithout(cfg, w, v) {
        assert !FailsWithout(cfg, v, w);
        var m :| Mates(cfg, v, m);
        assert m == w;
        assert Mates(cfg, w, v);
        assert !IsEvaluator(cfg, w);
        var n :| n != v && Mates(cfg, w, n);
        assert Mates(cfg, v, n);
      }
      assert false;
    }
  }

  lemma CommitKeepsOtherHolder(codecs: Codecs, cfg: Config, world: World, w: WorkerId, v: WorkerId)
    requires Counted(cfg) && CountInv(cfg, world) && Enabled(cfg, world, Commit(w)) && v in world.workers && v != w
    ensures HolderOk(cfg, Next(codecs, cfg, world, Commit(w)).db, v, world.workers[v])
  {
    var db' := Next(codecs, cfg, world, Commit(w)).db;
    var j, k := world.workers[v], world.workers[w];
    assert HolderOk(cfg, world.db, v, j);
    if j.Running? {
      forall i | 0 <= i < |j.batch| && MayFail(cfg, db', v, j, i)
        ensures SameSchedule(j.batch[i].row, db'.events[j.batch[i].id])
      {
        assert MayFail(cfg, world.db, v, j, i);
        if k.phase.Failing? && j.batch[i].id == k.batch[0].id {
          NobodyElseFails(cfg, world, w, v, i);
          assert false;
        }
      }
      var key := (cfg.consumerOf[v], j.batch[0].id);
      if !IsEvaluator(cfg, v) && Armed(j) && key in db'.receipts && key !in world.db.receipts {
        assert Mates(cfg, v, w);
      }
    }
  }

  lemma CommitKeepsOwnRest(codecs: Codecs, cfg: Config, world: World, w: WorkerId)
    requires CountInv(cfg, world) && Enabled(cfg, world, Commit(w))
    ensures var world' := Next(codecs, cfg, world, Commit(w));
            && HolderOk(cfg, world'.db, w, world'.workers[w]) && !Armed(world'.workers[w])
            && Pending(world'.workers[w]) <= Pending(world.workers[w])
  {
    var world' := Next(codecs, cfg, world, Commit(w));
    var k, k' := world.workers[w], world'.workers[w];
    assert HolderOk(cfg, world.db, w, k);
    if |k.batch| > 1 {
      forall i | 0 <= i < |k'.batch|
        ensures k'.batch[i] == k.batch[i + 1]
        ensures MayFail(cfg, world'.db, w, k', i) ==> MayFail(cfg, world.db, w, k, i + 1)
      {
      }
    }
  }

  lemma CommitKeepsPairs(codecs: Codecs, cfg: Config, world: World, w: WorkerId, u: WorkerId, v: WorkerId)
    requires CountInv(cfg, world) && Enabled(cfg, world, Commit(w)) && u in world.workers && v in world.workers
    ensures PairOk(cfg, Next(codecs, cfg, world, Commit(w)), u, v)
  {
    var world' := Next(codecs, cfg, world, Commit(w));
    assert PairOk(cfg, world, u, v);
    CommitKeepsOwnRest(codecs, cfg, world, w);
    if u != w && v != w && Mates(cfg, u, v) && Armed(world.workers[u]) {
      var key := (cfg.consumerOf[u], Head(world.workers[u]).id);
      assert key in world'.db.receipts && key !in world.db.receipts ==> Mates(cfg, u, w);
    }
  }

  lemma CommitKeepsCount(codecs: Codecs, cfg: Config, world: World, w: WorkerId)
    requires Counted(cfg) && CountInv(cfg, world) && Enabled(cfg, world, Commit(w))
    ensures CountInv(cfg, Next(codecs, cfg, world, Commit(w)))
  {
    var world' := Next(codecs, cfg, world, Commit(w));
    CommitKeepsOwnRest(codecs, cfg, world, w);
    forall v | v in world'.workers ensures HolderOk(cfg, world'.db, v, world'.workers[v]) {
      if v != w {
        CommitKeepsOtherHolder(codecs, cfg, world, w, v);
      }
    }
    forall u, v | u in world'.workers && v in world'.workers ensures PairOk(cfg, world', u, v) {
      CommitKeepsPairs(codecs, cfg, world, w, u, v);
    }
  }

  /** Every step of every worker keeps the rows that may still fail as the table has them. */
  lemma StepKeepsCount(codecs: Codecs, cfg: Config, world: World, step: Step)
    requires Counted(cfg) && CountInv(cfg, world) && Enabled(cfg, world, step)
    ensures CountInv(cfg, Next(codecs, cfg, world, step))
  {
    match step
    case Publish(id, row) => PublishKeepsCount(codecs, cfg, world, id, row);
    case Select(w, now, ids) => SelectKeepsCount(codecs, cfg, world, w, now, ids);
    case HandleEvent(w, attempt) => HandleKeepsCount(codecs, cfg, world, w, attempt);
    case Collide(w, error) => CollideKeepsCount(codecs, cfg, world, w, error);
    case Commit(w) => CommitKeepsCount(codecs, cfg, world, w);
    case Crash(w) => CrashKeepsCount(codecs, cfg, world, w);
  }

  lemma {:induction false} RunKeepsCount(codecs: Codecs, cfg: Config, world: World, steps: seq<Step>, end: World)
    requires Counted(cfg) && CountInv(cfg, world) && Reaches(codecs, cfg, world, steps, end)
    ensures CountInv(cfg, end)
    decreases |steps|
  {
    if steps != [] {
      StepKeepsCount(codecs, cfg, world, steps[0]);
      RunKeepsCount(codecs, cfg, Next(codecs, cfg, world, steps[0]), steps[1..], end);
    }
  }

  // ---- what the counter then says ----

  lemma CountedAddsOne(codecs: Codecs, cfg: Config, world: World, w: WorkerId)
    requires CountInv(cfg, world) && AboutToFail(cfg, world, w)
    ensures AddsOne(codecs, cfg, world, w)
    ensures var f := Head(world.workers[w]);
            SameSchedule(f.row, world.db.events[f.id]) && WasEligible(f.row, world.workers[w].now)
  {
    assert HolderOk(cfg, world.db, w, world.workers[w]);
    assert MayFail(cfg, world.db, w, world.workers[w], 0);
  }

  lemma InitialCounts(codecs: Codecs, cfg: Config, world: World)
    requires Initial(codecs, cfg, world)
    ensures CountInv(cfg, world)
  {
  }

  ghost predicate FailsOn(cfg: Config, world: World, step: Step, id: Uuid) {
    step.Commit? && AboutToFail(cfg, world, step.w) && Head(world.workers[step.w]).id == id
  }

  /** The failed attempts at one event that a run commits. */
  ghost function Failures(codecs: Codecs, cfg: Config, world: World, steps: seq<Step>, end: World, id: Uuid): nat
    requires Reaches(codecs, cfg, world, steps, end)
    decreases |steps|
  {
    if steps == [] then 0
    else
      (if FailsOn(cfg, world, steps[0], id) then 1 else 0)
      + Failures(codecs, cfg, Next(codecs, cfg, world, steps[0]), steps[1..], end, id)
  }

  /** What one step does to the columns an event is scheduled by. */
  lemma ScheduleStep(codecs: Codecs, cfg: Config, world: World, step: Step, id: Uuid)
    requires CountInv(cfg, world) && Enabled(cfg, world, step) && id in world.db.events
    ensures id in Next(codecs, cfg, world, step).db.events
    ensures var row, row' := world.db.events[id], Next(codecs, cfg, world, step).db.events[id];
            if FailsOn(cfg, world, step, id) then
              exists now, error :: WasEligible(row, now) && SameSchedule(row', Retried(row, row, now, error))
                                   && now == world.workers[step.w].now
            else SameSchedule(row, row')
  {
    if FailsOn(cfg, world, step, id) {
      CountedAddsOne(codecs, cfg, world, step.w);
      var k, row := world.workers[step.w], world.db.events[id];
      assert SameSchedule(Next(codecs, cfg, world, step).db.events[id], Retried(row, row, k.now, k.phase.error));
    }
  }

  lemma {:induction false} CountAlong(
    codecs: Codecs, cfg: Config, world: World, steps: seq<Step>, end: World, id: Uuid)
    requires Counted(cfg) && CountInv(cfg, world) && Reaches(codecs, cfg, world, steps, end)
    requires id in world.db.events && RowAccounted(world.db.events[id])
    ensures id in end.db.events && RowAccounted(end.db.events[id])
    ensures end.db.events[id].maxRetries == world.db.events[id].maxRetries
    ensures end.db.events[id].retryCount
            == world.db.events[id].retryCount + Failures(codecs, cfg, world, steps, end, id)
    decreases |steps|
  {
    if steps != [] {
      ScheduleStep(codecs, cfg, world, steps[0], id);
      StepKeepsCount(codecs, cfg, world, steps[0]);
      CountAlong(codecs, cfg, Next(codecs, cfg, world, steps[0]), steps[1..], end, id);
    }
  }

  /**
   The budget is exact over every interleaving of such a configuration: the counter is the number of failed attempts by
   whatever worker of whatever consumer, and the event is dead-lettered once there are max(1, max_retries) of them.
   */
  lemma BudgetIsExact(codecs: Codecs, cfg: Config, world: World, steps: seq<Step>, end: World, id: Uuid)
    requires Counted(cfg) && Initial(codecs, cfg, world) && Reaches(codecs, cfg, world, steps, end)
    requires id in world.db.events && Untried(world.db.events[id])
    ensures id in end.db.events
    ensures var failures := Failures(codecs, cfg, world, steps, end, id);
            && end.db.events[id].retryCount == failures <= Budget(world.db.events[id])
            && (end.db.events[id].deadLetteredAt.Some? <==> failures == Budget(world.db.events[id]))
  {
    InitialCounts(codecs, cfg, world);
    CountAlong(codecs, cfg, world, steps, end, id);
  }

  lemma SpacedAfter(codecs: Codecs, cfg: Config, world: World, step: Step, id: Uuid, first: Time)
    requires CountInv(cfg, world) && Enabled(cfg, world, step)
    requires id in world.db.events && Spaced(world.db.events[id], first)
    ensures var db := Next(codecs, cfg, world, step).db; id in db.events && Spaced(db.events[id], first)
  {
    ScheduleStep(codecs, cfg, world, step, id);
    var row := world.db.events[id];
    var row' := Next(codecs, cfg, world, step).db.events[id];
    if FailsOn(cfg, world, step, id) {
      var now, error :| WasEligible(row, now) && SameSchedule(row', Retried(row, row, now, error));
      FailureIsSpaced(row, now, error, first);
      SpacedBySchedule(Retried(row, row, now, error), row', first);
    } else {
      SpacedBySchedule(row, row', first);
    }
  }

  lemma SpacedBySchedule(a: EventRow, b: EventRow, first: Time)
    requires Spaced(a, first) && (SameSchedule(a, b) || SameSchedule(b, a))
    ensures Spaced(b, first)
  {
  }

  lemma {:induction false} SpacedAlong(
    codecs: Codecs, cfg: Config, world: World, steps: seq<Step>, end: World, id: Uuid, first: Time)
    requires Counted(cfg) && CountInv(cfg, world) && Reaches(codecs, cfg, world, steps, end)
    requires id in world.db.events && Spaced(world.db.events[id], first)
    ensures id in end.db.events && Spaced(end.db.events[id], first)
    decreases |steps|
  {
    if steps != [] {
      SpacedAfter(codecs, cfg, world, steps[0], id, first);
      StepKeepsCount(codecs, cfg, world, steps[0]);
      SpacedAlong(codecs, cfg, Next(codecs, cfg, world, steps[0]), steps[1..], end, id, first);
    }
  }

  /** From its first failure on an event waits out every delay it is given, whoever attempts it next. */
  lemma SpacedForEveryWorker(
    codecs: Codecs, cfg: Config, world: World, before: seq<Step>, mid: World, w: WorkerId, after: seq<Step>, end: World)
    requires Counted(cfg) && Initial(codecs, cfg, world) && Reaches(codecs, cfg, world, before, mid)
    requires AboutToFail(cfg, mid, w) && Untried(mid.db.events[Head(mid.workers[w]).id])
    requires Reaches(codecs, cfg, Next(codecs, cfg, mid, Commit(w)), after, end)
    ensures var id := Head(mid.workers[w]).id;
            id in end.db.events && Spaced(end.db.events[id], mid.workers[w].now)
  {
    InitialCounts(codecs, cfg, world);
    RunKeepsCount(codecs, cfg, world, before, mid);
    FirstFailureSpaced(codecs, cfg, mid, w);
    StepKeepsCount(codecs, cfg, mid, Commit(w));
    SpacedAlong(codecs, cfg, Next(codecs, cfg, mid, Commit(w)), after, end, Head(mid.workers[w]).id, mid.workers[w].now);
  }

  lemma FirstFailureSpaced(codecs: Codecs, cfg: Config, world: World, w: WorkerId)
    requires CountInv(cfg, world) && AboutToFail(cfg, world, w) && Untried(world.db.events[Head(world.workers[w]).id])
    ensures var id, db := Head(world.workers[w]).id, Next(codecs, cfg, world, Commit(w)).db;
            id in db.events && Spaced(db.events[id], world.workers[w].now)
  {
    var k := world.workers[w];
    var row := world.db.events[Head(k).id];
    CountedAddsOne(codecs, cfg, world, w);
    FailureIsSpaced(row, k.now, k.phase.error, k.now);
    SpacedBySchedule(Retried(row, row, k.now, k.phase.error), Next(codecs, cfg, world, Commit(w)).db.events[Head(k).id], k.now);
  }

  // ---- rivals lose a failure ----

  function PlainEvent(createdAt: Time, next: Option<Time>): EventRow {
    EventRow("plain", map[], "PENDING", 0, 5, None, next, None, createdAt, None, None)
  }

  predicate SceneRow(row: EventRow) {
    && row.eventType == "plain" && row.retryCount == 0 && row.maxRetries == 5
    && row.nextAttemptAt.None? && row.deadLetteredAt.None? && row.createdAt == 0
  }

  /** No lock is held, event 0 has never failed, and every other event is later than the clock -n. */
  ghost predicate Scene(cfg: Config, world: World, n: nat) {
    && n >= 1 && world.workers.Keys == cfg.consumerOf.Keys && ReceiptsHaveEvents(world.db)
    && (forall w :: w in world.workers && world.workers[w].Running? ==> !world.workers[w].locked)
    && 0 in world.db.events && SceneRow(world.db.events[0])
    && (forall id :: id in world.db.events && id != 0 ==>
          id < n && world.db.events[id].nextAttemptAt.Some? && world.db.events[id].nextAttemptAt.value > 0 - n)
  }

  lemma NothingLocked(cfg: Config, world: World, n: nat, w: WorkerId)
    requires Scene(cfg, world, n)
    ensures LockedByOthers(world, w) == {}
  {
  }

  lemma PlainHandling(codecs: Codecs, consumer: string, f: Fetched)
    requires f.row.eventType == "plain"
    ensures Handle(codecs, consumer, f.id, f.row, Attempt(Some(0), None, "")) == Ok([])
    ensures consumer == IMPACT_EVALUATOR ==>
              Handle(codecs, consumer, f.id, f.row, Attempt(None, None, "down")) == Err("down")
  {
  }

  /** A new event n that only clocks from -n on see. */
  function Opening(n: nat): EventRow {
    PlainEvent(-1, Some(0 - n))
  }

  lemma Opened(codecs: Codecs, cfg: Config, world: World, n: nat, u: WorkerId) returns (steps: seq<Step>, next: World)
    requires Scene(cfg, world, n) && cfg.batchSize >= 2
    requires u in cfg.consumerOf && world.workers[u].Idle? && !Succeeded(world.db, cfg.consumerOf[u], 0)
    ensures Reaches(codecs, cfg, world, steps, next)
    ensures next.db == world.db.(events := world.db.events[n := Opening(n)])
    ensures next.workers
            == world.workers[u := Running(0 - n, [Fetched(n, Opening(n)), Fetched(0, world.db.events[0])], true, Ready)]
  {
    var c := cfg.consumerOf[u];
    ReachesOne(codecs, cfg, world, Publish(n, Opening(n)));
    var mid := Next(codecs, cfg, world, Publish(n, Opening(n)));
    assert LockedByOthers(mid, u) == {};
    assert Eligible(mid.db, c, 0 - n, n) && Eligible(mid.db, c, 0 - n, 0);
    ReachesOne(codecs, cfg, mid, Select(u, 0 - n, [n, 0]));
    next := Next(codecs, cfg, mid, Select(u, 0 - n, [n, 0]));
    assert Fetch(mid.db, [n, 0]) == [Fetched(n, Opening(n)), Fetched(0, world.db.events[0])];
    steps := [Publish(n, Opening(n))] + [Select(u, 0 - n, [n, 0])];
    ReachesAppend(codecs, cfg, world, [Publish(n, Opening(n))], mid, [Select(u, 0 - n, [n, 0])], next);
  }

  /** u selects a new event and event 0, and commits the new one, which frees its lock on event 0. */
  lemma Hold(codecs: Codecs, cfg: Config, world: World, n: nat, u: WorkerId) returns (steps: seq<Step>, next: World)
    requires Scene(cfg, world, n) && cfg.batchSize >= 2
    requires u in cfg.consumerOf && world.workers[u].Idle? && !Succeeded(world.db, cfg.consumerOf[u], 0)
    ensures Reaches(codecs, cfg, world, steps, next) && Scene(cfg, next, n + 1)
    ensures next.workers == world.workers[u := Running(0 - n, [Fetched(0, world.db.events[0])], false, Ready)]
    ensures next.db.events[0] == world.db.events[0]
    ensures forall c :: (c, 0) in next.db.receipts <==> (c, 0) in world.db.receipts
  {
    var a := Attempt(Some(0), None, "");
    var first, mid := Opened(codecs, cfg, world, n, u);
    assert LockedByOthers(mid, u) == {};
    PlainHandling(codecs, cfg.consumerOf[u], Fetched(n, Opening(n)));
    HandleAndCommit(codecs, cfg, mid, u, a);
    next := AfterFirst(codecs, cfg, mid, u, a);
    assert mid.workers[u].batch[1..] == [Fetched(0, world.db.events[0])];
    steps := first + [HandleEvent(u, a), Commit(u)];
    ReachesAppend(codecs, cfg, world, first, mid, [HandleEvent(u, a), Commit(u)], next);
  }

  /** m takes event 0 through, and leaves everybody else where they were. */
  lemma Settled(codecs: Codecs, cfg: Config, world: World, n: nat, m: WorkerId) returns (steps: seq<Step>, next: World)
    requires Scene(cfg, world, n) && cfg.batchSize >= 1
    requires m in cfg.consumerOf && world.workers[m].Idle? && !Succeeded(world.db, cfg.consumerOf[m], 0)
    ensures Reaches(codecs, cfg, world, steps, next) && Scene(cfg, next, n)
    ensures next.workers == world.workers && (cfg.consumerOf[m], 0) in next.db.receipts
  {
    var a := Attempt(Some(0), None, "");
    var c, f := cfg.consumerOf[m], Fetched(0, world.db.events[0]);
    NothingLocked(cfg, world, n, m);
    assert Eligible(world.db, c, 0 - n, 0);
    ReachesOne(codecs, cfg, world, Select(m, 0 - n, [0]));
    var s1 := Next(codecs, cfg, world, Select(m, 0 - n, [0]));
    assert Fetch(world.db, [0]) == [f];
    assert LockedByOthers(s1, m) == {};
    PlainHandling(codecs, c, f);
    HandleAndCommit(codecs, cfg, s1, m, a);
    next := AfterFirst(codecs, cfg, s1, m, a);
    steps := [Select(m, 0 - n, [0])] + [HandleEvent(m, a), Commit(m)];
    ReachesAppend(codecs, cfg, world, [Select(m, 0 - n, [0])], s1, [HandleEvent(m, a), Commit(m)], next);
  }

  /** u stands at event 0, as it was before any failure. */
  predicate AtEvent(world: World, u: WorkerId) {
    && u in world.workers && world.workers[u].Running? && |world.workers[u].batch| == 1
    && world.workers[u].batch[0].id == 0 && world.workers[u].batch[0].row.retryCount == 0
  }

  /** u is done with event 0 but for the commit: failed if it evaluates, without having seen a receipt if not. */
  predicate Handled(cfg: Config, world: World, u: WorkerId) {
    && u in cfg.consumerOf && AtEvent(world, u)
    && world.workers[u].phase == if cfg.consumerOf[u] == IMPACT_EVALUATOR then Failing("down") else Succeeding([], false)
  }

  lemma Handles(codecs: Codecs, cfg: Config, world: World, n: nat, u: WorkerId) returns (steps: seq<Step>, next: World)
    requires Scene(cfg, world, n) && u in cfg.consumerOf && HoldsFresh(world, u)
    requires forall c :: (c, 0) !in world.db.receipts
    ensures Reaches(codecs, cfg, world, steps, next) && Scene(cfg, next, n) && Handled(cfg, next, u)
    ensures next.db == world.db && next.workers == world.workers[u := next.workers[u]]
  {
    var a := if cfg.consumerOf[u] == IMPACT_EVALUATOR then Attempt(None, None, "down") else Attempt(Some(0), None, "");
    PlainHandling(codecs, cfg.consumerOf[u], world.workers[u].batch[0]);
    ReachesOne(codecs, cfg, world, HandleEvent(u, a));
    next := Next(codecs, cfg, world, HandleEvent(u, a));
    steps := [HandleEvent(u, a)];
  }

  /** Then u fails, without w having to do anything. */
  lemma MakeFail(codecs: Codecs, cfg: Config, world: World, n: nat, u: WorkerId, w: WorkerId)
    returns (steps: seq<Step>, next: World)
    requires Scene(cfg, world, n) && cfg.batchSize >= 1 && FailsWithout(cfg, u, w) && Handled(cfg, world, u)
    requires OthersIdle(world, u, w)
    ensures Reaches(codecs, cfg, world, steps, next) && Scene(cfg, next, n)
    ensures next.workers == world.workers[u := world.workers[u].(phase := Failing("down"))]
  {
    if IsEvaluator(cfg, u) {
      steps, next := [], world;
    } else {
      var first, mid := [], world;
      if (cfg.consumerOf[u], 0) !in world.db.receipts {
        var m :| m != w && Mates(cfg, u, m);
        first, mid := Settled(codecs, cfg, world, n, m);
      }
      ReachesOne(codecs, cfg, mid, Collide(u, "down"));
      next := Next(codecs, cfg, mid, Collide(u, "down"));
      steps := first + [Collide(u, "down")];
      ReachesAppend(codecs, cfg, world, first, mid, [Collide(u, "down")], next);
    }
  }

  ghost predicate OthersIdle(world: World, v: WorkerId, w: WorkerId) {
    forall u :: u in world.workers && u != v && u != w ==> world.workers[u].Idle?
  }

  predicate HoldsFresh(world: World, u: WorkerId) {
    && 0 in world.db.events && u in world.workers && world.workers[u].Running? && !world.workers[u].locked
    && world.workers[u].batch == [Fetched(0, world.db.events[0])] && world.workers[u].phase.Ready?
  }

  lemma BothHold(codecs: Codecs, cfg: Config, v: WorkerId, w: WorkerId) returns (start: World, steps: seq<Step>, end: World)
    requires cfg.batchSize >= 2 && v != w && v in cfg.consumerOf && w in cfg.consumerOf
    ensures Initial(codecs, cfg, start) && Reaches(codecs, cfg, start, steps, end) && Scene(cfg, end, 3)
    ensures HoldsFresh(end, v) && HoldsFresh(end, w) && OthersIdle(end, v, w)
    ensures forall c :: (c, 0) !in end.db.receipts
  {
    start := AllIdle(cfg, Db(map[0 := PlainEvent(0, None)], map[], []));
    var a, s1 := Hold(codecs, cfg, start, 1, v);
    var b, s2 := Hold(codecs, cfg, s1, 2, w);
    end := s2;
    steps := a + b;
    ReachesAppend(codecs, cfg, start, a, s1, b, s2);
  }

  /** Both rivals read event 0 before either failed on it. */
  lemma BothHandled(codecs: Codecs, cfg: Config, v: WorkerId, w: WorkerId) returns (start: World, steps: seq<Step>, end: World)
    requires cfg.batchSize >= 2 && v != w && v in cfg.consumerOf && w in cfg.consumerOf
    ensures Initial(codecs, cfg, start) && Reaches(codecs, cfg, start, steps, end) && Scene(cfg, end, 3)
    ensures Handled(cfg, end, v) && Handled(cfg, end, w)
    ensures OthersIdle(end, v, w)
  {
    var a, s1;
    start, a, s1 := BothHold(codecs, cfg, v, w);
    var b, s2 := Handles(codecs, cfg, s1, 3, v);
    var c, s3 := Handles(codecs, cfg, s2, 3, w);
    end := s3;
    ReachesAppend(codecs, cfg, start, a, s1, b, s2);
    ReachesAppend(codecs, cfg, start, a + b, s2, c, s3);
    steps := a + b + c;
  }

  /** With room for two events and two rivals, some run ends in a failure the counter does not count. */
  lemma RivalsLoseAFailure(codecs: Codecs, cfg: Config, v: WorkerId, w: WorkerId)
    returns (start: World, steps: seq<Step>, end: World)
    requires cfg.batchSize >= 2 && Rivals(cfg, v, w)
    ensures Initial(codecs, cfg, start) && Reaches(codecs, cfg, start, steps, end) && AboutToFail(cfg, end, w)
    ensures var id := Head(end.workers[w]).id;
            && end.db.events[id].retryCount == 1
            && Next(codecs, cfg, end, Commit(w)).db.events[id].retryCount == 1
  {
    var a, s1;
    start, a, s1 := BothHandled(codecs, cfg, v, w);
    var b, s2 := MakeFail(codecs, cfg, s1, 3, v, w);
    var c, s3 := MakeFail(codecs, cfg, s2, 3, w, v);
    end := OneCounted(codecs, cfg, s3, v, w);
    ReachesAppend(codecs, cfg, start, a, s1, b, s2);
    ReachesAppend(codecs, cfg, start, a + b, s2, c, s3);
    ReachesAppend(codecs, cfg, start, a + b + c, s3, [Commit(v)], end);
    steps := a + b + c + [Commit(v)];
  }

  /** With both about to fail, the first commit counts one failure, and the second would count one again. */
  lemma OneCounted(codecs: Codecs, cfg: Config, world: World, v: WorkerId, w: WorkerId) returns (end: World)
    requires Scene(cfg, world, 3) && v != w && v in cfg.consumerOf && w in cfg.consumerOf
    requires AtEvent(world, v) && world.workers[v].phase.Failing? && AtEvent(world, w) && world.workers[w].phase.Failing?
    ensures Reaches(codecs, cfg, world, [Commit(v)], end) && AboutToFail(cfg, end, w)
    ensures var id := Head(end.workers[w]).id;
            && end.db.events[id].retryCount == 1
            && Next(codecs, cfg, end, Commit(w)).db.events[id].retryCount == 1
  {
    NothingLocked(cfg, world, 3, v);
    ReachesOne(codecs, cfg, world, Commit(v));
    end := Next(codecs, cfg, world, Commit(v));
    assert end.workers[w] == world.workers[w] && end.db.events[0].retryCount == 1;
    assert LockedByOthers(end, w) == {};
  }

  /** The counter counts every failure over all interleavings exactly for these configurations. */
  lemma CountsIffCounted(codecs: Codecs, cfg: Config)
    ensures AlwaysCounts(codecs, cfg) <==> Counted(cfg)
  {
    if Counted(cfg) {
      forall world, steps, end, w |
        Initial(codecs, cfg, world) && Reaches(codecs, cfg, world, steps, end) && AboutToFail(cfg, end, w)
        ensures AddsOne(codecs, cfg, end, w)
      {
        InitialCounts(codecs, cfg, world);
        RunKeepsCount(codecs, cfg, world, steps, end);
        CountedAddsOne(codecs, cfg, end, w);
      }
    } else {
      var v, w :| Rivals(cfg, v, w);
      var start, steps, end := RivalsLoseAFailure(codecs, cfg, v, w);
      assert !AddsOne(codecs, cfg, end, w);
    }
  }
}
