/**
 Any number of dispatcher workers interleaved over the same tables. The row locks of a selection
 last until that worker's first commit (backend/app/workers/outbox_dispatcher.py:127, 160, 194),
 so the rest of a larger batch is handled without protection.
 */
module OutboxWorkers {
  import opened Common
  import opened OutboxModel

  type WorkerId = nat

  /** Where a worker stands with the first event it still has to handle. */
  datatype Phase =
    | Ready
    | Succeeding(evals: seq<Evaluation>, receiptSeen: bool)
    | Failing(error: string)

  /** A running worker holds the events left in its batch; locked tells whether its row locks still stand. */
  datatype Worker =
    | Idle
    | Running(now: Time, batch: seq<Fetched>, locked: bool, phase: Phase)

  datatype World = World(db: Db, workers: map<WorkerId, Worker>)

  /** Every worker process has one consumer id and calls the dispatcher with the same batch size. */
  datatype Config = Config(consumerOf: map<WorkerId, string>, batchSize: nat)

  datatype Step =
    | Publish(id: Uuid, row: EventRow)
    | Select(w: WorkerId, now: Time, ids: seq<Uuid>)
    | HandleEvent(w: WorkerId, attempt: Attempt)
    | Collide(w: WorkerId, error: string)
    | Commit(w: WorkerId)
    | Crash(w: WorkerId)

  function Ids(batch: seq<Fetched>): set<Uuid> {
    set i | 0 <= i < |batch| :: batch[i].id
  }

  function Pending(k: Worker): set<Uuid> {
    if k.Idle? then {} else Ids(k.batch)
  }

  /** Rows some other worker has locked. */
  function LockedByOthers(world: World, w: WorkerId): set<Uuid> {
    set v, i | v in world.workers && v != w && world.workers[v].Running? && world.workers[v].locked
               && 0 <= i < |world.workers[v].batch| :: world.workers[v].batch[i].id
  }

  ghost predicate IsRunning(world: World, w: WorkerId) {
    w in world.workers && world.workers[w].Running? && world.workers[w].batch != []
  }

  ghost predicate Enabled(cfg: Config, world: World, step: Step) {
    match step
    case Publish(id, _) => id !in world.db.events
    case Select(w, now, ids) =>
      && w in world.workers && w in cfg.consumerOf && world.workers[w].Idle? && ids != []
      && Selection(world.db, LockedByOthers(world, w), cfg.consumerOf[w], now, cfg.batchSize, ids)
    case HandleEvent(w, _) =>
      w in cfg.consumerOf && IsRunning(world, w) && world.workers[w].phase.Ready?
    case Collide(w, _) =>
      && w in cfg.consumerOf && IsRunning(world, w)
      && var k := world.workers[w];
      k.phase.Succeeding? && !k.phase.receiptSeen && (cfg.consumerOf[w], k.batch[0].id) in world.db.receipts
    case Commit(w) =>
      && w in cfg.consumerOf && IsRunning(world, w)
      && var k := world.workers[w];
      && !k.phase.Ready? && k.batch[0].id in world.db.events
      && (k.phase.Succeeding? && !k.phase.receiptSeen ==> (cfg.consumerOf[w], k.batch[0].id) !in world.db.receipts)
      && k.batch[0].id !in LockedByOthers(world, w)
    case Crash(w) => w in world.workers
  }

  function Advance(k: Worker): Worker
    requires k.Running? && k.batch != []
  {
    if |k.batch| == 1 then Idle else Running(k.now, k.batch[1..], false, Ready)
  }

  function PhaseOutcome(phase: Phase): Result<seq<Evaluation>>
    requires !phase.Ready?
  {
    if phase.Succeeding? then Ok(phase.evals) else Err(phase.error)
  }

  ghost function Next(codecs: Codecs, cfg: Config, world: World, step: Step): World
    requires Enabled(cfg, world, step)
  {
    match step
    case Publish(id, row) => world.(db := world.db.(events := world.db.events[id := row]))
    case Select(w, now, ids) =>
      world.(workers := world.workers[w := Running(now, Fetch(world.db, ids), true, Ready)])
    case HandleEvent(w, attempt) =>
      var k := world.workers[w];
      var f := k.batch[0];
      var phase :=
        match Handle(codecs, cfg.consumerOf[w], f.id, f.row, attempt)
        case Ok(evals) => Succeeding(evals, (cfg.consumerOf[w], f.id) in world.db.receipts)
        case Err(e) => Failing(e);
      world.(workers := world.workers[w := k.(phase := phase)])
    case Collide(w, error) =>
      world.(workers := world.workers[w := world.workers[w].(phase := Failing(error))])
    case Commit(w) =>
      var k := world.workers[w];
      World(Settle(world.db, cfg.consumerOf[w], k.now, k.batch[0], PhaseOutcome(k.phase)),
            world.workers[w := Advance(k)])
    case Crash(w) => world.(workers := world.workers[w := Idle])
  }

  ghost predicate Reaches(codecs: Codecs, cfg: Config, world: World, steps: seq<Step>, end: World)
    decreases |steps|
  {
    if steps == [] then world == end
    else Enabled(cfg, world, steps[0])
         && Reaches(codecs, cfg, Next(codecs, cfg, world, steps[0]), steps[1..], end)
  }

  // ---- the invariant when the locks cover the commit ----

  ghost predicate ReceiptsHaveEvents(db: Db) {
    forall k :: k in db.receipts ==> k.1 in db.events
  }

  /** All workers idle over consistent tables. */
  ghost predicate Initial(codecs: Codecs, cfg: Config, world: World) {
    && world.workers.Keys == cfg.consumerOf.Keys
    && (forall w :: w in world.workers ==> world.workers[w].Idle?)
    && ReceiptsHaveEvents(world.db)
    && ExactlyOnce(codecs, world.db)
  }

  predicate IsEvaluator(cfg: Config, w: WorkerId) {
    w in cfg.consumerOf && cfg.consumerOf[w] == IMPACT_EVALUATOR
  }

  /** One event per batch, or at most one worker for the evaluating consumer. */
  ghost predicate Covered(cfg: Config) {
    cfg.batchSize <= 1 || forall v, w :: IsEvaluator(cfg, v) && IsEvaluator(cfg, w) ==> v == w
  }

  /** What holds of a fetched event: only mutable columns may have moved on since. */
  ghost predicate StillSame(db: Db, f: Fetched) {
    f.id in db.events && db.events[f.id].eventType == f.row.eventType && db.events[f.id].payload == f.row.payload
  }

  ghost predicate WorkerOk(codecs: Codecs, cfg: Config, db: Db, w: WorkerId, k: Worker) {
    k.Running? ==>
      && k.batch != []
      && (forall i, j :: 0 <= i < j < |k.batch| ==> k.batch[i].id != k.batch[j].id)
      && (forall i :: 0 <= i < |k.batch| ==> StillSame(db, k.batch[i]))
      && (cfg.batchSize <= 1 ==> k.locked && |k.batch| == 1)
      && (IsEvaluator(cfg, w) ==> forall i :: 0 <= i < |k.batch| ==> !Succeeded(db, IMPACT_EVALUATOR, k.batch[i].id))
      && (k.phase.Succeeding? && !IsEvaluator(cfg, w) ==> k.phase.evals == [])
      && (k.phase.Succeeding? && IsEvaluator(cfg, w) ==>
            && FromEvent(k.phase.evals, k.batch[0].id)
            && IsWholePlan(codecs, k.batch[0].id, db.events[k.batch[0].id], k.phase.evals))
  }

  ghost predicate Inv(codecs: Codecs, cfg: Config, world: World) {
    && world.workers.Keys == cfg.consumerOf.Keys
    && ReceiptsHaveEvents(world.db)
    && ExactlyOnce(codecs, world.db)
    && (forall w :: w in world.workers ==> WorkerOk(codecs, cfg, world.db, w, world.workers[w]))
    && (forall v, w :: v in world.workers && w in world.workers && v != w && IsEvaluator(cfg, v) && IsEvaluator(cfg, w)
          ==> Pending(world.workers[v]) !! Pending(world.workers[w]))
  }

  /** Columns no step rewrites, so a handling computed earlier still matches the row. */
  lemma WorkerStable(codecs: Codecs, cfg: Config, db: Db, db': Db, w: WorkerId, k: Worker)
    requires WorkerOk(codecs, cfg, db, w, k)
    requires forall f :: StillSame(db, f) ==> StillSame(db', f)
    requires IsEvaluator(cfg, w) ==> forall id :: id in Pending(k) ==> !Succeeded(db', IMPACT_EVALUATOR, id)
    ensures WorkerOk(codecs, cfg, db', w, k)
  {
    if k.Running? {
      assert k.batch[0].id in Pending(k);
      forall i | 0 <= i < |k.batch| ensures k.batch[i].id in Pending(k) {}
      if k.phase.Succeeding? && IsEvaluator(cfg, w) {
        assert StillSame(db, Fetched(k.batch[0].id, db.events[k.batch[0].id]));
        WholePlanStable(codecs, k.batch[0].id, db.events[k.batch[0].id], db'.events[k.batch[0].id], k.phase.evals);
      }
    }
  }

  lemma PublishKeepsInv(codecs: Codecs, cfg: Config, world: World, id: Uuid, row: EventRow)
    requires Inv(codecs, cfg, world) && Enabled(cfg, world, Publish(id, row))
    ensures Inv(codecs, cfg, Next(codecs, cfg, world, Publish(id, row)))
  {
    var world' := Next(codecs, cfg, world, Publish(id, row));
    forall e ensures OnceFor(codecs, world'.db, e) {
      assert OnceFor(codecs, world.db, e);
    }
    forall w | w in world'.workers ensures WorkerOk(codecs, cfg, world'.db, w, world'.workers[w]) {
      var k := world.workers[w];
      forall e | e in Pending(k) && IsEvaluator(cfg, w) ensures !Succeeded(world'.db, IMPACT_EVALUATOR, e) {}
      WorkerStable(codecs, cfg, world.db, world'.db, w, k);
    }
  }

  lemma SelectKeepsInv(codecs: Codecs, cfg: Config, world: World, w: WorkerId, now: Time, ids: seq<Uuid>)
    requires Covered(cfg)
    requires Inv(codecs, cfg, world) && Enabled(cfg, world, Select(w, now, ids))
    ensures Inv(codecs, cfg, Next(codecs, cfg, world, Select(w, now, ids)))
  {
    var world' := Next(codecs, cfg, world, Select(w, now, ids));
    var batch := Fetch(world.db, ids);
    forall i | 0 <= i < |batch|
      ensures StillSame(world.db, batch[i]) && (IsEvaluator(cfg, w) ==> !Succeeded(world.db, IMPACT_EVALUATOR, batch[i].id))
    {
      assert Eligible(world.db, cfg.consumerOf[w], now, ids[i]);
    }
    assert WorkerOk(codecs, cfg, world'.db, w, world'.workers[w]);
    forall v | v in world.workers && v != w && IsEvaluator(cfg, v) && IsEvaluator(cfg, w)
      ensures Pending(world'.workers[v]) !! Pending(world'.workers[w])
    {
      assert cfg.batchSize <= 1;
      forall id | id in Pending(world'.workers[v]) ensures id !in Pending(world'.workers[w]) {
        assert WorkerOk(codecs, cfg, world.db, v, world.workers[v]);
        assert id in LockedByOthers(world, w);
      }
    }
  }

  lemma HandleKeepsInv(codecs: Codecs, cfg: Config, world: World, w: WorkerId, attempt: Attempt)
    requires Inv(codecs, cfg, world) && Enabled(cfg, world, HandleEvent(w, attempt))
    ensures Inv(codecs, cfg, Next(codecs, cfg, world, HandleEvent(w, attempt)))
  {
    var world' := Next(codecs, cfg, world, HandleEvent(w, attempt));
    var k := world.workers[w];
    var f := k.batch[0];
    assert WorkerOk(codecs, cfg, world.db, w, k);
    assert StillSame(world.db, f);
    if Handle(codecs, cfg.consumerOf[w], f.id, f.row, attempt).Ok? {
      HandleIsWhole(codecs, cfg.consumerOf[w], f.id, f.row, world.db.events[f.id], attempt);
    }
    assert WorkerOk(codecs, cfg, world'.db, w, world'.workers[w]);
    assert Pending(world'.workers[w]) == Pending(k);
  }

  lemma CommitKeepsOther(codecs: Codecs, cfg: Config, world: World, w: WorkerId, v: WorkerId)
    requires Inv(codecs, cfg, world) && Enabled(cfg, world, Commit(w))
    requires v in world.workers && v != w
    ensures WorkerOk(codecs, cfg, Next(codecs, cfg, world, Commit(w)).db, v, world.workers[v])
  {
    var db' := Next(codecs, cfg, world, Commit(w)).db;
    var k := world.workers[w];
    assert WorkerOk(codecs, cfg, world.db, v, world.workers[v]);
    assert k.batch[0].id in Pending(k);
    forall id | id in Pending(world.workers[v]) && IsEvaluator(cfg, v) ensures !Succeeded(db', IMPACT_EVALUATOR, id) {
      assert IsEvaluator(cfg, w) ==> id != k.batch[0].id;
    }
    WorkerStable(codecs, cfg, world.db, db', v, world.workers[v]);
  }

  lemma CommitKeepsSelf(codecs: Codecs, cfg: Config, world: World, w: WorkerId)
    requires Inv(codecs, cfg, world) && Enabled(cfg, world, Commit(w))
    ensures var world' := Next(codecs, cfg, world, Commit(w));
            && WorkerOk(codecs, cfg, world'.db, w, world'.workers[w])
            && Pending(world'.workers[w]) <= Pending(world.workers[w])
  {
    var k := world.workers[w];
    assert WorkerOk(codecs, cfg, world.db, w, k);
    if |k.batch| > 1 {
      forall i | 0 <= i < |k.batch[1..]| ensures k.batch[1..][i] == k.batch[i + 1] {}
    }
  }

  lemma CommitKeepsInv(codecs: Codecs, cfg: Config, world: World, w: WorkerId)
    requires Inv(codecs, cfg, world) && Enabled(cfg, world, Commit(w))
    ensures Inv(codecs, cfg, Next(codecs, cfg, world, Commit(w)))
  {
    var world' := Next(codecs, cfg, world, Commit(w));
    var k := world.workers[w];
    assert WorkerOk(codecs, cfg, world.db, w, k);
    SettleKeepsExactlyOnce(codecs, world.db, cfg.consumerOf[w], k.now, k.batch[0], PhaseOutcome(k.phase));
    CommitKeepsSelf(codecs, cfg, world, w);
    forall v | v in world'.workers ensures WorkerOk(codecs, cfg, world'.db, v, world'.workers[v]) {
      if v != w {
        CommitKeepsOther(codecs, cfg, world, w, v);
      }
    }
  }

  lemma CollideKeepsInv(codecs: Codecs, cfg: Config, world: World, w: WorkerId, error: string)
    requires Inv(codecs, cfg, world) && Enabled(cfg, world, Collide(w, error))
    ensures Inv(codecs, cfg, Next(codecs, cfg, world, Collide(w, error)))
  {
    var k := world.workers[w];
    assert WorkerOk(codecs, cfg, world.db, w, k);
    assert Pending(k.(phase := Failing(error))) == Pending(k);
  }

  lemma CrashKeepsInv(codecs: Codecs, cfg: Config, world: World, w: WorkerId)
    requires Inv(codecs, cfg, world) && Enabled(cfg, world, Crash(w))
    ensures Inv(codecs, cfg, Next(codecs, cfg, world, Crash(w)))
  {
    assert Pending(Idle) == {};
  }

  lemma StepKeepsInv(codecs: Codecs, cfg: Config, world: World, step: Step)
    requires Covered(cfg)
    requires Inv(codecs, cfg, world) && Enabled(cfg, world, step)
    ensures Inv(codecs, cfg, Next(codecs, cfg, world, step))
  {
    match step
    case Publish(id, row) => PublishKeepsInv(codecs, cfg, world, id, row);
    case Select(w, now, ids) => SelectKeepsInv(codecs, cfg, world, w, now, ids);
    case HandleEvent(w, attempt) => HandleKeepsInv(codecs, cfg, world, w, attempt);
    case Collide(w, error) => CollideKeepsInv(codecs, cfg, world, w, error);
    case Commit(w) => CommitKeepsInv(codecs, cfg, world, w);
    case Crash(w) => CrashKeepsInv(codecs, cfg, world, w);
  }

  lemma {:induction false} RunKeepsInv(codecs: Codecs, cfg: Config, world: World, steps: seq<Step>, end: World)
    requires Covered(cfg) && Inv(codecs, cfg, world) && Reaches(codecs, cfg, world, steps, end)
    ensures Inv(codecs, cfg, end)
    decreases |steps|
  {
    if steps != [] {
      StepKeepsInv(codecs, cfg, world, steps[0]);
      RunKeepsInv(codecs, cfg, Next(codecs, cfg, world, steps[0]), steps[1..], end);
    }
  }

  // ---- dead-lettering is final ----

  lemma StepKeepsDead(codecs: Codecs, cfg: Config, world: World, step: Step, id: Uuid)
    requires Enabled(cfg, world, step)
    requires id in world.db.events && world.db.events[id].deadLetteredAt.Some?
    ensures var db := Next(codecs, cfg, world, step).db;
            id in db.events && db.events[id].deadLetteredAt.Some?
  {
  }

  /** Whatever workers of whatever consumers do, a dead-lettered event stays so and no query returns it again. */
  lemma {:induction false} DeadForEveryWorker(
    codecs: Codecs, cfg: Config, world: World, steps: seq<Step>, end: World, id: Uuid, w: WorkerId, now: Time, ids: seq<Uuid>)
    requires Reaches(codecs, cfg, world, steps, end)
    requires id in world.db.events && world.db.events[id].deadLetteredAt.Some?
    ensures id in end.db.events && end.db.events[id].deadLetteredAt.Some?
    ensures Enabled(cfg, end, Select(w, now, ids)) ==> id !in ids
    decreases |steps|
  {
    if steps != [] {
      StepKeepsDead(codecs, cfg, world, steps[0], id);
      DeadForEveryWorker(codecs, cfg, Next(codecs, cfg, world, steps[0]), steps[1..], end, id, w, now, ids);
    } else {
      assert w in cfg.consumerOf ==> !Eligible(end.db, cfg.consumerOf[w], now, id);
    }
  }

  // ---- exactly when the guarantee holds ----

  ghost predicate AlwaysExactlyOnce(codecs: Codecs, cfg: Config) {
    forall world, steps, end :: Initial(codecs, cfg, world) && Reaches(codecs, cfg, world, steps, end)
                                ==> ExactlyOnce(codecs, end.db)
  }

  function BlockedEdgeEvent(codecs: Codecs, createdAt: Time): EventRow {
    EventRow("edge_status.updated",
             map["edge_id" := JStr(codecs.showUuid(0)), "status" := JStr("BLOCKED"), "status_version" := JInt(1)],
             "PENDING", 0, 5, None, None, None, createdAt, None, None)
  }

  lemma BlockedEdgePlan(codecs: Codecs, version: int, id: Uuid, createdAt: Time)
    requires Lawful(codecs)
    ensures var row := BlockedEdgeEvent(codecs, createdAt);
            Plan(codecs, version, id, row.eventType, row.payload)
            == Planned([Evaluation(0, 1, id, None, BLOCKED_ROUTE, CRITICAL, 3600)], None)
  {
    assert Upper("BLOCKED") == "BLOCKED";
  }

  lemma {:induction false} ReachesAppend(
    codecs: Codecs, cfg: Config, world: World, first: seq<Step>, mid: World, second: seq<Step>, end: World)
    requires Reaches(codecs, cfg, world, first, mid) && Reaches(codecs, cfg, mid, second, end)
    ensures Reaches(codecs, cfg, world, first + second, end)
    decreases |first|
  {
    if first == [] {
      assert first + second == second;
    } else {
      assert (first + second)[1..] == first[1..] + second;
      ReachesAppend(codecs, cfg, Next(codecs, cfg, world, first[0]), first[1..], mid, second, end);
    }
  }

  lemma ReachesOne(codecs: Codecs, cfg: Config, world: World, step: Step)
    requires Enabled(cfg, world, step)
    ensures Reaches(codecs, cfg, world, [step], Next(codecs, cfg, world, step))
  {
    assert [step][1..] == [];
    assert Reaches(codecs, cfg, Next(codecs, cfg, world, step), [], Next(codecs, cfg, world, step));
  }

  /** The world after worker w has handled and committed its first event with nobody in between. */
  ghost function AfterFirst(codecs: Codecs, cfg: Config, world: World, w: WorkerId, a: Attempt): World
    requires w in cfg.consumerOf && IsRunning(world, w) && world.workers[w].batch[0].id in world.db.events
  {
    var k := world.workers[w];
    var f := k.batch[0];
    World(Settle(world.db, cfg.consumerOf[w], k.now, f, Handle(codecs, cfg.consumerOf[w], f.id, f.row, a)),
          world.workers[w := Advance(k)])
  }

  lemma HandleAndCommit(codecs: Codecs, cfg: Config, world: World, w: WorkerId, a: Attempt)
    requires w in cfg.consumerOf && IsRunning(world, w) && world.workers[w].phase.Ready?
    requires world.workers[w].batch[0].id in world.db.events
    requires world.workers[w].batch[0].id !in LockedByOthers(world, w)
    ensures Reaches(codecs, cfg, world, [HandleEvent(w, a), Commit(w)], AfterFirst(codecs, cfg, world, w, a))
  {
    var mid := Next(codecs, cfg, world, HandleEvent(w, a));
    forall v | v != w && v in world.workers ensures mid.workers[v] == world.workers[v] {}
    assert world.workers[w].batch[0].id !in LockedByOthers(mid, w);
    ReachesOne(codecs, cfg, world, HandleEvent(w, a));
    assert Enabled(cfg, mid, Commit(w));
    var end := Next(codecs, cfg, mid, Commit(w));
    ReachesOne(codecs, cfg, mid, Commit(w));
    assert end.workers == world.workers[w := Advance(world.workers[w])];
    ReachesAppend(codecs, cfg, world, [HandleEvent(w, a)], mid, [Commit(w)], end);
    assert [HandleEvent(w, a)] + [Commit(w)] == [HandleEvent(w, a), Commit(w)];
  }

  function TwoEvents(codecs: Codecs): Db {
    Db(map[1 := BlockedEdgeEvent(codecs, 0), 2 := BlockedEdgeEvent(codecs, 1)], map[], [])
  }

  function AllIdle(cfg: Config, db: Db): World {
    World(db, map k | k in cfg.consumerOf :: Idle)
  }

  /** v selects both events and commits the first, which frees its lock on the second. */
  lemma FirstCommitFreesTheRest(codecs: Codecs, cfg: Config, v: WorkerId) returns (steps: seq<Step>, mid: World)
    requires Lawful(codecs) && cfg.batchSize >= 2 && IsEvaluator(cfg, v)
    ensures Reaches(codecs, cfg, AllIdle(cfg, TwoEvents(codecs)), steps, mid)
    ensures mid.workers == AllIdle(cfg, mid.db).workers[v := Running(0, [Fetched(2, BlockedEdgeEvent(codecs, 1))], false, Ready)]
    ensures mid.db.events.Keys == {1, 2} && mid.db.events[2] == BlockedEdgeEvent(codecs, 1)
    ensures mid.db.receipts.Keys == {(IMPACT_EVALUATOR, 1)} && Succeeded(mid.db, IMPACT_EVALUATOR, 1)
    ensures mid.db.evaluations == [Evaluation(0, 1, 1, None, BLOCKED_ROUTE, CRITICAL, 3600)]
  {
    var db0 := TwoEvents(codecs);
    var s0 := AllIdle(cfg, db0);
    var a := Attempt(Some(0), None, "");
    var batch := [Fetched(1, BlockedEdgeEvent(codecs, 0)), Fetched(2, BlockedEdgeEvent(codecs, 1))];
    var s1 := World(db0, s0.workers[v := Running(0, batch, true, Ready)]);
    BothSelected(codecs, cfg, v, batch);
    mid := FirstCommitted(codecs, cfg, v, s1, a, batch);
    steps := [Select(v, 0, [1, 2])] + [HandleEvent(v, a), Commit(v)];
    ReachesAppend(codecs, cfg, s0, [Select(v, 0, [1, 2])], s1, [HandleEvent(v, a), Commit(v)], mid);
  }

  lemma FirstCommitted(codecs: Codecs, cfg: Config, v: WorkerId, s1: World, a: Attempt, batch: seq<Fetched>) returns (mid: World)
    requires Lawful(codecs) && IsEvaluator(cfg, v) && a == Attempt(Some(0), None, "")
    requires batch == [Fetched(1, BlockedEdgeEvent(codecs, 0)), Fetched(2, BlockedEdgeEvent(codecs, 1))]
    requires s1 == World(TwoEvents(codecs), AllIdle(cfg, TwoEvents(codecs)).workers[v := Running(0, batch, true, Ready)])
    ensures Reaches(codecs, cfg, s1, [HandleEvent(v, a), Commit(v)], mid)
    ensures mid.workers == AllIdle(cfg, mid.db).workers[v := Running(0, [Fetched(2, BlockedEdgeEvent(codecs, 1))], false, Ready)]
    ensures mid.db.events.Keys == {1, 2} && mid.db.events[2] == BlockedEdgeEvent(codecs, 1)
    ensures mid.db.receipts.Keys == {(IMPACT_EVALUATOR, 1)} && Succeeded(mid.db, IMPACT_EVALUATOR, 1)
    ensures mid.db.evaluations == [Evaluation(0, 1, 1, None, BLOCKED_ROUTE, CRITICAL, 3600)]
  {
    BlockedEdgePlan(codecs, 0, 1, 0);
    assert LockedByOthers(s1, v) == {};
    HandleAndCommit(codecs, cfg, s1, v, a);
    mid := AfterFirst(codecs, cfg, s1, v, a);
    assert batch[1..] == [Fetched(2, BlockedEdgeEvent(codecs, 1))];
  }

  lemma BothSelected(codecs: Codecs, cfg: Config, v: WorkerId, batch: seq<Fetched>)
    requires cfg.batchSize >= 2 && IsEvaluator(cfg, v)
    requires batch == [Fetched(1, BlockedEdgeEvent(codecs, 0)), Fetched(2, BlockedEdgeEvent(codecs, 1))]
    ensures var s0 := AllIdle(cfg, TwoEvents(codecs));
            Reaches(codecs, cfg, s0, [Select(v, 0, [1, 2])], World(s0.db, s0.workers[v := Running(0, batch, true, Ready)]))
  {
    var s0 := AllIdle(cfg, TwoEvents(codecs));
    assert LockedByOthers(s0, v) == {};
    assert Fetch(s0.db, [1, 2]) == batch;
    ReachesOne(codecs, cfg, s0, Select(v, 0, [1, 2]));
  }

  /** w takes the freed event and commits it; v then handles the copy it still holds and commits it again. */
  lemma FreedEventRunsTwice(codecs: Codecs, cfg: Config, v: WorkerId, w: WorkerId, mid: World)
    returns (steps: seq<Step>, end: World)
    requires Lawful(codecs) && cfg.batchSize >= 2 && v != w && IsEvaluator(cfg, v) && IsEvaluator(cfg, w)
    requires mid.workers == AllIdle(cfg, mid.db).workers[v := Running(0, [Fetched(2, BlockedEdgeEvent(codecs, 1))], false, Ready)]
    requires mid.db.events.Keys == {1, 2} && mid.db.events[2] == BlockedEdgeEvent(codecs, 1)
    requires mid.db.receipts.Keys == {(IMPACT_EVALUATOR, 1)} && Succeeded(mid.db, IMPACT_EVALUATOR, 1)
    ensures Reaches(codecs, cfg, mid, steps, end)
    ensures var e := Evaluation(0, 1, 2, None, BLOCKED_ROUTE, CRITICAL, 3600);
            end.db.evaluations == mid.db.evaluations + [e] + [e]
    ensures 2 in end.db.events && end.db.events[2].eventType == "edge_status.updated"
            && end.db.events[2].payload == BlockedEdgeEvent(codecs, 1).payload
    ensures Succeeded(end.db, IMPACT_EVALUATOR, 2)
  {
    var a := Attempt(Some(0), None, "");
    BlockedEdgePlan(codecs, 0, 2, 1);
    assert LockedByOthers(mid, w) == {};
    ReachesOne(codecs, cfg, mid, Select(w, 0, [2]));
    var s1 := Next(codecs, cfg, mid, Select(w, 0, [2]));
    assert LockedByOthers(s1, w) == {};
    HandleAndCommit(codecs, cfg, s1, w, a);
    var s2 := AfterFirst(codecs, cfg, s1, w, a);
    assert LockedByOthers(s2, v) == {};
    HandleAndCommit(codecs, cfg, s2, v, a);
    end := AfterFirst(codecs, cfg, s2, v, a);
    var two, three := [HandleEvent(w, a), Commit(w)], [HandleEvent(v, a), Commit(v)];
    ReachesAppend(codecs, cfg, s1, two, s2, three, end);
    ReachesAppend(codecs, cfg, mid, [Select(w, 0, [2])], s1, two + three, end);
    steps := [Select(w, 0, [2])] + (two + three);
  }

  /** With room for two events and two evaluators, some run commits one event's evaluation twice. */
  lemma LocksFreedTooEarly(codecs: Codecs, cfg: Config, v: WorkerId, w: WorkerId) returns (steps: seq<Step>, end: World)
    requires Lawful(codecs)
    requires cfg.batchSize >= 2 && v != w && IsEvaluator(cfg, v) && IsEvaluator(cfg, w)
    ensures Initial(codecs, cfg, AllIdle(cfg, TwoEvents(codecs)))
    ensures Reaches(codecs, cfg, AllIdle(cfg, TwoEvents(codecs)), steps, end)
    ensures |EvaluationsOf(end.db.evaluations, 2)| == 2
    ensures !ExactlyOnce(codecs, end.db)
  {
    var first, mid := FirstCommitFreesTheRest(codecs, cfg, v);
    var second, end' := FreedEventRunsTwice(codecs, cfg, v, w, mid);
    end := end';
    ReachesAppend(codecs, cfg, AllIdle(cfg, TwoEvents(codecs)), first, mid, second, end);
    steps := first + second;
    var e := Evaluation(0, 1, 2, None, BLOCKED_ROUTE, CRITICAL, 3600);
    EvaluationsOfAppend(mid.db.evaluations + [e], [e], 2);
    EvaluationsOfAppend(mid.db.evaluations, [e], 2);
    assert EvaluationsOf([e], 2) == [e] && EvaluationsOf(mid.db.evaluations, 2) == [];
    assert !OnceFor(codecs, end.db, 2) by {
      if IsWholePlan(codecs, 2, end.db.events[2], [e, e]) {
        var version :| Plan(codecs, version, 2, end.db.events[2].eventType, end.db.events[2].payload) == Planned([e, e], None);
        BlockedEdgePlan(codecs, version, 2, 1);
      }
    }
  }

  /** The guarantee holds over all interleavings exactly for these configurations. */
  lemma ExactlyOnceIffCovered(codecs: Codecs, cfg: Config)
    requires Lawful(codecs)
    ensures AlwaysExactlyOnce(codecs, cfg) <==> Covered(cfg)
  {
    if Covered(cfg) {
      forall world, steps, end | Initial(codecs, cfg, world) && Reaches(codecs, cfg, world, steps, end)
        ensures ExactlyOnce(codecs, end.db)
      {
        RunKeepsInv(codecs, cfg, world, steps, end);
      }
    } else {
      var v, w :| IsEvaluator(cfg, v) && IsEvaluator(cfg, w) && v != w;
      var steps, end := LocksFreedTooEarly(codecs, cfg, v, w);
    }
  }

  // ---- a batch nobody interferes with is one of these runs ----

  lemma {:induction false} RestOfBatchIsARun(
    codecs: Codecs, cfg: Config, world: World, w: WorkerId, now: Time, batch: seq<Fetched>, locked: bool, attempts: Uuid -> Attempt)
    returns (steps: seq<Step>)
    requires w in cfg.consumerOf && batch != [] && BatchIn(world.db, batch)
    requires world.workers == AllIdle(cfg, world.db).workers[w := Running(now, batch, locked, Ready)]
    ensures Reaches(codecs, cfg, world, steps,
                    AllIdle(cfg, RunBatch(codecs, world.db, cfg.consumerOf[w], now, batch, attempts)))
    decreases |batch|
  {
    assert LockedByOthers(world, w) == {};
    var a := attempts(batch[0].id);
    HandleAndCommit(codecs, cfg, world, w, a);
    var next := AfterFirst(codecs, cfg, world, w, a);
    steps := [HandleEvent(w, a), Commit(w)];
    if |batch| == 1 {
      assert next == AllIdle(cfg, RunBatch(codecs, world.db, cfg.consumerOf[w], now, batch, attempts));
    } else {
      var rest := RestOfBatchIsARun(codecs, cfg, next, w, now, batch[1..], false, attempts);
      ReachesAppend(codecs, cfg, world, steps, next, rest,
                    AllIdle(cfg, RunBatch(codecs, world.db, cfg.consumerOf[w], now, batch, attempts)));
      steps := steps + rest;
    }
  }

  lemma BatchIsARun(
    codecs: Codecs, cfg: Config, db: Db, w: WorkerId, now: Time, ids: seq<Uuid>, attempts: Uuid -> Attempt)
    returns (steps: seq<Step>)
    requires w in cfg.consumerOf && Selection(db, {}, cfg.consumerOf[w], now, cfg.batchSize, ids)
    ensures Reaches(codecs, cfg, AllIdle(cfg, db), steps,
                    AllIdle(cfg, RunBatch(codecs, db, cfg.consumerOf[w], now, Fetch(db, ids), attempts)))
  {
    steps := [];
    if ids != [] {
      var start := AllIdle(cfg, db);
      assert LockedByOthers(start, w) == {};
      ReachesOne(codecs, cfg, start, Select(w, now, ids));
      var selected := Next(codecs, cfg, start, Select(w, now, ids));
      var rest := RestOfBatchIsARun(codecs, cfg, selected, w, now, Fetch(db, ids), true, attempts);
      ReachesAppend(codecs, cfg, start, [Select(w, now, ids)], selected, rest,
                    AllIdle(cfg, RunBatch(codecs, db, cfg.consumerOf[w], now, Fetch(db, ids), attempts)));
      steps := [Select(w, now, ids)] + rest;
    }
  }

  /** So a lone worker keeps the guarantee whatever its batch size. */
  lemma BatchKeepsExactlyOnce(
    codecs: Codecs, db: Db, consumer: string, batchSize: nat, now: Time, ids: seq<Uuid>, attempts: Uuid -> Attempt)
    requires ReceiptsHaveEvents(db) && ExactlyOnce(codecs, db)
    requires Selection(db, {}, consumer, now, batchSize, ids)
    ensures var db' := RunBatch(codecs, db, consumer, now, Fetch(db, ids), attempts);
            ReceiptsHaveEvents(db') && ExactlyOnce(codecs, db')
  {
    var cfg := Config(map[0 := consumer], batchSize);
    var steps := BatchIsARun(codecs, cfg, db, 0, now, ids, attempts);
    var db' := RunBatch(codecs, db, consumer, now, Fetch(db, ids), attempts);
    RunKeepsInv(codecs, cfg, AllIdle(cfg, db), steps, AllIdle(cfg, db'));
  }
}
