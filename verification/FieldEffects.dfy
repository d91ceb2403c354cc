/**
 What each store call leaves for the reads and calls after it: what was saved is what is read, what was queued is what is
 sent, and a synced report stays synced. frontend/src/features/field/store.ts and shared/offline/queue-state.ts.
 */
module FieldEffects {
  import opened Common
  import opened FieldModel
  import opened FieldTables
  import opened FieldRuns

  // ---- single reads ----

  /** A read by id finds the user's own row, and a draft only if it can be read. */
  lemma GetsOwn(t: Tables, owner: Owner, id: Id, d: Draft, o: Operation)
    ensures GetDraft(t, owner, id) == Some(d) <==> id in t.drafts && t.drafts[id] == d && d.ownerId == owner && d.payload.Report?
    ensures GetOperation(t, owner, id) == Some(o) <==> id in t.operations && t.operations[id] == o && o.ownerId == owner
  {
  }

  // ---- drafts ----

  /** Every row but one is as it was. */
  ghost predicate OnlyChanged<T>(before: map<Id, T>, after: map<Id, T>, id: Id) {
    forall k :: k != id ==> (k in before <==> k in after) && (k in before && k in after ==> before[k] == after[k])
  }

  /** A save that is not refused is read back whole; a refused one leaves everything. */
  lemma SavedIsRead(t: Tables, who: Identity, id: Id, report: ReportPayload, step: int, now: Instant)
    ensures var t' := Apply(t, SaveDraft(who, id, Report(report), step, now));
            if id in t.drafts && t.drafts[id].ownerId != who.ownerId then
              t' == t && Answer(t, SaveDraft(who, id, Report(report), step, now)) == Refused
            else
              && t'.operations == t.operations && t'.media == t.media && OnlyChanged(t.drafts, t'.drafts, id)
              && GetDraft(t', who.ownerId, id).Some?
              && var d := GetDraft(t', who.ownerId, id).value;
              && d.id == id && d.ownerId == who.ownerId && d.orgId == who.orgId
              && d.payload == Report(report) && d.step == step && d.updatedAt == now
              && (if id in t.drafts then d.createdAt == t.drafts[id].createdAt else d.createdAt == now)
              && Answer(t, SaveDraft(who, id, Report(report), step, now)) == SavedDraft(d)
  {
  }

  /** The last of several saves of an own draft is what is read, under the time of the first. */
  lemma LastSaveWins(
    t: Tables, who: Identity, id: Id, first: Payload, second: ReportPayload, step: int, last: int, now: Instant, later: Instant)
    requires id in t.drafts ==> t.drafts[id].ownerId == who.ownerId
    ensures var t1 := Apply(t, SaveDraft(who, id, first, step, now));
            var d := GetDraft(Apply(t1, SaveDraft(who, id, Report(second), last, later)), who.ownerId, id);
            d.Some? && d.value.payload == Report(second) && d.value.step == last && d.value.updatedAt == later
            && d.value.createdAt == if id in t.drafts then t.drafts[id].createdAt else now
  {
    var t1 := Apply(t, SaveDraft(who, id, first, step, now));
    SavedIsRead(t1, who, id, second, last, later);
  }

  lemma LookupAll<T>(m: map<Id, T>, ids: set<Id>, k: Id)
    requires k in ids && forall i :: i in ids ==> i in m
    ensures m[k] in Lookup(m, SortedIds(ids))
  {
    SortedElements(ids);
    var list := SortedIds(ids);
    assert k in Elements(list);
    var i :| 0 <= i < |list| && list[i] == k;
    assert Lookup(m, list)[i] == m[k];
  }

  /** A photo added is listed with its draft, whole, and not uploaded yet. */
  lemma AddedIsListed(
    t: Tables, who: Identity, draftId: Id, mediaId: Id, blob: Blob, fileName: string, mimeType: string, now: Instant)
    ensures var t' := Apply(t, AddMedia(who, draftId, mediaId, blob, fileName, mimeType, now));
            && t'.drafts == t.drafts && t'.operations == t.operations && OnlyChanged(t.media, t'.media, mediaId)
            && mediaId in t'.media
            && var row := t'.media[mediaId];
            && row in ListDraftMedia(t', who.ownerId, draftId)
            && row.id == mediaId && row.blob == blob && row.size == |blob| && row.fileName == fileName
            && row.mimeType == mimeType && row.serverMediaId.None? && row.createdAt == now
  {
    var t' := Apply(t, AddMedia(who, draftId, mediaId, blob, fileName, mimeType, now));
    LookupAll(t'.media, DraftMedia(t'.media, who.ownerId, draftId), mediaId);
  }

  /** Discarding a draft deletes it and the photos its owner hung on it, and nothing else; any other caller deletes nothing. */
  lemma DiscardedIsGone(t: Tables, owner: Owner, id: Id)
    ensures var t' := Apply(t, DiscardDraft(owner, id));
            var own := id in t.drafts && t.drafts[id].ownerId == owner;
            && t'.operations == t.operations && (forall k :: k in t'.drafts <==> k in t.drafts && !(own && k == id))
            && (forall k :: k in t'.drafts ==> t'.drafts[k] == t.drafts[k])
            && (forall m :: m in t'.media <==>
                  m in t.media && !(own && t.media[m].draftId == Some(id) && t.media[m].ownerId == owner))
            && (forall m :: m in t'.media ==> t'.media[m] == t.media[m])
  {
  }

  lemma RemovedIsGone(t: Tables, owner: Owner, mediaId: Id)
    ensures var t' := Apply(t, RemoveMedia(owner, mediaId));
            && t'.drafts == t.drafts && t'.operations == t.operations
            && (forall m :: m in t'.media <==> m in t.media && !(m == mediaId && t.media[m].ownerId == owner))
            && (forall m :: m in t'.media ==> t'.media[m] == t.media[m])
  {
  }

  // ---- queueing and reopening ----

  /** The photos of the old parent, now under the new one; every other row is as it was. */
  ghost predicate Moved(before: map<Id, Media>, after: map<Id, Media>, moved: set<Id>, op: Option<Id>, draft: Option<Id>, keep: bool) {
    && after.Keys == before.Keys
    && (forall m :: m in before && m !in moved ==> after[m] == before[m])
    && (forall m :: m in before && m in moved ==>
          && after[m].operationId == op && after[m].draftId == draft && after[m].blob == before[m].blob
          && after[m].ownerId == before[m].ownerId
          && (if keep then after[m].serverMediaId == before[m].serverMediaId else after[m].serverMediaId.None?))
  }

  /** What the officer captured, without the list of photos. */
  predicate SameReport(a: ReportPayload, b: ReportPayload) {
    && a.reportType == b.reportType && a.severity == b.severity && a.description == b.description
    && a.location == b.location && a.observedAt == b.observedAt && a.candidateEdgeId == b.candidateEdgeId
  }

  predicate CanBeQueued(t: Tables, owner: Owner, id: Id) {
    id in t.drafts && t.drafts[id].id == id && t.drafts[id].ownerId == owner && t.drafts[id].payload.Report?
  }

  lemma UnqueuedStays(t: Tables, owner: Owner, id: Id, now: Instant)
    requires id !in t.drafts || t.drafts[id].ownerId != owner || !t.drafts[id].payload.Report?
    ensures Apply(t, QueueDraft(owner, id, now)) == t && Answer(t, QueueDraft(owner, id, now)) == Refused
  {
  }

  /** The operation lists exactly the draft's own photos, and they hang on it now. */
  lemma QueuedPhotos(t: Tables, owner: Owner, id: Id, now: Instant)
    requires CanBeQueued(t, owner, id)
    ensures var t' := Apply(t, QueueDraft(owner, id, now));
            && id in t'.operations
            && var listed := t'.operations[id].localMediaIds;
            && (forall m :: m in listed <==> m in t.media && t.media[m].draftId == Some(id) && t.media[m].ownerId == owner)
            && Moved(t.media, t'.media, Elements(listed), Some(id), None, true)
  {
    var rows := DraftMedia(t.media, owner, id);
    SortedElements(rows);
    assert forall m :: m in SortedIds(rows) <==> m in Elements(SortedIds(rows));
  }

  /** Queueing an own readable draft makes it an operation of the same id that says the same. */
  lemma QueuedIsRead(t: Tables, owner: Owner, id: Id, now: Instant)
    requires CanBeQueued(t, owner, id)
    ensures var t' := Apply(t, QueueDraft(owner, id, now));
            var d := t.drafts[id];
            && id !in t'.drafts && OnlyChanged(t.drafts, t'.drafts, id) && OnlyChanged(t.operations, t'.operations, id)
            && GetOperation(t', owner, id).Some?
            && var op := GetOperation(t', owner, id).value;
            && Answer(t, QueueDraft(owner, id, now)) == QueuedOperation(op)
            && op.id == id && op.ownerId == owner && op.orgId == d.orgId && op.state == QUEUED && !op.textOnly
            && op.attempts == 0 && op.nextAttemptAt.None? && op.lastError.None? && op.serverResult.None?
            && op.createdAt == d.createdAt && op.updatedAt == now
            && op.payload.Report? && SameReport(op.payload.report, d.payload.report)
            && op.payload.report.mediaLocalIds == op.localMediaIds
  {
  }

  /** A report saved and then queued is sent as it was last written. */
  lemma SavedThenQueued(
    t: Tables, who: Identity, id: Id, report: ReportPayload, step: int, now: Instant, later: Instant, uploads: seq<string>)
    requires id in t.drafts ==> t.drafts[id].ownerId == who.ownerId
    ensures var t' := Apply(Apply(t, SaveDraft(who, id, Report(report), step, now)), QueueDraft(who.ownerId, id, later));
            var op := GetOperation(t', who.ownerId, id);
            && op.Some? && op.value.payload.Report?
            && ToBatchItem(op.value.id, op.value.payload.report, uploads) == ToBatchItem(id, report, uploads)
  {
    SavedIsRead(t, who, id, report, step, now);
    QueuedIsRead(Apply(t, SaveDraft(who, id, Report(report), step, now)), who.ownerId, id, later);
  }

  predicate CanBeReopened(t: Tables, owner: Owner, id: Id) {
    && id in t.operations && t.operations[id].id == id && t.operations[id].ownerId == owner
    && t.operations[id].state != SYNCED && t.operations[id].payload.Report?
  }

  lemma UnopenedStays(t: Tables, owner: Owner, id: Id, newId: Id, now: Instant)
    requires id !in t.operations || t.operations[id].ownerId != owner || t.operations[id].state == SYNCED
             || !t.operations[id].payload.Report?
    ensures Apply(t, ReopenAsDraft(owner, id, newId, now)) == t
    ensures Answer(t, ReopenAsDraft(owner, id, newId, now)) == ReopenedDraft(None)
  {
  }

  /** Reopening an own unsynced readable operation makes it a draft with the same payload, under a new id after a review. */
  lemma ReopenedIsRead(t: Tables, owner: Owner, id: Id, newId: Id, now: Instant)
    requires CanBeReopened(t, owner, id)
    ensures var t' := Apply(t, ReopenAsDraft(owner, id, newId, now));
            var op := t.operations[id];
            var d := if op.state == NEEDS_REVIEW then newId else id;
            && Answer(t, ReopenAsDraft(owner, id, newId, now)) == ReopenedDraft(Some(d))
            && id !in t'.operations && OnlyChanged(t.operations, t'.operations, id) && OnlyChanged(t.drafts, t'.drafts, d)
            && GetDraft(t', owner, d).Some?
            && var draft := GetDraft(t', owner, d).value;
            && draft.id == d && draft.ownerId == owner && draft.orgId == op.orgId && draft.payload == op.payload
            && draft.step == 4 && draft.createdAt == op.createdAt && draft.updatedAt == now
  {
  }

  /** And the operation's photos hang on it, their uploads kept unless there was a review. */
  lemma ReopenedPhotos(t: Tables, owner: Owner, id: Id, newId: Id, now: Instant)
    requires CanBeReopened(t, owner, id)
    ensures var review := t.operations[id].state == NEEDS_REVIEW;
            Moved(t.media, Apply(t, ReopenAsDraft(owner, id, newId, now)).media,
                  (set m | m in t.media && t.media[m].operationId == Some(id)), None,
                  Some(if review then newId else id), !review)
  {
  }

  // ---- operations ----

  predicate Follows<T(==)>(patched: Option<T>, before: T, after: T) {
    match patched
    case Some(v) => after == v
    case None => after == before
  }

  /** A patch with an allowed transition is stored field by field; one without is refused and leaves everything. */
  lemma UpdatedIsRead(t: Tables, owner: Owner, id: Id, patch: Patch, now: Instant)
    ensures var t' := Apply(t, UpdateOperation(owner, id, patch, now));
            var answer := Answer(t, UpdateOperation(owner, id, patch, now));
            if id !in t.operations || t.operations[id].ownerId != owner then
              t' == t && answer == UpdatedOperation(None)
            else if patch.state.Some? && !CanTransition(t.operations[id].state, patch.state.value) then
              t' == t && answer == Refused
            else
              && t'.drafts == t.drafts && t'.media == t.media && OnlyChanged(t.operations, t'.operations, id)
              && GetOperation(t', owner, id).Some?
              && var a, b := t.operations[id], GetOperation(t', owner, id).value;
              && answer == UpdatedOperation(Some(b)) && b.id == a.id && b.ownerId == owner && b.updatedAt == now
              && Follows(patch.state, a.state, b.state) && Follows(patch.orgId, a.orgId, b.orgId)
              && Follows(patch.payload, a.payload, b.payload) && Follows(patch.localMediaIds, a.localMediaIds, b.localMediaIds)
              && Follows(patch.textOnly, a.textOnly, b.textOnly) && Follows(patch.attempts, a.attempts, b.attempts)
              && Follows(patch.nextAttemptAt, a.nextAttemptAt, b.nextAttemptAt)
              && Follows(patch.lastError, a.lastError, b.lastError)
              && Follows(patch.serverResult, a.serverResult, b.serverResult)
              && Follows(patch.createdAt, a.createdAt, b.createdAt)
  {
  }

  /** The same lifecycle read backwards: where each state can be entered from. */
  lemma EnteredFrom(from: OpState, to: OpState)
    ensures CanTransition(from, to) <==>
              || from == to
              || (match to
                  case QUEUED => from !in {QUEUED, SYNCED}
                  case UPLOADING_MEDIA => from in {QUEUED, RETRY_WAIT}
                  case SUBMITTING => from in {QUEUED, UPLOADING_MEDIA, RETRY_WAIT}
                  case SYNCED => from == SUBMITTING
                  case RETRY_WAIT => from in {UPLOADING_MEDIA, SUBMITTING}
                  case NEEDS_LOGIN => from in {QUEUED, UPLOADING_MEDIA, SUBMITTING, RETRY_WAIT}
                  case NEEDS_REVIEW => from == SUBMITTING
                  case FAILED_WITH_REASON => from !in {SYNCED, FAILED_WITH_REASON})
  {
  }

  lemma DiscardedOperationIsGone(t: Tables, owner: Owner, id: Id)
    ensures var t' := Apply(t, DiscardOperation(owner, id));
            var own := id in t.operations && t.operations[id].ownerId == owner && t.operations[id].state != SYNCED;
            && t'.drafts == t.drafts && (forall k :: k in t'.operations <==> k in t.operations && !(own && k == id))
            && (forall k :: k in t'.operations ==> t'.operations[k] == t.operations[k])
            && (forall m :: m in t'.media <==>
                  m in t.media && !(own && t.media[m].operationId == Some(id) && t.media[m].ownerId == owner))
            && (forall m :: m in t'.media ==> t'.media[m] == t.media[m])
  {
  }

  /** The clean-up deletes an own photo exactly if an own operation in state SYNCED has it. */
  lemma CleanedIsSynced(t: Tables, owner: Owner)
    ensures var t' := Apply(t, CleanupSyncedMedia(owner));
            && t'.drafts == t.drafts && t'.operations == t.operations
            && (forall m :: m in t.media ==>
                  (m !in t'.media <==>
                     && t.media[m].ownerId == owner
                     && exists o :: o in t.operations && t.media[m].operationId == Some(o)
                                    && t.operations[o].ownerId == owner && t.operations[o].state == SYNCED))
            && (forall m :: m in t'.media ==> m in t.media && t'.media[m] == t.media[m])
  {
  }

  /** A purge leaves the rows of everybody else and no row of the owner. */
  lemma PurgedIsGone(t: Tables, owner: Owner)
    ensures var t' := Apply(t, PurgeOwner(owner));
            && Only(t', owner) == Tables(map[], map[], map[])
            && forall other :: other != owner ==> Only(t', other) == Only(t, other)
  {
    var t' := Apply(t, PurgeOwner(owner));
    assert OwnedDrafts(t'.drafts, owner) == map[] && OwnedOperations(t'.operations, owner) == map[];
    assert OwnedMedia(t'.media, owner) == map[];
    forall other | other != owner ensures Only(t', other) == Only(t, other) {
      OthersUntouchedByPurge(t, owner, other);
    }
  }

  // ---- over runs ----

  predicate IsSynced(t: Tables, owner: Owner, id: Id) {
    id in t.operations && t.operations[id].ownerId == owner && t.operations[id].state == SYNCED
  }

  lemma SyncedStep(t: Tables, c: Call, owner: Owner, id: Id)
    requires Inv(t) && FreshIds(t, c) && IsSynced(t, owner, id) && c != PurgeOwner(owner)
    ensures IsSynced(Apply(t, c), owner, id)
  {
  }

  /** A report the server accepted stays accepted, over every run by any users, until its owner is purged. */
  lemma {:induction false} SyncedStays(t: Tables, calls: seq<Call>, owner: Owner, id: Id)
    requires Inv(t) && WellBehaved(t, calls) && IsSynced(t, owner, id)
    requires forall i :: 0 <= i < |calls| ==> calls[i] != PurgeOwner(owner)
    ensures IsSynced(Run(t, calls), owner, id)
    decreases |calls|
  {
    if calls != [] {
      SyncedStep(t, calls[0], owner, id);
      CallKeepsInvIff(t, calls[0]);
      SyncedStays(Apply(t, calls[0]), calls[1..], owner, id);
    }
  }

  lemma PendingShown(t: Tables, viewer: Owner)
    ensures ReadSnapshot(t, viewer).otherAccountPending == |OthersPending(t, viewer)|
  {
  }

  predicate IsPending(t: Tables, viewer: Owner, id: Id) {
    id in t.operations && t.operations[id].ownerId != viewer && t.operations[id].state != SYNCED
  }

  /** Two stores that differ in one operation, pending in the second alone. */
  lemma OneMorePending(t: Tables, t': Tables, viewer: Owner, id: Id)
    requires OnlyChanged(t.operations, t'.operations, id) && !IsPending(t, viewer, id) && IsPending(t', viewer, id)
    ensures ReadSnapshot(t', viewer).otherAccountPending == ReadSnapshot(t, viewer).otherAccountPending + 1
  {
    PendingShown(t, viewer);
    PendingShown(t', viewer);
    forall k ensures k in OthersPending(t', viewer) <==> k in OthersPending(t, viewer) || k == id {
      assert k != id ==> (IsPending(t, viewer, k) <==> IsPending(t', viewer, k));
    }
    assert OthersPending(t', viewer) == OthersPending(t, viewer) + {id};
  }

  /** What another user sees of the queue: one more pending when it is queued. */
  lemma QueuedIsPending(t: Tables, owner: Owner, id: Id, now: Instant, viewer: Owner)
    requires owner != viewer && CanBeQueued(t, owner, id) && id !in t.operations
    ensures ReadSnapshot(Apply(t, QueueDraft(owner, id, now)), viewer).otherAccountPending
            == ReadSnapshot(t, viewer).otherAccountPending + 1
  {
    QueuedIsRead(t, owner, id, now);
    OneMorePending(t, Apply(t, QueueDraft(owner, id, now)), viewer, id);
  }

  /** And one less when it is synced. */
  lemma SyncedIsNotPending(t: Tables, owner: Owner, id: Id, patch: Patch, now: Instant, viewer: Owner)
    requires owner != viewer && patch.state == Some(SYNCED)
    requires id in t.operations && t.operations[id].ownerId == owner && t.operations[id].state == SUBMITTING
    ensures ReadSnapshot(Apply(t, UpdateOperation(owner, id, patch, now)), viewer).otherAccountPending + 1
            == ReadSnapshot(t, viewer).otherAccountPending
  {
    UpdatedIsRead(t, owner, id, patch, now);
    OneMorePending(Apply(t, UpdateOperation(owner, id, patch, now)), t, viewer, id);
  }
}
