/**
 What any sequence of store calls, by any number of users of one device, keeps: structure, ownership,
 evidence, and the identity of a report across edits and retries.
 */
module FieldRuns {
  import opened Common
  import opened FieldModel
  import opened FieldTables

  // ---- structure ----

  /** A photo hangs on exactly one draft or operation of its own owner, and an operation lists its photos. */
  predicate MediaOk(t: Tables, m: Media) {
    match (m.draftId, m.operationId)
    case (Some(d), None) => OwnsDraft(t, m.ownerId, d)
    case (None, Some(o)) => OwnsOperation(t, m.ownerId, o) && m.id in t.operations[o].localMediaIds
    case _ => false
  }

  ghost predicate Inv(t: Tables) {
    && (forall d :: d in t.drafts ==> t.drafts[d].id == d)
    && (forall o :: o in t.operations ==> t.operations[o].id == o)
    && (forall m :: m in t.media ==> t.media[m].id == m)
    && t.drafts.Keys !! t.operations.Keys
    && (forall m :: m in t.media ==> MediaOk(t, t.media[m]))
  }

  /** Ids handed out by randomUUID() are not in use. */
  predicate FreshIds(t: Tables, c: Call) {
    match c
    case AddMedia(_, _, mediaId, _, _, _, _) => mediaId !in t.media
    case ReopenAsDraft(_, _, newId, _) => newId !in t.drafts && newId !in t.operations
    case _ => true
  }

  /** The patch would leave a photo of the operation off its list. */
  predicate DropsPhoto(t: Tables, owner: Owner, id: Id, patch: Patch) {
    && OwnsOperation(t, owner, id)
    && (patch.state.Some? ==> CanTransition(t.operations[id].state, patch.state.value))
    && patch.localMediaIds.Some?
    && exists m :: m in OperationMedia(t.media, id) && m !in patch.localMediaIds.value
  }

  /** Every photo under the draft is the user's. */
  predicate PhotosOwn(media: map<Id, Media>, draft: Id, owner: Owner) {
    forall m :: m in media && media[m].draftId == Some(draft) ==> media[m].ownerId == owner
  }

  /** What callers owe: the debounced save must not come after queueing, photos go to own drafts, patches keep the list. */
  predicate Obliged(t: Tables, c: Call) {
    match c
    case SaveDraft(_, id, _, _, _) => id !in t.operations
    case PutDraft(who, id, _, _, _, _) => id !in t.operations && PhotosOwn(t.media, id, who.ownerId)
    case AddMedia(who, draftId, _, _, _, _, _) => OwnsDraft(t, who.ownerId, draftId)
    case UpdateOperation(owner, id, patch, _) => !DropsPhoto(t, owner, id, patch)
    case _ => true
  }

  /** Rows may go as long as every photo that stays keeps its parent. */
  ghost predicate Shrunk(t: Tables, t': Tables) {
    && t'.drafts.Keys <= t.drafts.Keys && (forall d :: d in t'.drafts ==> t'.drafts[d] == t.drafts[d])
    && t'.operations.Keys <= t.operations.Keys && (forall o :: o in t'.operations ==> t'.operations[o] == t.operations[o])
    && t'.media.Keys <= t.media.Keys && (forall m :: m in t'.media ==> t'.media[m] == t.media[m])
    && (forall m :: m in t'.media && t.media[m].draftId.Some? && t.media[m].draftId.value in t.drafts
          ==> t.media[m].draftId.value in t'.drafts)
    && (forall m :: m in t'.media && t.media[m].operationId.Some? && t.media[m].operationId.value in t.operations
          ==> t.media[m].operationId.value in t'.operations)
  }

  lemma ShrinkKeepsInv(t: Tables, t': Tables)
    requires Inv(t) && Shrunk(t, t')
    ensures Inv(t')
  {
    forall m | m in t'.media ensures MediaOk(t', t'.media[m]) {
      assert MediaOk(t, t.media[m]);
    }
  }

  lemma DraftGone(t: Tables, owner: Owner, id: Id)
    requires Inv(t) && OwnsDraft(t, owner, id)
    ensures Shrunk(t, t.(drafts := t.drafts - {id}, media := t.media - DraftMedia(t.media, owner, id)))
  {
    forall m | m in t.media ensures MediaOk(t, t.media[m]) {}
  }

  lemma OperationGone(t: Tables, owner: Owner, id: Id)
    requires Inv(t) && OwnsOperation(t, owner, id)
    ensures Shrunk(t, t.(operations := t.operations - {id}, media := t.media - OwnOperationMedia(t.media, owner, id)))
  {
    forall m | m in t.media ensures MediaOk(t, t.media[m]) {}
  }

  lemma OwnerGone(t: Tables, owner: Owner)
    requires Inv(t)
    ensures Shrunk(t, Apply(t, PurgeOwner(owner)))
  {
    forall m | m in t.media ensures MediaOk(t, t.media[m]) {}
  }

  lemma DiscardsShrink(t: Tables, c: Call)
    requires Inv(t) && (c.RemoveMedia? || c.DiscardDraft? || c.DiscardOperation? || c.CleanupSyncedMedia? || c.PurgeOwner?)
    ensures Shrunk(t, Apply(t, c))
  {
    match c
    case DiscardDraft(owner, id) => if OwnsDraft(t, owner, id) { DraftGone(t, owner, id); }
    case DiscardOperation(owner, id) => if OwnsOperation(t, owner, id) { OperationGone(t, owner, id); }
    case PurgeOwner(owner) => OwnerGone(t, owner);
    case _ =>
  }

  lemma DiscardsKeepInv(t: Tables, c: Call)
    requires Inv(t) && (c.RemoveMedia? || c.DiscardDraft? || c.DiscardOperation? || c.CleanupSyncedMedia? || c.PurgeOwner?)
    ensures Inv(Apply(t, c))
  {
    DiscardsShrink(t, c);
    ShrinkKeepsInv(t, Apply(t, c));
  }

  lemma QueueKeepsInv(t: Tables, owner: Owner, id: Id, now: Instant)
    requires Inv(t)
    ensures Inv(Apply(t, QueueDraft(owner, id, now)))
  {
    var t' := Apply(t, QueueDraft(owner, id, now));
    if CanQueue(t, owner, id) {
      var rows := DraftMedia(t.media, owner, id);
      SortedElements(rows);
      forall m | m in t'.media ensures t'.media[m].id == m && MediaOk(t', t'.media[m]) {
        assert MediaOk(t, t.media[m]);
        if m in rows {
          assert m in Elements(SortedIds(rows));
        }
      }
    }
  }

  lemma ReopenKeepsInv(t: Tables, owner: Owner, id: Id, newId: Id, now: Instant)
    requires Inv(t) && FreshIds(t, ReopenAsDraft(owner, id, newId, now))
    ensures Inv(Apply(t, ReopenAsDraft(owner, id, newId, now)))
  {
    var t' := Apply(t, ReopenAsDraft(owner, id, newId, now));
    if CanReopen(t, owner, id) {
      forall m | m in t'.media ensures t'.media[m].id == m && MediaOk(t', t'.media[m]) {
        assert MediaOk(t, t.media[m]);
      }
    }
  }

  lemma UpdateKeepsInvIff(t: Tables, owner: Owner, id: Id, patch: Patch, now: Instant)
    requires Inv(t)
    ensures Inv(Apply(t, UpdateOperation(owner, id, patch, now))) <==> !DropsPhoto(t, owner, id, patch)
  {
    var t' := Apply(t, UpdateOperation(owner, id, patch, now));
    if DropsPhoto(t, owner, id, patch) {
      var m :| m in OperationMedia(t.media, id) && m !in patch.localMediaIds.value;
      assert MediaOk(t, t.media[m]);
      assert !MediaOk(t', t'.media[m]);
    } else {
      forall m | m in t'.media ensures MediaOk(t', t'.media[m]) {
        assert MediaOk(t, t.media[m]);
        if OwnsOperation(t, owner, id) && t.media[m].operationId == Some(id) {
          assert m in OperationMedia(t.media, id);
        }
      }
    }
  }

  lemma SaveKeepsInvIff(t: Tables, who: Identity, id: Id, payload: Payload, step: int, now: Instant)
    requires Inv(t)
    ensures Inv(Apply(t, SaveDraft(who, id, payload, step, now))) <==> id !in t.operations
  {
    var t' := Apply(t, SaveDraft(who, id, payload, step, now));
    if id !in t.operations {
      forall m | m in t'.media ensures MediaOk(t', t'.media[m]) {
        assert MediaOk(t, t.media[m]);
      }
    } else {
      assert id in t'.drafts.Keys * t'.operations.Keys;
    }
  }

  /** The write of a save keeps the structure exactly if the id is not queued when it lands. */
  lemma PutKeepsInvIff(t: Tables, c: Call)
    requires Inv(t) && c.PutDraft?
    ensures Inv(Apply(t, c)) <==> Obliged(t, c)
  {
    var t' := Apply(t, c);
    if Obliged(t, c) {
      forall m | m in t'.media ensures MediaOk(t', t'.media[m]) {
        assert MediaOk(t, t.media[m]);
      }
    } else if c.id in t.operations {
      assert c.id in t'.drafts.Keys * t'.operations.Keys;
    } else {
      var m :| m in t.media && t.media[m].draftId == Some(c.id) && t.media[m].ownerId != c.who.ownerId;
      assert MediaOk(t, t.media[m]);
      assert !MediaOk(t', t'.media[m]);
    }
  }

  lemma AddMediaKeepsInvIff(
    t: Tables, who: Identity, draftId: Id, mediaId: Id, blob: Blob, fileName: string, mimeType: string, now: Instant)
    requires Inv(t) && mediaId !in t.media
    ensures Inv(Apply(t, AddMedia(who, draftId, mediaId, blob, fileName, mimeType, now))) <==> OwnsDraft(t, who.ownerId, draftId)
  {
    var t' := Apply(t, AddMedia(who, draftId, mediaId, blob, fileName, mimeType, now));
    if OwnsDraft(t, who.ownerId, draftId) {
      forall m | m in t'.media ensures MediaOk(t', t'.media[m]) {
        assert m != mediaId ==> MediaOk(t, t.media[m]);
      }
    } else {
      assert !MediaOk(t', t'.media[mediaId]);
    }
  }

  /** With fresh ids, a call keeps the structure exactly when its caller meets its obligation. */
  lemma CallKeepsInvIff(t: Tables, c: Call)
    requires Inv(t) && FreshIds(t, c)
    ensures Inv(Apply(t, c)) <==> Obliged(t, c)
  {
    match c
    case SaveDraft(who, id, payload, step, now) => SaveKeepsInvIff(t, who, id, payload, step, now);
    case PutDraft(_, _, _, _, _, _) => PutKeepsInvIff(t, c);
    case AddMedia(who, draftId, mediaId, blob, fileName, mimeType, now) =>
      AddMediaKeepsInvIff(t, who, draftId, mediaId, blob, fileName, mimeType, now);
    case QueueDraft(owner, id, now) => QueueKeepsInv(t, owner, id, now);
    case UpdateOperation(owner, id, patch, now) => UpdateKeepsInvIff(t, owner, id, patch, now);
    case ReopenAsDraft(owner, id, newId, now) => ReopenKeepsInv(t, owner, id, newId, now);
    case _ => DiscardsKeepInv(t, c);
  }

  // ---- runs ----

  function Run(t: Tables, calls: seq<Call>): Tables
    decreases |calls|
  {
    if calls == [] then t else Run(Apply(t, calls[0]), calls[1..])
  }

  ghost predicate WellBehaved(t: Tables, calls: seq<Call>)
    decreases |calls|
  {
    calls != [] ==> FreshIds(t, calls[0]) && Obliged(t, calls[0]) && WellBehaved(Apply(t, calls[0]), calls[1..])
  }

  lemma {:induction false} RunKeepsInv(t: Tables, calls: seq<Call>)
    requires Inv(t) && WellBehaved(t, calls)
    ensures Inv(Run(t, calls))
    decreases |calls|
  {
    if calls != [] {
      CallKeepsInvIff(t, calls[0]);
      RunKeepsInv(Apply(t, calls[0]), calls[1..]);
    }
  }

  // ---- noninterference between the users of a device ----

  function OwnedDrafts(m: map<Id, Draft>, owner: Owner): map<Id, Draft> {
    map k | k in m && m[k].ownerId == owner :: m[k]
  }

  function OwnedOperations(m: map<Id, Operation>, owner: Owner): map<Id, Operation> {
    map k | k in m && m[k].ownerId == owner :: m[k]
  }

  function OwnedMedia(m: map<Id, Media>, owner: Owner): map<Id, Media> {
    map k | k in m && m[k].ownerId == owner :: m[k]
  }

  /** The store with everybody else's rows deleted. */
  function Only(t: Tables, owner: Owner): Tables {
    Tables(OwnedDrafts(t.drafts, owner), OwnedOperations(t.operations, owner), OwnedMedia(t.media, owner))
  }

  /** Ids a user saves under are new or the user's own. */
  predicate OwnIds(t: Tables, c: Call) {
    c.SaveDraft? || c.PutDraft? ==>
      && (c.id in t.drafts ==> t.drafts[c.id].ownerId == c.who.ownerId)
      && (c.id in t.operations ==> t.operations[c.id].ownerId == c.who.ownerId)
  }

  /**
   What any use with ids fresh or own leaves true, misuse included: rows are keyed by their ids, an id has
   one owner, and a photo's operation is there and its owner's.
   */
  ghost predicate Owned(t: Tables) {
    && (forall d :: d in t.drafts ==> t.drafts[d].id == d)
    && (forall o :: o in t.operations ==> t.operations[o].id == o)
    && (forall m :: m in t.media ==> t.media[m].id == m)
    && (forall id :: id in t.drafts && id in t.operations ==> t.drafts[id].ownerId == t.operations[id].ownerId)
    && (forall m :: m in t.media ==> OperationOwned(t.operations, t.media[m]))
  }

  predicate OperationOwned(operations: map<Id, Operation>, m: Media) {
    m.operationId.Some? ==> m.operationId.value in operations && operations[m.operationId.value].ownerId == m.ownerId
  }

  /** Every id used is fresh or the caller's own when it is used. */
  ghost predicate OwnRun(t: Tables, calls: seq<Call>)
    decreases |calls|
  {
    calls != [] ==> FreshIds(t, calls[0]) && OwnIds(t, calls[0]) && OwnRun(Apply(t, calls[0]), calls[1..])
  }

  /** The structure implies it; it does not need the callers' obligations. */
  lemma InvIsOwned(t: Tables)
    requires Inv(t)
    ensures Owned(t)
  {
    forall m | m in t.media ensures OperationOwned(t.operations, t.media[m]) {
      assert MediaOk(t, t.media[m]);
    }
  }

  lemma QueueKeepsOwned(t: Tables, owner: Owner, id: Id, now: Instant)
    requires Owned(t)
    ensures Owned(Apply(t, QueueDraft(owner, id, now)))
  {
    var t' := Apply(t, QueueDraft(owner, id, now));
    forall m | m in t'.media ensures OperationOwned(t'.operations, t'.media[m]) {
      assert OperationOwned(t.operations, t.media[m]);
    }
  }

  lemma ReopenKeepsOwned(t: Tables, owner: Owner, id: Id, newId: Id, now: Instant)
    requires Owned(t) && FreshIds(t, ReopenAsDraft(owner, id, newId, now))
    ensures Owned(Apply(t, ReopenAsDraft(owner, id, newId, now)))
  {
    var t' := Apply(t, ReopenAsDraft(owner, id, newId, now));
    forall m | m in t'.media ensures OperationOwned(t'.operations, t'.media[m]) {
      assert OperationOwned(t.operations, t.media[m]);
    }
  }

  lemma DeletionsKeepOwned(t: Tables, c: Call)
    requires Owned(t) && (c.DiscardOperation? || c.PurgeOwner?)
    ensures Owned(Apply(t, c))
  {
    var t' := Apply(t, c);
    forall m | m in t'.media ensures OperationOwned(t'.operations, t'.media[m]) {
      assert m in t.media && t'.media[m] == t.media[m];
      assert OperationOwned(t.operations, t.media[m]);
    }
  }

  lemma OtherCallsKeepOwned(t: Tables, c: Call)
    requires Owned(t) && FreshIds(t, c) && OwnIds(t, c)
    requires !c.QueueDraft? && !c.ReopenAsDraft? && !c.DiscardOperation? && !c.PurgeOwner?
    ensures Owned(Apply(t, c))
  {
    var t' := Apply(t, c);
    forall m | m in t'.media ensures OperationOwned(t'.operations, t'.media[m]) {
      assert m in t.media ==> OperationOwned(t.operations, t.media[m]);
    }
  }

  /** A save that goes through under the id of another user's operation. */
  predicate TakesForeignId(t: Tables, c: Call) {
    && (c.SaveDraft? || c.PutDraft?) && c.id in t.operations && t.operations[c.id].ownerId != c.who.ownerId
    && !(c.SaveDraft? && c.id in t.drafts && t.drafts[c.id].ownerId != c.who.ownerId)
  }

  /** Exactly such a save breaks the ownership. */
  lemma CallKeepsOwnedIff(t: Tables, c: Call)
    requires Owned(t) && FreshIds(t, c)
    ensures Owned(Apply(t, c)) <==> !TakesForeignId(t, c)
  {
    match c
    case SaveDraft(_, id, _, _, _) =>
      if TakesForeignId(t, c) {
        assert id in Apply(t, c).drafts && id in Apply(t, c).operations;
      } else if OwnIds(t, c) {
        OtherCallsKeepOwned(t, c);
      }
    case PutDraft(_, id, _, _, _, _) =>
      if TakesForeignId(t, c) {
        assert id in Apply(t, c).drafts && id in Apply(t, c).operations;
      } else {
        forall m | m in t.media ensures OperationOwned(t.operations, t.media[m]) {}
      }
    case QueueDraft(owner, id, now) => QueueKeepsOwned(t, owner, id, now);
    case ReopenAsDraft(owner, id, newId, now) => ReopenKeepsOwned(t, owner, id, newId, now);
    case DiscardOperation(_, _) => DeletionsKeepOwned(t, c);
    case PurgeOwner(_) => DeletionsKeepOwned(t, c);
    case _ => OtherCallsKeepOwned(t, c);
  }

  lemma CallKeepsOwned(t: Tables, c: Call)
    requires Owned(t) && FreshIds(t, c) && OwnIds(t, c)
    ensures Owned(Apply(t, c))
  {
    CallKeepsOwnedIff(t, c);
  }

  lemma OwnedDraftsPut(m: map<Id, Draft>, k: Id, row: Draft, o: Owner)
    requires k in m ==> m[k].ownerId == row.ownerId
    ensures OwnedDrafts(m[k := row], o) == if row.ownerId == o then OwnedDrafts(m, o)[k := row] else OwnedDrafts(m, o)
  {}

  lemma OwnedDraftsDelete(m: map<Id, Draft>, k: Id, o: Owner)
    ensures OwnedDrafts(m - {k}, o) == OwnedDrafts(m, o) - {k}
    ensures k in m && m[k].ownerId != o ==> OwnedDrafts(m - {k}, o) == OwnedDrafts(m, o)
  {}

  lemma OwnedOperationsPut(m: map<Id, Operation>, k: Id, row: Operation, o: Owner)
    requires k in m ==> m[k].ownerId == row.ownerId
    ensures OwnedOperations(m[k := row], o)
            == if row.ownerId == o then OwnedOperations(m, o)[k := row] else OwnedOperations(m, o)
  {}

  lemma OwnedOperationsDelete(m: map<Id, Operation>, k: Id, o: Owner)
    ensures OwnedOperations(m - {k}, o) == OwnedOperations(m, o) - {k}
    ensures k in m && m[k].ownerId != o ==> OwnedOperations(m - {k}, o) == OwnedOperations(m, o)
  {}

  lemma OwnedMediaPut(m: map<Id, Media>, k: Id, row: Media, o: Owner)
    requires k in m ==> m[k].ownerId == row.ownerId
    ensures OwnedMedia(m[k := row], o) == if row.ownerId == o then OwnedMedia(m, o)[k := row] else OwnedMedia(m, o)
  {}

  lemma OwnedMediaDelete(m: map<Id, Media>, gone: set<Id>, o: Owner)
    ensures OwnedMedia(m - gone, o) == OwnedMedia(m, o) - gone
    ensures (forall k :: k in gone && k in m ==> m[k].ownerId != o) ==> OwnedMedia(m - gone, o) == OwnedMedia(m, o)
  {}

  lemma OwnedMediaAttach(m: map<Id, Media>, rows: set<Id>, op: Option<Id>, draft: Option<Id>, keep: bool, o: Owner)
    ensures OwnedMedia(Attach(m, rows, op, draft, keep), o) == Attach(OwnedMedia(m, o), rows, op, draft, keep)
    ensures (forall k :: k in rows && k in m ==> m[k].ownerId != o) ==>
              OwnedMedia(Attach(m, rows, op, draft, keep), o) == OwnedMedia(m, o)
  {}

  /** The rows a call selects are the caller's, and the same ones with the others' rows deleted. */
  lemma SelectedRows(t: Tables, owner: Owner, id: Id)
    ensures DraftMedia(OwnedMedia(t.media, owner), owner, id) == DraftMedia(t.media, owner, id)
    ensures OwnOperationMedia(OwnedMedia(t.media, owner), owner, id) == OwnOperationMedia(t.media, owner, id)
    ensures SyncedMedia(Only(t, owner), owner) == SyncedMedia(t, owner)
  {}

  lemma OperationRows(t: Tables, owner: Owner, id: Id)
    requires Owned(t) && OwnsOperation(t, owner, id)
    ensures OperationMedia(OwnedMedia(t.media, owner), id) == OperationMedia(t.media, id)
    ensures forall m :: m in OperationMedia(t.media, id) ==> t.media[m].ownerId == owner
  {
    forall m | m in t.media ensures OperationOwned(t.operations, t.media[m]) {}
  }

  /** A call leaves every row of every other user as it was. */
  lemma OthersUntouched(t: Tables, c: Call, other: Owner)
    requires Owned(t) && FreshIds(t, c) && OwnerOf(c) != other && (c.PutDraft? ==> OwnIds(t, c))
    ensures Only(Apply(t, c), other) == Only(t, other)
  {
    match c
    case SaveDraft(who, id, payload, step, now) =>
      if id !in t.drafts || t.drafts[id].ownerId == who.ownerId {
        OwnedDraftsPut(t.drafts, id, Saved(t, who, id, payload, step, now), other);
      }
    case PutDraft(_, id, _, _, _, _) => OwnedDraftsPut(t.drafts, id, Apply(t, c).drafts[id], other);
    case AddMedia(_, _, mediaId, _, _, _, _) => OwnedMediaPut(t.media, mediaId, Apply(t, c).media[mediaId], other);
    case RemoveMedia(_, mediaId) => OwnedMediaDelete(t.media, {mediaId}, other);
    case DiscardDraft(owner, id) =>
      OwnedDraftsDelete(t.drafts, id, other);
      OwnedMediaDelete(t.media, DraftMedia(t.media, owner, id), other);
    case QueueDraft(owner, id, now) => OthersUntouchedByQueue(t, owner, id, now, other);
    case UpdateOperation(owner, id, patch, now) =>
      if OwnsOperation(t, owner, id) {
        OwnedOperationsPut(t.operations, id, Patched(t.operations[id], patch, now), other);
      }
    case DiscardOperation(owner, id) =>
      OwnedOperationsDelete(t.operations, id, other);
      OwnedMediaDelete(t.media, OwnOperationMedia(t.media, owner, id), other);
    case ReopenAsDraft(owner, id, newId, now) => OthersUntouchedByReopen(t, owner, id, newId, now, other);
    case CleanupSyncedMedia(owner) => OwnedMediaDelete(t.media, SyncedMedia(t, owner), other);
    case PurgeOwner(owner) => OthersUntouchedByPurge(t, owner, other);
  }

  lemma OthersUntouchedByPurge(t: Tables, owner: Owner, other: Owner)
    requires owner != other
    ensures Only(Apply(t, PurgeOwner(owner)), other) == Only(t, other)
  {
    var t' := Apply(t, PurgeOwner(owner));
    assert OwnedDrafts(t'.drafts, other) == OwnedDrafts(t.drafts, other);
    assert OwnedOperations(t'.operations, other) == OwnedOperations(t.operations, other);
    assert OwnedMedia(t'.media, other) == OwnedMedia(t.media, other);
  }

  lemma OthersUntouchedByQueue(t: Tables, owner: Owner, id: Id, now: Instant, other: Owner)
    requires Owned(t) && owner != other
    ensures Only(Apply(t, QueueDraft(owner, id, now)), other) == Only(t, other)
  {
    if CanQueue(t, owner, id) {
      var rows := DraftMedia(t.media, owner, id);
      OwnedDraftsDelete(t.drafts, id, other);
      OwnedOperationsPut(t.operations, id, Queued(t.drafts[id], owner, SortedIds(rows), now), other);
      OwnedMediaAttach(t.media, rows, Some(id), None, true, other);
    }
  }

  lemma OthersUntouchedByReopen(t: Tables, owner: Owner, id: Id, newId: Id, now: Instant, other: Owner)
    requires Owned(t) && FreshIds(t, ReopenAsDraft(owner, id, newId, now)) && owner != other
    ensures Only(Apply(t, ReopenAsDraft(owner, id, newId, now)), other) == Only(t, other)
  {
    if CanReopen(t, owner, id) {
      var op := t.operations[id];
      var draft := ReopenId(t, id, newId);
      OperationRows(t, owner, id);
      OwnedDraftsPut(t.drafts, draft, Draft(draft, owner, op.orgId, op.payload, 4, op.createdAt, now), other);
      OwnedOperationsDelete(t.operations, id, other);
      OwnedMediaAttach(t.media, OperationMedia(t.media, id), None, Some(draft), op.state != NEEDS_REVIEW, other);
    }
  }

  /** On the user's own rows a call acts as if nobody else used the device. */
  lemma CallActsAlone(t: Tables, c: Call)
    requires Owned(t) && FreshIds(t, c) && OwnIds(t, c)
    ensures Only(Apply(t, c), OwnerOf(c)) == Apply(Only(t, OwnerOf(c)), c)
  {
    var o := OwnerOf(c);
    match c
    case SaveDraft(who, id, payload, step, now) =>
      OwnedDraftsPut(t.drafts, id, Saved(t, who, id, payload, step, now), o);
    case PutDraft(_, id, _, _, _, _) => OwnedDraftsPut(t.drafts, id, Apply(t, c).drafts[id], o);
    case AddMedia(_, _, mediaId, _, _, _, _) => OwnedMediaPut(t.media, mediaId, Apply(t, c).media[mediaId], o);
    case RemoveMedia(_, mediaId) => OwnedMediaDelete(t.media, {mediaId}, o);
    case DiscardDraft(_, id) =>
      SelectedRows(t, o, id);
      OwnedDraftsDelete(t.drafts, id, o);
      OwnedMediaDelete(t.media, DraftMedia(t.media, o, id), o);
    case QueueDraft(_, id, now) => QueueActsAlone(t, o, id, now);
    case UpdateOperation(_, id, patch, now) =>
      if OwnsOperation(t, o, id) {
        OwnedOperationsPut(t.operations, id, Patched(t.operations[id], patch, now), o);
      }
    case DiscardOperation(_, id) =>
      SelectedRows(t, o, id);
      OwnedOperationsDelete(t.operations, id, o);
      OwnedMediaDelete(t.media, OwnOperationMedia(t.media, o, id), o);
    case ReopenAsDraft(_, id, newId, now) => ReopenActsAlone(t, o, id, newId, now);
    case CleanupSyncedMedia(_) =>
      SelectedRows(t, o, 0);
      OwnedMediaDelete(t.media, SyncedMedia(t, o), o);
    case PurgeOwner(_) => PurgeActsAlone(t, o);
  }

  /** The call acts alone on its owner's rows, and on nobody else's. */
  ghost predicate Isolated(t: Tables, c: Call) {
    && Only(Apply(t, c), OwnerOf(c)) == Apply(Only(t, OwnerOf(c)), c)
    && forall other :: other != OwnerOf(c) ==> Only(Apply(t, c), other) == Only(t, other)
  }

  /** Ids fresh or own is exactly what keeps a call isolated and the ownership standing. */
  lemma OwnIdsIff(t: Tables, c: Call)
    requires Owned(t) && FreshIds(t, c)
    ensures Owned(Apply(t, c)) && Isolated(t, c) <==> OwnIds(t, c)
  {
    CallKeepsOwnedIff(t, c);
    if OwnIds(t, c) {
      CallActsAlone(t, c);
      forall other | other != OwnerOf(c) ensures Only(Apply(t, c), other) == Only(t, other) {
        OthersUntouched(t, c, other);
      }
    } else if c.id in t.drafts && t.drafts[c.id].ownerId != c.who.ownerId {
      ForeignDraftNotIsolated(t, c);
    }
  }

  lemma ForeignDraftNotIsolated(t: Tables, c: Call)
    requires (c.SaveDraft? || c.PutDraft?) && c.id in t.drafts && t.drafts[c.id].ownerId != c.who.ownerId
    ensures !Isolated(t, c)
  {
    if c.SaveDraft? {
      assert c.id !in Only(t, OwnerOf(c)).drafts && c.id in Apply(Only(t, OwnerOf(c)), c).drafts;
    } else {
      var other := t.drafts[c.id].ownerId;
      assert c.id in Only(t, other).drafts && c.id !in Only(Apply(t, c), other).drafts;
    }
  }

  /** A save that nothing interrupts is its read and its write. */
  lemma SaveIsReadThenPut(t: Tables, who: Identity, id: Id, payload: Payload, step: int, now: Instant)
    ensures var createdAt := if id in t.drafts then t.drafts[id].createdAt else now;
            var refused := id in t.drafts && t.drafts[id].ownerId != who.ownerId;
            Apply(t, SaveDraft(who, id, payload, step, now))
            == if refused then t else Apply(t, PutDraft(who, id, payload, step, createdAt, now))
  {
  }

  /** The debounced save: begun on a draft while it may be saved, it lands after the draft was queued and breaks the structure. */
  lemma LateSaveBreaks(t: Tables, who: Identity, id: Id, payload: Payload, step: int, queued: Instant, now: Instant)
    requires Inv(t) && CanQueue(t, who.ownerId, id)
    ensures Obliged(t, SaveDraft(who, id, payload, step, now))
    ensures var late := PutDraft(who, id, payload, step, t.drafts[id].createdAt, now);
            var after := Apply(t, QueueDraft(who.ownerId, id, queued));
            Inv(after) && !Obliged(after, late) && !Inv(Apply(after, late))
  {
    assert id !in t.operations by { assert id in t.drafts.Keys; }
    QueueKeepsInv(t, who.ownerId, id, queued);
    var after := Apply(t, QueueDraft(who.ownerId, id, queued));
    assert id in after.operations;
    PutKeepsInvIff(after, PutDraft(who, id, payload, step, t.drafts[id].createdAt, now));
  }

  lemma PurgeActsAlone(t: Tables, o: Owner)
    ensures Only(Apply(t, PurgeOwner(o)), o) == Apply(Only(t, o), PurgeOwner(o)) == Tables(map[], map[], map[])
  {
    var a, b := Only(Apply(t, PurgeOwner(o)), o), Apply(Only(t, o), PurgeOwner(o));
    assert a.drafts == b.drafts == map[];
    assert a.operations == b.operations == map[];
    assert a.media == b.media == map[];
  }

  lemma QueueActsAlone(t: Tables, o: Owner, id: Id, now: Instant)
    requires Owned(t)
    ensures Only(Apply(t, QueueDraft(o, id, now)), o) == Apply(Only(t, o), QueueDraft(o, id, now))
  {
    if CanQueue(t, o, id) {
      var rows := DraftMedia(t.media, o, id);
      SelectedRows(t, o, id);
      OwnedDraftsDelete(t.drafts, id, o);
      OwnedOperationsPut(t.operations, id, Queued(t.drafts[id], o, SortedIds(rows), now), o);
      OwnedMediaAttach(t.media, rows, Some(id), None, true, o);
    }
  }

  lemma ReopenActsAlone(t: Tables, o: Owner, id: Id, newId: Id, now: Instant)
    requires Owned(t) && FreshIds(t, ReopenAsDraft(o, id, newId, now))
    ensures Only(Apply(t, ReopenAsDraft(o, id, newId, now)), o) == Apply(Only(t, o), ReopenAsDraft(o, id, newId, now))
  {
    if CanReopen(t, o, id) {
      var op := t.operations[id];
      var draft := ReopenId(t, id, newId);
      OperationRows(t, o, id);
      OwnedDraftsPut(t.drafts, draft, Draft(draft, o, op.orgId, op.payload, 4, op.createdAt, now), o);
      OwnedOperationsDelete(t.operations, id, o);
      OwnedMediaAttach(t.media, OperationMedia(t.media, id), None, Some(draft), op.state != NEEDS_REVIEW, o);
    }
  }

  function CallsOf(calls: seq<Call>, owner: Owner): seq<Call> {
    if calls == [] then []
    else (if OwnerOf(calls[0]) == owner then [calls[0]] else []) + CallsOf(calls[1..], owner)
  }

  /** Over any run, misuse included: a user's rows are those of a run in which the others never called and never had rows. */
  lemma {:induction false} Noninterference(t: Tables, calls: seq<Call>, owner: Owner)
    requires Owned(t) && OwnRun(t, calls)
    ensures Only(Run(t, calls), owner) == Run(Only(t, owner), CallsOf(calls, owner))
    decreases |calls|
  {
    if calls != [] {
      var c := calls[0];
      CallKeepsOwned(t, c);
      Noninterference(Apply(t, c), calls[1..], owner);
      if OwnerOf(c) == owner {
        CallActsAlone(t, c);
        assert CallsOf(calls, owner)[1..] == CallsOf(calls[1..], owner);
      } else {
        OthersUntouched(t, c, owner);
        assert CallsOf(calls, owner) == CallsOf(calls[1..], owner);
      }
    }
  }

  /** Without that, isolation fails: saving and queueing under the id of another user's operation replaces it. */
  lemma ForeignIdTakesOver(t: Tables, who: Identity, id: Id, report: ReportPayload, step: int, saved: Instant, queued: Instant)
    requires id in t.operations && t.operations[id].ownerId != who.ownerId && id !in t.drafts
    ensures var calls := [SaveDraft(who, id, Report(report), step, saved), QueueDraft(who.ownerId, id, queued)];
            && !OwnIds(t, calls[0])
            && Only(Run(t, calls), t.operations[id].ownerId) != Only(t, t.operations[id].ownerId)
  {
    var calls := [SaveDraft(who, id, Report(report), step, saved), QueueDraft(who.ownerId, id, queued)];
    var mid := Apply(t, calls[0]);
    var end := Apply(mid, calls[1]);
    assert calls[1..] == [calls[1]] && calls[1..][1..] == [];
    assert Run(t, calls) == Run(mid, calls[1..]) == Run(end, []);
    assert id !in OwnedOperations(end.operations, t.operations[id].ownerId);
    assert id in OwnedOperations(t.operations, t.operations[id].ownerId);
  }

  lemma LookupOwned(t: Tables, owner: Owner, ids: seq<Id>)
    ensures (forall i :: 0 <= i < |ids| ==> OwnsDraft(t, owner, ids[i])) ==>
              Lookup(OwnedDrafts(t.drafts, owner), ids) == Lookup(t.drafts, ids)
    ensures (forall i :: 0 <= i < |ids| ==> OwnsOperation(t, owner, ids[i])) ==>
              Lookup(OwnedOperations(t.operations, owner), ids) == Lookup(t.operations, ids)
    ensures (forall i :: 0 <= i < |ids| ==> ids[i] in t.media && t.media[ids[i]].ownerId == owner) ==>
              Lookup(OwnedMedia(t.media, owner), ids) == Lookup(t.media, ids)
  {}

  /** Lists show the user's own rows only, whatever else is stored. */
  lemma ListsSeeOwnRows(t: Tables, owner: Owner)
    ensures ListDrafts(t, owner) == ListDrafts(Only(t, owner), owner)
    ensures ListOperations(t, owner) == ListOperations(Only(t, owner), owner)
  {
    var u := Only(t, owner);
    assert ReadableDrafts(t, owner) == ReadableDrafts(u, owner);
    LookupOwned(t, owner, SortedIds(ReadableDrafts(t, owner)));
    assert OwnOperations(t, owner) == OwnOperations(u, owner);
    LookupOwned(t, owner, SortedIds(OwnOperations(t, owner)));
  }

  lemma MediaListsSeeOwnRows(t: Tables, owner: Owner, id: Id)
    ensures ListDraftMedia(t, owner, id) == ListDraftMedia(Only(t, owner), owner, id)
    ensures ListOperationMedia(t, owner, id) == ListOperationMedia(Only(t, owner), owner, id)
  {
    SelectedRows(t, owner, id);
    LookupOwned(t, owner, SortedIds(DraftMedia(t.media, owner, id)));
    LookupOwned(t, owner, SortedIds(OwnOperationMedia(t.media, owner, id)));
  }

  /** Every read of a user returns what it would with the others' rows deleted; only the pending count sees them. */
  lemma ReadsSeeOwnRows(t: Tables, owner: Owner, id: Id)
    ensures ListDrafts(t, owner) == ListDrafts(Only(t, owner), owner)
    ensures ListOperations(t, owner) == ListOperations(Only(t, owner), owner)
    ensures ListDraftMedia(t, owner, id) == ListDraftMedia(Only(t, owner), owner, id)
    ensures ListOperationMedia(t, owner, id) == ListOperationMedia(Only(t, owner), owner, id)
    ensures GetDraft(t, owner, id) == GetDraft(Only(t, owner), owner, id)
    ensures GetOperation(t, owner, id) == GetOperation(Only(t, owner), owner, id)
    ensures ReadSnapshot(t, owner).(otherAccountPending := 0) == ReadSnapshot(Only(t, owner), owner)
  {
    var u := Only(t, owner);
    ListsSeeOwnRows(t, owner);
    MediaListsSeeOwnRows(t, owner, id);
    assert OwnMedia(t, owner) == OwnMedia(u, owner);
    LookupOwned(t, owner, SortedIds(OwnMedia(t, owner)));
    assert OthersPending(u, owner) == {};
  }
}
