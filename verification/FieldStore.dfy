/** The offline store with its three tables as fields, one method per exported call of frontend/src/features/field/store.ts. */
module FieldStore {
  import opened Common
  import opened FieldModel
  import opened FieldTables

  class Store {
    var drafts: map<Id, Draft>
    var operations: map<Id, Operation>
    var media: map<Id, Media>

    ghost function State(): Tables
      reads this
    {
      Tables(drafts, operations, media)
    }

    constructor (t: Tables)
      ensures State() == t
    {
      drafts, operations, media := t.drafts, t.operations, t.media;
    }

    /** The first transaction of a save: the creation time to keep, or None where the call throws. */
    method ReadForSave(who: Identity, id: Id, now: Instant) returns (createdAt: Option<Instant>)
      ensures createdAt.None? <==> id in drafts && drafts[id].ownerId != who.ownerId
      ensures createdAt.Some? ==> createdAt.value == if id in drafts then drafts[id].createdAt else now
    {
      if id in drafts && drafts[id].ownerId != who.ownerId {
        return None;
      }
      createdAt := Some(if id in drafts then drafts[id].createdAt else now);
    }

    /** The second, which looks at nothing. */
    method PutDraft(who: Identity, id: Id, payload: Payload, step: int, createdAt: Instant, now: Instant) returns (saved: Draft)
      modifies this`drafts
      ensures State() == Apply(old(State()), Call.PutDraft(who, id, payload, step, createdAt, now))
      ensures Answer(old(State()), Call.PutDraft(who, id, payload, step, createdAt, now)) == SavedDraft(saved)
      ensures drafts == old(drafts)[id := saved]
      ensures saved.id == id && saved.ownerId == who.ownerId && saved.orgId == who.orgId
      ensures saved.payload == payload && saved.step == step && saved.createdAt == createdAt && saved.updatedAt == now
    {
      saved := Draft(id, who.ownerId, who.orgId, payload, step, createdAt, now);
      drafts := drafts[id := saved];
    }

    /** The whole save when nothing comes between. */
    method SaveDraft(who: Identity, id: Id, payload: Payload, step: int, now: Instant) returns (saved: Option<Draft>)
      modifies this`drafts
      ensures State() == Apply(old(State()), Call.SaveDraft(who, id, payload, step, now))
      ensures Answer(old(State()), Call.SaveDraft(who, id, payload, step, now))
              == if saved.Some? then SavedDraft(saved.value) else Refused
      ensures saved.None? <==> id in old(drafts) && old(drafts)[id].ownerId != who.ownerId
      ensures saved.None? ==> drafts == old(drafts)
      ensures saved.Some? ==>
                && drafts == old(drafts)[id := saved.value]
                && saved.value.id == id && saved.value.ownerId == who.ownerId && saved.value.orgId == who.orgId
                && saved.value.payload == payload && saved.value.step == step && saved.value.updatedAt == now
                && saved.value.createdAt == if id in old(drafts) then old(drafts)[id].createdAt else now
    {
      var createdAt := ReadForSave(who, id, now);
      if createdAt.None? {
        return None;
      }
      var row := PutDraft(who, id, payload, step, createdAt.value, now);
      saved := Some(row);
    }

    method AddMedia(who: Identity, draftId: Id, mediaId: Id, blob: Blob, fileName: string, mimeType: string, now: Instant)
      returns (row: Media)
      modifies this`media
      ensures State() == Apply(old(State()), Call.AddMedia(who, draftId, mediaId, blob, fileName, mimeType, now))
      ensures media == old(media)[mediaId := row]
      ensures row.id == mediaId && row.ownerId == who.ownerId && row.draftId == Some(draftId) && row.operationId.None?
      ensures row.blob == blob && row.size == |blob| && row.fileName == fileName && row.mimeType == mimeType
      ensures row.serverMediaId.None? && row.createdAt == now
    {
      row := Media(mediaId, who.ownerId, None, Some(draftId), blob, fileName, mimeType, |blob|, None, now);
      media := media[mediaId := row];
    }

    method RemoveMedia(owner: Owner, mediaId: Id)
      modifies this`media
      ensures State() == Apply(old(State()), Call.RemoveMedia(owner, mediaId))
    {
      if mediaId in media && media[mediaId].ownerId == owner {
        media := media - {mediaId};
      }
    }

    method DeleteRows(ids: seq<Id>)
      modifies this`media
      ensures media == old(media) - Elements(ids)
    {
      for i := 0 to |ids|
        invariant media == old(media) - Elements(ids[..i])
      {
        assert ids[..i + 1] == ids[..i] + [ids[i]];
        media := media - {ids[i]};
      }
      assert ids[..|ids|] == ids;
    }

    /** Put media rows back one by one under another parent. */
    method MoveRows(ids: seq<Id>, op: Option<Id>, draft: Option<Id>, keepServerIds: bool)
      requires forall i :: 0 <= i < |ids| ==> ids[i] in media
      modifies this`media
      ensures media == Attach(old(media), Elements(ids), op, draft, keepServerIds)
    {
      for i := 0 to |ids|
        invariant media.Keys == old(media).Keys
        invariant media == Attach(old(media), Elements(ids[..i]), op, draft, keepServerIds)
      {
        var m := ids[i];
        assert ids[..i + 1] == ids[..i] + [m];
        media := media[m := media[m].(operationId := op, draftId := draft,
                                      serverMediaId := if keepServerIds then media[m].serverMediaId else None)];
      }
      assert ids[..|ids|] == ids;
    }

    method DiscardDraft(owner: Owner, id: Id)
      modifies this
      ensures State() == Apply(old(State()), Call.DiscardDraft(owner, id))
    {
      if id in drafts && drafts[id].ownerId == owner {
        drafts := drafts - {id};
        SortedElements(DraftMedia(media, owner, id));
        DeleteRows(SortedIds(DraftMedia(media, owner, id)));
      }
    }

    /** None where the call throws: the aborted transaction changes nothing. */
    method QueueDraft(owner: Owner, id: Id, now: Instant) returns (queued: Option<Operation>)
      modifies this
      ensures State() == Apply(old(State()), Call.QueueDraft(owner, id, now))
      ensures Answer(old(State()), Call.QueueDraft(owner, id, now))
              == if queued.Some? then QueuedOperation(queued.value) else Refused
    {
      if id !in drafts || drafts[id].ownerId != owner || !drafts[id].payload.Report? {
        return None;
      }
      var draft := drafts[id];
      var ids := SortedIds(DraftMedia(media, owner, id));
      SortedElements(DraftMedia(media, owner, id));
      var op := Operation(draft.id, owner, draft.orgId, QUEUED, Report(draft.payload.report.(mediaLocalIds := ids)), ids,
                          false, 0, None, None, None, draft.createdAt, now);
      operations := operations[op.id := op];
      MoveRows(ids, Some(op.id), None, true);
      drafts := drafts - {id};
      queued := Some(op);
    }

    /** None where no own operation has the id; Err where the transition is not allowed. */
    method UpdateOperation(owner: Owner, id: Id, patch: Patch, now: Instant) returns (r: Result<Option<Operation>>)
      modifies this`operations
      ensures State() == Apply(old(State()), Call.UpdateOperation(owner, id, patch, now))
      ensures Answer(old(State()), Call.UpdateOperation(owner, id, patch, now))
              == if r.Ok? then UpdatedOperation(r.value) else Refused
    {
      if id !in operations || operations[id].ownerId != owner {
        return Ok(None);
      }
      var cur := operations[id];
      if patch.state.Some? && !CanTransition(cur.state, patch.state.value) {
        return Err("Illegal queue transition");
      }
      var next := Patched(cur, patch, now);
      operations := operations[id := next];
      r := Ok(Some(next));
    }

    method DiscardOperation(owner: Owner, id: Id)
      modifies this
      ensures State() == Apply(old(State()), Call.DiscardOperation(owner, id))
    {
      if id in operations && operations[id].ownerId == owner && operations[id].state != SYNCED {
        operations := operations - {id};
        SortedElements(OwnOperationMedia(media, owner, id));
        DeleteRows(SortedIds(OwnOperationMedia(media, owner, id)));
      }
    }

    method ReopenAsDraft(owner: Owner, id: Id, newId: Id, now: Instant) returns (draft: Option<Id>)
      modifies this
      ensures State() == Apply(old(State()), Call.ReopenAsDraft(owner, id, newId, now))
      ensures Answer(old(State()), Call.ReopenAsDraft(owner, id, newId, now)) == ReopenedDraft(draft)
    {
      if id !in operations || operations[id].ownerId != owner || operations[id].state == SYNCED
         || !operations[id].payload.Report? {
        return None;
      }
      var op := operations[id];
      var d := if op.state == NEEDS_REVIEW then newId else op.id;
      var ids := SortedIds(OperationMedia(media, id));
      SortedElements(OperationMedia(media, id));
      drafts := drafts[d := Draft(d, owner, op.orgId, op.payload, 4, op.createdAt, now)];
      MoveRows(ids, None, Some(d), op.state != NEEDS_REVIEW);
      operations := operations - {id};
      draft := Some(d);
    }

    /** The clean-up loop over the rows of the owner's index scan. */
    method CleanupRows(owner: Owner, rows: seq<Media>) returns (removed: nat, bytes: nat)
      modifies this`media
      ensures media == AfterClean(operations, owner, old(media), rows)
      ensures (removed, bytes) == Freed(operations, owner, rows)
    {
      removed, bytes := 0, 0;
      for i := 0 to |rows|
        invariant AfterClean(operations, owner, old(media), rows) == AfterClean(operations, owner, media, rows[i..])
        invariant Freed(operations, owner, rows)
               == (removed + Freed(operations, owner, rows[i..]).0, bytes + Freed(operations, owner, rows[i..]).1)
      {
        var m := rows[i];
        assert rows[i..][0] == m && rows[i..][1..] == rows[i + 1..];
        if InSynced(operations, owner, m) {
          bytes := bytes + m.size;
          removed := removed + 1;
          media := media - {m.id};
        }
      }
    }

    method CleanupSyncedMedia(owner: Owner) returns (removed: nat, bytes: nat)
      requires Keyed(media)
      modifies this`media
      ensures State() == Apply(old(State()), Call.CleanupSyncedMedia(owner))
      ensures removed == |old(media)| - |media| && bytes == Bytes(old(media)) - Bytes(media)
      ensures Answer(old(State()), Call.CleanupSyncedMedia(owner)) == CleanedMedia(removed, bytes)
    {
      var t := Tables(drafts, operations, media);
      CleanupFrees(t, owner);
      removed, bytes := CleanupRows(owner, Lookup(media, SortedIds(OwnMedia(t, owner))));
    }

    method DeleteDrafts(ids: seq<Id>)
      modifies this`drafts
      ensures drafts == old(drafts) - Elements(ids)
    {
      for i := 0 to |ids|
        invariant drafts == old(drafts) - Elements(ids[..i])
      {
        assert ids[..i + 1] == ids[..i] + [ids[i]];
        drafts := drafts - {ids[i]};
      }
      assert ids[..|ids|] == ids;
    }

    method DeleteOperations(ids: seq<Id>)
      modifies this`operations
      ensures operations == old(operations) - Elements(ids)
    {
      for i := 0 to |ids|
        invariant operations == old(operations) - Elements(ids[..i])
      {
        assert ids[..i + 1] == ids[..i] + [ids[i]];
        operations := operations - {ids[i]};
      }
      assert ids[..|ids|] == ids;
    }

    method PurgeOwner(owner: Owner)
      modifies this
      ensures State() == Apply(old(State()), Call.PurgeOwner(owner))
    {
      var t := Tables(drafts, operations, media);
      SortedElements(OwnDrafts(t, owner));
      SortedElements(OwnOperations(t, owner));
      SortedElements(OwnMedia(t, owner));
      DeleteDrafts(SortedIds(OwnDrafts(t, owner)));
      DeleteOperations(SortedIds(OwnOperations(t, owner)));
      DeleteRows(SortedIds(OwnMedia(t, owner)));
      PurgeIsDeletion(t, owner);
    }
  }

  predicate InSynced(operations: map<Id, Operation>, owner: Owner, m: Media) {
    && m.operationId.Some? && m.operationId.value in operations
    && operations[m.operationId.value].ownerId == owner && operations[m.operationId.value].state == SYNCED
  }

  ghost function AfterClean(operations: map<Id, Operation>, owner: Owner, media: map<Id, Media>, rows: seq<Media>): map<Id, Media>
    decreases |rows|
  {
    if rows == [] then media
    else AfterClean(operations, owner, if InSynced(operations, owner, rows[0]) then media - {rows[0].id} else media, rows[1..])
  }

  /** Rows and bytes the clean-up counts. */
  ghost function Freed(operations: map<Id, Operation>, owner: Owner, rows: seq<Media>): (nat, nat) {
    if rows == [] then (0, 0)
    else
      var rest := Freed(operations, owner, rows[1..]);
      if InSynced(operations, owner, rows[0]) then (rest.0 + 1, rest.1 + rows[0].size) else rest
  }

  /** The key of a row is its id. */
  predicate Keyed(media: map<Id, Media>) {
    forall m :: m in media ==> media[m].id == m
  }

  /** Rows of one index scan: distinct, and as the table holds them. */
  ghost predicate Scan(media: map<Id, Media>, rows: seq<Media>) {
    && (forall i :: 0 <= i < |rows| ==> rows[i].id in media && media[rows[i].id] == rows[i])
    && (forall i, j :: 0 <= i < j < |rows| ==> rows[i].id != rows[j].id)
  }

  /** The ids of those rows whose operation is synced. */
  ghost function CleanIds(operations: map<Id, Operation>, owner: Owner, rows: seq<Media>): set<Id> {
    set i | 0 <= i < |rows| && InSynced(operations, owner, rows[i]) :: rows[i].id
  }

  lemma CleanIdsCons(operations: map<Id, Operation>, owner: Owner, rows: seq<Media>)
    requires rows != []
    ensures var rest := CleanIds(operations, owner, rows[1..]);
            CleanIds(operations, owner, rows) == if InSynced(operations, owner, rows[0]) then rest + {rows[0].id} else rest
  {
    var rest := rows[1..];
    forall m | m in CleanIds(operations, owner, rows)
      ensures m in CleanIds(operations, owner, rest) || (m == rows[0].id && InSynced(operations, owner, rows[0]))
    {
      var i :| 0 <= i < |rows| && InSynced(operations, owner, rows[i]) && rows[i].id == m;
      assert i > 0 ==> rest[i - 1] == rows[i];
    }
    forall m | m in CleanIds(operations, owner, rest) ensures m in CleanIds(operations, owner, rows) {
      var i :| 0 <= i < |rest| && InSynced(operations, owner, rest[i]) && rest[i].id == m;
      assert rows[i + 1] == rest[i];
    }
  }

  /** Counted are exactly the rows and bytes the clean-up makes disappear. */
  lemma {:induction false} FreedCounts(operations: map<Id, Operation>, owner: Owner, media: map<Id, Media>, rows: seq<Media>)
    requires Scan(media, rows)
    ensures |media| - |AfterClean(operations, owner, media, rows)| == Freed(operations, owner, rows).0
    ensures Bytes(media) - Bytes(AfterClean(operations, owner, media, rows)) == Freed(operations, owner, rows).1
    decreases |rows|
  {
    if rows != [] {
      var m := rows[0];
      if InSynced(operations, owner, m) {
        RemoveOne(media, m.id);
        FreedCounts(operations, owner, media - {m.id}, rows[1..]);
      } else {
        FreedCounts(operations, owner, media, rows[1..]);
      }
    }
  }

  lemma {:induction false} CleanIsRemoval(operations: map<Id, Operation>, owner: Owner, rows: seq<Media>, left: map<Id, Media>)
    ensures AfterClean(operations, owner, left, rows) == left - CleanIds(operations, owner, rows)
    decreases |rows|
  {
    if rows != [] {
      var left' := if InSynced(operations, owner, rows[0]) then left - {rows[0].id} else left;
      CleanIdsCons(operations, owner, rows);
      CleanIsRemoval(operations, owner, rows[1..], left');
      assert left' - CleanIds(operations, owner, rows[1..]) == left - CleanIds(operations, owner, rows);
    }
  }

  lemma CleanIdsAreSynced(t: Tables, owner: Owner)
    requires Keyed(t.media)
    ensures var rows := Lookup(t.media, SortedIds(OwnMedia(t, owner)));
            Scan(t.media, rows) && CleanIds(t.operations, owner, rows) == SyncedMedia(t, owner)
  {
    SortedElements(OwnMedia(t, owner));
    CleanIdsOf(t, owner, SortedIds(OwnMedia(t, owner)));
  }

  lemma CleanIdsOf(t: Tables, owner: Owner, ids: seq<Id>)
    requires Keyed(t.media) && Distinct(ids) && Elements(ids) == OwnMedia(t, owner)
    requires forall i :: 0 <= i < |ids| ==> ids[i] in t.media
    ensures var rows := Lookup(t.media, ids);
            Scan(t.media, rows) && CleanIds(t.operations, owner, rows) == SyncedMedia(t, owner)
  {
    var rows := Lookup(t.media, ids);
    forall m | m in SyncedMedia(t, owner) ensures m in CleanIds(t.operations, owner, rows) {
      assert m in Elements(ids);
      var i :| 0 <= i < |ids| && ids[i] == m;
      assert rows[i].id == m && InSynced(t.operations, owner, rows[i]);
    }
    forall i | 0 <= i < |rows| && InSynced(t.operations, owner, rows[i]) ensures rows[i].id in SyncedMedia(t, owner) {
      assert ids[i] in Elements(ids);
    }
  }

  /** The whole clean-up deletes exactly the photos of the owner's synced operations and counts them exactly. */
  lemma CleanupFrees(t: Tables, owner: Owner)
    requires Keyed(t.media)
    ensures var rows := Lookup(t.media, SortedIds(OwnMedia(t, owner)));
            var left := t.media - SyncedMedia(t, owner);
            && AfterClean(t.operations, owner, t.media, rows) == left
            && Freed(t.operations, owner, rows) == (|t.media| - |left|, Bytes(t.media) - Bytes(left))
  {
    var rows := Lookup(t.media, SortedIds(OwnMedia(t, owner)));
    CleanIdsAreSynced(t, owner);
    CleanIsRemoval(t.operations, owner, rows, t.media);
    FreedCounts(t.operations, owner, t.media, rows);
  }

  lemma PurgeIsDeletion(t: Tables, owner: Owner)
    ensures Apply(t, Call.PurgeOwner(owner))
            == Tables(t.drafts - OwnDrafts(t, owner), t.operations - OwnOperations(t, owner), t.media - OwnMedia(t, owner))
  {
    var p := Apply(t, Call.PurgeOwner(owner));
    assert p.drafts == t.drafts - OwnDrafts(t, owner);
    assert p.operations == t.operations - OwnOperations(t, owner);
    assert p.media == t.media - OwnMedia(t, owner);
  }
}
