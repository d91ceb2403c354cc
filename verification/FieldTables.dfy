/**
 The offline field store on values: three keyed tables and what each exported call of
 frontend/src/features/field/store.ts does to them. FieldStore.dfy holds the class that updates
 its tables in place; FieldRuns.dfy what any sequence of calls keeps.
 */
module FieldTables {
  import opened Common
  import opened FieldModel
  import opened StableSort

  type Owner = string
  type Blob = seq<bv8>

  datatype Identity = Identity(ownerId: Owner, orgId: string)

  datatype Draft = Draft(
    id: Id, ownerId: Owner, orgId: string, payload: Payload, step: int, createdAt: Instant, updatedAt: Instant)

  datatype OpState =
    | QUEUED | UPLOADING_MEDIA | SUBMITTING | SYNCED | RETRY_WAIT | NEEDS_LOGIN | NEEDS_REVIEW | FAILED_WITH_REASON

  datatype Operation = Operation(
    id: Id, ownerId: Owner, orgId: string, state: OpState, payload: Payload, localMediaIds: seq<Id>, textOnly: bool,
    attempts: nat, nextAttemptAt: Option<Instant>, lastError: Option<string>, serverResult: Option<string>,
    createdAt: Instant, updatedAt: Instant)

  datatype Media = Media(
    id: Id, ownerId: Owner, operationId: Option<Id>, draftId: Option<Id>, blob: Blob, fileName: string, mimeType: string,
    size: nat, serverMediaId: Option<string>, createdAt: Instant)

  datatype Tables = Tables(drafts: map<Id, Draft>, operations: map<Id, Operation>, media: map<Id, Media>)

  /** Every field of an operation a caller may patch; id and owner are not among them. */
  datatype Patch = Patch(
    state: Option<OpState>, orgId: Option<string>, payload: Option<Payload>, localMediaIds: Option<seq<Id>>,
    textOnly: Option<bool>, attempts: Option<nat>, nextAttemptAt: Option<Option<Instant>>,
    lastError: Option<Option<string>>, serverResult: Option<Option<string>>, createdAt: Option<Instant>)

  /**
   The calls that change the store. The ids randomUUID() yields are arguments. SaveDraft is a save whose read
   and write nothing comes between; PutDraft is the write alone, of a save that read the store some calls ago.
   */
  datatype Call =
    | SaveDraft(who: Identity, id: Id, payload: Payload, step: int, now: Instant)
    | PutDraft(who: Identity, id: Id, payload: Payload, step: int, createdAt: Instant, now: Instant)
    | AddMedia(who: Identity, draftId: Id, mediaId: Id, blob: Blob, fileName: string, mimeType: string, now: Instant)
    | RemoveMedia(owner: Owner, mediaId: Id)
    | DiscardDraft(owner: Owner, id: Id)
    | QueueDraft(owner: Owner, id: Id, now: Instant)
    | UpdateOperation(owner: Owner, id: Id, patch: Patch, now: Instant)
    | DiscardOperation(owner: Owner, id: Id)
    | ReopenAsDraft(owner: Owner, id: Id, newId: Id, now: Instant)
    | CleanupSyncedMedia(owner: Owner)
    | PurgeOwner(owner: Owner)

  datatype Outcome =
    | Done
    | Refused
    | SavedDraft(draft: Draft)
    | AddedMedia(media: Media)
    | QueuedOperation(operation: Operation)
    | UpdatedOperation(updated: Option<Operation>)
    | ReopenedDraft(newDraft: Option<Id>)
    | CleanedMedia(removed: int, bytes: int)

  function OwnerOf(c: Call): Owner {
    match c
    case SaveDraft(who, _, _, _, _) => who.ownerId
    case PutDraft(who, _, _, _, _, _) => who.ownerId
    case AddMedia(who, _, _, _, _, _, _) => who.ownerId
    case RemoveMedia(o, _) => o
    case DiscardDraft(o, _) => o
    case QueueDraft(o, _, _) => o
    case UpdateOperation(o, _, _, _) => o
    case DiscardOperation(o, _) => o
    case ReopenAsDraft(o, _, _, _) => o
    case CleanupSyncedMedia(o) => o
    case PurgeOwner(o) => o
  }

  // ---- the operation lifecycle ----

  function Allowed(from: OpState): set<OpState> {
    match from
    case QUEUED => {UPLOADING_MEDIA, SUBMITTING, NEEDS_LOGIN, FAILED_WITH_REASON}
    case UPLOADING_MEDIA => {SUBMITTING, RETRY_WAIT, NEEDS_LOGIN, FAILED_WITH_REASON, QUEUED}
    case SUBMITTING => {SYNCED, RETRY_WAIT, NEEDS_LOGIN, NEEDS_REVIEW, FAILED_WITH_REASON, QUEUED}
    case RETRY_WAIT => {QUEUED, UPLOADING_MEDIA, SUBMITTING, NEEDS_LOGIN, FAILED_WITH_REASON}
    case NEEDS_LOGIN => {QUEUED, FAILED_WITH_REASON}
    case NEEDS_REVIEW => {QUEUED, FAILED_WITH_REASON}
    case FAILED_WITH_REASON => {QUEUED}
    case SYNCED => {}
  }

  predicate CanTransition(from: OpState, to: OpState) {
    from == to || to in Allowed(from)
  }

  // ---- tables ----

  predicate OwnsDraft(t: Tables, owner: Owner, id: Id) {
    id in t.drafts && t.drafts[id].ownerId == owner
  }

  predicate OwnsOperation(t: Tables, owner: Owner, id: Id) {
    id in t.operations && t.operations[id].ownerId == owner
  }

  function DraftMedia(media: map<Id, Media>, owner: Owner, draft: Id): set<Id> {
    set m | m in media && media[m].draftId == Some(draft) && media[m].ownerId == owner
  }

  function OwnOperationMedia(media: map<Id, Media>, owner: Owner, op: Id): set<Id> {
    set m | m in media && media[m].operationId == Some(op) && media[m].ownerId == owner
  }

  /** Every row indexed under the operation, whoever owns it. */
  function OperationMedia(media: map<Id, Media>, op: Id): set<Id> {
    set m | m in media && media[m].operationId == Some(op)
  }

  function SyncedMedia(t: Tables, owner: Owner): set<Id> {
    set m | m in t.media && t.media[m].ownerId == owner && t.media[m].operationId.Some?
            && OwnsOperation(t, owner, t.media[m].operationId.value)
            && t.operations[t.media[m].operationId.value].state == SYNCED
  }

  /** Rows moved to another parent; the evidence itself is carried over. */
  function Attach(media: map<Id, Media>, rows: set<Id>, op: Option<Id>, draft: Option<Id>, keepServerIds: bool): map<Id, Media> {
    map m | m in media ::
      if m in rows then
        media[m].(operationId := op, draftId := draft, serverMediaId := if keepServerIds then media[m].serverMediaId else None)
      else media[m]
  }

  /** Total size of the rows. */
  ghost function Bytes(media: map<Id, Media>): nat {
    SumValues(Sizes(media))
  }

  function Sizes(media: map<Id, Media>): map<Id, nat> {
    map m | m in media :: media[m].size
  }

  lemma RemoveOne(media: map<Id, Media>, m: Id)
    requires m in media
    ensures |media| == |media - {m}| + 1
    ensures Bytes(media) == Bytes(media - {m}) + media[m].size
  {
    SumValuesRemove(Sizes(media), m);
    assert Sizes(media - {m}) == Sizes(media) - {m};
    assert media.Keys == (media - {m}).Keys + {m};
  }

  // ---- the calls ----

  function Saved(t: Tables, who: Identity, id: Id, payload: Payload, step: int, now: Instant): Draft {
    Draft(id, who.ownerId, who.orgId, payload, step, if id in t.drafts then t.drafts[id].createdAt else now, now)
  }

  function Queued(draft: Draft, owner: Owner, media: seq<Id>, now: Instant): Operation
    requires draft.payload.Report?
  {
    Operation(draft.id, owner, draft.orgId, QUEUED, Report(draft.payload.report.(mediaLocalIds := media)), media, false,
              0, None, None, None, draft.createdAt, now)
  }

  predicate CanQueue(t: Tables, owner: Owner, id: Id) {
    OwnsDraft(t, owner, id) && t.drafts[id].payload.Report?
  }

  predicate CanReopen(t: Tables, owner: Owner, id: Id) {
    OwnsOperation(t, owner, id) && t.operations[id].state != SYNCED && t.operations[id].payload.Report?
  }

  function Or<T>(o: Option<T>, current: T): T {
    if o.Some? then o.value else current
  }

  function Patched(op: Operation, p: Patch, now: Instant): Operation {
    Operation(op.id, op.ownerId, Or(p.orgId, op.orgId), Or(p.state, op.state), Or(p.payload, op.payload),
              Or(p.localMediaIds, op.localMediaIds), Or(p.textOnly, op.textOnly), Or(p.attempts, op.attempts),
              Or(p.nextAttemptAt, op.nextAttemptAt), Or(p.lastError, op.lastError), Or(p.serverResult, op.serverResult),
              Or(p.createdAt, op.createdAt), now)
  }

  function ReopenId(t: Tables, id: Id, newId: Id): Id
    requires id in t.operations
  {
    if t.operations[id].state == NEEDS_REVIEW then newId else t.operations[id].id
  }

  function Apply(t: Tables, c: Call): Tables {
    match c
    case SaveDraft(who, id, payload, step, now) =>
      if id in t.drafts && t.drafts[id].ownerId != who.ownerId then t
      else t.(drafts := t.drafts[id := Saved(t, who, id, payload, step, now)])
    case PutDraft(who, id, payload, step, createdAt, now) =>
      t.(drafts := t.drafts[id := Draft(id, who.ownerId, who.orgId, payload, step, createdAt, now)])
    case AddMedia(who, draftId, mediaId, blob, fileName, mimeType, now) =>
      t.(media := t.media[mediaId := Media(mediaId, who.ownerId, None, Some(draftId), blob, fileName, mimeType, |blob|, None, now)])
    case RemoveMedia(owner, mediaId) =>
      if mediaId in t.media && t.media[mediaId].ownerId == owner then t.(media := t.media - {mediaId}) else t
    case DiscardDraft(owner, id) =>
      if OwnsDraft(t, owner, id)
      then t.(drafts := t.drafts - {id}, media := t.media - DraftMedia(t.media, owner, id)) else t
    case QueueDraft(owner, id, now) =>
      if !CanQueue(t, owner, id) then t
      else
        var rows := DraftMedia(t.media, owner, id);
        var op := Queued(t.drafts[id], owner, SortedIds(rows), now);
        Tables(t.drafts - {id}, t.operations[op.id := op], Attach(t.media, rows, Some(op.id), None, true))
    case UpdateOperation(owner, id, patch, now) =>
      if !OwnsOperation(t, owner, id) then t
      else if patch.state.Some? && !CanTransition(t.operations[id].state, patch.state.value) then t
      else t.(operations := t.operations[id := Patched(t.operations[id], patch, now)])
    case DiscardOperation(owner, id) =>
      if OwnsOperation(t, owner, id) && t.operations[id].state != SYNCED
      then t.(operations := t.operations - {id}, media := t.media - OwnOperationMedia(t.media, owner, id)) else t
    case ReopenAsDraft(owner, id, newId, now) =>
      if !CanReopen(t, owner, id) then t
      else
        var op := t.operations[id];
        var draft := ReopenId(t, id, newId);
        Tables(t.drafts[draft := Draft(draft, owner, op.orgId, op.payload, 4, op.createdAt, now)],
               t.operations - {id},
               Attach(t.media, OperationMedia(t.media, id), None, Some(draft), op.state != NEEDS_REVIEW))
    case CleanupSyncedMedia(owner) => t.(media := t.media - SyncedMedia(t, owner))
    case PurgeOwner(owner) =>
      Tables(map k | k in t.drafts && t.drafts[k].ownerId != owner :: t.drafts[k],
             map k | k in t.operations && t.operations[k].ownerId != owner :: t.operations[k],
             map k | k in t.media && t.media[k].ownerId != owner :: t.media[k])
  }

  /** What the caller gets back; Refused where the call throws. */
  ghost function Answer(t: Tables, c: Call): Outcome {
    match c
    case SaveDraft(who, id, payload, step, now) =>
      if id in t.drafts && t.drafts[id].ownerId != who.ownerId then Refused
      else SavedDraft(Saved(t, who, id, payload, step, now))
    case PutDraft(who, id, payload, step, createdAt, now) =>
      SavedDraft(Draft(id, who.ownerId, who.orgId, payload, step, createdAt, now))
    case AddMedia(_, _, mediaId, _, _, _, _) => AddedMedia(Apply(t, c).media[mediaId])
    case QueueDraft(owner, id, now) =>
      if !CanQueue(t, owner, id) then Refused
      else QueuedOperation(Queued(t.drafts[id], owner, SortedIds(DraftMedia(t.media, owner, id)), now))
    case UpdateOperation(owner, id, patch, now) =>
      if !OwnsOperation(t, owner, id) then UpdatedOperation(None)
      else if patch.state.Some? && !CanTransition(t.operations[id].state, patch.state.value) then Refused
      else UpdatedOperation(Some(Patched(t.operations[id], patch, now)))
    case ReopenAsDraft(owner, id, newId, _) =>
      ReopenedDraft(if CanReopen(t, owner, id) then Some(ReopenId(t, id, newId)) else None)
    case CleanupSyncedMedia(owner) =>
      CleanedMedia(|t.media| - |Apply(t, c).media|, Bytes(t.media) - Bytes(Apply(t, c).media))
    case _ => Done
  }

  // ---- reads ----

  function OwnDrafts(t: Tables, owner: Owner): set<Id> {
    set k | k in t.drafts && t.drafts[k].ownerId == owner
  }

  function OwnOperations(t: Tables, owner: Owner): set<Id> {
    set k | k in t.operations && t.operations[k].ownerId == owner
  }

  function OwnMedia(t: Tables, owner: Owner): set<Id> {
    set k | k in t.media && t.media[k].ownerId == owner
  }

  function Lookup<T>(m: map<Id, T>, ids: seq<Id>): seq<T>
    requires forall i :: 0 <= i < |ids| ==> ids[i] in m
  {
    seq(|ids|, i requires 0 <= i < |ids| => m[ids[i]])
  }

  function ReadableDrafts(t: Tables, owner: Owner): set<Id> {
    set k | k in t.drafts && t.drafts[k].ownerId == owner && t.drafts[k].payload.Report?
  }

  function SavedAt(d: Draft): Instant {
    d.updatedAt
  }

  function StartedAt(o: Operation): Instant {
    o.createdAt
  }

  function ListDrafts(t: Tables, owner: Owner): seq<Draft> {
    SortDesc(Lookup(t.drafts, SortedIds(ReadableDrafts(t, owner))), SavedAt)
  }

  function ListOperations(t: Tables, owner: Owner): seq<Operation> {
    SortDesc(Lookup(t.operations, SortedIds(OwnOperations(t, owner))), StartedAt)
  }

  function ListDraftMedia(t: Tables, owner: Owner, draft: Id): seq<Media> {
    Lookup(t.media, SortedIds(DraftMedia(t.media, owner, draft)))
  }

  function ListOperationMedia(t: Tables, owner: Owner, op: Id): seq<Media> {
    Lookup(t.media, SortedIds(OwnOperationMedia(t.media, owner, op)))
  }

  function GetDraft(t: Tables, owner: Owner, id: Id): Option<Draft> {
    if CanQueue(t, owner, id) then Some(t.drafts[id]) else None
  }

  function GetOperation(t: Tables, owner: Owner, id: Id): Option<Operation> {
    if OwnsOperation(t, owner, id) then Some(t.operations[id]) else None
  }

  datatype Snapshot = Snapshot(
    drafts: seq<Draft>, operations: seq<Operation>, media: seq<Media>, otherAccountPending: nat)

  function OthersPending(t: Tables, owner: Owner): set<Id> {
    set k | k in t.operations && t.operations[k].ownerId != owner && t.operations[k].state != SYNCED
  }

  function ReadSnapshot(t: Tables, owner: Owner): Snapshot {
    Snapshot(ListDrafts(t, owner), ListOperations(t, owner), Lookup(t.media, SortedIds(OwnMedia(t, owner))),
             |OthersPending(t, owner)|)
  }
}
