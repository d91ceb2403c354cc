/**
 Evidence and identity in the offline store: where a photo can go, what queueing and reopening
 carry over, and why every retry of a report is sent under the same operation id.
 */
module FieldEvidence {
  import opened Common
  import opened FieldModel
  import opened FieldTables
  import opened StableSort
  import opened FieldRuns
  import opened FieldStore

  // ---- no evidence is lost ----

  /** The captured photo itself, apart from where it hangs and whether it was uploaded. */
  predicate SameEvidence(a: Media, b: Media) {
    a.id == b.id && a.ownerId == b.ownerId && a.blob == b.blob && a.fileName == b.fileName
    && a.mimeType == b.mimeType && a.size == b.size && a.createdAt == b.createdAt
  }

  /** The calls entitled to delete this photo in this state. */
  predicate MayDelete(t: Tables, c: Call, m: Media) {
    OwnerOf(c) == m.ownerId &&
    match c
    case RemoveMedia(_, mediaId) => mediaId == m.id
    case DiscardDraft(_, id) => m.draftId == Some(id)
    case DiscardOperation(_, id) => m.operationId == Some(id) && id in t.operations && t.operations[id].state != SYNCED
    case CleanupSyncedMedia(_) =>
      m.operationId.Some? && m.operationId.value in t.operations && t.operations[m.operationId.value].state == SYNCED
    case PurgeOwner(_) => true
    case _ => false
  }

  /** One call either keeps a photo's evidence or was entitled to delete it. */
  lemma EvidenceStep(t: Tables, c: Call, m: Id)
    requires Keyed(t.media) && FreshIds(t, c) && m in t.media
    ensures m in Apply(t, c).media ==> SameEvidence(Apply(t, c).media[m], t.media[m])
    ensures m !in Apply(t, c).media ==> MayDelete(t, c, t.media[m])
  {
    if c.QueueDraft? || c.ReopenAsDraft? {
      MovesKeepEvidence(t, c);
    } else if c.AddMedia? {
      assert m != c.mediaId;
    }
  }

  /** New ids are fresh when they are used; nothing else is asked of the callers. */
  ghost predicate FreshRun(t: Tables, calls: seq<Call>)
    decreases |calls|
  {
    calls != [] ==> FreshIds(t, calls[0]) && FreshRun(Apply(t, calls[0]), calls[1..])
  }

  lemma CallKeepsKeyed(t: Tables, c: Call)
    requires Keyed(t.media)
    ensures Keyed(Apply(t, c).media)
  {}

  /** Over any run: a photo is still there, unaltered, or some call along the way was entitled to delete it. */
  lemma {:induction false} EvidenceKept(t: Tables, calls: seq<Call>, m: Id) returns (i: nat)
    requires Keyed(t.media) && FreshRun(t, calls) && m in t.media
    ensures i <= |calls|
    ensures i == |calls| ==> m in Run(t, calls).media && SameEvidence(Run(t, calls).media[m], t.media[m])
    ensures i < |calls| ==>
              var before := Run(t, calls[..i]);
              && m in before.media && SameEvidence(before.media[m], t.media[m])
              && MayDelete(before, calls[i], before.media[m])
              && m !in Apply(before, calls[i]).media
    decreases |calls|
  {
    i := 0;
    if calls != [] {
      EvidenceStep(t, calls[0], m);
      if m in Apply(t, calls[0]).media {
        CallKeepsKeyed(t, calls[0]);
        var k := EvidenceKept(Apply(t, calls[0]), calls[1..], m);
        i := k + 1;
        if i < |calls| {
          assert calls[..i][1..] == calls[1..][..k] && calls[..i][0] == calls[0];
          assert calls[1..][k] == calls[i];
        }
      } else {
        assert calls[..0] == [];
      }
    }
  }

  /** Queueing and reopening delete nothing. */
  lemma MovesKeepEvidence(t: Tables, c: Call)
    requires c.QueueDraft? || c.ReopenAsDraft?
    ensures Apply(t, c).media.Keys == t.media.Keys
    ensures forall m :: m in t.media ==> SameEvidence(Apply(t, c).media[m], t.media[m])
  {
    var media := Apply(t, c).media;
    if media != t.media {
      if c.QueueDraft? {
        AttachKeeps(t.media, DraftMedia(t.media, c.owner, c.id), Some(c.id), None, true);
      } else {
        var draft := ReopenId(t, c.id, c.newId);
        AttachKeeps(t.media, OperationMedia(t.media, c.id), None, Some(draft), t.operations[c.id].state != NEEDS_REVIEW);
      }
    }
  }

  lemma AttachKeeps(media: map<Id, Media>, rows: set<Id>, op: Option<Id>, draft: Option<Id>, keep: bool)
    ensures var media' := Attach(media, rows, op, draft, keep);
            media'.Keys == media.Keys && forall m :: m in media ==> SameEvidence(media'[m], media[m])
  {}

  // ---- reopen, then queue ----

  /** The photos now on the draft are those that were on the operation, with the given server ids. */
  predicate CarriedOver(before: map<Id, Media>, op: Id, after: map<Id, Media>, op': Id, keepServerIds: bool) {
    && OperationMedia(after, op') == OperationMedia(before, op)
    && forall m :: m in OperationMedia(before, op) ==>
         && SameEvidence(after[m], before[m])
         && after[m].serverMediaId == if keepServerIds then before[m].serverMediaId else None
  }

  function ReopenAndQueue(t: Tables, owner: Owner, id: Id, newId: Id, reopened: Instant, queued: Instant): Tables
    requires CanReopen(t, owner, id)
  {
    Apply(Apply(t, ReopenAsDraft(owner, id, newId, reopened)), QueueDraft(owner, ReopenId(t, id, newId), queued))
  }

  /** Rows of the reopened draft are exactly the operation's rows. */
  lemma ReopenedRows(t: Tables, owner: Owner, id: Id, newId: Id, now: Instant)
    requires Inv(t) && CanReopen(t, owner, id) && FreshIds(t, ReopenAsDraft(owner, id, newId, now))
    ensures var draft := ReopenId(t, id, newId);
            DraftMedia(Apply(t, ReopenAsDraft(owner, id, newId, now)).media, owner, draft) == OperationMedia(t.media, id)
  {
    forall m | m in t.media ensures MediaOk(t, t.media[m]) {}
  }

  lemma PhotosCarriedOver(t: Tables, owner: Owner, id: Id, newId: Id, reopened: Instant, queued: Instant)
    requires Inv(t) && CanReopen(t, owner, id) && FreshIds(t, ReopenAsDraft(owner, id, newId, reopened))
    ensures CarriedOver(t.media, id, ReopenAndQueue(t, owner, id, newId, reopened, queued).media, ReopenId(t, id, newId),
                        t.operations[id].state != NEEDS_REVIEW)
  {
    var draft := ReopenId(t, id, newId);
    var mid := Apply(t, ReopenAsDraft(owner, id, newId, reopened));
    ReopenedRows(t, owner, id, newId, reopened);
    assert CanQueue(mid, owner, draft);
    var t' := Apply(mid, QueueDraft(owner, draft, queued));
    forall m | m in OperationMedia(t'.media, draft) ensures m in OperationMedia(t.media, id) {
      assert MediaOk(t, t.media[m]);
    }
  }

  /** Reopening an operation and queueing it again restores it; after NEEDS_REVIEW under a new id and with uploads forgotten. */
  lemma ReopenThenQueue(t: Tables, owner: Owner, id: Id, newId: Id, reopened: Instant, queued: Instant)
    requires Inv(t) && CanReopen(t, owner, id) && FreshIds(t, ReopenAsDraft(owner, id, newId, reopened))
    ensures var t' := ReopenAndQueue(t, owner, id, newId, reopened, queued);
            var op := t.operations[id];
            var same := op.state != NEEDS_REVIEW;
            var id' := if same then id else newId;
            && id' in t'.operations && (!same ==> id !in t'.operations) && id' !in t'.drafts
            && var op' := t'.operations[id'];
            && op'.id == id' && op'.ownerId == owner && op'.orgId == op.orgId && op'.createdAt == op.createdAt
            && op'.state == QUEUED && op'.attempts == 0 && op'.lastError.None?
            && Elements(op'.localMediaIds) == OperationMedia(t.media, id)
            && CarriedOver(t.media, id, t'.media, id', same)
  {
    var draft := ReopenId(t, id, newId);
    var mid := Apply(t, ReopenAsDraft(owner, id, newId, reopened));
    ReopenedRows(t, owner, id, newId, reopened);
    SortedElements(OperationMedia(t.media, id));
    assert CanQueue(mid, owner, draft);
    PhotosCarriedOver(t, owner, id, newId, reopened, queued);
  }

  // ---- one id per report ----

  /** The report is on the device under this id, for this owner, as a draft or as an operation. */
  predicate Holds(t: Tables, owner: Owner, id: Id) {
    OwnsDraft(t, owner, id) || OwnsOperation(t, owner, id)
  }

  /** The calls that end a report's life under its id: discarding it, purging its owner, reopening it for review. */
  predicate EndsReport(t: Tables, c: Call, owner: Owner, id: Id) {
    match c
    case DiscardDraft(o, d) => o == owner && d == id
    case DiscardOperation(o, d) => o == owner && d == id
    case PurgeOwner(o) => o == owner
    case ReopenAsDraft(o, d, _, _) => o == owner && d == id && id in t.operations && t.operations[id].state == NEEDS_REVIEW
    case _ => false
  }

  ghost predicate NeverEnded(t: Tables, calls: seq<Call>, owner: Owner, id: Id)
    decreases |calls|
  {
    calls != [] ==> !EndsReport(t, calls[0], owner, id) && NeverEnded(Apply(t, calls[0]), calls[1..], owner, id)
  }

  lemma ReportStep(t: Tables, c: Call, owner: Owner, id: Id)
    requires Owned(t) && FreshIds(t, c) && OwnIds(t, c) && Holds(t, owner, id) && !EndsReport(t, c, owner, id)
    ensures Holds(Apply(t, c), owner, id)
  {}

  /** However often a report is edited, queued, retried and reopened, it keeps its id, and is sent under it. */
  lemma {:induction false} OneIdPerReport(t: Tables, calls: seq<Call>, owner: Owner, id: Id, uploads: seq<string>)
    requires Owned(t) && OwnRun(t, calls) && Holds(t, owner, id) && NeverEnded(t, calls, owner, id)
    ensures var end := Run(t, calls);
            && Holds(end, owner, id)
            && (id in end.operations && end.operations[id].payload.Report? ==>
                  var item := ToBatchItem(end.operations[id].id, end.operations[id].payload.report, uploads);
                  item.Some? ==> item.value.clientOperationId == id)
    decreases |calls|
  {
    if calls == [] {
      assert id in t.operations ==> t.operations[id].id == id;
    } else {
      ReportStep(t, calls[0], owner, id);
      CallKeepsOwned(t, calls[0]);
      OneIdPerReport(Apply(t, calls[0]), calls[1..], owner, id, uploads);
    }
  }

  /** A payload without problems always converts, and so does the payload queueing makes of it. */
  lemma SendableConverts(p: ReportPayload, id: Id, uploads: seq<string>, photos: seq<Id>)
    requires Sendable(p)
    ensures ToBatchItem(id, p, uploads).Some?
    ensures ToBatchItem(id, p.(mediaLocalIds := photos), uploads) == ToBatchItem(id, p, uploads)
  {}

  // ---- answers under noninterference ----

  lemma {:induction false} FreedAlone(all: map<Id, Operation>, owner: Owner, rows: seq<Media>)
    ensures Freed(all, owner, rows) == Freed(OwnedOperations(all, owner), owner, rows)
    decreases |rows|
  {
    if rows != [] {
      FreedAlone(all, owner, rows[1..]);
    }
  }

  lemma CleanupAnswer(t: Tables, owner: Owner)
    requires Keyed(t.media)
    ensures var freed := Freed(t.operations, owner, Lookup(t.media, SortedIds(OwnMedia(t, owner))));
            Answer(t, CleanupSyncedMedia(owner)) == CleanedMedia(freed.0, freed.1)
  {
    CleanupFrees(t, owner);
    assert Apply(t, CleanupSyncedMedia(owner)).media == t.media - SyncedMedia(t, owner);
  }

  lemma CleanupCountsAlone(t: Tables, owner: Owner)
    requires Keyed(t.media)
    ensures Answer(t, CleanupSyncedMedia(owner)) == Answer(Only(t, owner), CleanupSyncedMedia(owner))
  {
    var u := Only(t, owner);
    CleanupAnswer(t, owner);
    CleanupAnswer(u, owner);
    assert OwnMedia(t, owner) == OwnMedia(u, owner);
    LookupOwned(t, owner, SortedIds(OwnMedia(t, owner)));
    FreedAlone(t.operations, owner, Lookup(t.media, SortedIds(OwnMedia(t, owner))));
  }

  /** What a call returns does not depend on the other users' rows either. */
  lemma AnswersAlone(t: Tables, c: Call)
    requires Owned(t) && OwnIds(t, c)
    ensures Answer(t, c) == Answer(Only(t, OwnerOf(c)), c)
  {
    if c.CleanupSyncedMedia? {
      CleanupCountsAlone(t, c.owner);
    } else if c.QueueDraft? {
      SelectedRows(t, c.owner, c.id);
    }
  }

  // ---- the lists a user sees ----

  lemma LookupFinds<T>(m: map<Id, T>, ids: set<Id>, row: T)
    requires forall k :: k in ids ==> k in m
    ensures row in Lookup(m, SortedIds(ids)) <==> exists k :: k in ids && m[k] == row
  {
    SortedElements(ids);
    var list := SortedIds(ids);
    if k :| k in ids && m[k] == row {
      assert k in Elements(list);
      var i :| 0 <= i < |list| && list[i] == k;
      assert Lookup(m, list)[i] == row;
    }
  }

  lemma SortedFinds<T>(rows: seq<T>, key: T -> int, row: T)
    ensures Descending(SortDesc(rows, key), key)
    ensures row in SortDesc(rows, key) <==> row in rows
  {
    SortDescSorted(rows, key);
    assert row in SortDesc(rows, key) <==> row in multiset(rows);
  }

  /** The lists show exactly the owner's drafts that can be read, and the owner's operations, latest first. */
  lemma ListsLatestFirst(t: Tables, owner: Owner, d: Draft, o: Operation)
    ensures Descending(ListDrafts(t, owner), SavedAt) && Descending(ListOperations(t, owner), StartedAt)
    ensures d in ListDrafts(t, owner) <==> exists k :: k in t.drafts && t.drafts[k] == d && d.ownerId == owner && d.payload.Report?
    ensures o in ListOperations(t, owner) <==> exists k :: k in t.operations && t.operations[k] == o && o.ownerId == owner
  {
    SortedFinds(Lookup(t.drafts, SortedIds(ReadableDrafts(t, owner))), SavedAt, d);
    SortedFinds(Lookup(t.operations, SortedIds(OwnOperations(t, owner))), StartedAt, o);
    LookupFinds(t.drafts, ReadableDrafts(t, owner), d);
    LookupFinds(t.operations, OwnOperations(t, owner), o);
    assert forall k :: k in ReadableDrafts(t, owner) && t.drafts[k] == d <==> k in t.drafts && t.drafts[k] == d && d.ownerId == owner && d.payload.Report?;
    assert forall k :: k in OwnOperations(t, owner) && t.operations[k] == o <==> k in t.operations && t.operations[k] == o && o.ownerId == owner;
  }

  /** The photos listed with a draft, with an operation, and in the snapshot are exactly the owner's that hang there. */
  lemma MediaListed(t: Tables, owner: Owner, parent: Id, m: Media)
    ensures m in ListDraftMedia(t, owner, parent)
            <==> exists k :: k in t.media && t.media[k] == m && m.ownerId == owner && m.draftId == Some(parent)
    ensures m in ListOperationMedia(t, owner, parent)
            <==> exists k :: k in t.media && t.media[k] == m && m.ownerId == owner && m.operationId == Some(parent)
    ensures m in ReadSnapshot(t, owner).media <==> exists k :: k in t.media && t.media[k] == m && m.ownerId == owner
  {
    LookupFinds(t.media, DraftMedia(t.media, owner, parent), m);
    LookupFinds(t.media, OwnOperationMedia(t.media, owner, parent), m);
    LookupFinds(t.media, OwnMedia(t, owner), m);
  }

  /** The snapshot's lists are the two lists, each row once. */
  lemma SnapshotLists(t: Tables, owner: Owner)
    ensures ReadSnapshot(t, owner).drafts == ListDrafts(t, owner)
    ensures ReadSnapshot(t, owner).operations == ListOperations(t, owner)
    ensures |ListDrafts(t, owner)| == |set k | k in t.drafts && t.drafts[k].ownerId == owner && t.drafts[k].payload.Report?|
    ensures |ListOperations(t, owner)| == |set k | k in t.operations && t.operations[k].ownerId == owner|
  {
    SortedLength(Lookup(t.drafts, SortedIds(ReadableDrafts(t, owner))), SavedAt);
    SortedLength(Lookup(t.operations, SortedIds(OwnOperations(t, owner))), StartedAt);
    SortedSize(ReadableDrafts(t, owner));
    SortedSize(OwnOperations(t, owner));
    assert ReadableDrafts(t, owner) == set k | k in t.drafts && t.drafts[k].ownerId == owner && t.drafts[k].payload.Report?;
    assert OwnOperations(t, owner) == set k | k in t.operations && t.operations[k].ownerId == owner;
  }

  lemma SortedLength<T>(rows: seq<T>, key: T -> int)
    ensures |SortDesc(rows, key)| == |rows|
  {
    SortDescSorted(rows, key);
    assert |multiset(SortDesc(rows, key))| == |multiset(rows)|;
  }

  lemma {:induction false} SortedSize(s: set<Id>)
    ensures |SortedIds(s)| == |s|
    decreases |s|
  {
    if s != {} {
      SortedSize(s - {MinOf(s)});
    }
  }
}
