/**
 What mail it is that the archive keeps.  A changekey names one content of an
 item: an edit of the content moves it.  `mime` says which.
 */
module ArchiveContent {
  import opened Mail
  import opened Store
  import opened Copies
  import opened ArchiveProtocol
  import opened ArchiveSafety
  import opened ArchiveHistory

  /** The content of every version of every item. */
  type Contents = (ItemId, string) -> Bytes

  /** Every fetch of the run yields the content that goes with the changekey it
      yields, when it yields one. */
  ghost predicate Genuine(ws: seq<World>, steps: seq<Step>, mime: Contents) {
    forall k :: 0 <= k < |steps| && steps[k].CaptureStart? ==> AllGenuine(steps[k].items, mime)
  }

  ghost predicate AllGenuine(items: map<ItemId, Fetched>, mime: Contents) {
    forall i :: i in items && Usable(items[i].ck) ==> items[i].mime == mime(i, items[i].ck.value)
  }

  /** An archived row's digest is that of the version its changekey names. */
  ghost predicate RowGenuine(r: Row, id: ItemId, mime: Contents) {
    r.state != Live && Usable(r.capturedCk) ==> r.sha == Some(Hash(mime(id, r.capturedCk.value)))
  }

  ghost predicate RowsGenuine(db: Db, mime: Contents) {
    forall i :: i in db.rows ==> RowGenuine(db.rows[i], i, mime)
  }

  ghost predicate WorldGenuine(w: World, mime: Contents) {
    RowsGenuine(w.db, mime) && (w.pass.Capturing? ==> AllGenuine(w.pass.fetched, mime))
  }

  /** Rows that keep their capture, or are not archived, keep it genuine. */
  lemma KeptIsGenuine(a: Db, b: Db, mime: Contents)
    requires RowsGenuine(a, mime)
    requires forall i :: i in b.rows && b.rows[i].state != Live ==> CaptureKept(a, b, i) && a.rows[i].state != Live
    ensures RowsGenuine(b, mime)
  {
    hide Usable;
  }

  lemma CaptureGenuine(w: World, step: Step, mime: Contents)
    requires InCapture(step) && Enabled(w, step) && WorldGenuine(w, mime)
    requires step.CaptureStart? ==> AllGenuine(step.items, mime)
    ensures WorldGenuine(Apply(w, step), mime)
  {
    hide Usable, WriteFiles, InventoryOf, Faithful;
  }

  lemma VerifyGenuine(w: World, step: Step, mime: Contents)
    requires InVerify(step) && Enabled(w, step) && RowsGenuine(w.db, mime)
    ensures RowsGenuine(Apply(w, step).db, mime)
  {
    hide RowsGenuine, Evaluate, ApplyCapture, CaptureEnabled, ApplyVerdict;
    if step.VerifyApply? { VerdictGenuine(w, step.id, mime); }
  }

  lemma VerdictGenuine(w: World, id: ItemId, mime: Contents)
    requires Enabled(w, VerifyApply(id)) && RowsGenuine(w.db, mime)
    ensures RowsGenuine(ApplyVerdict(w, id).db, mime)
  {
    hide RowsGenuine, Evaluate, ApplyCapture, CaptureEnabled;
    KeptIsGenuine(w.db, ApplyVerdict(w, id).db, mime);
  }

  lemma DeleteGenuine(w: World, step: Step, mime: Contents)
    requires InDelete(step) && Enabled(w, step) && RowsGenuine(w.db, mime)
    ensures RowsGenuine(Apply(w, step).db, mime)
  {
    hide RowsGenuine, CopyProblem, Deletable, ApplyCapture, ApplyVerify, CaptureEnabled, VerifyEnabled, DemoteToCaptured,
         MarkDeleted;
    if step.DeleteCheck? || step.DeleteStale? { DemotedGenuine(w.db, step.id, mime); }
    if step.DeletePersist? { MarkedGenuine(w.db, w.pass.pending, mime); }
  }

  lemma DemotedGenuine(db: Db, id: ItemId, mime: Contents)
    requires RowsGenuine(db, mime)
    ensures RowsGenuine(DemoteToCaptured(db, id), mime)
  {
    hide RowsGenuine;
    KeptIsGenuine(db, DemoteToCaptured(db, id), mime);
  }

  lemma MarkedGenuine(db: Db, ids: set<ItemId>, mime: Contents)
    requires RowsGenuine(db, mime)
    ensures RowsGenuine(MarkDeleted(db, ids), mime)
  {
    hide RowsGenuine;
    KeptIsGenuine(db, MarkDeleted(db, ids), mime);
  }

  lemma WriterGenuine(db: Db, step: Step, mime: Contents)
    requires ByWriters(step) && RowsGenuine(db, mime)
    ensures RowsGenuine(ArchiveProtocol.Written(db, step), mime)
  {
    hide RowsGenuine;
    KeptIsGenuine(db, ArchiveProtocol.Written(db, step), mime);
  }

  lemma StepGenuine(w: World, step: Step, mime: Contents)
    requires Enabled(w, step) && WorldGenuine(w, mime)
    requires step.CaptureStart? ==> AllGenuine(step.items, mime)
    ensures WorldGenuine(Apply(w, step), mime)
  {
    hide Enabled, Apply, RowsGenuine, AllGenuine;
    PassAfter(w, step);
    if InCapture(step) { CaptureGenuine(w, step, mime); }
    else if InVerify(step) { VerifyGenuine(w, step, mime); }
    else if InDelete(step) { DeleteGenuine(w, step, mime); }
    else if InCollect(step) { CollectPass(w, step); }
    else {
      OutsidePass(w, step);
      if ByWriters(step) { WriterGenuine(w.db, step, mime); }
    }
  }

  lemma {:induction false} RunGenuine(ws: seq<World>, steps: seq<Step>, mime: Contents, k: nat)
    requires Run(ws, steps) && Genuine(ws, steps, mime) && k < |ws|
    ensures WorldGenuine(ws[k], mime)
  {
    hide Enabled, Apply, AllGenuine;
    if k > 0 {
      RunGenuine(ws, steps, mime, k - 1);
      StepGenuine(ws[k - 1], steps[k - 1], mime);
    }
  }

  /** The archive keeps what was deleted.  For ever after a delete the file on
      disk holds the content of the version that was re-fetched last.  That is
      the content deleted as long as the changekey had not moved again, and
      where each version has its own content, only then. */
  lemma DeletedMailIsArchived(ws: seq<World>, steps: seq<Step>, mime: Contents, j: nat, k: nat, id: ItemId)
    requires Run(ws, steps) && Genuine(ws, steps, mime) && j < k < |ws| && steps[j] == DeleteItem(id)
    ensures Answered(ws[j], id) && id in ws[j].exchange && ws[j].pass.byId[id].sha.Some? && Usable(ws[j].pass.seen[id])
    ensures var refetched, now := ws[j].pass.seen[id], ws[j].exchange[id];
            var sha := ws[j].pass.byId[id].sha.value;
            && sha in ws[k].disk.mime && ws[k].disk.mime[sha] == mime(id, refetched.value)
            && (now == refetched ==> ws[k].disk.mime[sha] == mime(id, now.value))
            && (Usable(now) ==> (ws[k].disk.mime[sha] == mime(id, now.value) <==> mime(id, refetched.value) == mime(id, now.value)))
            && (Usable(now) && (forall a, b :: mime(id, a) == mime(id, b) ==> a == b) ==>
                  (ws[k].disk.mime[sha] == mime(id, now.value) <==> now == refetched))
  {
    hide Enabled, Apply, Init, Inv, Genuine;
    RunKeeps(ws, steps, j);
    DeleteRelies(ws[j], id);
    NoMailIsEverLost(ws, steps, j, k, id);
    RunGenuine(ws, steps, mime, j);
    RowIsTheCandidate(ws[j], id);
    var r := ws[j].db.rows[id];
    assert RowGenuine(r, id, mime);
  }

  lemma RowIsTheCandidate(w: World, id: ItemId)
    requires Inv(w) && Answered(w, id)
    ensures SameCapture(w.db, id, w.pass.byId[id], Verified)
  {
    assert CandidateOk(w, id);
    hide Justified, ProvedAt, GoodMime;
  }

  /** It can have moved: the owner may edit the item between the re-fetch and
      the delete of the same batch, and then what is deleted is not what is kept. */
  lemma AnEditSlipsThrough()
    ensures exists w :: Reachable(w) && Enabled(w, DeleteItem(ID)) && w.exchange[ID] != w.pass.seen[ID]
  {
    SampleIsReady();
    hide Reachable;
    var ready := SampleReady();
    var edited := ready.(exchange := map[ID := Some("d")]);
    Continue(ready, OwnerEdits(ID, Some("d")), edited);
    assert Enabled(edited, DeleteItem(ID));
  }
}
