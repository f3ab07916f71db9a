/** What every run of the archive pipeline keeps: the main results. */
module ArchiveSafety {
  import opened Mail
  import opened Store
  import opened Copies
  import opened ArchivePolicy
  import opened ArchiveProtocol

  /** A run from a fresh install, in any interleaving. */
  ghost predicate Run(ws: seq<World>, steps: seq<Step>) {
    && |ws| == |steps| + 1
    && Init(ws[0])
    && forall k :: 0 <= k < |steps| ==> Enabled(ws[k], steps[k]) && ws[k + 1] == Apply(ws[k], steps[k])
  }

  lemma {:induction false} RunKeeps(ws: seq<World>, steps: seq<Step>, k: nat)
    requires Run(ws, steps) && k < |ws|
    ensures Inv(ws[k])
  {
    if k == 0 {
      InitKeeps(ws[0]);
    } else {
      RunKeeps(ws, steps, k - 1);
      StepKeeps(ws[k - 1], steps[k - 1]);
    }
  }

  /** What a step does to the mailbox, to the record of what was removed, and to
      the history: one event at most. */
  ghost predicate Framed(w: World, step: Step, w': World) {
    if step.DeleteItem? then
      && w'.exchange == w.exchange - {step.id} && step.id in w.exchange
      && w'.purged.Keys == w.purged.Keys + {step.id} && (forall i :: i in w.purged && i != step.id ==> w'.purged[i] == w.purged[i])
      && |w'.log| == |w.log| + 1 && w.log == w'.log[..|w.log|] && w'.log[|w.log|].DidDelete? && w'.log[|w.log|].id == step.id
    else
      && w'.purged == w.purged
      && (ByOwner(step) || w'.exchange == w.exchange)
      && (w'.log == w.log ||
          (!ByOwner(step) && |w'.log| == |w.log| + 1 && w.log == w'.log[..|w.log|] && !w'.log[|w.log|].DidDelete? &&
           (w'.log[|w.log|].DidVerify? ==> InVerify(step))))
  }

  lemma DeleteLaneFrame(w: World, step: Step)
    requires Enabled(w, step)
    requires InDelete(step)
    ensures Framed(w, step, Apply(w, step))
  {
    hide CopyProblem, MarkDeleted, DemoteToCaptured, Deletable, ApplyCapture, ApplyVerify, ApplyCollect, Written, Mailbox,
         CaptureEnabled, VerifyEnabled, CollectEnabled, OwnerEnabled;
  }

  lemma OtherLanesFrame(w: World, step: Step)
    requires Enabled(w, step)
    requires InCapture(step) || InVerify(step) || InCollect(step)
    ensures Framed(w, step, Apply(w, step))
  {
    hide WriteFiles, Evaluate, MarkCaptured, MarkVerified, ResetToLive, MimeRoots, BlobRoots, InventoryOf, Faithful,
         ApplyDelete, DeleteEnabled, Written, Mailbox, OwnerEnabled, ReplaceAttachments;
  }

  lemma OutsideFrame(w: World, step: Step)
    requires Enabled(w, step)
    requires !InCapture(step) && !InVerify(step) && !InDelete(step) && !InCollect(step)
    ensures Framed(w, step, Apply(w, step))
  {
    hide Written, Mailbox, Entrusted, Lost;
  }

  lemma StepFrame(w: World, step: Step)
    requires Enabled(w, step)
    ensures Framed(w, step, Apply(w, step))
  {
    hide Apply, Enabled, Framed;
    if InDelete(step) { DeleteLaneFrame(w, step); }
    else if InCapture(step) || InVerify(step) || InCollect(step) { OtherLanesFrame(w, step); }
    else { OutsideFrame(w, step); }
  }

  lemma PurgedIsOut(w: World, id: ItemId)
    requires Inv(w) && id in w.purged
    ensures id !in w.exchange
  {
  }

  /** What has been removed stays on the list, with the digest it was removed on. */
  lemma {:induction false} PurgedNeverForgotten(ws: seq<World>, steps: seq<Step>, j: nat, k: nat, id: ItemId)
    requires Run(ws, steps) && j <= k < |ws| && id in ws[j].purged
    ensures id in ws[k].purged && ws[k].purged[id] == ws[j].purged[id]
  {
    hide Enabled, Apply, Init, Inv;
    if j < k {
      PurgedNeverForgotten(ws, steps, j, k - 1, id);
      RunKeeps(ws, steps, k - 1);
      PurgedIsOut(ws[k - 1], id);
      StepFrame(ws[k - 1], steps[k - 1]);
    }
  }

  /** No mail is ever lost.  Once the deleter's item.delete() has succeeded,
      then at every later point of the run the message's row is still there and
      not `live`, still names the digest it was deleted on, the .eml under that
      name still hashes to it, and the item has not come back to the mailbox. */
  lemma NoMailIsEverLost(ws: seq<World>, steps: seq<Step>, j: nat, k: nat, id: ItemId)
    requires Run(ws, steps) && j < k < |ws| && steps[j] == DeleteItem(id)
    ensures id in ws[j].exchange && id in ws[j].pass.byId && ws[j].pass.byId[id].sha.Some?
    ensures var sha := ws[j].pass.byId[id].sha.value;
            && id in ws[k].db.rows && ws[k].db.rows[id].state != Live
            && ws[k].db.rows[id].sha == Some(sha)
            && sha in ws[k].disk.mime && Hash(ws[k].disk.mime[sha]) == sha
            && id !in ws[k].exchange
  {
    RunKeeps(ws, steps, j);
    PurgedNeverForgotten(ws, steps, j + 1, k, id);
    RunKeeps(ws, steps, k);
  }

  /** Every hard delete is justified by its own history: an earlier verification
      of this very capture, a full grace period before the pass selected it,
      with matching changekeys and a matching file hash and nothing since; an
      age past the cutoff; the same changekey seen again and the same hash read
      again in this pass; and no rail holding. */
  lemma EveryDeleteIsJustified(ws: seq<World>, steps: seq<Step>, j: nat)
    requires Run(ws, steps) && j < |steps| && steps[j].DeleteItem?
    ensures Justified(ws[j + 1].log, |ws[j].log|)
    ensures ws[j + 1].log[|ws[j].log|].id == steps[j].id
    ensures AgedBy(ws[j + 1].log[|ws[j].log|])
    ensures forall k :: j < k < |ws| ==> |ws[j].log| < |ws[k].log| && Justified(ws[k].log, |ws[j].log|)
  {
    RunKeeps(ws, steps, j + 1);
    StepFrame(ws[j], steps[j]);
    JustifiedIsAged(ws[j + 1].log, |ws[j].log|);
    forall k | j < k < |ws| ensures |ws[j].log| < |ws[k].log| && Justified(ws[k].log, |ws[j].log|) {
      LogOnlyGrows(ws, steps, j + 1, k);
      RunKeeps(ws, steps, k);
      assert ws[k].log[|ws[j].log|] == ws[j + 1].log[|ws[j].log|];
    }
  }

  /** The age of what was deleted, in days at the moment it was selected, unless
      an explicit date was given (or the age reaches back before the epoch). */
  ghost predicate AgedBy(d: Event)
    requires d.DidDelete?
  {
    var p := d.gate.policy;
    && d.row.mirror.dateTs.Some?
    && (p.beforeTs.Some? ==> d.row.mirror.dateTs.value + p.graceDays * 86_400 <= p.beforeTs.value)
    && (p.beforeTs.None? && p.afterDays * DAY <= d.gate.selectedAt ==>
          (d.row.mirror.dateTs.value + (p.afterDays + p.graceDays) * 86_400) * SECOND <= d.gate.selectedAt)
  }

  lemma JustifiedIsAged(log: seq<Event>, j: nat)
    requires Justified(log, j)
    ensures AgedBy(log[j])
  {
  }

  lemma {:induction false} LogOnlyGrows(ws: seq<World>, steps: seq<Step>, j: nat, k: nat)
    requires Run(ws, steps) && j <= k < |ws|
    ensures ws[j].log <= ws[k].log
  {
    hide Enabled, Apply, Init;
    if j < k {
      LogOnlyGrows(ws, steps, j, k - 1);
      StepFrame(ws[k - 1], steps[k - 1]);
      assert ws[k] == Apply(ws[k - 1], steps[k - 1]);
    }
  }

  /** Mail only ever leaves the mailbox through its owner or through the one
      delete step, and the history names exactly the messages that step took. */
  lemma MailLeavesOnlyTwoWays(w: World, step: Step, id: ItemId)
    requires Enabled(w, step) && id in w.exchange && id !in Apply(w, step).exchange
    ensures step == OwnerDeletes(id) || step == DeleteItem(id)
    ensures step == DeleteItem(id) <==> Apply(w, step).log != w.log
  {
    StepFrame(w, step);
    if step.OwnerDeletes? || step.OwnerEdits? || step.MailArrives? {
    } else {
      hide Apply, Enabled;
    }
  }

  lemma {:induction false} HistoryNamesThePurged(ws: seq<World>, steps: seq<Step>, k: nat, id: ItemId)
    requires Run(ws, steps) && k < |ws|
    ensures id in ws[k].purged <==> exists j :: 0 <= j < |ws[k].log| && ws[k].log[j].DidDelete? && ws[k].log[j].id == id
  {
    hide Enabled, Apply;
    if k > 0 {
      HistoryNamesThePurged(ws, steps, k - 1, id);
      var w, w' := ws[k - 1], ws[k];
      StepFrame(w, steps[k - 1]);
      if id in w.purged {
        var j :| 0 <= j < |w.log| && w.log[j].DidDelete? && w.log[j].id == id;
        assert w'.log[j] == w.log[j];
      } else if steps[k - 1] == DeleteItem(id) {
        assert w'.log[|w.log|].DidDelete?;
      } else {
        forall j | 0 <= j < |w'.log| && w'.log[j].DidDelete? ensures w'.log[j].id != id {
          if j < |w.log| { assert w'.log[j] == w.log[j]; }
        }
      }
    }
  }

  /** Content-addressed store and sweep agree: in any run, a file the sweep
      unlinks is referenced by nothing at that moment, although the sweep read
      its keep-set once, and captures may since have deduplicated onto old files. */
  lemma SweepRemovesOnlyOrphans(ws: seq<World>, steps: seq<Step>, k: nat)
    requires Run(ws, steps) && k < |steps|
    ensures steps[k].CollectMime? ==> !MimeReferenced(ws[k].db, steps[k].sha)
    ensures steps[k].CollectBlob? ==> !BlobReferenced(ws[k].db, steps[k].sha)
  {
    RunKeeps(ws, steps, k);
  }

  /** A row that reads `verified` can be trusted on its own: the run contains
      the verification it speaks of, of the capture it still names. */
  lemma VerifiedMeansVerified(ws: seq<World>, steps: seq<Step>, k: nat, id: ItemId)
    requires Run(ws, steps) && k < |ws| && InState(ws[k].db, id, Verified)
    ensures exists at :: ProvedAt(ws[k].log, at, id, ws[k].db.rows[id])
  {
    RunKeeps(ws, steps, k);
    assert ProvedAt(ws[k].log, ws[k].proof[id], id, ws[k].db.rows[id]);
  }

  // ---------------------------------------------------------- not vacuous

  ghost predicate Reachable(w: World) {
    exists ws: seq<World>, steps: seq<Step> :: Run(ws, steps) && ws[|steps|] == w
  }

  lemma Continue(w: World, step: Step, w': World)
    requires Reachable(w) && Enabled(w, step) && w' == Apply(w, step)
    ensures Reachable(w')
  {
    hide Enabled, Apply, Init;
    var ws: seq<World>, steps: seq<Step> :| Run(ws, steps) && ws[|steps|] == w;
    assert Run(ws + [w'], steps + [step]);
  }

  const ID: ItemId := "m"
  const CK: Option<string> := Some("c")
  const MAIL := Fetched(CK, [1], [])
  const COLUMNS := Mirror("inbox", Some(0), [], true, "body")

  /** One message in the mailbox and the mirror, at a stage of its archiving. */
  function Sample(state: ArchiveState, clock: int, pass: Pass): World {
    World(map[ID := CK],
          Db(map[ID := match state
                       case Live => Row(COLUMNS, Live, None, None, None)
                       case Verified => Row(COLUMNS, Verified, Some(Hash([1])), CK, Some(1))
                       case _ => Row(COLUMNS, state, Some(Hash([1])), CK, None)],
             if state == Live then map[] else map[ID := []]),
          Disk(if state == Live then map[] else map[Hash([1]) := [1]], map[]),
          clock, pass, map[],
          if state == Verified then map[ID := 1] else map[],
          match state
          case Live => []
          case Verified => [DidCapture(ID, Hash([1]), CK), DidVerify(ID, Hash([1]), CK, CK, Hash([1]), 1)]
          case _ => [DidCapture(ID, Hash([1]), CK)])
  }

  lemma SampleIsCaptured()
    requires Reachable(Sample(Live, 1, Idle))
    ensures Reachable(Sample(Captured, 1, Idle))
  {
    hide Reachable;
    SampleIsStored();
    var stored := SampleStored();
    var captured := Sample(Captured, 1, Capturing(map[ID := MAIL], {}, {ID}));
    var marked := captured.(db := captured.db.(atts := map[]));
    assert Apply(stored, CaptureMark(ID)).pass == marked.pass;
    assert Apply(stored, CaptureMark(ID)).db == marked.db;
    Continue(stored, CaptureMark(ID), marked);
    SampleIsInventoried(marked);
  }

  function SampleStored(): World {
    Sample(Live, 1, Capturing(map[ID := MAIL], {ID}, {})).(disk := Disk(map[Hash([1]) := [1]], map[]))
  }

  lemma SampleIsStored()
    requires Reachable(Sample(Live, 1, Idle))
    ensures Reachable(SampleStored())
  {
    hide Reachable;
    var fetched := Sample(Live, 1, Capturing(map[ID := MAIL], {}, {}));
    Continue(Sample(Live, 1, Idle), CaptureStart(map[ID := MAIL]), fetched);
    assert WriteFiles(fetched.disk, MAIL, 1) == SampleStored().disk by {
      assert WriteFiles(fetched.disk, MAIL, 0) == fetched.disk;
    }
    assert Apply(fetched, CaptureStore(ID, 1)).pass == SampleStored().pass;
    Continue(fetched, CaptureStore(ID, 1), SampleStored());
  }

  lemma SampleIsInventoried(marked: World)
    requires Reachable(marked)
    requires marked == Sample(Captured, 1, Capturing(map[ID := MAIL], {}, {ID})).(db := marked.db)
    requires marked.db == Sample(Captured, 1, Idle).db.(atts := map[])
    ensures Reachable(Sample(Captured, 1, Idle))
  {
    hide Reachable;
    var done := Sample(Captured, 1, Capturing(map[ID := MAIL], {}, {}));
    assert InventoryOf(MAIL) == [];
    assert Apply(marked, CaptureInventory(ID)).pass == done.pass;
    Continue(marked, CaptureInventory(ID), done);
    Continue(done, PassEnds, Sample(Captured, 1, Idle));
  }

  lemma SampleIsVerified()
    requires Reachable(Sample(Captured, 1, Idle))
    ensures Reachable(Sample(Verified, 1, Idle))
  {
    hide Reachable;
    var r := Row(COLUMNS, Captured, Some(Hash([1])), CK, None);
    var asked := Sample(Captured, 1, Verifying(map[ID := r], map[ID := CK], map[]));
    assert Apply(Sample(Captured, 1, Idle), VerifyStart({ID}, {ID})).pass == asked.pass by {
      assert Sample(Captured, 1, Idle).db.rows == map[ID := r];
    }
    Continue(Sample(Captured, 1, Idle), VerifyStart({ID}, {ID}), asked);
    SampleIsPromoted(asked, r);
  }

  lemma SampleIsPromoted(asked: World, r: Row)
    requires r == Row(COLUMNS, Captured, Some(Hash([1])), CK, None)
    requires asked == Sample(Captured, 1, Verifying(map[ID := r], map[ID := CK], map[])) && Reachable(asked)
    ensures Reachable(Sample(Verified, 1, Idle))
  {
    hide Reachable;
    var judged := Sample(Captured, 1, Verifying(map[ID := r], map[ID := CK], map[ID := Promote(Hash([1]))]));
    Continue(asked, VerifyEvaluate(ID), judged);
    SampleIsApplied(judged, r);
  }

  lemma SampleIsApplied(judged: World, r: Row)
    requires r == Row(COLUMNS, Captured, Some(Hash([1])), CK, None) && Reachable(judged)
    requires judged ==
             Sample(Captured, 1, Verifying(map[ID := r], map[ID := CK], map[ID := Promote(Hash([1]))]))
    ensures Reachable(Sample(Verified, 1, Idle))
  {
    hide Reachable, ApplyCapture, ApplyDelete, ApplyCollect, Written, Mailbox, CaptureEnabled, DeleteEnabled, CollectEnabled,
         OwnerEnabled;
    var promoted := Sample(Verified, 1, Verifying(map[], map[ID := CK], map[]));
    assert ApplyVerdict(judged, ID).pass == promoted.pass;
    assert ApplyVerdict(judged, ID).db == promoted.db;
    Continue(judged, VerifyApply(ID), promoted);
    PassIsOver(promoted);
  }

  lemma PassIsOver(w: World)
    requires Reachable(w)
    ensures Reachable(w.(pass := Idle))
  {
    hide Reachable, ApplyCapture, ApplyVerify, ApplyDelete, ApplyCollect, Written, Mailbox, CaptureEnabled, VerifyEnabled, DeleteEnabled,
         CollectEnabled, OwnerEnabled;
    Continue(w, PassEnds, w.(pass := Idle));
  }

  /** A message waits, archived and verified, until it may be deleted. */
  lemma SampleWaits()
    ensures Reachable(Sample(Verified, LATER, Idle))
  {
    hide Reachable;
    SampleArrives();
    SampleIsCaptured();
    SampleIsVerified();
    Continue(Sample(Verified, 1, Idle), Tick(400 * DAY), Sample(Verified, LATER, Idle));
  }

  /** The pipeline does delete mail: some run from a fresh install captures,
      verifies and, once the waiting time is over, removes a message. */
  lemma SomeMailIsDeleted()
    ensures exists w :: Reachable(w) && ID in w.purged
  {
    SampleIsReady();
    hide Reachable;
    var ready := SampleReady();
    Continue(ready, DeleteItem(ID), Apply(ready, DeleteItem(ID)));
  }

  lemma EmptyIsReachable(w: World)
    requires Init(w)
    ensures Reachable(w)
  {
    var none: seq<Step> := [];
    assert Run([w], none) && [w][|none|] == w;
  }

  lemma SampleArrives()
    ensures Reachable(Sample(Live, 1, Idle))
  {
    var empty := World(map[], Db(map[], map[]), Disk(map[], map[]), 1, Idle, map[], map[], []);
    EmptyIsReachable(empty);
    hide Reachable, ApplyCapture, ApplyVerify, ApplyDelete, ApplyCollect, CaptureEnabled, VerifyEnabled, DeleteEnabled,
         CollectEnabled;
    var arrived := empty.(exchange := map[ID := CK]);
    Continue(empty, MailArrives(ID, CK), arrived);
    SampleIsMirrored(arrived);
  }

  lemma SampleIsMirrored(arrived: World)
    requires Reachable(arrived)
    requires arrived == World(map[ID := CK], Db(map[], map[]), Disk(map[], map[]), 1, Idle, map[], map[], [])
    ensures Reachable(Sample(Live, 1, Idle))
  {
    hide Reachable, ApplyCapture, ApplyVerify, ApplyDelete, ApplyCollect, Mailbox, CaptureEnabled, VerifyEnabled, DeleteEnabled,
         CollectEnabled, OwnerEnabled;
    Continue(arrived, SyncUpsert(ID, COLUMNS), Sample(Live, 1, Idle));
  }

  const LATER := 400 * DAY + 1
  const SETTINGS := Settings(365, 7, true, 100, None, "", 48, 10)
  const ROW := Row(COLUMNS, Verified, Some(Hash([1])), CK, Some(1))

  function SampleDeleting(checked: map<ItemId, Sha>, seen: map<ItemId, Option<string>>): World {
    Sample(Verified, LATER, Deleting(Gate(FromSettings(SETTINGS, None), Off, LATER, LATER), map[ID := ROW], checked, seen, {}))
  }

  /** Checked and re-fetched, one step before it is deleted. */
  function SampleReady(): World {
    SampleDeleting(map[ID := Hash([1])], map[ID := CK])
  }

  lemma SampleIsReady()
    ensures Reachable(SampleReady())
  {
    hide Reachable;
    SampleWaits();
    SampleIsPicked();
    SampleIsChecked();
    SampleIsSeen();
  }

  lemma SampleIsPicked()
    requires Reachable(Sample(Verified, LATER, Idle))
    ensures Reachable(SampleDeleting(map[], map[]))
  {
    hide Reachable;
    var cleared := Sample(Verified, LATER, Cleared(FromSettings(SETTINGS, None), Off, LATER));
    Continue(Sample(Verified, LATER, Idle), DeleteClear(SETTINGS, None, None), cleared);
    assert Apply(cleared, DeleteSelect({ID})).pass == SampleDeleting(map[], map[]).pass by {
      assert cleared.db.rows == map[ID := ROW];
    }
    Continue(cleared, DeleteSelect({ID}), SampleDeleting(map[], map[]));
  }

  lemma SampleIsChecked()
    requires Reachable(SampleDeleting(map[], map[]))
    ensures Reachable(SampleDeleting(map[ID := Hash([1])], map[]))
  {
    hide Reachable;
    Continue(SampleDeleting(map[], map[]), DeleteCheck(ID, true), SampleDeleting(map[ID := Hash([1])], map[]));
  }

  lemma SampleIsSeen()
    requires Reachable(SampleDeleting(map[ID := Hash([1])], map[]))
    ensures Reachable(SampleReady())
  {
    hide Reachable;
    var checked := SampleDeleting(map[ID := Hash([1])], map[]);
    assert Apply(checked, DeleteFetch({ID})).pass == SampleReady().pass;
    Continue(checked, DeleteFetch({ID}), SampleReady());
  }

  /** The same message deleted by a gateway call that raised: the pass is over,
      and nothing was recorded. */
  function SampleLost(): World {
    var ready := SampleReady();
    ready.(exchange := map[], purged := map[ID := Hash([1])], pass := Idle,
           log := ready.log + [DidDelete(ID, ROW, CK, Hash([1]), Gate(FromSettings(SETTINGS, None), Off, LATER, LATER), LATER)])
  }

  lemma SampleIsLost()
    ensures Reachable(SampleLost())
  {
    hide Reachable, Enabled, Apply, SampleReady, DeleteOne;
    SampleIsReady();
    var deleted := Taken();
    SampleIsTaken();
    Continue(SampleReady(), DeleteItem(ID), deleted);
    PassIsOver(deleted);
  }

  function Taken(): World {
    SampleLost().(pass := Deleting(Gate(FromSettings(SETTINGS, None), Off, LATER, LATER), map[], map[], map[ID := CK], {ID}))
  }

  lemma SampleIsTaken()
    ensures Enabled(SampleReady(), DeleteItem(ID)) && Apply(SampleReady(), DeleteItem(ID)) == Taken()
  {
    hide ApplyCapture, ApplyVerify, CaptureEnabled, VerifyEnabled;
    assert SampleReady().exchange - {ID} == map[];
    assert SampleReady().pass.byId - {ID} == map[] && SampleReady().pass.checked - {ID} == map[];
    var w := DeleteOne(SampleReady(), ID);
    assert w.pass.pending == {ID} && w.pass == Taken().pass;
    assert w.purged == Taken().purged && w.log == Taken().log && w.exchange == Taken().exchange;
  }

  // ------------------------------------------------ what the runs range over

  /** The sweep takes what it may: from any world at rest, each file whose digest
      no row and no attachment names goes, one step each, and nothing else does;
      a file that is named cannot be taken. */
  lemma SweepTakesOrphans(w: World, sha: Sha)
    requires w.pass.Idle?
    ensures Enabled(w, CollectStart)
    ensures var c := Apply(w, CollectStart);
            && (Enabled(c, CollectMime(sha)) <==> !MimeReferenced(w.db, sha))
            && (Enabled(c, CollectBlob(sha)) <==> !BlobReferenced(w.db, sha))
            && (!MimeReferenced(w.db, sha) ==>
                  Apply(c, CollectMime(sha)) == c.(disk := c.disk.(mime := w.disk.mime - {sha})))
            && (!BlobReferenced(w.db, sha) ==>
                  Apply(c, CollectBlob(sha)) == c.(disk := c.disk.(blobs := w.disk.blobs - {sha})))
  {
  }

  predicate Unlocked(step: Step) {
    !InCapture(step) && !InVerify(step) && !InDelete(step) && !InCollect(step)
  }

  /** What the safety results are safe from: at any moment, whatever lane is
      under way, the owner may receive, edit and delete mail, the sync engine may
      write and delete rows, time may pass, the process may die, any blob may be
      lost or overwritten, and any mail file that is not the only copy left. */
  lemma NothingIsHeldBack(w: World, step: Step)
    requires Unlocked(step)
    ensures Enabled(w, step) <==>
              match step
              case MailArrives(id, _) => id !in w.exchange && id !in w.purged
              case OwnerEdits(id, _) => id in w.exchange
              case OwnerDeletes(id) => id in w.exchange
              case MimeDamaged(sha, _) => !Entrusted(w, sha)
              case _ => true
  {
    hide Entrusted;
  }

  /** And each of these is what it says. */
  lemma EachTakesEffect(w: World, step: Step)
    requires Unlocked(step) && Enabled(w, step)
    ensures var w' := Apply(w, step);
            match step
            case MailArrives(id, ck) => w' == w.(exchange := w.exchange[id := ck])
            case OwnerEdits(id, ck) => w' == w.(exchange := w.exchange[id := ck])
            case OwnerDeletes(id) => w' == w.(exchange := w.exchange - {id})
            case MimeDamaged(sha, None) => w' == w.(disk := Disk(w.disk.mime - {sha}, w.disk.blobs))
            case MimeDamaged(sha, Some(b)) => w' == w.(disk := Disk(w.disk.mime[sha := b], w.disk.blobs))
            case BlobDamaged(sha, None) => w' == w.(disk := Disk(w.disk.mime, w.disk.blobs - {sha}))
            case BlobDamaged(sha, Some(b)) => w' == w.(disk := Disk(w.disk.mime, w.disk.blobs[sha := b]))
            case ToolCachesMime(b) => w' == w.(disk := Disk(w.disk.mime[Hash(b) := b], w.disk.blobs))
            case Tick(elapsed) => w' == w.(clock := w.clock + elapsed)
            case PassEnds => w' == w.(pass := Idle)
            case SyncUpsert(id, m) => w' == w.(db := Upsert(w.db, id, m))
            case SyncReadFlag(id, b) => w' == w.(db := SetReadFlag(w.db, id, b))
            case ServerDeletes(ids) => w' == w.(db := ApplyServerDeletes(w.db, ids))
            case FolderVanishes(folder) => w' == w.(db := DeleteLiveInFolder(w.db, folder))
            case _ => true
  {
    hide Entrusted, Upsert, SetReadFlag, ApplyServerDeletes, DeleteLiveInFolder;
  }
}
