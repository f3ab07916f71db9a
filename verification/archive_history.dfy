/**
 Every hard delete traced back through the steps of its run, without reading the
 log: what the mailbox, the disk, the clock and the settings were when each of
 its grounds was established; and what mail it was that the archive kept.
 */
module ArchiveHistory {
  import opened Mail
  import opened Store
  import opened Copies
  import opened ArchivePolicy
  import opened ArchiveProtocol
  import opened ArchiveSafety

  // ------------------------------------------- one step back, lane by lane

  lemma CapturePass(w: World, step: Step)
    requires InCapture(step) && Enabled(w, step)
    ensures Apply(w, step).pass.Capturing? && Apply(w, step).clock == w.clock
  {
    hide WriteFiles, InventoryOf, Faithful, MarkCaptured, ReplaceAttachments, ResetToLive;
  }

  lemma VerifyPass(w: World, step: Step)
    requires InVerify(step) && Enabled(w, step)
    ensures Apply(w, step).pass.Verifying? && Apply(w, step).clock == w.clock
  {
    hide Evaluate, MarkVerified, ResetToLive, ApplyCapture, CaptureEnabled;
  }

  lemma DeletePass(w: World, step: Step)
    requires InDelete(step) && Enabled(w, step)
    ensures if step.DeleteClear? then Apply(w, step).pass.Cleared? else Apply(w, step).pass.Deleting?
    ensures Apply(w, step).clock == w.clock
  {
    hide CopyProblem, MarkDeleted, DemoteToCaptured, Deletable, ApplyCapture, ApplyVerify, CaptureEnabled, VerifyEnabled;
  }

  lemma CollectPass(w: World, step: Step)
    requires InCollect(step) && Enabled(w, step)
    ensures Apply(w, step).pass.Collecting? && Apply(w, step).clock == w.clock && Apply(w, step).db == w.db
  {
    hide ApplyCapture, ApplyVerify, ApplyDelete, CaptureEnabled, VerifyEnabled, DeleteEnabled, MimeRoots, BlobRoots;
  }

  predicate Outside(step: Step) {
    !InCapture(step) && !InVerify(step) && !InDelete(step) && !InCollect(step)
  }

  lemma OutsidePass(w: World, step: Step)
    requires Outside(step) && Enabled(w, step)
    ensures Apply(w, step).pass == if step.PassEnds? then Idle else w.pass
    ensures w.clock <= Apply(w, step).clock
    ensures Apply(w, step).db == if ByWriters(step) then ArchiveProtocol.Written(w.db, step) else w.db
  {
    hide ApplyCapture, ApplyVerify, ApplyDelete, ApplyCollect, CaptureEnabled, VerifyEnabled, DeleteEnabled, CollectEnabled,
         Mailbox, OwnerEnabled, ArchiveProtocol.Written, Entrusted, Lost;
  }

  /** Which lane holds the lock after a step. */
  lemma PassAfter(w: World, step: Step)
    requires Enabled(w, step)
    ensures var p, p' := w.pass, Apply(w, step).pass;
            && (InCapture(step) ==> p'.Capturing?)
            && (InVerify(step) ==> p'.Verifying?)
            && (InDelete(step) ==> if step.DeleteClear? then p'.Cleared? else p'.Deleting?)
            && (InCollect(step) ==> p'.Collecting?)
            && (Outside(step) ==> p' == if step.PassEnds? then Idle else p)
    ensures w.clock <= Apply(w, step).clock
  {
    hide Enabled, Apply;
    if InCapture(step) { CapturePass(w, step); }
    else if InVerify(step) { VerifyPass(w, step); }
    else if InDelete(step) { DeletePass(w, step); }
    else if InCollect(step) { CollectPass(w, step); }
    else { OutsidePass(w, step); }
  }

  // --------------------------------------------------------- the delete lane

  /** A candidate of a running delete pass was one before the step, or has just
      been selected. */
  ghost predicate Picked(w: World, step: Step, w': World, id: ItemId)
  {
    && w'.pass.Deleting? && id in w'.pass.byId
    && step.DeleteSelect? && id in step.ids && w.pass.Cleared? && id in w.db.rows
    && w'.pass.byId[id] == w.db.rows[id]
    && w'.pass.gate == Gate(w.pass.policy, w.pass.backup, w.pass.clearedAt, w.clock)
    && w'.pass.checked == map[] && w'.pass.seen == map[]
  }

  lemma CandidateInLane(w: World, step: Step, id: ItemId)
    requires InDelete(step) && Enabled(w, step) && Apply(w, step).pass.Deleting? && id in Apply(w, step).pass.byId
    ensures var p' := Apply(w, step).pass;
            || Picked(w, step, Apply(w, step), id)
            || (!step.DeleteSelect? && w.pass.Deleting? && id in w.pass.byId && p'.byId[id] == w.pass.byId[id] && p'.gate == w.pass.gate)
  {
    hide CopyProblem, MarkDeleted, DemoteToCaptured, Deletable, ApplyCapture, ApplyVerify, CaptureEnabled, VerifyEnabled;
  }

  /** Its copy had passed before the step, or has just been read from disk. */
  lemma CheckedInLane(w: World, step: Step, id: ItemId)
    requires InDelete(step) && Enabled(w, step) && w.pass.Deleting? && Apply(w, step).pass.Deleting? && id in Apply(w, step).pass.checked
    ensures var p' := Apply(w, step).pass;
            || (step.DeleteCheck? && step.id == id && GoodMime(w.disk, p'.checked[id]))
            || (id in w.pass.checked && p'.checked[id] == w.pass.checked[id])
  {
    hide CopyProblem, MarkDeleted, DemoteToCaptured, Deletable, ApplyCapture, ApplyVerify, CaptureEnabled, VerifyEnabled;
    if step.DeleteCheck? { CopyFineExactly(w.disk, w.pass.byId[step.id].sha, AttachmentsFor(w.db, step.id)); }
  }

  /** Its changekey had been seen before the step, or has just been re-fetched. */
  lemma SeenInLane(w: World, step: Step, id: ItemId)
    requires InDelete(step) && Enabled(w, step) && w.pass.Deleting? && Apply(w, step).pass.Deleting? && id in Apply(w, step).pass.seen
    ensures var p' := Apply(w, step).pass;
            || (step.DeleteFetch? && id in step.answered && id in w.exchange && p'.seen[id] == w.exchange[id] && id in w.pass.checked)
            || (id in w.pass.seen && p'.seen[id] == w.pass.seen[id])
  {
    hide CopyProblem, MarkDeleted, DemoteToCaptured, Deletable, ApplyCapture, ApplyVerify, CaptureEnabled, VerifyEnabled;
  }

  // --------------------------------------------------------- the verify lane

  lemma LiveInLane(w: World, step: Step, id: ItemId)
    requires InVerify(step) && Enabled(w, step) && Apply(w, step).pass.Verifying? && id in Apply(w, step).pass.live
    ensures var p' := Apply(w, step).pass;
            || (step.VerifyStart? && id in step.answered && id in w.exchange && p'.live[id] == w.exchange[id] && p'.verdicts == map[])
            || (!step.VerifyStart? && w.pass.Verifying? && id in w.pass.live && p'.live[id] == w.pass.live[id])
  {
    hide Evaluate, MarkVerified, ResetToLive, ApplyCapture, CaptureEnabled;
  }

  lemma VerdictInLane(w: World, step: Step, id: ItemId)
    requires InVerify(step) && Enabled(w, step) && Apply(w, step).pass.Verifying? && id in Apply(w, step).pass.verdicts
    ensures var p' := Apply(w, step).pass;
            || (step == VerifyEvaluate(id) && w.pass.Verifying? && id in w.pass.captures && id in w.pass.live
                && p'.verdicts[id] == Evaluate(w.disk, w.pass.captures[id], w.pass.live[id], AttachmentsFor(w.db, id)))
            || (w.pass.Verifying? && id in w.pass.verdicts && p'.verdicts[id] == w.pass.verdicts[id])
  {
    hide Evaluate, MarkVerified, ResetToLive, ApplyCapture, CaptureEnabled;
  }

  /** A promotion put on record, as the step that applied it. */
  ghost predicate Promotes(w: World, step: Step, e: Event) {
    && e.DidVerify? && step == VerifyApply(e.id) && e.at == w.clock && InState(w.db, e.id, Captured)
    && w.pass.Verifying? && e.id in w.pass.verdicts && w.pass.verdicts[e.id] == Promote(e.hashed)
    && e.id in w.pass.live && e.live == w.pass.live[e.id]
    && w.db.rows[e.id].sha == Some(e.sha) && w.db.rows[e.id].capturedCk == e.ck
    && Enabled(w, step) && Apply(w, step).db == MarkVerified(w.db, e.id, w.clock)
  }

  /** Only applying a promotion puts a verification on record. */
  lemma VerifyIsLogged(w: World, step: Step)
    requires Enabled(w, step) && |Apply(w, step).log| == |w.log| + 1 && Apply(w, step).log[|w.log|].DidVerify?
    ensures Promotes(w, step, Apply(w, step).log[|w.log|])
  {
    hide Enabled, Apply, Promotes;
    StepFrame(w, step);
    VerifyIsLoggedInLane(w, step);
  }

  lemma VerifyIsLoggedInLane(w: World, step: Step)
    requires InVerify(step) && Enabled(w, step)
    requires |Apply(w, step).log| == |w.log| + 1 && Apply(w, step).log[|w.log|].DidVerify?
    ensures Promotes(w, step, Apply(w, step).log[|w.log|])
  {
    hide Evaluate, MarkVerified, ResetToLive, ApplyCapture, CaptureEnabled;
  }

  // ------------------------------------------------------ captures are kept

  /** An archived row loses its capture only to a reset, which is on record. */
  ghost predicate KeptOrReset(w: World, w': World, id: ItemId) {
    CaptureKept(w.db, w'.db, id) || (|w'.log| == |w.log| + 1 && w'.log[|w.log|] == DidReset(id))
  }

  lemma CaptureOrReset(w: World, step: Step, id: ItemId)
    requires Enabled(w, step) && id in w.db.rows && w.db.rows[id].state != Live
    ensures KeptOrReset(w, Apply(w, step), id)
  {
    hide Enabled, Apply, KeptOrReset;
    if InCapture(step) {
      ResetInCapture(w, step, id);
    } else if InVerify(step) {
      ResetInVerify(w, step, id);
    } else if InDelete(step) {
      KeptInDelete(w, step, id);
    } else {
      KeptElsewhere(w, step, id);
    }
  }

  lemma ResetInCapture(w: World, step: Step, id: ItemId)
    requires InCapture(step)
    requires Enabled(w, step) && id in w.db.rows && w.db.rows[id].state != Live
    ensures KeptOrReset(w, Apply(w, step), id)
  {
    hide WriteFiles, InventoryOf, Faithful;
  }

  lemma ResetInVerify(w: World, step: Step, id: ItemId)
    requires InVerify(step)
    requires Enabled(w, step) && id in w.db.rows && w.db.rows[id].state != Live
    ensures KeptOrReset(w, Apply(w, step), id)
  {
    hide Evaluate, ApplyCapture, CaptureEnabled, ApplyVerdict;
    if step.VerifyApply? { ResetByVerdict(w, step.id, id); }
  }

  lemma ResetByVerdict(w: World, judged: ItemId, id: ItemId)
    requires Enabled(w, VerifyApply(judged)) && id in w.db.rows && w.db.rows[id].state != Live
    ensures KeptOrReset(w, ApplyVerdict(w, judged), id)
  {
    hide Evaluate, ApplyCapture, CaptureEnabled, Usable;
  }

  lemma KeptInDelete(w: World, step: Step, id: ItemId)
    requires InDelete(step)
    requires Enabled(w, step) && id in w.db.rows && w.db.rows[id].state != Live
    ensures KeptOrReset(w, Apply(w, step), id)
  {
    hide CopyProblem, Deletable, ApplyCapture, ApplyVerify, CaptureEnabled, VerifyEnabled;
  }

  lemma KeptElsewhere(w: World, step: Step, id: ItemId)
    requires !InCapture(step) && !InVerify(step) && !InDelete(step)
    requires Enabled(w, step) && id in w.db.rows && w.db.rows[id].state != Live
    ensures KeptOrReset(w, Apply(w, step), id)
  {
    hide Enabled, Apply;
    if InCollect(step) { CollectPass(w, step); } else { OutsidePass(w, step); }
    if ByWriters(step) { WriterKeepsCapture(w.db, step, id); }
  }

  lemma WriterKeepsCapture(db: Db, step: Step, id: ItemId)
    requires ByWriters(step) && id in db.rows && db.rows[id].state != Live
    ensures CaptureKept(db, ArchiveProtocol.Written(db, step), id)
  {
  }

  // --------------------------------------------- back to where it came from

  lemma {:induction false} ClockIsMonotone(ws: seq<World>, steps: seq<Step>, j: nat, k: nat)
    requires Run(ws, steps) && j <= k < |ws|
    ensures ws[j].clock <= ws[k].clock
  {
    hide Enabled, Apply, Init;
    if j < k {
      ClockIsMonotone(ws, steps, j, k - 1);
      PassAfter(ws[k - 1], steps[k - 1]);
    }
  }

  lemma {:induction false} ClearedAt(ws: seq<World>, steps: seq<Step>, k: nat) returns (b: nat)
    requires Run(ws, steps) && k < |ws| && ws[k].pass.Cleared?
    ensures b < k && steps[b].DeleteClear? && ws[b + 1].pass == ws[k].pass
  {
    hide Enabled, Apply;
    PassAfter(ws[k - 1], steps[k - 1]);
    if steps[k - 1].DeleteClear? { b := k - 1; } else { b := ClearedAt(ws, steps, k - 1); }
  }

  /** A delete pass has been running since it selected this candidate, which is
      still what it was then. */
  ghost predicate Since(ws: seq<World>, s: nat, k: nat, id: ItemId) {
    forall t :: s < t <= k < |ws| ==>
      ws[t].pass.Deleting? && id in ws[t].pass.byId && id in ws[s].db.rows && ws[t].pass.byId[id] == ws[s].db.rows[id] &&
      ws[s].pass.Cleared? && ws[t].pass.gate == Gate(ws[s].pass.policy, ws[s].pass.backup, ws[s].pass.clearedAt, ws[s].clock)
  }

  lemma {:induction false} SelectedAt(ws: seq<World>, steps: seq<Step>, k: nat, id: ItemId) returns (s: nat)
    requires Run(ws, steps) && k < |ws| && ws[k].pass.Deleting? && id in ws[k].pass.byId
    ensures s < k && Picked(ws[s], steps[s], ws[s + 1], id) && Since(ws, s, k, id)
    ensures forall t :: s < t < k ==> !steps[t].DeleteSelect?
  {
    hide Enabled, Apply;
    PassAfter(ws[k - 1], steps[k - 1]);
    if InDelete(steps[k - 1]) { CandidateInLane(ws[k - 1], steps[k - 1], id); }
    if Picked(ws[k - 1], steps[k - 1], ws[k], id) {
      s := k - 1;
    } else {
      s := SelectedAt(ws, steps, k - 1, id);
    }
  }

  /** Its copy was read from disk, and was good, after it was selected. */
  lemma {:induction false} CheckedAt(ws: seq<World>, steps: seq<Step>, s: nat, k: nat, id: ItemId) returns (c: nat)
    requires Run(ws, steps) && s < k < |ws| && (forall t :: s < t <= k ==> ws[t].pass.Deleting?)
    requires (forall t :: s < t < k ==> !steps[t].DeleteSelect?) && ws[s + 1].pass.checked == map[]
    requires id in ws[k].pass.checked
    ensures s < c < k && steps[c].DeleteCheck? && steps[c].id == id && GoodMime(ws[c].disk, ws[k].pass.checked[id])
  {
    hide Enabled, Apply, Init, GoodMime;
    PassAfter(ws[k - 1], steps[k - 1]);
    if InDelete(steps[k - 1]) { CheckedInLane(ws[k - 1], steps[k - 1], id); }
    if steps[k - 1].DeleteCheck? && steps[k - 1].id == id && GoodMime(ws[k - 1].disk, ws[k].pass.checked[id]) {
      c := k - 1;
    } else {
      c := CheckedAt(ws, steps, s, k - 1, id);
    }
  }

  /** Its changekey was re-fetched after its copy had passed. */
  lemma {:induction false} SeenAt(ws: seq<World>, steps: seq<Step>, s: nat, k: nat, id: ItemId) returns (g: nat)
    requires Run(ws, steps) && s < k < |ws| && (forall t :: s < t <= k ==> ws[t].pass.Deleting?)
    requires (forall t :: s < t < k ==> !steps[t].DeleteSelect?) && ws[s + 1].pass.seen == map[]
    requires id in ws[k].pass.seen
    ensures s < g < k && steps[g].DeleteFetch? && id in steps[g].answered && id in ws[g].pass.checked
    ensures id in ws[g].exchange && ws[g].exchange[id] == ws[k].pass.seen[id]
  {
    hide Enabled, Apply, Init;
    PassAfter(ws[k - 1], steps[k - 1]);
    if InDelete(steps[k - 1]) { SeenInLane(ws[k - 1], steps[k - 1], id); }
    if steps[k - 1].DeleteFetch? && id in steps[k - 1].answered && id in ws[k - 1].exchange &&
       ws[k].pass.seen[id] == ws[k - 1].exchange[id] && id in ws[k - 1].pass.checked {
      g := k - 1;
    } else {
      g := SeenAt(ws, steps, s, k - 1, id);
    }
  }

  lemma {:induction false} LiveAt(ws: seq<World>, steps: seq<Step>, k: nat, id: ItemId) returns (f: nat)
    requires Run(ws, steps) && k < |ws| && ws[k].pass.Verifying? && id in ws[k].pass.live
    ensures f < k && steps[f].VerifyStart? && id in steps[f].answered
    ensures id in ws[f].exchange && ws[f].exchange[id] == ws[k].pass.live[id] && ws[f + 1].pass.Verifying? && ws[f + 1].pass.verdicts == map[]
    ensures forall t :: f < t <= k ==> ws[t].pass.Verifying? && id in ws[t].pass.live && ws[t].pass.live[id] == ws[k].pass.live[id]
  {
    hide Enabled, Apply;
    PassAfter(ws[k - 1], steps[k - 1]);
    if InVerify(steps[k - 1]) { LiveInLane(ws[k - 1], steps[k - 1], id); }
    if steps[k - 1].VerifyStart? { f := k - 1; } else { f := LiveAt(ws, steps, k - 1, id); }
  }

  /** A verdict was reached on the files as they were, after the fetch. */
  lemma {:induction false} JudgedAt(ws: seq<World>, steps: seq<Step>, f: nat, k: nat, id: ItemId) returns (e: nat)
    requires Run(ws, steps) && f < k < |ws| && (forall t :: f < t <= k ==> ws[t].pass.Verifying?)
    requires ws[f + 1].pass.verdicts == map[] && id in ws[k].pass.verdicts
    ensures f < e < k && steps[e] == VerifyEvaluate(id)
    ensures ws[e].pass.Verifying? && id in ws[e].pass.captures && id in ws[e].pass.live
    ensures ws[k].pass.verdicts[id] == Evaluate(ws[e].disk, ws[e].pass.captures[id], ws[e].pass.live[id], AttachmentsFor(ws[e].db, id))
  {
    hide Enabled, Apply, Init, Evaluate;
    var w, step := ws[k - 1], steps[k - 1];
    PassAfter(w, step);
    if InVerify(step) { VerdictInLane(w, step, id); }
    if step == VerifyEvaluate(id) && w.pass.Verifying? && id in w.pass.captures && id in w.pass.live &&
       ws[k].pass.verdicts[id] == Evaluate(w.disk, w.pass.captures[id], w.pass.live[id], AttachmentsFor(w.db, id)) {
      e := k - 1;
    } else {
      e := JudgedAt(ws, steps, f, k - 1, id);
    }
  }

  /** What the log says of a verification, some step of the run did. */
  lemma {:induction false} PromotedAt(ws: seq<World>, steps: seq<Step>, k: nat, at: nat) returns (v: nat)
    requires Run(ws, steps) && k < |ws| && at < |ws[k].log| && ws[k].log[at].DidVerify?
    ensures v < k && |ws[v].log| == at && |ws[v + 1].log| == at + 1 && Promotes(ws[v], steps[v], ws[k].log[at])
  {
    hide Enabled, Apply, Promotes;
    var w := ws[k - 1];
    StepFrame(w, steps[k - 1]);
    if at < |w.log| {
      assert w.log[at] == ws[k].log[at];
      v := PromotedAt(ws, steps, k - 1, at);
    } else {
      VerifyIsLogged(w, steps[k - 1]);
      v := k - 1;
    }
  }

  /** A capture nothing on record has touched is the same at every point between. */
  lemma {:induction false} CaptureUnbroken(ws: seq<World>, steps: seq<Step>, v: nat, t: nat, j: nat, id: ItemId)
    requires Run(ws, steps) && v < t <= j < |ws|
    requires id in ws[v + 1].db.rows && ws[v + 1].db.rows[id].state != Live
    requires forall n :: |ws[v + 1].log| <= n < |ws[j].log| ==> !TouchesCapture(ws[j].log[n], id)
    ensures CaptureKept(ws[v + 1].db, ws[t].db, id)
  {
    hide Enabled, Apply, Init;
    if v + 1 < t {
      CaptureUnbroken(ws, steps, v, t - 1, j, id);
      CaptureOrReset(ws[t - 1], steps[t - 1], id);
      LogOnlyGrows(ws, steps, t, j);
      LogOnlyGrows(ws, steps, v + 1, t - 1);
    }
  }

  // ------------------------------------------------------------ main results

  /** The steps of the run that earned a delete, in order: the verifier's fetch,
      its judgement and its promotion; the rails, the selection, the second
      reading of the copy and the second fetch. */
  datatype Grounds = Grounds(fetched: nat, judged: nat, promoted: nat, cleared: nat, selected: nat, reread: nat, refetched: nat)

  /** The verification: the changekey the mailbox reported and the file on disk
      were those of this capture. */
  ghost predicate VerifiedBy(ws: seq<World>, steps: seq<Step>, g: Grounds, id: ItemId, sha: Sha, ck: Option<string>) {
    && g.fetched < g.judged < g.promoted < |steps| < |ws|
    && Usable(ck)
    && steps[g.fetched].VerifyStart? && id in steps[g.fetched].answered
    && id in ws[g.fetched].exchange && ws[g.fetched].exchange[id] == ck
    && steps[g.judged] == VerifyEvaluate(id) && GoodMime(ws[g.judged].disk, sha)
    && steps[g.promoted] == VerifyApply(id)
  }

  /** The pass that deleted it: no rail held when it was cleared, the row was
      as old in days as the settings ask when it was selected, and the copy and the changekey were
      checked again after that. */
  ghost predicate RecheckedBy(ws: seq<World>, steps: seq<Step>, g: Grounds, j: nat, id: ItemId, sha: Sha, ck: Option<string>) {
    && g.cleared < g.selected < g.reread < g.refetched < j < |steps| < |ws|
    && steps[g.cleared].DeleteClear? && steps[g.selected].DeleteSelect? && id in steps[g.selected].ids
    && id in ws[g.selected].db.rows
    && var c := steps[g.cleared];
    && var p := FromSettings(c.settings, c.before);
    && c.settings.deleteEnabled && !Holds(BackupState(p, c.stamped, ws[g.cleared].clock))
    && ws[g.selected].db.rows[id].state == Verified && ws[g.selected].db.rows[id].mirror.dateTs.Some?
    && Aged(c.settings, c.before, ws[g.selected].clock, ws[g.selected].db.rows[id].mirror.dateTs.value)
    && steps[g.reread].DeleteCheck? && steps[g.reread].id == id && GoodMime(ws[g.reread].disk, sha)
    && steps[g.refetched].DeleteFetch? && id in steps[g.refetched].answered
    && id in ws[g.refetched].exchange && ws[g.refetched].exchange[id] == ck
  }

  /** From the promotion to the delete the row names one capture, and at least
      the grace period passes before the selection. */
  ghost predicate WaitedFor(ws: seq<World>, steps: seq<Step>, g: Grounds, j: nat, id: ItemId, sha: Sha, ck: Option<string>)
    requires g.promoted < g.selected && g.cleared < |steps| && steps[g.cleared].DeleteClear? && g.selected < |ws|
  {
    && ws[g.promoted].clock + Max(1, steps[g.cleared].settings.graceDays) * DAY <= ws[g.selected].clock
    && forall t :: g.promoted < t <= j < |ws| ==>
         id in ws[t].db.rows && ws[t].db.rows[id].sha == Some(sha) && ws[t].db.rows[id].capturedCk == ck
  }

  lemma ClearIs(w: World, step: Step)
    requires Enabled(w, step) && step.DeleteClear?
    ensures var p := FromSettings(step.settings, step.before);
            && step.settings.deleteEnabled && !Holds(BackupState(p, step.stamped, w.clock))
            && Apply(w, step).pass == Cleared(p, BackupState(p, step.stamped, w.clock), w.clock)
  {
    hide BackupState, Holds, ApplyCapture, ApplyVerify, CaptureEnabled, VerifyEnabled;
  }

  lemma SelectIs(w: World, step: Step, id: ItemId, s: Settings, before: Option<int>)
    requires Enabled(w, step) && step.DeleteSelect? && id in step.ids
    requires w.pass.Cleared? ==> w.pass.policy == FromSettings(s, before)
    ensures w.pass.Cleared? && id in w.db.rows
    ensures w.db.rows[id].state == Verified && w.db.rows[id].mirror.dateTs.Some?
    ensures Aged(s, before, w.clock, w.db.rows[id].mirror.dateTs.value)
  {
    hide DeleteCutoff, GraceInstant, ApplyCapture, ApplyVerify, CaptureEnabled, VerifyEnabled, Aged;
    assert Deletable(w.db.rows[id], DeleteCutoff(w.pass.policy, w.clock), GraceInstant(w.pass.policy, w.clock));
    AgedExactly(s, before, w.clock, w.db.rows[id].mirror.dateTs.value);
  }

  /** What a delete step relies on, by the invariant. */
  lemma DeleteRelies(w: World, id: ItemId)
    requires Inv(w) && Enabled(w, DeleteItem(id))
    ensures Answered(w, id) && w.pass.seen[id] == w.pass.byId[id].capturedCk && Usable(w.pass.byId[id].capturedCk)
    ensures w.pass.byId[id].sha == Some(w.pass.checked[id])
    ensures id in w.proof && ProvedAt(w.log, w.proof[id], id, w.pass.byId[id])
    ensures w.log[w.proof[id]].at + w.pass.gate.policy.graceDays * DAY <= w.pass.gate.selectedAt
  {
    assert CandidateOk(w, id);
    hide Justified, SameCapture, GoodMime, ApplyCapture, CaptureEnabled, VerifyEnabled, DeleteCutoff;
  }

  lemma CheckedNamesTheRow(w: World, id: ItemId)
    requires Inv(w) && w.pass.Deleting? && id in w.pass.checked
    ensures id in w.pass.byId && w.pass.byId[id].sha == Some(w.pass.checked[id])
  {
    hide Justified, ProvedAt;
  }

  lemma RecheckedAt(ws: seq<World>, steps: seq<Step>, j: nat, id: ItemId) returns (g: Grounds)
    requires Run(ws, steps) && j < |steps| && steps[j] == DeleteItem(id)
    ensures Answered(ws[j], id) && ws[j].pass.byId[id].sha.Some?
    ensures RecheckedBy(ws, steps, g, j, id, ws[j].pass.byId[id].sha.value, ws[j].pass.byId[id].capturedCk)
    ensures ws[j].pass.gate.selectedAt == ws[g.selected].clock
    ensures ws[j].pass.gate.policy == FromSettings(steps[g.cleared].settings, steps[g.cleared].before)
  {
    hide Enabled, Apply, Init, Inv, Aged, GoodMime, BackupState, Holds;
    RunKeeps(ws, steps, j);
    DeleteRelies(ws[j], id);
    var s := SelectedAt(ws, steps, j, id);
    var b := ClearedAt(ws, steps, s);
    var f := SeenAt(ws, steps, s, j, id);
    var c := CheckedAt(ws, steps, s, f, id);
    RunKeeps(ws, steps, f);
    CheckedNamesTheRow(ws[f], id);
    ClearIs(ws[b], steps[b]);
    SelectIs(ws[s], steps[s], id, steps[b].settings, steps[b].before);
    g := Grounds(0, 0, 0, b, s, c, f);
  }

  lemma PromotionIs(ws: seq<World>, steps: seq<Step>, k: nat, at: nat, e: Event) returns (g: Grounds)
    requires Run(ws, steps) && k < |ws| && at < |ws[k].log| && ws[k].log[at] == e && e.DidVerify?
    requires e.hashed == e.sha && e.live == e.ck && Usable(e.ck)
    ensures VerifiedBy(ws, steps, g, e.id, e.sha, e.ck) && g.promoted < k
    ensures |ws[g.promoted].log| == at && |ws[g.promoted + 1].log| == at + 1 && ws[g.promoted].clock == e.at
    ensures InState(ws[g.promoted + 1].db, e.id, Verified)
    ensures ws[g.promoted + 1].db.rows[e.id].sha == Some(e.sha) && ws[g.promoted + 1].db.rows[e.id].capturedCk == e.ck
  {
    hide Enabled, Apply, Init, Evaluate, GoodMime;
    var v := PromotedAt(ws, steps, k, at);
    var f := LiveAt(ws, steps, v, e.id);
    var n := JudgedAt(ws, steps, f, v, e.id);
    PromoteExactly(ws[n].disk, ws[n].pass.captures[e.id], ws[n].pass.live[e.id], AttachmentsFor(ws[n].db, e.id));
    CopyFineExactly(ws[n].disk, ws[n].pass.captures[e.id].sha, AttachmentsFor(ws[n].db, e.id));
    g := Grounds(f, n, v, 0, 0, 0, 0);
  }

  /** Every hard delete was earned in its own run: an earlier verification of
      this very capture against the mailbox and the disk, a full grace period
      before the pass selected it, with the capture untouched ever since; no rail
      holding when the pass was cleared; and the copy and the changekey found the
      same again within the pass. */
  lemma EveryDeleteIsEarned(ws: seq<World>, steps: seq<Step>, j: nat, id: ItemId) returns (g: Grounds)
    requires Run(ws, steps) && j < |steps| && steps[j] == DeleteItem(id)
    ensures Answered(ws[j], id) && ws[j].pass.byId[id].sha.Some?
    ensures var sha, ck := ws[j].pass.byId[id].sha.value, ws[j].pass.byId[id].capturedCk;
            && VerifiedBy(ws, steps, g, id, sha, ck)
            && RecheckedBy(ws, steps, g, j, id, sha, ck)
            && g.promoted < g.selected && WaitedFor(ws, steps, g, j, id, sha, ck)
  {
    hide Enabled, Apply, Init, Inv, VerifiedBy, RecheckedBy, WaitedFor;
    var back := RecheckedAt(ws, steps, j, id);
    RunKeeps(ws, steps, j);
    DeleteRelies(ws[j], id);
    var sha, ck := ws[j].pass.byId[id].sha.value, ws[j].pass.byId[id].capturedCk;
    var first := ProvenAt(ws, steps, j, id);
    g := Grounds(first.fetched, first.judged, first.promoted, back.cleared, back.selected, back.reread, back.refetched);
    Joined(ws, steps, first, back, g, j, id, sha, ck);
  }

  /** The verification a delete rests on, and that its capture is unbroken. */
  lemma ProvenAt(ws: seq<World>, steps: seq<Step>, j: nat, id: ItemId) returns (g: Grounds)
    requires Run(ws, steps) && j < |steps| && steps[j] == DeleteItem(id) && Inv(ws[j])
    ensures Answered(ws[j], id) && ws[j].pass.byId[id].sha.Some?
    ensures VerifiedBy(ws, steps, g, id, ws[j].pass.byId[id].sha.value, ws[j].pass.byId[id].capturedCk) && g.promoted < j
    ensures ws[g.promoted].clock + ws[j].pass.gate.policy.graceDays * DAY <= ws[j].pass.gate.selectedAt
    ensures forall t :: g.promoted < t <= j ==>
              id in ws[t].db.rows && ws[t].db.rows[id].sha == ws[j].pass.byId[id].sha &&
              ws[t].db.rows[id].capturedCk == ws[j].pass.byId[id].capturedCk
  {
    hide Enabled, Apply, Init, Inv, VerifiedBy;
    DeleteRelies(ws[j], id);
    var at := ws[j].proof[id];
    var e := ws[j].log[at];
    g := PromotionIs(ws, steps, j, at, e);
    UnbrokenSince(ws, steps, g.promoted, j, id);
  }

  lemma UnbrokenSince(ws: seq<World>, steps: seq<Step>, v: nat, j: nat, id: ItemId)
    requires Run(ws, steps) && v < j < |ws|
    requires id in ws[v + 1].db.rows && ws[v + 1].db.rows[id].state != Live
    requires forall n :: |ws[v + 1].log| <= n < |ws[j].log| ==> !TouchesCapture(ws[j].log[n], id)
    ensures forall t :: v < t <= j ==> CaptureKept(ws[v + 1].db, ws[t].db, id)
  {
    hide Run, CaptureKept, TouchesCapture;
    forall t | v < t <= j ensures CaptureKept(ws[v + 1].db, ws[t].db, id) {
      CaptureUnbroken(ws, steps, v, t, j, id);
    }
  }

  /** The two halves, put together: the wait puts the promotion before the selection. */
  lemma Joined(ws: seq<World>, steps: seq<Step>, first: Grounds, back: Grounds, g: Grounds, j: nat, id: ItemId, sha: Sha,
               ck: Option<string>)
    requires Run(ws, steps)
    requires g == Grounds(first.fetched, first.judged, first.promoted, back.cleared, back.selected, back.reread, back.refetched)
    requires VerifiedBy(ws, steps, first, id, sha, ck) && RecheckedBy(ws, steps, back, j, id, sha, ck)
    requires ws[first.promoted].clock + Max(1, steps[back.cleared].settings.graceDays) * DAY <= ws[back.selected].clock
    requires forall t :: first.promoted < t <= j ==>
               id in ws[t].db.rows && ws[t].db.rows[id].sha == Some(sha) && ws[t].db.rows[id].capturedCk == ck
    ensures VerifiedBy(ws, steps, g, id, sha, ck) && RecheckedBy(ws, steps, g, j, id, sha, ck)
    ensures g.promoted < g.selected && WaitedFor(ws, steps, g, j, id, sha, ck)
  {
    hide Run, Aged, BackupState, Holds, GoodMime;
    if back.selected <= first.promoted { ClockIsMonotone(ws, steps, back.selected, first.promoted); }
  }
}
