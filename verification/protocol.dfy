/**
 The archive pipeline as one state machine over three stores that drift apart:
 Exchange, the database and the content-addressed disk.

 One lane at a time holds the runner lock (`pass`); the sync engine, the tools,
 the mailbox owner, the clock and disk damage interleave with every step of it,
 and a crash may end the lane between any two of its steps.
 */
module ArchiveProtocol {
  import opened Mail
  import opened Store
  import opened Copies
  import opened ArchivePolicy

  // ------------------------------------------------------------------- state

  /** What one capture fetch returned for an item. */
  datatype Fetched = Fetched(ck: Option<string>, mime: Bytes, parts: seq<(Attachment, Bytes)>)

  /** The rails a delete pass checked: the switch and the backup when it was
      cleared to run, the cutoffs when it selected its candidates. */
  datatype Gate = Gate(policy: Policy, backup: Backup, clearedAt: int, selectedAt: int)

  /** The lane holding the lock, with everything it keeps in memory. */
  datatype Pass =
    | Idle
    | Capturing(fetched: map<ItemId, Fetched>, stored: set<ItemId>, marked: set<ItemId>)
    | Verifying(captures: map<ItemId, Row>, live: map<ItemId, Option<string>>, verdicts: map<ItemId, Verdict>)
    | Cleared(policy: Policy, backup: Backup, clearedAt: int)
    | Deleting(gate: Gate, byId: map<ItemId, Row>, checked: map<ItemId, Sha>,
               seen: map<ItemId, Option<string>>, pending: set<ItemId>)
    | Collecting(keepMime: set<Sha>, keepBlobs: set<Sha>)

  /** What really happened to a message, in order.  History only: no step reads it. */
  datatype Event =
    | DidCapture(id: ItemId, sha: Sha, ck: Option<string>)
    | DidVerify(id: ItemId, sha: Sha, ck: Option<string>, live: Option<string>, hashed: Sha, at: int)
    | DidDemote(id: ItemId)
    | DidReset(id: ItemId)
    | DidDelete(id: ItemId, row: Row, live: Option<string>, hashed: Sha, gate: Gate, at: int)

  datatype World = World(
    exchange: map<ItemId, Option<string>>,  // items in the mailbox and the changekey each reports
    db: Db,
    disk: Disk,
    clock: int,
    pass: Pass,
    purged: map<ItemId, Sha>,               // items the deleter removed, with the digest it relied on
    proof: map<ItemId, nat>,                // where in the log a row's current verification stands
    log: seq<Event>)

  // ------------------------------------------------------------------- steps

  datatype Step =
    // the capture lane
    | CaptureStart(items: map<ItemId, Fetched>)
    | CaptureStore(id: ItemId, files: nat)
    | CaptureMark(id: ItemId)
    | CaptureInventory(id: ItemId)
    | CaptureUndo(id: ItemId)
    // the verify lane
    | VerifyStart(ids: set<ItemId>, answered: set<ItemId>)
    | VerifyEvaluate(id: ItemId)
    | VerifyApply(id: ItemId)
    // the delete lane
    | DeleteClear(settings: Settings, before: Option<int>, stamped: Option<int>)
    | DeleteSelect(ids: set<ItemId>)
    | DeleteCheck(id: ItemId, recorded: bool)
    | DeleteFetch(answered: set<ItemId>)
    | DeleteItem(id: ItemId)
    | DeleteStale(id: ItemId)
    | DeletePersist
    // the orphan sweep
    | CollectStart
    | CollectMime(sha: Sha)
    | CollectBlob(sha: Sha)
    // a lane ends, or the process dies
    | PassEnds
    // everyone who does not take the lock
    | SyncUpsert(id: ItemId, mirror: Mirror)
    | SyncReadFlag(id: ItemId, isRead: bool)
    | ServerDeletes(ids: set<ItemId>)
    | FolderVanishes(folder: string)
    | MailArrives(id: ItemId, ck: Option<string>)
    | OwnerEdits(id: ItemId, ck: Option<string>)
    | OwnerDeletes(id: ItemId)
    | MimeDamaged(sha: Sha, now: Option<Bytes>)
    | BlobDamaged(sha: Sha, now: Option<Bytes>)
    | ToolCachesMime(data: Bytes)
    | Tick(elapsed: nat)

  function InventoryOf(f: Fetched): seq<Attachment> {
    seq(|f.parts|, k requires 0 <= k < |f.parts| => f.parts[k].0)
  }

  /** Files one capture writes, in order: the MIME first, then each blob. */
  function WriteFiles(d: Disk, f: Fetched, n: nat): Disk
    decreases n
  {
    if n == 0 then d
    else
      var before := WriteFiles(d, f, n - 1);
      if n == 1 then before.(mime := before.mime[Hash(f.mime) := f.mime])
      else if n - 2 < |f.parts| && f.parts[n - 2].0.sha.Some?
      then before.(blobs := before.blobs[Hash(f.parts[n - 2].1) := f.parts[n - 2].1])
      else before
  }

  function FileCount(f: Fetched): nat { 1 + |f.parts| }

  /** The inventory a capture records names the bytes it wrote. */
  predicate Faithful(f: Fetched) {
    forall k :: 0 <= k < |f.parts| && f.parts[k].0.sha.Some? ==>
      f.parts[k].0.sha == Some(Hash(f.parts[k].1)) && f.parts[k].0.size == Some(|f.parts[k].1|)
  }

  /** Digests whose .eml the environment is trusted with: what the deleter has
      just checked and is about to act on, and what is the only copy left. */
  predicate Entrusted(w: World, s: Sha) {
    || (exists i :: i in w.purged && w.purged[i] == s)
    || (w.pass.Deleting? && exists i :: i in w.pass.checked && w.pass.checked[i] == s)
  }

  predicate CanCheck(w: World, id: ItemId) {
    w.pass.Deleting? && id in w.pass.byId && id !in w.pass.checked
  }

  /** A candidate whose copy passed and whose re-fetch came back. */
  predicate Answered(w: World, id: ItemId) {
    w.pass.Deleting? && id in w.pass.byId && id in w.pass.checked && id in w.pass.seen
  }

  /** The changekey rail: a mismatch, or either side missing. */
  predicate StaleChangekey(w: World, id: ItemId)
    requires Answered(w, id)
  {
    !Usable(w.pass.byId[id].capturedCk) || !Usable(w.pass.seen[id]) || w.pass.seen[id] != w.pass.byId[id].capturedCk
  }

  // Who takes a step; each lane has its own rules and effects.

  predicate InCapture(step: Step) {
    step.CaptureStart? || step.CaptureStore? || step.CaptureMark? || step.CaptureInventory? || step.CaptureUndo?
  }

  predicate InVerify(step: Step) {
    step.VerifyStart? || step.VerifyEvaluate? || step.VerifyApply?
  }

  predicate InDelete(step: Step) {
    step.DeleteClear? || step.DeleteSelect? || step.DeleteCheck? || step.DeleteFetch? || step.DeleteItem? ||
    step.DeleteStale? || step.DeletePersist?
  }

  predicate InCollect(step: Step) {
    step.CollectStart? || step.CollectMime? || step.CollectBlob?
  }

  /** Steps of the lock-free writers of the store. */
  predicate ByWriters(step: Step) {
    step.SyncUpsert? || step.SyncReadFlag? || step.ServerDeletes? || step.FolderVanishes?
  }

  /** Steps of the mailbox's owner. */
  predicate ByOwner(step: Step) {
    step.MailArrives? || step.OwnerEdits? || step.OwnerDeletes?
  }

  predicate CaptureEnabled(w: World, step: Step)
    requires InCapture(step)
  {
    match step
    case CaptureStart(items) =>
      w.pass.Idle? && forall i :: i in items ==>
        Faithful(items[i]) && i in w.exchange && items[i].ck == w.exchange[i]
    case CaptureStore(id, files) =>
      w.pass.Capturing? && id in w.pass.fetched && files <= FileCount(w.pass.fetched[id])
    case CaptureMark(id) =>
      w.pass.Capturing? && id in w.pass.stored && id in w.pass.fetched && InState(w.db, id, Live)
    case CaptureInventory(id) =>
      w.pass.Capturing? && id in w.pass.marked && id in w.pass.fetched && id in w.db.rows
    case CaptureUndo(id) =>
      w.pass.Capturing? && id in w.pass.marked
  }

  predicate VerifyEnabled(w: World, step: Step)
    requires InVerify(step)
  {
    match step
    case VerifyStart(ids, answered) =>
      w.pass.Idle? && answered <= ids && answered <= w.exchange.Keys &&
      forall i :: i in ids ==> InState(w.db, i, Captured)
    case VerifyEvaluate(id) =>
      w.pass.Verifying? && id in w.pass.captures && id in w.pass.live
    case VerifyApply(id) =>
      w.pass.Verifying? && id in w.pass.verdicts && id in w.pass.captures && id in w.pass.live
  }

  predicate DeleteEnabled(w: World, step: Step)
    requires InDelete(step)
  {
    match step
    case DeleteClear(settings, before, stamped) =>
      var p := FromSettings(settings, before);
      w.pass.Idle? && p.deleteEnabled && !Holds(BackupState(p, stamped, w.clock))
    case DeleteSelect(ids) =>
      w.pass.Cleared? &&
      forall i :: i in ids ==>
        i in w.db.rows &&
        Deletable(w.db.rows[i], DeleteCutoff(w.pass.policy, w.clock), GraceInstant(w.pass.policy, w.clock))
    case DeleteCheck(id, _) =>
      CanCheck(w, id)
    case DeleteFetch(answered) =>
      w.pass.Deleting? && answered <= w.pass.checked.Keys && answered <= w.exchange.Keys
    case DeleteItem(id) =>
      Answered(w, id) && !StaleChangekey(w, id) && id in w.exchange
    case DeleteStale(id) =>
      Answered(w, id) && StaleChangekey(w, id)
    case DeletePersist => w.pass.Deleting?
  }

  predicate CollectEnabled(w: World, step: Step)
    requires InCollect(step)
  {
    match step
    case CollectStart => w.pass.Idle?
    case CollectMime(sha) => w.pass.Collecting? && sha !in w.pass.keepMime
    case CollectBlob(sha) => w.pass.Collecting? && sha !in w.pass.keepBlobs
  }

  predicate OwnerEnabled(w: World, step: Step)
    requires ByOwner(step)
  {
    match step
    case MailArrives(id, _) => id !in w.exchange && id !in w.purged
    case OwnerEdits(id, _) => id in w.exchange
    case OwnerDeletes(id) => id in w.exchange
  }

  predicate Enabled(w: World, step: Step) {
    if InCapture(step) then CaptureEnabled(w, step)
    else if InVerify(step) then VerifyEnabled(w, step)
    else if InDelete(step) then DeleteEnabled(w, step)
    else if InCollect(step) then CollectEnabled(w, step)
    else if ByOwner(step) then OwnerEnabled(w, step)
    else step.MimeDamaged? ==> !Entrusted(w, step.sha)
  }

  function Lost<K, V>(m: map<K, V>, k: K, now: Option<V>): map<K, V> {
    if now.Some? then m[k := now.value] else m - {k}
  }

  function MimeRoots(db: Db): set<Sha> {
    set i | i in db.rows && db.rows[i].sha.Some? :: db.rows[i].sha.value
  }

  function BlobRoots(db: Db): set<Sha> {
    set i, k | i in db.atts && 0 <= k < |db.atts[i]| && db.atts[i][k].sha.Some? :: db.atts[i][k].sha.value
  }

  function ApplyCapture(w: World, step: Step): World
    requires InCapture(step) && CaptureEnabled(w, step)
  {
    match step
    case CaptureStart(items) => w.(pass := Capturing(items, {}, {}))
    case CaptureStore(id, files) =>
      var f := w.pass.fetched[id];
      w.(disk := WriteFiles(w.disk, f, files),
         pass := if files == FileCount(f) then w.pass.(stored := w.pass.stored + {id}) else w.pass)
    case CaptureMark(id) =>
      var f := w.pass.fetched[id];
      w.(db := MarkCaptured(w.db, id, Hash(f.mime), f.ck),
         pass := w.pass.(stored := w.pass.stored - {id}, marked := w.pass.marked + {id}),
         log := w.log + [DidCapture(id, Hash(f.mime), f.ck)])
    case CaptureInventory(id) =>
      w.(db := ReplaceAttachments(w.db, id, InventoryOf(w.pass.fetched[id])),
         pass := w.pass.(marked := w.pass.marked - {id}))
    case CaptureUndo(id) =>
      w.(db := ResetToLive(w.db, id),
         pass := w.pass.(marked := w.pass.marked - {id}),
         log := if InState(w.db, id, Captured) then w.log + [DidReset(id)] else w.log)
  }

  function ApplyVerify(w: World, step: Step): World
    requires InVerify(step) && VerifyEnabled(w, step)
  {
    match step
    case VerifyStart(ids, answered) =>
      w.(pass := Verifying(map i | i in ids :: w.db.rows[i], map i | i in answered :: w.exchange[i], map[]))
    case VerifyEvaluate(id) =>
      w.(pass := w.pass.(verdicts := w.pass.verdicts[id :=
           Evaluate(w.disk, w.pass.captures[id], w.pass.live[id], AttachmentsFor(w.db, id))]))
    case VerifyApply(id) => ApplyVerdict(w, id)
  }

  function ApplyDelete(w: World, step: Step): World
    requires InDelete(step) && DeleteEnabled(w, step)
  {
    match step
    case DeleteClear(settings, before, stamped) =>
      var p := FromSettings(settings, before);
      w.(pass := Cleared(p, BackupState(p, stamped, w.clock), w.clock))
    case DeleteSelect(ids) => Selected(w, ids)
    case DeleteCheck(id, recorded) => CheckCopy(w, id, recorded)
    case DeleteFetch(answered) =>
      Refetched(w, map i | i in answered :: w.exchange[i])
    case DeleteItem(id) => DeleteOne(w, id)
    case DeleteStale(id) => Requeue(w, id)
    case DeletePersist => Persisted(w)
  }

  function ApplyCollect(w: World, step: Step): World
    requires InCollect(step) && CollectEnabled(w, step)
  {
    match step
    case CollectStart => w.(pass := Collecting(MimeRoots(w.db), BlobRoots(w.db)))
    case CollectMime(sha) => w.(disk := w.disk.(mime := w.disk.mime - {sha}))
    case CollectBlob(sha) => w.(disk := w.disk.(blobs := w.disk.blobs - {sha}))
  }

  /** What a lock-free writer makes of the store. */
  function Written(db: Db, step: Step): Db
    requires ByWriters(step)
  {
    match step
    case SyncUpsert(id, m) => Upsert(db, id, m)
    case SyncReadFlag(id, b) => SetReadFlag(db, id, b)
    case ServerDeletes(ids) => ApplyServerDeletes(db, ids)
    case FolderVanishes(folder) => DeleteLiveInFolder(db, folder)
  }

  /** What the owner makes of the mailbox. */
  function Mailbox(exchange: map<ItemId, Option<string>>, step: Step): map<ItemId, Option<string>>
    requires ByOwner(step)
  {
    match step
    case MailArrives(id, ck) => exchange[id := ck]
    case OwnerEdits(id, ck) => exchange[id := ck]
    case OwnerDeletes(id) => exchange - {id}
  }

  function Apply(w: World, step: Step): World
    requires Enabled(w, step)
  {
    if InCapture(step) then ApplyCapture(w, step)
    else if InVerify(step) then ApplyVerify(w, step)
    else if InDelete(step) then ApplyDelete(w, step)
    else if InCollect(step) then ApplyCollect(w, step)
    else if ByWriters(step) then w.(db := Written(w.db, step))
    else if ByOwner(step) then w.(exchange := Mailbox(w.exchange, step))
    else match step
      case PassEnds => w.(pass := Idle)
      case MimeDamaged(sha, now) => w.(disk := w.disk.(mime := Lost(w.disk.mime, sha, now)))
      case BlobDamaged(sha, now) => w.(disk := w.disk.(blobs := Lost(w.disk.blobs, sha, now)))
      case ToolCachesMime(data) => w.(disk := w.disk.(mime := w.disk.mime[Hash(data) := data]))
      case Tick(elapsed) => w.(clock := w.clock + elapsed)
  }

  function Demote(w: World, id: ItemId): World {
    w.(db := DemoteToCaptured(w.db, id),
       log := if InState(w.db, id, Verified) then w.log + [DidDemote(id)] else w.log)
  }

  function ApplyVerdict(w: World, id: ItemId): World
    requires w.pass.Verifying? && id in w.pass.verdicts && id in w.pass.captures && id in w.pass.live
  {
    var c := w.pass.captures[id];
    var w' := w.(pass := w.pass.(verdicts := w.pass.verdicts - {id}, captures := w.pass.captures - {id}));
    match w.pass.verdicts[id]
    case Failed => w'
    case Mismatch(_) =>
      w'.(db := ResetToLive(w.db, id),
          log := if InState(w.db, id, Captured) then w.log + [DidReset(id)] else w.log)
    case Promote(hashed) =>
      if InState(w.db, id, Captured) && w.db.rows[id].sha.Some?
      then w'.(db := MarkVerified(w.db, id, w.clock),
               proof := w.proof[id := |w.log|],
               log := w.log + [DidVerify(id, w.db.rows[id].sha.value, w.db.rows[id].capturedCk,
                                         w.pass.live[id], hashed, w.clock)])
      else w'.(db := MarkVerified(w.db, id, w.clock))
  }

  /** The last-mile disk check: a copy that fails it leaves the batch, and its
      row goes back to `captured` unless even that write fails. */
  function CheckCopy(w: World, id: ItemId, recorded: bool): World
    requires w.pass.Deleting? && id in w.pass.byId
  {
    match CopyProblem(w.disk, w.pass.byId[id].sha, AttachmentsFor(w.db, id))
    case Fine(hashed) => w.(pass := w.pass.(checked := w.pass.checked[id := hashed]))
    case _ =>
      var w' := w.(pass := w.pass.(byId := w.pass.byId - {id}));
      if recorded then Demote(w', id) else w'
  }

  function Selected(w: World, ids: set<ItemId>): World
    requires w.pass.Cleared? && forall i :: i in ids ==> i in w.db.rows
  {
    w.(pass := Deleting(Gate(w.pass.policy, w.pass.backup, w.pass.clearedAt, w.clock),
                        map i | i in ids :: w.db.rows[i], map[], map[], {}))
  }

  function Refetched(w: World, seen: map<ItemId, Option<string>>): World
    requires w.pass.Deleting?
  {
    w.(pass := w.pass.(seen := seen))
  }

  function Persisted(w: World): World
    requires w.pass.Deleting?
  {
    w.(db := MarkDeleted(w.db, w.pass.pending), pass := w.pass.(pending := {}))
  }

  /** A stale changekey sends the row back to the verifier. */
  function Requeue(w: World, id: ItemId): World
    requires w.pass.Deleting?
  {
    Demote(w.(pass := w.pass.(byId := w.pass.byId - {id}, checked := w.pass.checked - {id})), id)
  }

  function DeleteOne(w: World, id: ItemId): World
    requires Answered(w, id)
  {
    w.(exchange := w.exchange - {id},
       purged := w.purged[id := w.pass.checked[id]],
       pass := w.pass.(byId := w.pass.byId - {id}, checked := w.pass.checked - {id},
                       pending := w.pass.pending + {id}),
       log := w.log + [DidDelete(id, w.pass.byId[id], w.pass.seen[id], w.pass.checked[id],
                                 w.pass.gate, w.clock)])
  }

  // -------------------------------------------------------------- invariant

  /** Mail the deleter removed: its row, its digest and its .eml are all there,
      and it is not in the mailbox any more. */
  ghost predicate PurgedSafe(w: World) {
    forall i :: i in w.purged ==>
      && i !in w.exchange
      && i in w.db.rows
      && w.db.rows[i].state != Live
      && w.db.rows[i].sha == Some(w.purged[i])
      && GoodMime(w.disk, w.purged[i])
  }

  ghost predicate TouchesCapture(e: Event, id: ItemId) {
    e.id == id && !e.DidDelete?
  }

  /** `log[at]` verified this very capture, and nothing has redone or undone it since. */
  ghost predicate ProvedAt(log: seq<Event>, at: nat, id: ItemId, r: Row) {
    && at < |log|
    && log[at].DidVerify? && log[at].id == id
    && r.sha == Some(log[at].sha) && r.capturedCk == log[at].ck
    && log[at].hashed == log[at].sha && log[at].live == log[at].ck && Usable(log[at].ck)
    && r.verifiedAt == Some(log[at].at) && 0 < log[at].at
    && forall k :: at < k < |log| ==> !TouchesCapture(log[k], id)
  }

  ghost predicate VerifiedProved(w: World) {
    forall i :: i in w.db.rows && w.db.rows[i].state == Verified ==>
      i in w.proof && ProvedAt(w.log, w.proof[i], i, w.db.rows[i])
  }

  /** The row is still the capture (or verification) the lane read. */
  predicate SameCapture(db: Db, id: ItemId, r: Row, s: ArchiveState) {
    && id in db.rows && db.rows[id].sha == r.sha && db.rows[id].capturedCk == r.capturedCk
    && (db.rows[id].state == s || db.rows[id].state == Deleted)
  }

  ghost predicate CapturePassOk(w: World) {
    w.pass.Capturing? ==> forall i :: i in w.pass.marked ==> i !in w.purged
  }

  ghost predicate VerifyPassOk(w: World) {
    w.pass.Verifying? ==>
      && (forall i :: i in w.pass.captures ==> SameCapture(w.db, i, w.pass.captures[i], Captured))
      && (forall i :: i in w.pass.live ==> i !in w.purged)
      && (forall i :: i in w.pass.verdicts ==> i in w.pass.live)
      && (forall i :: i in w.pass.verdicts && i in w.pass.captures && w.pass.verdicts[i].Promote? ==>
            && w.pass.captures[i].sha == Some(w.pass.verdicts[i].hashed)
            && Usable(w.pass.live[i]) && w.pass.live[i] == w.pass.captures[i].capturedCk)
  }

  ghost predicate ClearOk(w: World) {
    w.pass.Cleared? ==>
      w.pass.policy.deleteEnabled && 1 <= w.pass.policy.graceDays && !Holds(w.pass.backup) && w.pass.clearedAt <= w.clock
  }

  ghost predicate GateOk(g: Gate, clock: int) {
    && g.policy.deleteEnabled && 1 <= g.policy.graceDays && !Holds(g.backup)
    && g.clearedAt <= g.selectedAt <= clock
  }

  /** Every candidate was deletable when the pass selected it and its proof is
      already old enough. */
  ghost predicate CandidateOk(w: World, i: ItemId) {
    && w.pass.Deleting? && i in w.pass.byId
    && SameCapture(w.db, i, w.pass.byId[i], Verified)
    && i in w.proof && ProvedAt(w.log, w.proof[i], i, w.pass.byId[i])
    && w.log[w.proof[i]].at + w.pass.gate.policy.graceDays * DAY <= w.pass.gate.selectedAt
    && w.pass.byId[i].mirror.dateTs.Some?
    && w.pass.byId[i].mirror.dateTs.value <= DeleteCutoff(w.pass.gate.policy, w.pass.gate.selectedAt)
  }

  ghost predicate DeletePassOk(w: World) {
    w.pass.Deleting? ==>
      && GateOk(w.pass.gate, w.clock)
      && (forall i :: i in w.pass.byId ==> CandidateOk(w, i))
      && (forall i :: i in w.pass.checked ==>
            i in w.pass.byId && w.pass.byId[i].sha == Some(w.pass.checked[i]) && GoodMime(w.disk, w.pass.checked[i]))
  }

  /** The keep-set a sweep read once stays an upper bound on what is referenced. */
  ghost predicate CollectPassOk(w: World) {
    w.pass.Collecting? ==>
      && (forall s :: MimeReferenced(w.db, s) ==> s in w.pass.keepMime)
      && (forall s :: BlobReferenced(w.db, s) ==> s in w.pass.keepBlobs)
  }

  /** A hard delete and the history that earned it. */
  ghost predicate Justified(log: seq<Event>, j: nat) {
    && j < |log| && log[j].DidDelete?
    && var d := log[j];
    && d.gate.policy.deleteEnabled && !Holds(d.gate.backup) && 1 <= d.gate.policy.graceDays
    && d.gate.clearedAt <= d.gate.selectedAt <= d.at
    && d.row.mirror.dateTs.Some?
    && d.row.mirror.dateTs.value <= DeleteCutoff(d.gate.policy, d.gate.selectedAt)
    && Usable(d.live) && d.live == d.row.capturedCk
    && d.row.sha == Some(d.hashed)
    && exists i :: VerifiedThen(log, i, j)
  }

  /** `log[i]` verified exactly the capture `log[j]` deleted, a full grace period
      before the pass began, and nothing touched that capture in between. */
  ghost predicate VerifiedThen(log: seq<Event>, i: nat, j: nat)
    requires j < |log| && log[j].DidDelete?
  {
    && i < j
    && log[i].DidVerify? && log[i].id == log[j].id
    && log[j].row.sha == Some(log[i].sha) && log[i].hashed == log[i].sha
    && log[j].row.capturedCk == log[i].ck && log[i].live == log[i].ck
    && log[i].at + log[j].gate.policy.graceDays * DAY <= log[j].gate.selectedAt
    && forall k :: i < k < j ==> !TouchesCapture(log[k], log[j].id)
  }

  ghost predicate AllJustified(log: seq<Event>) {
    forall j :: 0 <= j < |log| && log[j].DidDelete? ==> Justified(log, j)
  }

  ghost predicate Inv(w: World) {
    && 0 < w.clock
    && PurgedSafe(w)
    && VerifiedProved(w)
    && CapturePassOk(w)
    && VerifyPassOk(w)
    && ClearOk(w)
    && DeletePassOk(w)
    && CollectPassOk(w)
    && AllJustified(w.log)
  }

  /** A fresh install: nothing archived yet, whatever the mailbox and disk hold. */
  ghost predicate Init(w: World) {
    && 0 < w.clock && w.pass.Idle? && w.purged == map[] && w.proof == map[] && w.log == []
    && w.db.atts == map[]
    && forall i :: i in w.db.rows ==> w.db.rows[i].state == Live && w.db.rows[i].sha == None
  }

  lemma InitKeeps(w: World)
    requires Init(w)
    ensures Inv(w)
  {
  }

  // ------------------------------------------------- each step keeps it

  /** A longer log keeps every proof whose capture the new events leave alone. */
  lemma ProofSurvives(log: seq<Event>, more: seq<Event>, at: nat, id: ItemId, r: Row)
    requires ProvedAt(log, at, id, r)
    requires forall k :: 0 <= k < |more| ==> !TouchesCapture(more[k], id)
    ensures ProvedAt(log + more, at, id, r)
  {
  }

  lemma JustificationSurvives(log: seq<Event>, e: Event)
    requires AllJustified(log)
    requires e.DidDelete? ==> Justified(log + [e], |log|)
    ensures AllJustified(log + [e])
  {
    var longer := log + [e];
    forall j | 0 <= j < |longer| && longer[j].DidDelete? ensures Justified(longer, j) {
      if j < |log| {
        assert log[j] == longer[j] && Justified(log, j);
        var i :| VerifiedThen(log, i, j);
        assert VerifiedThen(longer, i, j);
      }
    }
  }

  lemma LockFreeKeeps(w: World, db: Db)
    requires Inv(w) && LockFree(w.db, db)
    ensures Inv(w.(db := db))
  {
  }

  lemma MailboxKeeps(w: World, exchange: map<ItemId, Option<string>>)
    requires Inv(w) && forall i :: i in exchange ==> i !in w.purged
    ensures Inv(w.(exchange := exchange))
  {
  }

  lemma DiskKeeps(w: World, disk: Disk)
    requires Inv(w)
    requires forall s :: Entrusted(w, s) && GoodMime(w.disk, s) ==> GoodMime(disk, s)
    ensures Inv(w.(disk := disk))
  {
  }

  /** Writing files never turns a good one bad: a name only ever receives bytes
      that hash to it. */
  lemma {:induction false} WritesKeepGood(d: Disk, f: Fetched, n: nat, s: Sha)
    requires GoodMime(d, s)
    ensures GoodMime(WriteFiles(d, f, n), s)
  {
    if n > 0 { WritesKeepGood(d, f, n - 1, s); }
  }

  /** A sweep cannot unlink what anything still needs: the digests it may remove
      are unreferenced, so no purged row stands behind them. */
  lemma SweepSparesReferenced(w: World, sha: Sha)
    requires Inv(w) && w.pass.Collecting? && sha !in w.pass.keepMime
    ensures !MimeReferenced(w.db, sha) && !Entrusted(w, sha)
  {
  }

  lemma CaptureStoreKeeps(w: World, id: ItemId, n: nat)
    requires Inv(w) && Enabled(w, CaptureStore(id, n))
    ensures Inv(Apply(w, CaptureStore(id, n)))
  {
    var w' := Apply(w, CaptureStore(id, n));
    forall s | GoodMime(w.disk, s) ensures GoodMime(w'.disk, s) {
      WritesKeepGood(w.disk, w.pass.fetched[id], n, s);
    }
    DiskKeeps(w, w'.disk);
  }

  lemma CaptureMarkKeeps(w: World, id: ItemId)
    requires Inv(w) && Enabled(w, CaptureMark(id))
    ensures Inv(Apply(w, CaptureMark(id)))
  {
    var w' := Apply(w, CaptureMark(id));
    var e := DidCapture(id, Hash(w.pass.fetched[id].mime), w.pass.fetched[id].ck);
    JustificationSurvives(w.log, e);
    forall i | i in w'.db.rows && w'.db.rows[i].state == Verified
      ensures i in w.proof && ProvedAt(w'.log, w.proof[i], i, w'.db.rows[i])
    {
      ProofSurvives(w.log, [e], w.proof[i], i, w.db.rows[i]);
    }
  }

  lemma CaptureLaneKeeps(w: World, step: Step)
    requires Inv(w) && Enabled(w, step)
    requires InCapture(step)
    ensures Inv(Apply(w, step))
  {
    match step
    case CaptureStart(_) =>
    case CaptureStore(id, n) => CaptureStoreKeeps(w, id, n);
    case CaptureMark(id) => CaptureMarkKeeps(w, id);
    case CaptureInventory(id) =>
    case CaptureUndo(id) => ResetKeeps(w, id, Apply(w, step).pass);
  }

  /** Forgetting a capture is safe for any message the deleter has not removed. */
  lemma ResetKeeps(w: World, id: ItemId, pass: Pass)
    requires Inv(w) && id !in w.purged
    requires pass.Capturing? || pass.Verifying?
    requires CapturePassOk(w.(pass := pass)) && VerifyPassOk(w.(pass := pass))
    requires pass.Verifying? ==> id !in pass.captures
    ensures Inv(w.(pass := pass, db := ResetToLive(w.db, id),
                   log := if InState(w.db, id, Captured) then w.log + [DidReset(id)] else w.log))
  {
  }

  lemma EvaluateKeeps(w: World, id: ItemId)
    requires Inv(w) && Enabled(w, VerifyEvaluate(id))
    ensures Inv(Apply(w, VerifyEvaluate(id)))
  {
    hide Evaluate, CopyProblem, ApplyCapture, ApplyDelete, ApplyCollect, Written, Mailbox;
    PromoteExactly(w.disk, w.pass.captures[id], w.pass.live[id], AttachmentsFor(w.db, id));
  }

  lemma VerdictKeeps(w: World, id: ItemId)
    requires Inv(w) && Enabled(w, VerifyApply(id))
    ensures Inv(ApplyVerdict(w, id))
  {
    match w.pass.verdicts[id]
    case Failed =>
    case Mismatch(_) =>
      ResetKeeps(w, id, w.pass.(verdicts := w.pass.verdicts - {id}, captures := w.pass.captures - {id}));
    case Promote(_) => PromotionKeeps(w, id);
  }

  lemma VerifyLaneKeeps(w: World, step: Step)
    requires Inv(w) && Enabled(w, step)
    requires InVerify(step)
    ensures Inv(Apply(w, step))
  {
    if step.VerifyEvaluate? { EvaluateKeeps(w, step.id); }
    if step.VerifyApply? { VerdictKeeps(w, step.id); }
  }

  lemma PromotionKeeps(w: World, id: ItemId)
    requires Inv(w) && Enabled(w, VerifyApply(id)) && w.pass.verdicts[id].Promote?
    ensures Inv(ApplyVerdict(w, id))
  {
    PromotionProves(w, id);
    PromotionMovesNoOther(w, id);
    hide VerifiedProved, PurgedSafe, AllJustified, VerifyPassOk;
  }

  /** A promotion is the proof of its own row and disturbs no other. */
  lemma PromotionProves(w: World, id: ItemId)
    requires Inv(w) && Enabled(w, VerifyApply(id)) && w.pass.verdicts[id].Promote?
    ensures VerifiedProved(ApplyVerdict(w, id)) && AllJustified(ApplyVerdict(w, id).log)
  {
    hide PurgedSafe, CapturePassOk, DeletePassOk, CollectPassOk, Justified;
    var w' := ApplyVerdict(w, id);
    if InState(w.db, id, Captured) {
      assert SameCapture(w.db, id, w.pass.captures[id], Captured);
      var e := w'.log[|w.log|];
      JustificationSurvives(w.log, e);
      forall i | i in w'.db.rows && w'.db.rows[i].state == Verified
        ensures i in w'.proof && ProvedAt(w'.log, w'.proof[i], i, w'.db.rows[i])
      {
        if i != id { ProofSurvives(w.log, [e], w.proof[i], i, w.db.rows[i]); }
      }
    }
  }

  lemma PromotionMovesNoOther(w: World, id: ItemId)
    requires Inv(w) && Enabled(w, VerifyApply(id)) && w.pass.verdicts[id].Promote?
    ensures PurgedSafe(ApplyVerdict(w, id)) && VerifyPassOk(ApplyVerdict(w, id))
  {
    PromotionKeepsPurged(w, id);
    PromotionKeepsPass(w, id);
  }

  lemma PromotionKeepsPurged(w: World, id: ItemId)
    requires PurgedSafe(w) && Enabled(w, VerifyApply(id)) && w.pass.verdicts[id].Promote?
    ensures PurgedSafe(ApplyVerdict(w, id))
  {
    hide GoodMime;
  }

  lemma PromotionKeepsPass(w: World, id: ItemId)
    requires VerifyPassOk(w) && Enabled(w, VerifyApply(id)) && w.pass.verdicts[id].Promote?
    ensures VerifyPassOk(ApplyVerdict(w, id))
  {
    hide Usable;
  }

  /** Leaving the batch and going back to `captured`, for a candidate of a delete pass. */
  lemma DemoteKeeps(w: World, id: ItemId)
    requires Inv(w) && w.pass.Deleting? && id !in w.pass.byId
    ensures Inv(Demote(w, id))
  {
    if InState(w.db, id, Verified) {
      var e, w' := DidDemote(id), Demote(w, id);
      JustificationSurvives(w.log, e);
      forall i | i in w'.db.rows && w'.db.rows[i].state == Verified
        ensures i in w.proof && ProvedAt(w'.log, w.proof[i], i, w'.db.rows[i])
      {
        ProofSurvives(w.log, [e], w.proof[i], i, w.db.rows[i]);
      }
      forall i | i in w.pass.byId ensures CandidateOk(w', i) {
        assert CandidateOk(w, i);
        ProofSurvives(w.log, [e], w.proof[i], i, w.pass.byId[i]);
      }
    }
  }

  /** Dropping candidates from a running pass. */
  lemma ForgetKeeps(w: World, id: ItemId)
    requires Inv(w) && w.pass.Deleting?
    ensures Inv(w.(pass := w.pass.(byId := w.pass.byId - {id}, checked := w.pass.checked - {id})))
  {
  }

  lemma DeleteClearKeeps(w: World, step: Step)
    requires Inv(w) && Enabled(w, step) && step.DeleteClear?
    ensures Inv(Apply(w, step))
  {
  }

  lemma DeleteSelectKeeps(w: World, ids: set<ItemId>)
    requires Inv(w) && Enabled(w, DeleteSelect(ids))
    ensures Inv(Selected(w, ids))
  {
  }

  lemma CheckedKeeps(w: World, id: ItemId, hashed: Sha)
    requires Inv(w) && CanCheck(w, id) && w.pass.byId[id].sha == Some(hashed) && GoodMime(w.disk, hashed)
    ensures Inv(w.(pass := w.pass.(checked := w.pass.checked[id := hashed])))
  {
    CheckedPassOk(w, id, hashed);
    hide DeletePassOk, GoodMime, ProvedAt, Justified;
  }

  lemma CheckedPassOk(w: World, id: ItemId, hashed: Sha)
    requires DeletePassOk(w) && CanCheck(w, id) && w.pass.byId[id].sha == Some(hashed) && GoodMime(w.disk, hashed)
    ensures DeletePassOk(w.(pass := w.pass.(checked := w.pass.checked[id := hashed])))
  {
    hide ProvedAt, SameCapture, GoodMime, GateOk;
    var w' := w.(pass := w.pass.(checked := w.pass.checked[id := hashed]));
    forall i | i in w'.pass.byId ensures CandidateOk(w', i) { assert CandidateOk(w, i); }
  }

  lemma DeleteCheckKeeps(w: World, id: ItemId, recorded: bool)
    requires Inv(w) && CanCheck(w, id)
    ensures Inv(CheckCopy(w, id, recorded))
  {
    CopyFineExactly(w.disk, w.pass.byId[id].sha, AttachmentsFor(w.db, id));
    match CopyProblem(w.disk, w.pass.byId[id].sha, AttachmentsFor(w.db, id))
    case Fine(hashed) => CheckedKeeps(w, id, hashed);
    case _ =>
      assert w.pass.checked - {id} == w.pass.checked;
      ForgetKeeps(w, id);
      DemoteKeeps(w.(pass := w.pass.(byId := w.pass.byId - {id})), id);
  }

  lemma DeleteLogsItsGrounds(w: World, id: ItemId)
    requires Inv(w) && Answered(w, id) && !StaleChangekey(w, id) && id in w.exchange
    ensures AllJustified(DeleteOne(w, id).log)
  {
    var w' := DeleteOne(w, id);
    assert CandidateOk(w, id);
    assert VerifiedThen(w'.log, w.proof[id], |w.log|);
    JustificationSurvives(w.log, w'.log[|w.log|]);
  }

  lemma DeleteKeepsProofs(w: World, id: ItemId)
    requires Inv(w) && Answered(w, id) && !StaleChangekey(w, id) && id in w.exchange
    ensures VerifiedProved(DeleteOne(w, id)) && DeletePassOk(DeleteOne(w, id))
  {
    DeleteKeepsRowProofs(w, id);
    DeleteKeepsCandidates(w, id);
  }

  lemma DeleteKeepsRowProofs(w: World, id: ItemId)
    requires VerifiedProved(w) && Answered(w, id)
    ensures VerifiedProved(DeleteOne(w, id))
  {
  }

  lemma OtherCandidateStays(w: World, id: ItemId, i: ItemId)
    requires Answered(w, id) && CandidateOk(w, i) && i != id
    ensures CandidateOk(DeleteOne(w, id), i)
  {
    hide GoodMime, DeleteCutoff, SameCapture;
    var w' := DeleteOne(w, id);
    ProofSurvives(w.log, [w'.log[|w.log|]], w.proof[i], i, w.pass.byId[i]);
    hide ProvedAt;
  }

  lemma DeleteKeepsCandidates(w: World, id: ItemId)
    requires DeletePassOk(w) && Answered(w, id)
    ensures DeletePassOk(DeleteOne(w, id))
  {
    hide GoodMime, Holds, DeleteCutoff, CandidateOk;
    forall i | i in DeleteOne(w, id).pass.byId ensures CandidateOk(DeleteOne(w, id), i) {
      OtherCandidateStays(w, id, i);
    }
  }

  /** The one step that removes mail: everything it needs is already on record. */
  lemma DeleteItemKeeps(w: World, id: ItemId)
    requires Inv(w) && Answered(w, id) && !StaleChangekey(w, id) && id in w.exchange
    ensures Inv(DeleteOne(w, id))
  {
    assert CandidateOk(w, id);
    DeleteLogsItsGrounds(w, id);
    DeleteKeepsProofs(w, id);
  }

  lemma PersistKeeps(w: World)
    requires Inv(w) && w.pass.Deleting?
    ensures Inv(Persisted(w))
  {
  }

  lemma FetchKeeps(w: World, seen: map<ItemId, Option<string>>)
    requires Inv(w) && w.pass.Deleting?
    ensures Inv(Refetched(w, seen))
  {
  }

  lemma StaleKeeps(w: World, id: ItemId)
    requires Inv(w) && Answered(w, id)
    ensures Inv(Requeue(w, id))
  {
    ForgetKeeps(w, id);
    DemoteKeeps(w.(pass := w.pass.(byId := w.pass.byId - {id}, checked := w.pass.checked - {id})), id);
  }

  lemma CollectLaneKeeps(w: World, step: Step)
    requires Inv(w) && Enabled(w, step)
    requires InCollect(step)
    ensures Inv(Apply(w, step))
  {
  }

  lemma OwnerKeeps(w: World, step: Step)
    requires Inv(w) && Enabled(w, step)
    requires ByOwner(step)
    ensures Inv(Apply(w, step))
  {
    hide ApplyCapture, ApplyVerify, ApplyDelete, ApplyCollect, Written, CaptureEnabled, VerifyEnabled, DeleteEnabled, CollectEnabled;
    assert forall i :: i in w.purged ==> i !in w.exchange;
    hide Inv;
    MailboxKeeps(w, Apply(w, step).exchange);
  }

  lemma MimeDamageKeeps(w: World, sha: Sha, now: Option<Bytes>)
    requires Inv(w) && !Entrusted(w, sha)
    ensures Inv(w.(disk := w.disk.(mime := Lost(w.disk.mime, sha, now))))
  {
    var disk := w.disk.(mime := Lost(w.disk.mime, sha, now));
    forall s | Entrusted(w, s) && GoodMime(w.disk, s) ensures GoodMime(disk, s) {
      assert s != sha;
    }
    DiskKeeps(w, disk);
  }

  lemma BlobDamageKeeps(w: World, sha: Sha, now: Option<Bytes>)
    requires Inv(w)
    ensures Inv(w.(disk := w.disk.(blobs := Lost(w.disk.blobs, sha, now))))
  {
  }

  lemma ToolKeeps(w: World, data: Bytes)
    requires Inv(w)
    ensures Inv(w.(disk := w.disk.(mime := w.disk.mime[Hash(data) := data])))
  {
  }

  lemma TickKeeps(w: World, elapsed: nat)
    requires Inv(w)
    ensures Inv(w.(clock := w.clock + elapsed))
  {
  }

  lemma DeleteLaneKeeps(w: World, step: Step)
    requires Inv(w) && Enabled(w, step)
    requires InDelete(step)
    ensures Inv(Apply(w, step))
  {
    if step.DeleteClear? { DeleteClearKeeps(w, step); }
    if step.DeleteSelect? { DeleteSelectKeeps(w, step.ids); }
    if step.DeleteCheck? { DeleteCheckKeeps(w, step.id, step.recorded); }
    if step.DeleteFetch? { FetchKeeps(w, map i | i in step.answered :: w.exchange[i]); }
    if step.DeleteItem? { DeleteItemKeeps(w, step.id); }
    if step.DeleteStale? { StaleKeeps(w, step.id); }
    if step.DeletePersist? { PersistKeeps(w); }
  }

  /** Every step of every lane, of the lock-free writers and of the environment
      keeps the invariant. */
  lemma StepKeeps(w: World, step: Step)
    requires Inv(w) && Enabled(w, step)
    ensures Inv(Apply(w, step))
  {
    hide Inv, Enabled, Apply;
    if InCapture(step) { CaptureLaneKeeps(w, step); }
    else if InVerify(step) { VerifyLaneKeeps(w, step); }
    else if InDelete(step) { DeleteLaneKeeps(w, step); }
    else if InCollect(step) { CollectLaneKeeps(w, step); }
    else if ByOwner(step) { OwnerKeeps(w, step); }
    else if ByWriters(step) { WriterKeeps(w, step); }
    else { SurroundingsKeep(w, step); }
  }

  lemma WriterKeeps(w: World, step: Step)
    requires Inv(w) && Enabled(w, step)
    requires ByWriters(step)
    ensures Inv(Apply(w, step))
  {
    hide Inv, LockFree, Upsert, SetReadFlag, ApplyServerDeletes, DeleteLiveInFolder, ApplyCapture, ApplyVerify, ApplyDelete,
         ApplyCollect, Mailbox, CaptureEnabled, VerifyEnabled, DeleteEnabled, CollectEnabled, OwnerEnabled;
    match step
    case SyncUpsert(id, m) => UpsertIsLockFree(w.db, id, m); LockFreeKeeps(w, Upsert(w.db, id, m));
    case SyncReadFlag(id, b) => ReadFlagIsLockFree(w.db, id, b); LockFreeKeeps(w, SetReadFlag(w.db, id, b));
    case ServerDeletes(ids) => ServerDeletesAreLockFree(w.db, ids); LockFreeKeeps(w, ApplyServerDeletes(w.db, ids));
    case FolderVanishes(f) => FolderDropIsLockFree(w.db, f); LockFreeKeeps(w, DeleteLiveInFolder(w.db, f));
  }

  lemma SurroundingsKeep(w: World, step: Step)
    requires Inv(w) && Enabled(w, step)
    requires step.PassEnds? || step.MimeDamaged? || step.BlobDamaged? || step.ToolCachesMime? || step.Tick?
    ensures Inv(Apply(w, step))
  {
    hide Inv, ApplyCapture, ApplyVerify, ApplyDelete, ApplyCollect, Written, Mailbox, CaptureEnabled, VerifyEnabled, DeleteEnabled,
         CollectEnabled, OwnerEnabled, Entrusted, Lost;
    match step
    case PassEnds => PassEndKeeps(w);
    case MimeDamaged(sha, now) => MimeDamageKeeps(w, sha, now);
    case BlobDamaged(sha, now) => BlobDamageKeeps(w, sha, now);
    case ToolCachesMime(data) => ToolKeeps(w, data);
    case Tick(elapsed) => TickKeeps(w, elapsed);
  }

  lemma PassEndKeeps(w: World)
    requires Inv(w)
    ensures Inv(w.(pass := Idle))
  {
  }
}
