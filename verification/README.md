# ewsmcp: the archive, the bridge, the audit chain and their algorithms, verified

This project models the stateful protocols and the algorithmic cores of the `ewsmcp`
Exchange mail server in Dafny and proves what they keep. `dafny verify dfyconfig.toml`
checks all of it.

## The archive pipeline

Mail moves through three stores that drift apart: the mailbox in Exchange, the row in
`ews.messages` (`live`, `captured`, `verified`, `deleted`, with its digest, changekey and
attachment inventory) and the content-addressed files on disk.

- `mail.dfy`, `store.dfy`, `copies.dfy`, `policy.dfy`: the entities, every archive SQL
  statement as a guarded update, the copy check shared by the verifier and the deleter, the
  cutoffs and the backup rail.
- `protocol.dfy`: one state machine with a step for everything that can happen. One lane
  (capture, verify, delete, orphan sweep) holds the runner lock and does one hop at a time. The
  sync engine, the tools, the mailbox owner, the clock and disk damage run between any two hops,
  and a crash may end a lane at any point. `Inv` is the invariant and `StepKeeps` proves it.
- `archive_safety.dfy`: what every run keeps. A purged message's row, digest and `.eml` are never
  lost again. Every hard delete is justified by its own history. The sweep removes only orphans.
  `SomeMailIsDeleted` shows that the state machine does delete mail, so none of this is empty.
- `archive_history.dfy`: each hard delete traced back to the steps of the run that earned it, and to
  the mailbox, disk, clock and settings at those steps, without reading the model's own log.
- `archive_content.dfy`: with a content for every version of every item, what is on disk for ever
  after a delete is the content of the version that was re-fetched last.
- `cache_store.dfy`, `site.dfy`, `deleter.dfy`: the delete lane as a program. `Deleter.Run` loops
  over chunks on a live installation where the lock-free writers run at every await, and the
  gateway, the database and each delete may fail. Every hop is proved to be a step of the
  protocol, and the accounting holds on every exit. The faults are inputs, so a run without any is
  stated exactly: who is selected, what becomes of each, and why.
- `capturer.dfy`, `verifier.dfy`, `files.dfy`, `queue.dfy`: the capture queue that always drains,
  the verify lane's bookkeeping, the write that survives a crash at any point, and the sweep of
  one directory, with its report.

Times are whole microseconds; Python's `int()` is written out as truncation toward zero. SHA-256
is injective: a digest carries the content it is the digest of, or is `Malformed`.

## The other two protocols

- `arrival.dfy`: the bridge's change feed. Sweeps number new and amended mail in whatever order
  the planner yields, a consumer walks up to `until`, keeps the cursor and polls live, while sync
  upserts and removes messages between any two statements. An upsert may write anything under any
  changekey, the old one included.
- `audit.dfy`, `audit_text.dfy`, `audit_log.dfy`: the hash-chained log as records, as text cut into
  lines the way the verifier cuts it, and as a writer that may fail at any point of a call, tear its
  files, and resume. The hash is any injective function that never yields the anchor; the rendering
  is any one that reads back and of which no proper beginning parses. `audit_sample.dfy` writes out
  one hash and one rendering of that kind, with the escaping of `json.dumps`.

## The algorithmic cores

- `sync.dfy`: batched delta sync against applying each change in order, and replay after a crash.
- `ids.dfy`: the alias table under racing minters, aborted transactions and moves.
- `bodyclean.dfy`, `boilerplate.dfy`: the quoted-history cut on characters and lines; paragraphs,
  the tail window, the anchor rules and both detectors. Regular expressions that classify a line
  or a paragraph are predicates; the paragraph separator is written out.
- `embedding.dfy`: embedding many messages per request against embedding one alone.
- `slots.dfy`: free/busy slots. `confirm.dfy`: confirm tokens and the sliding send cap.
  `dispatch.dfy`: the gates in front of a handler, in order, and what each refusal costs.

## Where the code falls short of its own words

Each is proved with the exact condition under which the code does what it says.

- `NothingIsLost`, `StoredVersionIs`, `RewrittenBodyIsMissed`: the sweep compares changekeys, so a text
  rewritten under the changekey already delivered (a replay of a failed flush, a repair of the bodies)
  is never offered again. The consumer holds the stored version exactly when no such write has
  happened since the delivery, or the last one put the delivered version back.
- `SweepKeepsOrderExactly`, `OverlappingSweepsLoseMail`: the sweep stamps the start of its
  transaction but takes the lock later. If two sweeps start in one order and lock in the other, an
  `until` walk can step over mail for good.
- `LogVerifiesExactly`, `SeparatorBreaksTheLog`: the verifier cuts lines at U+0085, U+2028 and U+2029
  too, which JSON leaves raw. A log of successful calls verifies exactly when no record was rendered
  with a line break in it.
- `ZeroBreaksExactly`: with its state file intact the chain detects every edit except one. Log files
  that were emptied, not deleted, verify cleanly.
- `RecordKeepsTheChainExactly`, `UnsavedHeadForks`, `TornAppendShowsExactly`: a failed append, or a
  crash between the append and the save of the head, makes the next record break the chain.
  `TornSaveUnchains`: a save that fails after truncating the state file does the opposite. The chain
  starts again, verifies, and no longer vouches for anything before. `BackdatedRecordExactly`: a clock
  set back to a day with later records breaks it too.
- `AnEditSlipsThrough`: the owner may edit an item between the last re-fetch and its delete.
  `DeletedMailIsArchived` says exactly when what was deleted is still what the archive holds.
- `Deleter.Run`, `ShortFetchLosesADelete`: a fetch that answers too few or too many items, or breaks off,
  makes the strict zip in `delete.py` raise after some deletes, which then drop out of the accounting:
  they are in `lost`, which is empty unless a fetch was `short`, and then the run reports an error. Their
  archive copies are safe all the same.
- `FlushRefinesExactly`: a window in which a message is upserted after its last delete, or after a
  read-flag change that says otherwise, is flushed wrongly.
- `AbortKeepsExactly`, `LeakedAliasNamesAnotherItem`: `alias_many` returns what it had minted when
  its transaction rolls back, and the same alias then goes to another item.
- `NamesAreUnique`, `NewlineBehindAnAlias`: `$` in the kind's expression also matches before a newline that ends
  it. The alias minted for such a kind is not taken for an alias, so it passes through unresolved, while
  a good alias followed by a newline is refused as unknown.
- `HoursMeanOneDayExactly`: the working-hours test means "one day" up to 1440 minutes.
- `ReplayPassesExactly`, `ASpentTokenPassesAgain`: a spent confirm token passes again in the last second
  before it is rejected as expired, because verification rounds the clock down and consumption does not.
- `BurnedExactly`: a confirm token that passes is spent before the send cap and the aliases are looked
  at, so a refusal there burns it without a run.

## Model

| member | source | states |
|---|---|---|
| ArchivePolicy.GraceIsAFullWait | ewsmcp/archive/policy.py:110-115 | a row the verification half of rail 3 lets through was verified at least grace_days whole days ago, never less than one, despite truncation |
| ArchivePolicy.GraceIsNoLongerExactly | ewsmcp/archive/policy.py:110-115 | the wait lets a row through exactly when the first whole second at or after its verification lies the grace period back |
| ArchivePolicy.AgedExactly | ewsmcp/archive/policy.py:92-108 | from settings and clock alone: a date passes the delete query exactly when it lies afterDays plus the floored grace days back, or, under an override, the grace days before it |
| ArchivePolicy.CapturedFromAgeExactly | ewsmcp/archive/policy.py:92-108 | a date passes the capture query exactly when it lies the capture age back, which is between none and afterDays, or by the override itself |
| ArchivePolicy.DeletableIsCapturable | ewsmcp/archive/policy.py:92-109 | under all settings and overrides, mail old enough to delete was old enough to capture |
| ArchivePolicy.BackupHoldsExactly | ewsmcp/archive/policy.py:118-136 | deletion is held exactly when a marker is configured and is missing, or is past the fresh limit and not past the hold |
| Copies.BlobsFineExactly | ewsmcp/archive/delete.py:311-321 | the loop over attachments passes exactly when every inventory line is backed by a blob of the recorded size or lives in the MIME |
| Copies.CopyFineExactly | ewsmcp/archive/delete.py:302-322 | the disk check passes exactly when the recorded digest names a file hashing to it and every attachment is backed |
| Copies.PromoteExactly | ewsmcp/archive/verify.py:117-141 | the verifier promotes exactly when the changekey is present, unmoved, and the deleter's own copy check would pass |
| Copies.MismatchExactly | ewsmcp/archive/verify.py:117-141 | a row is sent back exactly when its changekey is missing or has moved, or its digests are well formed and a file or blob is missing or wrong |
| Copies.FailedExactly | ewsmcp/archive/verify.py:117-141 | a check errors exactly when the changekey is trusted and an absent or malformed digest is the first thing the disk check meets |
| Store.UpsertIsLockFree | ewsmcp/cache/store.py:86-105 | a sync upsert keeps every archived row's capture, and never starts or loses one |
| Store.ServerDeletesAreLockFree | ewsmcp/cache/store.py:583-600 | a server delete keeps every archived row with its capture and only drops live rows |
| Store.FolderDropIsLockFree | ewsmcp/cache/store.py:241-251 | a vanished folder never touches an archived row |
| Store.StatementMovesRow | ewsmcp/cache/store.py:506-600 | for every statement and every row: when the row goes, when its archive state moves and by which of six moves, and that its capture, its mirror and its inventory are otherwise untouched |
| Store.StatementWrites | ewsmcp/cache/store.py:506-600 | what each statement writes into each column and the inventory, and that a new row starts live and empty |
| Store.TableStaysSound | ewsmcp/cache/store.py:506-647 | whatever statements run in any order: a digest exactly on archived rows, a verification time on every verified row and on no live or captured one, no inventory without its row |
| Store.DeletedIsFinal | ewsmcp/cache/store.py:583-600 | no sequence of statements removes a deleted row, changes its state or touches its capture |
| Store.CaptureIsFixed | ewsmcp/cache/store.py:547-558 | what a row was captured as survives every sequence of statements without its reset |
| CacheStores.CacheStore.MarkDeleted | ewsmcp/cache/store.py:573-581 | exactly the verified rows named become deleted; a full count means every id is deleted |
| ArchiveProtocol.LockFreeKeeps | ewsmcp/cache/store.py:583-600 | whatever the lock-free writers do to the store under any lane keeps the whole invariant |
| ArchiveProtocol.WritesKeepGood | ewsmcp/archive/files.py:68-93 | writing any number of a capture's files never spoils a good copy |
| ArchiveProtocol.SweepSparesReferenced | ewsmcp/archive/gc.py:33-55 | a digest outside the keep-set read once at the start is referenced by nothing now and stands behind no purged mail |
| ArchiveProtocol.PromotionKeeps | ewsmcp/archive/verify.py:87-115 | a promotion of the row the lane read is the proof later deletes rest on, and disturbs no other |
| ArchiveProtocol.DeleteCheckKeeps | ewsmcp/archive/delete.py:281-300 | the last-mile check keeps the invariant, whether or not its demotion succeeds |
| ArchiveProtocol.DeleteLogsItsGrounds | ewsmcp/archive/delete.py:345-357 | at the moment of the delete every ground for it is on record |
| ArchiveProtocol.DeleteItemKeeps | ewsmcp/archive/delete.py:345-357 | the one step that removes mail keeps the whole invariant |
| ArchiveProtocol.StepKeeps | ewsmcp/archive/runner.py:82-195 | every step of every lane, of the lock-free writers and of the environment keeps the invariant |
| ArchiveSafety.NoMailIsEverLost | ewsmcp/archive/delete.py:160-233 | in every run, after a hard delete the row is never live or gone, its digest never changes, the .eml hashing to it is on disk, and the item stays gone |
| ArchiveSafety.EveryDeleteIsJustified | ewsmcp/archive/delete.py:118-151 | in every run, the recorded history of each hard delete holds a verification of the same capture a full grace period before the selection, nothing touching the capture since, the rails and rechecks of its pass, and the age of the mail in days on the clock of the selection |
| ArchiveHistory.EveryDeleteIsEarned | ewsmcp/archive/delete.py:110-151 | in every run, each hard delete goes back to named steps: the changekey the mailbox reported and the good file on disk when it was verified, the wait of at least the grace period on the run's clock with the capture untouched at every point, the backup state computed from settings and marker when the pass was cleared, the age of the mail in days by the settings and the clock at the selection, and the good file and the same changekey found again |
| ArchiveHistory.PromotedAt | ewsmcp/archive/verify.py:87-115 | every recorded verification was made by one step of the run, on the row and the answer it names |
| ArchiveHistory.CaptureUnbroken | ewsmcp/cache/store.py:547-558 | a capture that no recorded reset has touched is the same at every point of the run |
| ArchiveContent.DeletedMailIsArchived | ewsmcp/archive/delete.py:337-356 | for ever after a delete the file on disk is the content of the version last re-fetched; it is the content deleted exactly when the edit since, if any, left the content alone, so exactly when the changekey had not moved again if every version has its own content |
| ArchiveContent.RunGenuine | ewsmcp/archive/capture.py:121-152 | in every run, each archived row's digest is that of the version its captured changekey names |
| ArchiveContent.AnEditSlipsThrough | ewsmcp/archive/delete.py:337-356 | a reachable state in which the delete runs although the changekey has moved since the re-fetch |
| ArchiveSafety.PurgedNeverForgotten | ewsmcp/archive/delete.py:239-263 | what was removed stays on the record with the digest it was removed on |
| ArchiveSafety.MailLeavesOnlyTwoWays | ewsmcp/archive/delete.py:355-356 | mail leaves the mailbox only through its owner or through the one delete step |
| ArchiveSafety.HistoryNamesThePurged | ewsmcp/archive/delete.py:239-263 | the history names exactly the messages the deleter removed |
| ArchiveSafety.SweepRemovesOnlyOrphans | ewsmcp/archive/gc.py:29-58 | in any run, a file the sweep unlinks is referenced by no row and no attachment at that moment |
| ArchiveSafety.SweepTakesOrphans | ewsmcp/archive/gc.py:33-55 | and it takes what it may: from any world at rest, a file can be unlinked exactly when nothing names its digest, and then that file goes and nothing else |
| ArchiveSafety.NothingIsHeldBack | ewsmcp/archive/runner.py:219-244 | what the safety results are safe from: under any lane the owner, the sync engine, the clock, a crash and disk damage may act, kept back only from the last copy |
| ArchiveSafety.EachTakesEffect | ewsmcp/cache/store.py:583-600 | and each of these steps changes what it says and nothing else |
| ArchiveSafety.VerifiedMeansVerified | ewsmcp/archive/verify.py:41-72 | a verified row's run contains the verification of the capture it still names |
| ArchiveSafety.SomeMailIsDeleted | ewsmcp/archive/delete.py:110-233 | some run captures, verifies, waits and deletes a message |
| Queue.Oldest | ewsmcp/cache/store.py:479-492 | the limit oldest of the candidates, oldest first |
| Sites.Site.Outside | ewsmcp/archive/runner.py:219-244 | any number of lock-free steps between two hops keeps the invariant and what the lane relies on |
| Sites.Site.Clear | ewsmcp/archive/delete.py:118-133 | the switch and the backup rail are read in a step of their own, before any candidate is |
| Sites.Site.SelectDeletable | ewsmcp/archive/delete.py:134-151 | the candidate query is the protocol's selection step: both halves of rail 3 by the clock of the query, the oldest up to the limit, oldest first |
| Sites.WaitingExactly | ewsmcp/archive/delete.py:134-151 | from settings and clock alone: the candidates are the verified rows whose verification lies the grace period back and whose mail is afterDays and the grace period old |
| Sites.Site.CheckOne | ewsmcp/archive/delete.py:284-300 | one candidate's disk check is the protocol's check step; a bad copy, and only a bad copy, leaves the batch |
| Sites.Site.HardDelete | ewsmcp/archive/delete.py:345-357 | the delete runs only with every rail satisfied; it raises exactly when Exchange refuses it or the item is no longer there, and otherwise removes exactly that item |
| Sites.Site.RequeueOne | ewsmcp/archive/delete.py:275-276 | a stale candidate goes back to captured |
| Sites.Site.MarkPending | ewsmcp/archive/delete.py:239-247 | one statement marks the batch; a full count means all of it is deleted |
| DeleteLane.Deleter.UnusableCopies | ewsmcp/archive/delete.py:281-300 | each id of the chunk is either returned as bad and out of the batch, or checked |
| DeleteLane.Deleter.TryOne | ewsmcp/archive/delete.py:345-357 | one item is deleted exactly when it was answered with a usable changekey that is the captured one, is in the mailbox when its turn comes, and Exchange does not refuse; otherwise nothing of it changes and the reason is the first of these that fails |
| DeleteLane.Deleter.DeleteBatch | ewsmcp/archive/delete.py:324-368 | the ids done are exactly those for which answer, changekey, mailbox and Exchange all agree when their turn comes; the call raises exactly when the fetch falls short, also after its last answer, and then reports nothing although what it took before the break is gone |
| DeleteLane.Deleter.Requeue | ewsmcp/archive/delete.py:275-276 | every stale id leaves the batch, and the count is the number of rows moved back, which the history names one by one |
| DeleteLane.Deleter.PersistBatch | ewsmcp/archive/delete.py:239-263 | every id of the batch is deleted in the store or returned as unmarked |
| DeleteLane.Deleter.Settle | ewsmcp/archive/delete.py:199-230 | after a gateway call every deleted id is recorded or listed, also when persisting fails |
| DeleteLane.Deleter.JudgeChunk | ewsmcp/archive/delete.py:160-200 | one chunk adds one verdict per id, on each of its ways out |
| DeleteLane.Deleter.Loop | ewsmcp/archive/delete.py:152-233 | over all chunks no id has two verdicts and the counters add up wherever the loop stops |
| DeleteLane.Deleter.Run | ewsmcp/archive/delete.py:110-233 | deleted + failed + remaining = eligible on every exit; one verdict per attempted id; each id Exchange lost is counted and recorded or listed, or was taken by a call that fell short and raised. Without interference or database faults the selection, each verdict, each final row and the totals are decided by disk, mailbox and rows as the run found them, and when nothing is wrong with any candidate, every one is deleted |
| DeleteLane.ShortFetchLosesADelete | ewsmcp/archive/delete.py:339-356 | a reachable state in which the books balance with a deleted item that is neither counted nor recorded |
| DeleteLane.Counted | ewsmcp/archive/delete.py:67-93 | one verdict per id of a chunk means the verdict counts sum to the chunk |
| DeleteLane.Append | ewsmcp/archive/delete.py:152-200 | verdicts of disjoint chunks stay disjoint and complete when joined |
| CaptureLane.CaptureIsExact | ewsmcp/archive/capture.py:121-152 | a finished capture leaves files holding exactly the bytes its row and inventory name |
| CaptureLane.ArchivedIsVerifiable | ewsmcp/archive/verify.py:117-141 | such a capture is promoted as long as its changekey has not moved |
| CaptureLane.Capturer.CaptureOne | ewsmcp/archive/capture.py:121-169 | files, row, inventory in that order; a capture that goes through holds the bytes, the digest, the changekey and the inventory of the fetch; a row no longer live fails and is left alone; a lost inventory undoes the row; earlier captures stay exact |
| CaptureLane.Capturer.CaptureBatch | ewsmcp/archive/capture.py:91-119 | each answer is judged by itself: an oversized item is set aside, stays live and is not a failure; a refused one, a row gone meanwhile and a faulted capture fail; the others are captured; a wrong number of answers raises |
| CaptureLane.CandidatesExactly | ewsmcp/archive/capture.py:59-68 | from settings and clock alone: the candidates are the live rows not set aside that the policy takes and that are of the capture age |
| CaptureLane.Capturer.Run | ewsmcp/archive/capture.py:55-89 | the counters by the gateway's answers: too large are the answers over the limit, each set aside and out of the queue whatever happens to the others; failed are the refused answers, the rows gone meanwhile and the faulted captures; the rest is captured and leaves the queue; the page is the oldest min(limit, candidates) |
| CaptureLane.Capturer.Cycles | ewsmcp/archive/capture.py:55-119 | any number of oversized items cannot stall the queue: each pass takes a full page off what can go until only refused and faulted messages are left |
| CaptureLane.CountsAre | ewsmcp/archive/capture.py:94-119 | the three counters as sizes of sets of answers |
| CaptureLane.VerdictsAddUp | ewsmcp/archive/capture.py:94-119 | captured, failed and too large partition the batch |
| VerifyLane.VerdictDecides | ewsmcp/archive/verify.py:87-115 | each judged row ends exactly as its verdict says, if it was still captured |
| VerifyLane.EditedIsForgotten | ewsmcp/archive/verify.py:87-126 | a captured message edited since ends live without a capture, so it is captured again |
| VerifyLane.BadCopyIsForgotten | ewsmcp/archive/verify.py:87-141 | a captured message whose copy is gone or wrong ends live; one whose digest is unreadable stays captured |
| VerifyLane.Verifier.Apply | ewsmcp/archive/verify.py:87-115 | verified, reset and failed partition the verdicts and count only real transitions |
| FileStores.FileStore.WriteVerified | ewsmcp/archive/files.py:68-80 | at every step, also dying between two, good files stay good; a finished write leaves good bytes and no temporary file |
| FileStores.Sweeper.Sweep | ewsmcp/archive/gc.py:29-58 | exactly the unreferenced files that are a day old go; a dry run removes none; the four counters are the files seen, the orphans, their bytes and the unreferenced files still too young |
| FileStores.OrphanExactly | ewsmcp/archive/gc.py:29-58 | a file is an orphan exactly when its last change is a day back and its digest is not kept; a temporary file has a digest only under mime/ |
| ArrivalFeed.SweepNumbers | ewsmcp/bridge/arrival.py:47-101 | whatever order the planner picks, all due mail gets its own number above every earlier one; a message without a row gets its conversation as chat, or its own id, and the time of the sweep as first arrival; both stay for those that have one |
| ArrivalFeed.SweepKeepsOrderExactly | ewsmcp/bridge/arrival.py:47-101 | arrival times stay ordered by sequence exactly when the sweep did not start before an arrival it leaves alone |
| ArrivalFeed.OverlappingSweepsLoseMail | ewsmcp/bridge/arrival.py:47-60 | sweeps that lock in the other order than they started lose a message |
| ArrivalFeed.UntilCutsAtANumber | ewsmcp/bridge/arrival.py:123-131 | at any point of any run an until bound selects exactly the rows up to one sequence number |
| ArrivalFeed.PageIsUnique | ewsmcp/bridge/arrival.py:105-134 | there is one page for a request |
| ArrivalFeed.PageLeavesNoGap | ewsmcp/bridge/app.py:188-197 | everything at or below the new cursor was passed before or is on the page |
| ArrivalFeed.CursorAdvances | ewsmcp/bridge/app.py:188-197 | the next cursor is within the numbers handed out and never behind the old one |
| ArrivalFeed.StepKeeps | ewsmcp/bridge/arrival.py:33-134 | discovery, amendment, rewriting under an old changekey, removal, sweeps, aborted sweeps and paging keep the ledger invariant |
| ArrivalFeed.NothingIsLost | ewsmcp/bridge/app.py:161-197 | in every run, each stored message is due for a sweep, ahead of the cursor, inside the bootstrap window, or held under its one chat; and it is held in the version stored exactly when no write under the ledger's changekey since the delivery has left another |
| ArrivalFeed.StoredVersionIs | ewsmcp/bridge/arrival.py:67 | what is stored of a settled message is what was delivered, or what the last write under the ledger's changekey put there |
| ArrivalFeed.HeldKeyIsStored | ewsmcp/bridge/arrival.py:67 | the consumer holds a settled message under the changekey stored, unless one the message had left came back |
| ArrivalFeed.RewrittenBodyIsMissed | ewsmcp/cache/sync.py:148-173 | a reachable state in which the consumer holds an empty body, the store has the text under the same changekey, and nothing is due |
| ArrivalFeed.MissedStaysMissed | ewsmcp/bridge/arrival.py:47-102 | no sweep, poll or other message's change repairs a missed version |
| ArrivalFeed.EmptyPageMeansUpToDate | ewsmcp/bridge/app.py:168-193 | an empty page right after a sweep means the consumer holds everything after its window, in the version stored exactly when the silent writes left it so |
| ArrivalFeed.PollDrains | ewsmcp/bridge/arrival.py:105-134 | a poll takes exactly its rows from what lies ahead, so polling ends |
| ArrivalFeed.CursorNeverMovesBack | ewsmcp/bridge/app.py:188-197 | no step moves a consumer's cursor backwards |
| ArrivalFeed.FirstSightIsPinned | ewsmcp/bridge/arrival.py:84-101 | chat and first arrival are pinned while the message stays, and a sequence only moves up |
| ArrivalFeed.FirstSightLasts | ewsmcp/bridge/arrival.py:47-101 | the chat and first arrival given by the sweep that first saw a message hold in every later state until it is removed |
| ArrivalFeed.ConversationsShareAChat | ewsmcp/bridge/arrival.py:61-101 | in every run, messages first seen with one conversation are in one chat, that conversation |
| ArrivalFeed.ChatsNameExactly | ewsmcp/bridge/app.py:218-246 | the chats route names the pinned chats and, for a message not swept yet, its conversation or its own id |
| ArrivalFeed.SweepKeepsChats | ewsmcp/bridge/app.py:218-246 | a sweep changes nothing of what the chats route names |
| ArrivalFeed.ChatsNameWhatWasDelivered | ewsmcp/bridge/app.py:218-246 | every chat a consumer was told of is named by the chats route |
| ArrivalFeed.Bridge.Sweep | ewsmcp/bridge/arrival.py:33-102 | the imperative sweep is a sweep of everything due in some order |
| ArrivalFeed.Bridge.Page | ewsmcp/bridge/arrival.py:105-134 | the page query returns that one page |
| ArrivalFeed.Bridge.Messages | ewsmcp/bridge/app.py:161-197 | a request sweeps, pages, bounds the limit and returns the next cursor |
| AuditText.Verify | scripts/verify_audit_chain.py:25-80 | the loop over files and raw lines counts exactly the breaks of the records read and the state check |
| AuditText.EntryReads | scripts/verify_audit_chain.py:34-46 | a record rendered on one line reads back as itself; one with a line break in it reads as no record first |
| AuditText.ReadJoin | scripts/verify_audit_chain.py:34-40 | text appended after a complete line is read as if it stood alone |
| AuditText.BreaksExactly | scripts/verify_audit_chain.py:34 | which characters end a line, by their codes |
| AuditChain.ChainScans | ewsmcp/audit.py:53-69 | a written chain verifies alone and after anything that verifies |
| AuditChain.BreaksAre | scripts/verify_audit_chain.py:34-58 | the count is exactly the lines that do not parse, the hashes that are wrong after the hash before them, and the links that are not its first twelve characters |
| AuditChain.ZeroBreaksExactly | scripts/verify_audit_chain.py:25-80 | with the state intact, zero breaks means the files end in exactly the recorded chain, or are empty |
| AuditChain.NoTailIsLost | scripts/verify_audit_chain.py:59-78 | a cut tail breaks against the state file, and passes without one |
| AuditTrail.RecordKeepsTheChainExactly | ewsmcp/audit.py:53-69 | a successful call keeps the log verifying exactly when the head in memory is the head of the files and the record is rendered on one line |
| AuditTrail.LogVerifiesExactly | ewsmcp/audit.py:22-69 | successful calls on days that never go back, across any restarts, verify with no break exactly when no rendered record holds a line break, and then the lines are one chain |
| AuditTrail.RecordGoesToItsDay | ewsmcp/audit.py:53-66 | a call writes the next number, the first twelve characters of the hash before, the body and their hash as one line at the end of the file of its own day, and touches no other |
| AuditTrail.AppendsToItsDay | ewsmcp/audit.py:62-66 | text goes to the end of the one file of that day, or to a new file in its place among the dates |
| AuditSample.SeparatorBreaksTheLog | ewsmcp/audit.py:66 | one successful call with U+2028 in its text leaves a log that does not verify, for a hash and a rendering written out |
| AuditSample.SampleIsFaithful | ewsmcp/audit.py:59-66 | the rendering written out, with the escaping of the program, reads back and has no beginning that parses |
| AuditTrail.UnsavedHeadForks | ewsmcp/audit.py:62-69 | dying between append and save breaks the next record, unless it was the first ever |
| AuditTrail.TornSaveUnchains | ewsmcp/audit.py:67-70 | a save torn after truncation is one break until the next start; the record after that verifies, and everything before it can be removed unnoticed |
| AuditTrail.TornAppendShowsExactly | ewsmcp/audit.py:65-66 | an append broken off shows at once, unless nothing was written or it was the whole first record |
| AuditChain.BackdatedRecordExactly | ewsmcp/audit.py:62-64 | a record put into an earlier day's file verifies exactly when no line follows |
| AuditTrail.AuditLog.constructor | ewsmcp/audit.py:22-33 | opening resumes the saved head, field by field |
| AuditTrail.ResumesExactly | ewsmcp/audit.py:22-33 | a restart takes the saved hash or the anchor, and the saved number if both can be read, else zero |
| AuditTrail.AuditLog.Record | ewsmcp/audit.py:35-73 | one call with a fault at any of its points, a torn append and a truncated state file among them |
| FolderSync.ReorderingIsHarmlessExactly | ewsmcp/cache/sync.py:496-512 | for one message the flush order is harmless from every store exactly when its changes are settled |
| FolderSync.FlushRefinesExactly | ewsmcp/cache/sync.py:496-512 | a flush equals applying the window in order, from every store, exactly when all messages are settled |
| FolderSync.BatchedSyncRefines | ewsmcp/cache/sync.py:473-535 | buffered sync equals plain sync for any window size |
| FolderSync.NoLatePutSettlesWindows | ewsmcp/cache/sync.py:514-533 | no upsert after a delete or flag change of the same id is enough for every window |
| FolderSync.ReplayIsHarmless | ewsmcp/cache/sync.py:483-489 | whatever part was applied before a crash, replaying the whole delta gives the same mirror |
| FolderSync.CrashAndResync | ewsmcp/cache/sync.py:483-535 | crash and buffered resync equals one uninterrupted sync |
| FolderSync.FlushIsAnOrder | ewsmcp/cache/sync.py:496-512 | a flush is some order of its own changes |
| FolderSync.FolderLane.Flush | ewsmcp/cache/sync.py:496-512 | the three buffers are applied as one flush and emptied |
| FolderSync.FolderLane.Run | ewsmcp/cache/sync.py:514-533 | the buffering loop is the windowed sync at 200 changes |
| AliasTable.NamesAreUnique | ewsmcp/ids.py:44-49 | no two handles share a name, and a minted name is taken for an alias exactly when no newline ends its kind |
| AliasTable.NewlineBehindAnAlias | ewsmcp/ids.py:49 | an alias with a newline behind it is taken for an alias and names nothing |
| AliasTable.ShapesExactly | ewsmcp/ids.py:49-52 | both grammars by their characters: one or two letters, then digits, and a newline at the end allowed |
| AliasTable.StepKeeps | ewsmcp/ids.py:97-121 | every statement of racing transactions keeps the invariant, unless an aborted batch returns what it minted |
| AliasTable.AbortKeepsExactly | ewsmcp/ids.py:153-173 | an abort is harmless exactly when its caller learns no alias it had minted |
| AliasTable.LeakedAliasNamesAnotherItem | ewsmcp/ids.py:153-173 | from empty tables, an alias returned by a rolled-back batch comes to name another item |
| AliasTable.AnAliasNeverChangesHands | ewsmcp/ids.py:97-151 | in every run, aliases and ids are one to one and a handed alias names its item or nothing |
| AliasTable.NumbersAreNeverReused | ewsmcp/ids.py:77-81 | a minted number is above every row, every handed alias and every other mint of its kind |
| AliasTable.AliasFollowsTheItem | ewsmcp/ids.py:200-226 | in every run of mints, races and moves an alias names the id its item has by then; it becomes unknown exactly when a move brings another alias of the item to that id |
| AliasTable.IdAliaser.MintLocked | ewsmcp/ids.py:97-121 | an id keeps the alias it has, or gets the next number, or the alias of the rival that won the race, or the raw id when that is gone again |
| AliasTable.IdAliaser.AliasMany | ewsmcp/ids.py:153-173 | a page gets its aliases, each new one of the kind first asked for, a bad kind becoming x; or it rolls back at any entry or at the commit and still returns what it collected |
| AliasTable.IdAliaser.Rebind | ewsmcp/ids.py:200-226 | the alias of the old id names the new one and its duplicate goes |
| AliasTable.IdAliaser.Resolve | ewsmcp/ids.py:175-198 | an alias names its row, an unknown alias is refused, anything else passes, an alias whose kind ends in a newline too |
| BodyClean.NormalizedExactly | ewsmcp/bodyclean.py:31-39 | what each character becomes wherever it stands: five invisible ones go, a no-break space is a space, CRLF and CR are a newline, all others stay |
| BodyClean.NormLineExactly | ewsmcp/bodyclean.py:42-55 | a line is quoted exactly when its first mark is a >; then the run of marks goes, each with at most one blank, and the blanks around the rest |
| BodyClean.LineKindExactly | ewsmcp/bodyclean.py:115-131 | which marker a line makes: the first grammar that fits, a sender line only with its pair on one of the next four lines |
| BodyClean.CutsExactly | ewsmcp/bodyclean.py:86-163 | where a text may be cut, from the lines and the grammars alone: the first line that is not blank only at an "Original Message" line |
| BodyClean.KeptIsAPrefix | ewsmcp/bodyclean.py:137-171 | the kept text is a prefix of the normalised text |
| BodyClean.CuttingMakesNoMarker | ewsmcp/bodyclean.py:86-134 | dropping the tail creates no marker, despite quote runs and the lookahead |
| BodyClean.StrippingIsStable | ewsmcp/bodyclean.py:137-176 | stripping again returns the same text and cuts nothing |
| BodyClean.CutIsCounted | ewsmcp/bodyclean.py:166-176 | a cut always counts at least one block, without the program's floor |
| BodyClean.FindRuns | ewsmcp/bodyclean.py:101-113 | the runs are exactly the long maximal stretches of quoted lines |
| BodyClean.FindMarkers | ewsmcp/bodyclean.py:86-134 | every marker once, in line order |
| BodyClean.FindCut | ewsmcp/bodyclean.py:152-163 | the cut is the first marker that is not protected |
| BodyClean.CountBlocks | ewsmcp/bodyclean.py:165-175 | markers inside a counted run are absorbed by it |
| BodyClean.StripQuotedHistory | ewsmcp/bodyclean.py:137-176 | the whole function: the text before the first cut and the number of blocks removed |
| Boilerplate.ParagraphsCover | ewsmcp/bodyclean.py:346-356 | paragraphs are exact slices in order and no mark of the text is outside them |
| Boilerplate.ParagraphsBetween | ewsmcp/bodyclean.py:346-356 | each paragraph runs from the beginning or a separator to the next separator or the end, and no separator begins in it |
| Boilerplate.SeparatorExactly | ewsmcp/bodyclean.py:314 | the matcher finds exactly the separators of the expression: two newlines with blanks between and all newlines behind |
| Boilerplate.Paragraphs | ewsmcp/bodyclean.py:346-356 | the splitting loop yields those paragraphs |
| Boilerplate.TailIsASuffix | ewsmcp/bodyclean.py:359-370 | the tail window is a suffix, never the first paragraph, at most eight, of the last eight exactly the late ones |
| Boilerplate.CutKeepsFirst | ewsmcp/bodyclean.py:373-395 | a cut at any later paragraph keeps the first one, right-stripped, in place |
| Boilerplate.StripDisclaimerTail | ewsmcp/bodyclean.py:373-395 | the cut is at the earliest anchored paragraph after the first, if there is one |
| Boilerplate.BestRef | ewsmcp/boilerplate.py:47-51 | the first reference with the highest score above minus one |
| Boilerplate.EmbeddingDetect | ewsmcp/boilerplate.py:45-54 | a hit for each paragraph that resembles a reference, under the name of the best one, whatever the number of vectors |
| Boilerplate.LlmDetector.Detect | ewsmcp/boilerplate.py:214-234 | no answer becomes an index out of range, and the budget caps the calls |
| Boilerplate.Harness.Analyse | ewsmcp/boilerplate.py:98-125 | a hit is exactly a paragraph of the window whose vector is near a reference, or the one the model names while it may be asked; the text is cut before the earliest hit of an allowed detector, or not at all, and keeps the first paragraph |
| Embedding.PiecesAreTheText | ewsmcp/embeddings.py:44-57 | the chunks in order are the text, full width but the last |
| Embedding.ChunkText | ewsmcp/embeddings.py:44-57 | no chunk exactly when subject, body and context are all blank; otherwise the slices of the composed text |
| Embedding.ComposedExactly | ewsmcp/embeddings.py:48-53 | the text embedded: the subject without its blanks and the body on a line each, or the one there is, a body alone without the newlines at its ends, then a blank line and the context |
| Embedding.NothingToEmbedExactly | ewsmcp/embeddings.py:48-55 | stripping and joining make a blank text exactly of blank parts |
| Embedding.Slices | ewsmcp/embeddings.py:56-57 | the slicing loop yields the pieces |
| Embedding.EmbedInBatches | ewsmcp/embeddings.py:91-95 | requests of bounded size give the vectors one request would have given |
| Embedding.SemanticIndex.WriteAll | ewsmcp/semantic.py:121-128 | each message gets its own window of the joined answer |
| Embedding.SemanticIndex.Flush | ewsmcp/semantic.py:115-128 | a flush finishes each message or leaves it as it was |
| Embedding.SemanticIndex.IndexMessages | ewsmcp/semantic.py:80-113 | batched indexing equals embedding each message alone, writes each once, never splits one, and fills fair requests |
| Slots.FindSlots | ewsmcp/tools/calendar_people.py:72-105 | the starts are exactly the grid starts that may be offered, in order |
| Slots.OfferedExactly | ewsmcp/tools/calendar_people.py:84-104 | a start may be offered exactly when it is on a half hour, fits, lies in the working hours, and everyone's busy spans end by its start or start at its end or later |
| Slots.HoursMeanOneDayExactly | ewsmcp/tools/calendar_people.py:94-99 | the clock-time test means one day exactly up to 1440 minutes or for whole days |
| Confirm.StepKeeps | ewsmcp/confirm.py:41-61 | previews, replays and pruning keep the record of spent tokens |
| Confirm.EveryPassWasPreviewed | ewsmcp/tools/base.py:195-263 | the confirm gate lets a call through only after a preview of the same mailbox, action, target and content |
| Confirm.OnceUpToExpiry | ewsmcp/confirm.py:41-61 | up to its expiry a token lets at most one call through |
| Confirm.ReplayPassesExactly | ewsmcp/confirm.py:140-141 | when exactly a spent token passes again |
| Confirm.PassesExactly | ewsmcp/confirm.py:41-61 | which tokens pass at all: minted for this very call, not expired by the whole second, and never spent or past its exact expiry |
| Confirm.ASpentTokenPassesAgain | ewsmcp/confirm.py:41-61 | a reachable state in which one token has let two calls through |
| Confirm.ConfirmGate.ConsumeToken | ewsmcp/confirm.py:41-61 | prune, then spend a token once |
| Confirm.ConfirmGate.Check | ewsmcp/tools/base.py:195-263 | without a token a call is only previewed; with one it may proceed exactly when the token passes, and that spends it |
| Confirm.SendCap.Guard | ewsmcp/tools/base.py:162-175 | a send is refused exactly when the last cap sends all fell in the hour before it |
| Confirm.EveryHourIsCapped | ewsmcp/tools/base.py:162-175 | every hour of the whole history contains at most cap sends |
| Dispatch.EveryRunIsPaidFor | ewsmcp/tools/base.py:280-340 | every handler run that needs confirming goes back to its own pass of a previewed token, and every send to its own place under the cap |
| Dispatch.OneRunPerToken | ewsmcp/tools/base.py:280-340 | up to its expiry a token gets the handler run at most once |
| Dispatch.SendsAreCapped | ewsmcp/tools/base.py:333-340 | no hour of the whole history sees more than cap sends run |
| Dispatch.RunsExactly | ewsmcp/tools/base.py:295-340 | the handler runs exactly when the rails stand open, the token was minted for this call and is neither spent nor expired, the cap has room and the aliases are known; each spelled out |
| Dispatch.RailsRefuseExactly | ewsmcp/tools/base.py:290-329 | which rail refuses: the first closed one in order |
| Dispatch.BurnedExactly | ewsmcp/tools/base.py:330-340 | a passing token is spent without a run exactly when the cap refuses or an alias is unknown; a place under the cap goes only in the second case |
| Dispatch.RailsCostNothing | ewsmcp/tools/base.py:290-329 | a refusal by the standing rails spends no token and no place under the cap |
| Dispatch.DispatchKeeps | ewsmcp/tools/base.py:280-345 | one call through all gates keeps the token record, the cap and the books of what paid for what |
| Dispatch.Dispatcher.Serve | ewsmcp/tools/base.py:280-345 | the program passes the gates in order and answers with the first refusal |

## Left out

Assumptions of the archive model:

- `account.fetch` is assumed to name an item by its own id; a wrong number of answers is modelled as the raising call of `DeleteBatch`.
- `_requeue` is assumed not to raise; it sits outside the try in `delete.py`.
- ArchiveContent.DeletedMailIsArchived: a changekey is assumed to name one content of an item, and one fetch to yield the two together.
- A hard-deleted id never appears in the mailbox again.
- The environment may damage any file except an `.eml` that is the only copy left or that a running delete pass has just checked.
- A crash between marking a capture and writing its inventory leaves an empty inventory; no claim is made that inventories are complete across crashes.
- The clock never runs backwards and reads later than the epoch.
- The delete lane's audit writes and its log of reasons are reduced to one reason per id.
- DeleteLane.Deleter.Run: the totals of `unmarked` and `requeued` are tied to the rows only in runs without interference or database faults.
- CaptureLane.Capturer.Run: no new mail arrives during a pass, and a server delete takes its rows before their turn comes.
- Cancelling a lane while its worker thread runs on is not modelled; the lane's next pass would then overlap it.

Assumptions of the other models:

- ArrivalFeed.NothingIsLost: assumes sweeps take the lock in the order their transactions began; `SweepKeepsOrderExactly` says what happens otherwise.
- AuditChain.ZeroBreaksExactly: speaks of the records that were read; `AuditText` says how text becomes records. Lines that are JSON but not objects, at which the verifier stops, are outside both.
- AuditText.Verify: a record's fields other than its number and its link are one text, and strip() is part of the parser.
- The position of a record's text in the hash input is not modelled; the hash takes the pair, which is unambiguous for hex digests.
- A message body fetched during a flush is part of the change that is flushed.
- AliasTable.AnAliasNeverChangesHands: a raw id is assumed to name one mailbox item for ever; integer overflow of the counter is outside it.
- AliasTable.IdAliaser.AliasMany: one transaction alone; races between transactions are the state machine's.
- AliasTable.StepKeeps: a rebind is one step, as its row lock and the unique index make its statements take effect together or not at all.
- Embedding.SemanticIndex.IndexMessages: the embedder answers pointwise or raises; freshness of chunks after a later sync is not claimed.
- Slots.FindSlots: wall-clock arithmetic in one time zone; daylight-saving changes inside a window are not modelled.
- Dispatch.Dispatcher.Serve: the rails' own state (tier, circuit, warm-up, allow lists) is their answer for the call, and the handler's outcome is not modelled.
- Confirm.OnceUpToExpiry: within one process; after a restart the record of spent tokens is gone, and with a fixed secret an unexpired token can be used again.
- Scores of the embedding detector are exact reals, and the meaning of the regular expressions is left abstract.

Not modelled:

- Exchange and exchangelib calls, thread pools, warm-up and heartbeat; only "an item, or an error, per id" and "the delete succeeds or raises".
- HTTP and MCP servers, routes, metrics, tool schemas; the text form of the bridge cursor and its generation check.
- Full-text and vector search, ranking and `hybrid_search` paging.
- `html_to_text`, `strip_signature`, `strip_header_lines` and the truncation in `clean_body`.
- Write-tool handlers, the send-draft store, upload and download links, publishing, configuration checks.
- Folder selection and category exclusion of the archive policy, which enter only as the predicate that a capture candidate must match.
- The embed lane, the status reports and the free-space arithmetic.
