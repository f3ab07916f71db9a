/**
 The capture lane's queue.  A pass takes the oldest candidates, writes their
 files, and flips their rows; items over the size cap are set aside so that they
 cannot fill every page.  A server delete may take rows out of the batch before
 their turn comes; any other interference with a capture is in the protocol.
 */
module CaptureLane {
  import opened Mail
  import opened Copies
  import opened ArchivePolicy
  import opened ArchiveProtocol
  import opened Queue
  import opened CacheStores
  import S = Store

  /** What the fetch yields for an item: an error object, or the item with its
      reported size, and where capturing it may fail (no MIME bytes count as a
      write that fails before its first file). */
  datatype Answer =
    | Refused
    | Item(size: Option<nat>, fetched: Fetched, writeFails: bool, filesWritten: nat, inventoryFails: bool, undoFails: bool)

  /** Over the size cap: an unreported size never is. */
  predicate Oversized(a: Answer, maxMb: nat) {
    a.Item? && a.size.Some? && maxMb * 1024 * 1024 < a.size.value
  }

  /** Its row leaves `live`: everything worked, or the undo of a lost inventory did not. */
  predicate TakenUp(a: Answer, maxMb: nat) {
    a.Item? && !Oversized(a, maxMb) && !a.writeFails && (!a.inventoryFails || a.undoFails)
  }

  /** The verdict on one answer, by whether its row is still `live`. */
  ghost predicate JudgedAs(a: Answer, maxMb: nat, live: bool, o: Outcome) {
    && (o == SetAside <==> Oversized(a, maxMb))
    && (o == Done <==> a.Item? && !Oversized(a, maxMb) && live && !a.writeFails && !a.inventoryFails)
  }

  /** A row this policy would capture now. */
  predicate Wanted(r: Row, cutoff: int, matches: Mirror -> bool) {
    r.state == Live && r.mirror.dateTs.Some? && r.mirror.dateTs.value <= cutoff && matches(r.mirror)
  }

  function Candidates(db: S.Db, aside: set<ItemId>, cutoff: int, matches: Mirror -> bool): set<ItemId> {
    set i | i in db.rows && i !in aside && Wanted(db.rows[i], cutoff, matches)
  }

  /** Which messages those are, from the settings and the clock alone: live, not
      set aside, of a kind the policy takes, and of the capture age. */
  lemma CandidatesExactly(db: S.Db, aside: set<ItemId>, s: Settings, now: int, matches: Mirror -> bool, id: ItemId, days: int)
    requires s.captureAfterDays == None ==> days == s.afterDays
    requires s.captureAfterDays.Some? && s.afterDays < s.captureAfterDays.value ==> days == s.afterDays
    requires s.captureAfterDays.Some? && s.captureAfterDays.value <= s.afterDays ==>
               days == if s.captureAfterDays.value < 0 then Min(0, s.afterDays) else s.captureAfterDays.value
    ensures id in Candidates(db, aside, CaptureCutoff(FromSettings(s, None), now), matches) <==>
              && id in db.rows && id !in aside && db.rows[id].state == Live && matches(db.rows[id].mirror)
              && db.rows[id].mirror.dateTs.Some?
              && var due := (db.rows[id].mirror.dateTs.value + days * 86_400) * SECOND;
                 if days * DAY <= now then due <= now else due < now + SECOND
  {
    if id in db.rows && db.rows[id].mirror.dateTs.Some? {
      CapturedFromAgeExactly(s, now, db.rows[id].mirror.dateTs.value, days);
    }
    hide CaptureCutoff;
  }

  datatype Outcome = Done | Missed | SetAside

  datatype Result = Result(candidates: nat, captured: nat, failed: nat, tooLarge: nat, stopped: bool, raised: bool)

  // -------------------------------------------------------- what a capture leaves

  /** The files a digest names hold exactly the bytes it is the digest of. */
  predicate Exact(d: Disk, sha: Option<Sha>, atts: seq<Attachment>) {
    && sha.Some? && sha.value.Sha256? && sha.value in d.mime && d.mime[sha.value] == sha.value.content
    && forall k :: 0 <= k < |atts| && atts[k].sha.Some? ==>
         && atts[k].sha.value.Sha256? && atts[k].sha.value in d.blobs
         && d.blobs[atts[k].sha.value] == atts[k].sha.value.content
         && atts[k].size == Some(|atts[k].sha.value.content|)
  }

  ghost predicate Archived(db: S.Db, d: Disk, id: ItemId) {
    S.InState(db, id, Captured) && Exact(d, db.rows[id].sha, S.AttachmentsFor(db, id))
  }

  /** And they are the bytes, the changekey and the inventory of this fetch. */
  ghost predicate ArchivedAs(db: S.Db, d: Disk, id: ItemId, a: Answer) {
    && a.Item? && Archived(db, d, id)
    && db.rows[id].sha == Some(Hash(a.fetched.mime)) && db.rows[id].capturedCk == a.fetched.ck
    && S.AttachmentsFor(db, id) == InventoryOf(a.fetched)
  }

  /** Such a row passes the verifier as long as its changekey has not moved. */
  lemma ArchivedIsVerifiable(db: S.Db, d: Disk, id: ItemId, live: Option<string>)
    requires Archived(db, d, id) && Usable(live) && live == db.rows[id].capturedCk
    ensures Evaluate(d, db.rows[id], live, S.AttachmentsFor(db, id)).Promote?
  {
    CopyFineExactly(d, db.rows[id].sha, S.AttachmentsFor(db, id));
    PromoteExactly(d, db.rows[id], live, S.AttachmentsFor(db, id));
  }

  /** Writing files spoils no exact copy. */
  lemma {:induction false} WritesKeepExact(d: Disk, f: Fetched, n: nat, sha: Option<Sha>, atts: seq<Attachment>)
    requires Exact(d, sha, atts)
    ensures Exact(WriteFiles(d, f, n), sha, atts)
  {
    if n > 0 { WritesKeepExact(d, f, n - 1, sha, atts); }
  }

  lemma {:induction false} WritesAreThere(d: Disk, f: Fetched, n: nat)
    requires 1 <= n <= FileCount(f)
    ensures var w := WriteFiles(d, f, n);
            && Hash(f.mime) in w.mime && w.mime[Hash(f.mime)] == f.mime
            && forall k :: 0 <= k < n - 1 && f.parts[k].0.sha.Some? ==>
                 Hash(f.parts[k].1) in w.blobs && w.blobs[Hash(f.parts[k].1)] == f.parts[k].1
  {
    if n > 1 { WritesAreThere(d, f, n - 1); }
  }

  /** A whole capture of a faithful fetch is an exact copy. */
  lemma CaptureIsExact(d: Disk, f: Fetched)
    requires Faithful(f)
    ensures Exact(WriteFiles(d, f, FileCount(f)), Some(Hash(f.mime)), InventoryOf(f))
  {
    WritesAreThere(d, f, FileCount(f));
  }

  // ------------------------------------------------------------------ the program

  class Capturer {
    const store: CacheStore
    const maxMb: nat
    var disk: Disk
    var aside: set<ItemId>

    constructor (store: CacheStore, maxMb: nat, disk: Disk)
      ensures this.store == store && this.maxMb == maxMb && this.disk == disk && aside == {}
    {
      this.store, this.maxMb, this.disk, aside := store, maxMb, disk, {};
    }

    /** One item: its files, its row, its inventory, in that order.  A row that
        is no longer `live` is left alone; if the inventory cannot be written
        the row goes back to `live`. */
    method CaptureOne(id: ItemId, a: Answer) returns (ok: bool)
      requires a.Item? && Faithful(a.fetched)
      modifies this`disk, store
      ensures ok <==> old(S.InState(store.Contents(), id, Live)) && !a.writeFails && !a.inventoryFails
      ensures ok ==> ArchivedAs(store.Contents(), disk, id, a)
      ensures disk == WriteFiles(old(disk), a.fetched, if a.writeFails then a.filesWritten else FileCount(a.fetched))
      ensures !old(S.InState(store.Contents(), id, Live)) ==> store.Contents() == old(store.Contents())
      ensures old(S.InState(store.Contents(), id, Live)) ==>
                S.InState(store.Contents(), id, if ok || (!a.writeFails && a.undoFails) then Captured else Live)
      ensures OnlyMoved(old(store.Contents()), store.Contents(), {id})
      ensures forall i :: i != id && old(Archived(store.Contents(), disk, i)) ==> Archived(store.Contents(), disk, i)
    {
      hide Exact, WriteFiles, InventoryOf, Faithful, S.AttachmentsFor;
      var f := a.fetched;
      var n: nat := if a.writeFails then a.filesWritten else FileCount(f);
      ghost var was, disk0 := store.Contents(), disk;
      disk := WriteFiles(disk, f, n);
      if a.writeFails {
        OthersStayArchived(was, was, disk0, f, n, {});
        return false;
      }
      CaptureIsExact(disk0, f);
      var changed := store.MarkCaptured(id, Hash(f.mime), f.ck);
      if changed == 0 {
        OthersStayArchived(was, was, disk0, f, n, {});
        return false;
      }
      var raised := store.ReplaceAttachments(id, InventoryOf(f), a.inventoryFails);
      if raised && !a.undoFails {
        var _ := store.ResetToLive(id);
      }
      OneMoved(was, store.Contents(), id);
      OthersStayArchived(was, store.Contents(), disk0, f, n, {id});
      Listed(store.Contents(), id);
      ok := !raised;
    }

    /** The verdict on one id, and what it does to the two sets kept aside. */
    method Judge(id: ItemId, a: Answer) returns (o: Outcome)
      requires a.Item? ==> Faithful(a.fetched)
      modifies this`disk, this`aside, store
      ensures JudgedAs(a, maxMb, old(S.InState(store.Contents(), id, Live)), o)
      ensures S.InState(store.Contents(), id, Live) <==> old(S.InState(store.Contents(), id, Live)) && !TakenUp(a, maxMb)
      ensures aside == if o == SetAside then old(aside) + {id} else old(aside)
      ensures OnlyMoved(old(store.Contents()), store.Contents(), {id})
      ensures o == Done ==> ArchivedAs(store.Contents(), disk, id, a)
      ensures forall i :: i != id && old(Archived(store.Contents(), disk, i)) ==> Archived(store.Contents(), disk, i)
    {
      hide ArchivedAs, Archived, Faithful;
      NothingMoved(store.Contents(), {id});
      if a.Refused? { return Missed; }
      if a.size.Some? && maxMb * 1024 * 1024 < a.size.value {
        aside := aside + {id};
        return SetAside;
      }
      var ok := CaptureOne(id, a);
      o := if ok then Done else Missed;
    }

    /** The fetch answers are zipped strictly against the ids: one verdict each,
        or, when the count is wrong, the call raises after the common part. */
    method CaptureBatch(ids: seq<ItemId>, answers: seq<Answer>)
      returns (captured: nat, failed: nat, tooLarge: seq<ItemId>, raised: bool, ghost outcomes: seq<Outcome>)
      requires Distinct(ids)
      requires forall a :: a in answers && a.Item? ==> Faithful(a.fetched)
      modifies this`disk, this`aside, store
      ensures raised <==> |answers| != |ids|
      ensures |outcomes| == if |answers| < |ids| then |answers| else |ids|
      ensures forall j :: 0 <= j < |outcomes| ==>
                JudgedAs(answers[j], maxMb, old(S.InState(store.Contents(), ids[j], Live)), outcomes[j])
      ensures forall j :: 0 <= j < |outcomes| ==>
                (S.InState(store.Contents(), ids[j], Live) <==>
                   old(S.InState(store.Contents(), ids[j], Live)) && !TakenUp(answers[j], maxMb))
      ensures OnlyMoved(old(store.Contents()), store.Contents(), Elems(ids[..|outcomes|]))
      ensures captured == Count(outcomes, Done) && failed == Count(outcomes, Missed) && |tooLarge| == Count(outcomes, SetAside)
      ensures aside == old(aside) + Judged(ids, outcomes, SetAside)
      ensures OnlyMoved(old(store.Contents()), store.Contents(), Elems(ids))
      ensures forall j :: 0 <= j < |outcomes| && outcomes[j] == Done ==> ArchivedAs(store.Contents(), disk, ids[j], answers[j])
    {
      hide ArchivedAs, Archived, OnlyMoved, Faithful, Count, Judged, JudgedAs, TakenUp, S.InState;
      captured, failed, tooLarge, outcomes := 0, 0, [], [];
      ghost var was := store.Contents();
      NothingMoved(was, Elems(ids[..0]));
      NothingJudged(ids);
      var k := 0;
      while k < |ids| && k < |answers|
        invariant k <= |ids| && k <= |answers| && |outcomes| == k
        invariant forall j :: 0 <= j < k ==> JudgedAs(answers[j], maxMb, S.InState(was, ids[j], Live), outcomes[j])
        invariant forall j :: 0 <= j < k ==>
                    (S.InState(store.Contents(), ids[j], Live) <==> S.InState(was, ids[j], Live) && !TakenUp(answers[j], maxMb))
        invariant captured == Count(outcomes, Done) && failed == Count(outcomes, Missed) && |tooLarge| == Count(outcomes, SetAside)
        invariant aside == old(aside) + Judged(ids, outcomes, SetAside)
        invariant OnlyMoved(was, store.Contents(), Elems(ids[..k]))
        invariant forall j :: 0 <= j < k && outcomes[j] == Done ==> ArchivedAs(store.Contents(), disk, ids[j], answers[j])
      {
        var id, a := ids[k], answers[k];
        assert id in ids && a in answers;
        ghost var before, disk0 := store.Contents(), disk;
        NextId(ids, k);
        UnmovedIsAsLive(was, before, Elems(ids[..k]), id);
        var o := Judge(id, a);
        OthersAsLive(before, store.Contents(), ids, k);
        StillAs(before, disk0, store.Contents(), disk, ids, answers, outcomes, k);
        MovedMore(was, before, store.Contents(), Elems(ids[..k]), id);
        OneMore(ids, outcomes, o);
        outcomes := outcomes + [o];
        match o {
          case Done => captured := captured + 1;
          case Missed => failed := failed + 1;
          case SetAside => tooLarge := tooLarge + [id];
        }
        k := k + 1;
      }
      MovedAmong(was, store.Contents(), ids, k);
      raised := |answers| != |ids|;
    }

    /** One pass, stated by the gateway's own answers to the `limit` oldest
        candidates.  What leaves the queue is exactly what was over the size cap,
        what was captured (or could not be put back), and what a server delete
        took meanwhile; a failed item stays, and nothing else comes or goes. */
    method Run(limit: nat, dryRun: bool, lowDisk: bool, cutoff: int, matches: Mirror -> bool,
               gateway: seq<ItemId> -> seq<Answer>, vanished: set<ItemId>)
      returns (r: Result, ghost ids: seq<ItemId>)
      requires forall batch :: FaithfulAnswers(gateway(batch))
      modifies this`disk, this`aside, store
      ensures r.candidates == |old(Candidates(store.Contents(), aside, cutoff, matches))|
      ensures dryRun || lowDisk ==> store.Contents() == old(store.Contents()) && disk == old(disk) && aside == old(aside)
      ensures dryRun || lowDisk ==> r.captured == r.failed == r.tooLarge == 0 && !r.raised
      ensures r.stopped <==> lowDisk && !dryRun && ids != []
      ensures |ids| == (if limit < r.candidates then limit else r.candidates) && Distinct(ids)
      ensures TakesOldest(old(store.Contents()), ids, old(Candidates(store.Contents(), aside, cutoff, matches)))
      ensures !dryRun && !lowDisk && ids != [] ==> (r.raised <==> |gateway(ids)| != |ids|)
      // the counters, by the answers
      ensures !dryRun && !lowDisk && !r.raised && ids != [] ==>
                Counts(r, ids, gateway(ids), maxMb, vanished) && r.captured + r.failed + r.tooLarge == |ids|
      // what was set aside, and what left the queue, also when the call raised in the end
      ensures !dryRun && !lowDisk && ids != [] ==>
                var answers := gateway(ids);
                var before, now := old(Candidates(store.Contents(), aside, cutoff, matches)), Candidates(store.Contents(), aside, cutoff, matches);
                && aside == old(aside) + (set j | 0 <= j < |ids| && j < |answers| && answers[j].Item? && answers[j].size.Some? &&
                                                  maxMb * 1024 * 1024 < answers[j].size.value :: ids[j])
                && now == before - vanished -
                     (set j | 0 <= j < |ids| && j < |answers| &&
                              (Oversized(answers[j], maxMb) ||
                               (answers[j].Item? && !answers[j].writeFails && (!answers[j].inventoryFails || answers[j].undoFails)))
                              :: ids[j])
      ensures !dryRun && !lowDisk && ids != [] && !r.raised ==>
                forall j :: 0 <= j < |ids| && Clean(gateway(ids)[j], maxMb) && ids[j] !in vanished ==>
                  ArchivedAs(store.Contents(), disk, ids[j], gateway(ids)[j])
    {
      hide ArchivedAs, Archived, Wanted, Candidates, TakesOldest, Distinct, Elems, Counts, FaithfulAnswers, TakenUp, Oversized, Clean, Left, Big;
      r, ids := OnePage(limit, dryRun, lowDisk, cutoff, matches, gateway, vanished);
      LeftAre(ids, gateway(ids), maxMb);
    }

    /** The same pass, with what it sets aside and takes out of the queue named. */
    method OnePage(limit: nat, dryRun: bool, lowDisk: bool, cutoff: int, matches: Mirror -> bool,
                   gateway: seq<ItemId> -> seq<Answer>, vanished: set<ItemId>)
      returns (r: Result, ghost ids: seq<ItemId>)
      requires forall batch :: FaithfulAnswers(gateway(batch))
      modifies this`disk, this`aside, store
      ensures r.candidates == |old(Candidates(store.Contents(), aside, cutoff, matches))|
      ensures dryRun || lowDisk ==> store.Contents() == old(store.Contents()) && disk == old(disk) && aside == old(aside)
      ensures dryRun || lowDisk ==> r.captured == r.failed == r.tooLarge == 0 && !r.raised
      ensures r.stopped <==> lowDisk && !dryRun && ids != []
      ensures |ids| == (if limit < r.candidates then limit else r.candidates) && Distinct(ids)
      ensures TakesOldest(old(store.Contents()), ids, old(Candidates(store.Contents(), aside, cutoff, matches)))
      ensures ids == [] ==> store.Contents() == old(store.Contents()) && aside == old(aside)
      ensures !dryRun && !lowDisk && ids != [] ==>
                && (r.raised <==> |gateway(ids)| != |ids|)
                && (!r.raised ==> Counts(r, ids, gateway(ids), maxMb, vanished) && r.captured + r.failed + r.tooLarge == |ids|)
                && aside == old(aside) + Big(ids, gateway(ids), maxMb)
                && Candidates(store.Contents(), aside, cutoff, matches) ==
                     old(Candidates(store.Contents(), aside, cutoff, matches)) - vanished - Left(ids, gateway(ids), maxMb)
                && (!r.raised ==> forall j :: 0 <= j < |ids| && Clean(gateway(ids)[j], maxMb) && ids[j] !in vanished ==>
                                    ArchivedAs(store.Contents(), disk, ids[j], gateway(ids)[j]))
    {
      hide ArchivedAs, Archived, OnlyMoved, Faithful, Count, Judged, JudgedAs, Wanted, Candidates, TakesOldest, Distinct, Elems,
           S.ApplyServerDeletes, Counts, FaithfulAnswers, TakenUp, Oversized, Clean, Left, Big;
      ghost var was, aside0 := store.Contents(), aside;
      var picked, total := Select(limit, cutoff, matches);
      ids := picked;
      r := Result(total, 0, 0, 0, false, false);
      if dryRun || picked == [] { return; }
      if lowDisk { r := r.(stopped := true); return; }
      Picked(was, aside0, cutoff, matches, ids);
      var answers := gateway(picked);
      assert FaithfulAnswers(answers);
      var captured, failed, tooLarge, raised := FetchAndCapture(picked, answers, vanished, cutoff, matches);
      r := r.(captured := captured, failed := failed, tooLarge := tooLarge, raised := raised);
      if !raised { CountsAre(r, ids, answers, maxMb, vanished); }
    }

    /** The gateway call for one page, and what it leaves of the queue. */
    method FetchAndCapture(ids: seq<ItemId>, answers: seq<Answer>, vanished: set<ItemId>, ghost cutoff: int,
                           ghost matches: Mirror -> bool)
      returns (captured: nat, failed: nat, tooLarge: nat, raised: bool)
      requires Distinct(ids) && forall i :: i in ids ==> i in Candidates(store.Contents(), aside, cutoff, matches)
      requires FaithfulAnswers(answers)
      modifies this`disk, this`aside, store
      ensures raised <==> |answers| != |ids|
      ensures !raised ==> Tallied(ids, answers, maxMb, vanished, captured, failed, tooLarge)
      ensures aside == old(aside) + Big(ids, answers, maxMb)
      ensures Candidates(store.Contents(), aside, cutoff, matches) ==
                old(Candidates(store.Contents(), aside, cutoff, matches)) - vanished - Left(ids, answers, maxMb)
      ensures !raised ==> forall j :: 0 <= j < |ids| && Clean(answers[j], maxMb) && ids[j] !in vanished ==>
                            ArchivedAs(store.Contents(), disk, ids[j], answers[j])
    {
      hide ArchivedAs, Archived, OnlyMoved, Faithful, Count, Judged, JudgedAs, Wanted, Candidates, Distinct, S.ApplyServerDeletes,
           TakenUp, Oversized, Big, Left, Clean, Tallied, S.InState;
      ghost var was, aside0 := store.Contents(), aside;
      var _, _ := store.ApplyServerDeletes(vanished);
      ghost var left := store.Contents();
      RestVanishes(was, aside0, vanished, cutoff, matches);
      LiveUnlessVanished(was, aside0, vanished, cutoff, matches, ids);
      var oversized; ghost var outcomes;
      captured, failed, oversized, raised, outcomes := CaptureBatch(ids, answers);
      tooLarge := |oversized|;
      SetAsideAreBig(left, ids, answers, outcomes, maxMb);
      AfterBatch(left, store.Contents(), aside0, ids, answers, outcomes, maxMb, cutoff, matches);
      if !raised { AllTallied(left, ids, answers, outcomes, maxMb, vanished); }
      forall j | 0 <= j < |ids| && |answers| == |ids| && Clean(answers[j], maxMb) && ids[j] !in vanished
        ensures ArchivedAs(store.Contents(), disk, ids[j], answers[j])
      {
        CleanIsDone(left, ids, answers, outcomes, maxMb, j);
      }
    }

    /** Cycle after cycle over a mailbox that answers each item in its own way.
        Items over the cap, however many and wherever they stand, only cost the
        places of one pass: when fewer items than a page are stuck, every pass
        takes the rest of its page out of the queue, and after enough passes
        nothing is left but what is stuck. */
    method Cycles(passes: nat, limit: nat, cutoff: int, matches: Mirror -> bool, answerOf: ItemId -> Answer)
      requires 0 < limit && forall i :: answerOf(i).Item? ==> Faithful(answerOf(i).fetched)
      modifies this`disk, this`aside, store
      ensures var before, now := old(Candidates(store.Contents(), aside, cutoff, matches)), Candidates(store.Contents(), aside, cutoff, matches);
              var stuck := StuckOnes(before, answerOf, maxMb);
              && stuck <= now <= before
              && (|stuck| < limit ==> |now - stuck| <= AtLeastZero(|before - stuck| - passes * (limit - |stuck|)))
              && (|stuck| < limit && |before - stuck| <= passes * (limit - |stuck|) ==> now == stuck)
              && aside == old(aside) + set i | i in before - now && answerOf(i).Item? && answerOf(i).size.Some? &&
                                               maxMb * 1024 * 1024 < answerOf(i).size.value
    {
      hide Candidates, Archived, Faithful, FaithfulAnswers, StuckOnes, BigOnes, Progress, Distinct, Elems;
      ghost var before, aside0 := Candidates(store.Contents(), aside, cutoff, matches), aside;
      NoPassYet(before, aside0, answerOf, maxMb, limit);
      var gateway := (batch: seq<ItemId>) => seq(|batch|, k requires 0 <= k < |batch| => answerOf(batch[k]));
      EachAnswersForItself(gateway, answerOf);
      for n := 0 to passes
        invariant Progress(before, Candidates(store.Contents(), aside, cutoff, matches), aside0, aside, answerOf, maxMb, limit, n)
      {
        ghost var was, aside1 := Candidates(store.Contents(), aside, cutoff, matches), aside;
        ghost var ids;
        var r;
        r, ids := OneCycle(limit, cutoff, matches, gateway, answerOf);
        OnePassMore(before, was, Candidates(store.Contents(), aside, cutoff, matches), aside0, aside1, aside, ids, answerOf, maxMb,
                    limit, n);
      }
      WhatIsLeft(before, Candidates(store.Contents(), aside, cutoff, matches), aside0, aside, answerOf, maxMb, limit, passes);
    }

    method OneCycle(limit: nat, cutoff: int, matches: Mirror -> bool, gateway: seq<ItemId> -> seq<Answer>,
                    ghost answerOf: ItemId -> Answer)
      returns (r: Result, ghost ids: seq<ItemId>)
      requires 0 < limit && forall batch :: FaithfulAnswers(gateway(batch))
      requires forall batch :: gateway(batch) == seq(|batch|, k requires 0 <= k < |batch| => answerOf(batch[k]))
      modifies this`disk, this`aside, store
      ensures var was, now := old(Candidates(store.Contents(), aside, cutoff, matches)), Candidates(store.Contents(), aside, cutoff, matches);
              && Elems(ids) <= was && Distinct(ids) && |ids| == (if limit < |was| then limit else |was|)
              && now == was - (Elems(ids) - StuckOnes(Elems(ids), answerOf, maxMb))
              && aside == old(aside) + BigOnes(Elems(ids), answerOf, maxMb)
    {
      hide Candidates, Archived, Counts, FaithfulAnswers, StuckOnes, BigOnes, Left, Big, Distinct;
      r, ids := OnePage(limit, false, false, cutoff, matches, gateway, {});
      PageLeaves(ids, gateway(ids), answerOf, maxMb);
      if ids == [] { NothingOnThePage(answerOf, maxMb); }
    }

    /** Both candidate queries: the oldest, and how many there are. */
    method Select(limit: nat, cutoff: int, matches: Mirror -> bool) returns (ids: seq<ItemId>, total: nat)
      ensures var c := Candidates(store.Contents(), aside, cutoff, matches);
              && total == |c| && |ids| == (if limit < total then limit else total) && Distinct(ids)
              && TakesOldest(store.Contents(), ids, c) && |c - Elems(ids)| == total - |ids|
    {
      var db := store.Contents();
      var candidates := Candidates(db, aside, cutoff, matches);
      var dates := map i | i in candidates :: db.rows[i].mirror.dateTs.value;
      ids := Queue.Oldest(dates, limit);
      total := |candidates|;
      assert dates.Keys == candidates;
      PickedAre(candidates, ids, limit);
      forall i, x | i in ids && x in candidates && x !in ids
        ensures db.rows[i].mirror.dateTs.value <= db.rows[x].mirror.dateTs.value
      {
        var k :| 0 <= k < |ids| && ids[k] == i;
        assert dates[ids[k]] <= dates[x];
      }
    }
  }

  /** No candidate left behind is older than one that was taken. */
  predicate TakesOldest(db: S.Db, ids: seq<ItemId>, candidates: set<ItemId>) {
    && Elems(ids) <= candidates
    && forall i, x :: i in ids && x in candidates && x !in ids ==> (
         i in db.rows && x in db.rows && db.rows[i].mirror.dateTs.Some? && db.rows[x].mirror.dateTs.Some? &&
         db.rows[i].mirror.dateTs.value <= db.rows[x].mirror.dateTs.value)
  }

  lemma Picked(db: S.Db, aside: set<ItemId>, cutoff: int, matches: Mirror -> bool, ids: seq<ItemId>)
    requires TakesOldest(db, ids, Candidates(db, aside, cutoff, matches))
    ensures Elems(ids) <= Candidates(db, aside, cutoff, matches)
    ensures forall i :: i in ids ==> i in Candidates(db, aside, cutoff, matches)
  {
    assert forall i :: i in ids ==> i in Elems(ids);
  }

  /** A server delete takes its candidates out of the queue, and their rows. */
  lemma RestVanishes(db: S.Db, aside: set<ItemId>, vanished: set<ItemId>, cutoff: int, matches: Mirror -> bool)
    ensures var left := S.ApplyServerDeletes(db, vanished);
            && Candidates(left, aside, cutoff, matches) == Candidates(db, aside, cutoff, matches) - vanished
            && forall i :: i in Candidates(db, aside, cutoff, matches) && i in left.rows ==>
                 i in Candidates(left, aside, cutoff, matches)
  {
  }

  lemma PickedAre(candidates: set<ItemId>, ids: seq<ItemId>, limit: nat)
    requires Distinct(ids) && Elems(ids) <= candidates && |ids| <= limit
    requires |ids| < limit ==> candidates <= Elems(ids)
    ensures |ids| == if limit < |candidates| then limit else |candidates|
    ensures |candidates - Elems(ids)| == |candidates| - |ids|
  {
    DistinctSize(ids);
    assert |candidates - Elems(ids)| == |candidates| - |Elems(ids)|;
    if |ids| < limit { assert candidates == Elems(ids); }
  }

  // ------------------------------------------------------------ cycle after cycle

  function AtLeastZero(n: int): nat { if n < 0 then 0 else n }

  /** Items that fail, the same way every time. */
  function StuckOnes(candidates: set<ItemId>, answerOf: ItemId -> Answer, maxMb: nat): set<ItemId> {
    set i | i in candidates && !Oversized(answerOf(i), maxMb) && !TakenUp(answerOf(i), maxMb)
  }

  function BigOnes(ids: set<ItemId>, answerOf: ItemId -> Answer, maxMb: nat): set<ItemId> {
    set i | i in ids && Oversized(answerOf(i), maxMb)
  }

  /** Stuck is an item that is not over the cap and that the gateway refuses, or
      whose files or inventory cannot be written. */
  lemma StuckAre(candidates: set<ItemId>, answerOf: ItemId -> Answer, maxMb: nat)
    ensures StuckOnes(candidates, answerOf, maxMb) ==
              set i | i in candidates &&
                      (answerOf(i).Refused? ||
                       (!(answerOf(i).size.Some? && maxMb * 1024 * 1024 < answerOf(i).size.value) &&
                        (answerOf(i).writeFails || (answerOf(i).inventoryFails && !answerOf(i).undoFails))))
  {
  }

  lemma BigOnesAre(ids: set<ItemId>, answerOf: ItemId -> Answer, maxMb: nat)
    ensures BigOnes(ids, answerOf, maxMb) ==
              set i | i in ids && answerOf(i).Item? && answerOf(i).size.Some? && maxMb * 1024 * 1024 < answerOf(i).size.value
  {
  }

  /** How far `n` passes have come: what is stuck is still there, every pass has
      taken the rest of its page, and what was over the cap is set aside. */
  ghost predicate Progress(before: set<ItemId>, now: set<ItemId>, aside0: set<ItemId>, aside: set<ItemId>,
                           answerOf: ItemId -> Answer, maxMb: nat, limit: nat, n: nat)
  {
    var stuck := StuckOnes(before, answerOf, maxMb);
    && stuck <= now <= before
    && (|stuck| < limit ==> |now - stuck| <= AtLeastZero(|before - stuck| - n * (limit - |stuck|)))
    && aside == aside0 + BigOnes(before - now, answerOf, maxMb)
  }

  lemma NoPassYet(before: set<ItemId>, aside: set<ItemId>, answerOf: ItemId -> Answer, maxMb: nat, limit: nat)
    ensures Progress(before, before, aside, aside, answerOf, maxMb, limit, 0)
  {
    hide Oversized, TakenUp;
    assert BigOnes(before - before, answerOf, maxMb) == {};
  }

  lemma OnePassMore(before: set<ItemId>, was: set<ItemId>, now: set<ItemId>, aside0: set<ItemId>, aside1: set<ItemId>,
                    aside: set<ItemId>, ids: seq<ItemId>, answerOf: ItemId -> Answer, maxMb: nat, limit: nat, n: nat)
    requires Progress(before, was, aside0, aside1, answerOf, maxMb, limit, n)
    requires Elems(ids) <= was && Distinct(ids) && |ids| == if limit < |was| then limit else |was|
    requires now == was - (Elems(ids) - StuckOnes(Elems(ids), answerOf, maxMb))
    requires aside == aside1 + BigOnes(Elems(ids), answerOf, maxMb)
    ensures Progress(before, now, aside0, aside, answerOf, maxMb, limit, n + 1)
  {
    hide StuckOnes, BigOnes, Distinct, AtLeastZero;
    var stuck, page := StuckOnes(before, answerOf, maxMb), Elems(ids);
    StuckOnPage(before, page, answerOf, maxMb);
    DistinctSize(ids);
    PassLeaves(was, now, page, stuck, limit);
    BigLeave(before, was, now, page, answerOf, maxMb);
    Shrinks(|before - stuck|, |was - stuck|, |now - stuck|, n, limit - |stuck|);
  }

  lemma WhatIsLeft(before: set<ItemId>, now: set<ItemId>, aside0: set<ItemId>, aside: set<ItemId>, answerOf: ItemId -> Answer,
                   maxMb: nat, limit: nat, n: nat)
    requires Progress(before, now, aside0, aside, answerOf, maxMb, limit, n)
    ensures var stuck := StuckOnes(before, answerOf, maxMb);
            && stuck <= now <= before
            && (|stuck| < limit ==> |now - stuck| <= AtLeastZero(|before - stuck| - n * (limit - |stuck|)))
            && (|stuck| < limit && |before - stuck| <= n * (limit - |stuck|) ==> now == stuck)
            && aside == aside0 + set i | i in before - now && answerOf(i).Item? && answerOf(i).size.Some? &&
                                         maxMb * 1024 * 1024 < answerOf(i).size.value
  {
    var stuck := StuckOnes(before, answerOf, maxMb);
    BigOnesAre(before - now, answerOf, maxMb);
    hide StuckOnes, BigOnes;
    if |stuck| < limit && |before - stuck| <= n * (limit - |stuck|) {
      assert now - stuck == {};
    }
  }

  lemma EachAnswersForItself(gateway: seq<ItemId> -> seq<Answer>, answerOf: ItemId -> Answer)
    requires forall batch :: gateway(batch) == seq(|batch|, k requires 0 <= k < |batch| => answerOf(batch[k]))
    requires forall i :: answerOf(i).Item? ==> Faithful(answerOf(i).fetched)
    ensures forall batch :: FaithfulAnswers(gateway(batch)) && |gateway(batch)| == |batch|
  {
    hide Faithful;
  }

  lemma NothingOnThePage(answerOf: ItemId -> Answer, maxMb: nat)
    ensures Elems([]) == {} && BigOnes({}, answerOf, maxMb) == {} && StuckOnes({}, answerOf, maxMb) == {}
  {
  }

  lemma Shrinks(good: nat, was: nat, now: nat, n: nat, step: int)
    requires 0 < step ==> was <= AtLeastZero(good - n * step) && now <= AtLeastZero(was - step)
    ensures 0 < step ==> now <= AtLeastZero(good - (n + 1) * step)
  {
    assert (n + 1) * step == n * step + step;
  }

  /** The ids of a page that leave the queue, when each item answers for itself. */
  lemma PageLeaves(ids: seq<ItemId>, answers: seq<Answer>, answerOf: ItemId -> Answer, maxMb: nat)
    requires answers == seq(|ids|, k requires 0 <= k < |ids| => answerOf(ids[k]))
    ensures Left(ids, answers, maxMb) == Elems(ids) - StuckOnes(Elems(ids), answerOf, maxMb)
    ensures Big(ids, answers, maxMb) == BigOnes(Elems(ids), answerOf, maxMb)
  {
    hide Oversized, TakenUp;
    forall i | i in Elems(ids)
      ensures i in Left(ids, answers, maxMb) <==> Oversized(answerOf(i), maxMb) || TakenUp(answerOf(i), maxMb)
      ensures i in Big(ids, answers, maxMb) <==> Oversized(answerOf(i), maxMb)
    {
      var j :| 0 <= j < |ids| && ids[j] == i;
      assert answers[j] == answerOf(i);
    }
  }

  lemma StuckOnPage(before: set<ItemId>, page: set<ItemId>, answerOf: ItemId -> Answer, maxMb: nat)
    requires page <= before
    ensures StuckOnes(page, answerOf, maxMb) == page * StuckOnes(before, answerOf, maxMb)
  {
    hide Oversized, TakenUp;
  }

  /** A page takes out of the queue everything on it but what is stuck. */
  lemma PassLeaves(was: set<ItemId>, now: set<ItemId>, page: set<ItemId>, stuck: set<ItemId>, limit: nat)
    requires page <= was && stuck <= was && |page| == if limit < |was| then limit else |was|
    requires now == was - (page - page * stuck)
    ensures stuck <= now <= was
    ensures |stuck| < limit ==> |now - stuck| <= AtLeastZero(|was - stuck| - (limit - |stuck|))
  {
    Fewer(was, stuck, page);
    assert page - page * stuck == page - stuck;
    assert now == was - (page - stuck);
    assert now - stuck == (was - stuck) - (page - stuck);
    if |page| == |was| { WholeSet(page, was); }
  }

  lemma WholeSet(a: set<ItemId>, b: set<ItemId>)
    requires a <= b && |a| == |b|
    ensures a == b
  {
    assert |b - a| == |b| - |a|;
  }

  lemma BigLeave(before: set<ItemId>, was: set<ItemId>, now: set<ItemId>, page: set<ItemId>, answerOf: ItemId -> Answer, maxMb: nat)
    requires page <= was <= before && now == was - (page - StuckOnes(page, answerOf, maxMb))
    ensures BigOnes(before - now, answerOf, maxMb) == BigOnes(before - was, answerOf, maxMb) + BigOnes(page, answerOf, maxMb)
  {
    hide Oversized, TakenUp;
    forall i ensures i in BigOnes(before - now, answerOf, maxMb) <==>
                     i in BigOnes(before - was, answerOf, maxMb) + BigOnes(page, answerOf, maxMb) {
    }
  }

  lemma Fewer(was: set<ItemId>, stuck: set<ItemId>, page: set<ItemId>)
    requires page <= was && stuck <= was
    ensures |(was - stuck) - (page - stuck)| == |was - stuck| - |page - stuck|
    ensures |page - stuck| >= |page| - |stuck|
    ensures |was - stuck| == |was| - |stuck|
    ensures page == was ==> page - stuck == was - stuck
  {
    assert (page - stuck) <= (was - stuck);
    S.SubsetIsSmaller(page - (page - stuck), stuck);
    assert |page - (page - stuck)| == |page| - |page - stuck|;
  }

  ghost predicate FaithfulAnswers(answers: seq<Answer>) {
    forall a :: a in answers && a.Item? ==> Faithful(a.fetched)
  }

  /** An item that nothing stands in the way of. */
  predicate Clean(a: Answer, maxMb: nat) {
    a.Item? && !Oversized(a, maxMb) && !a.writeFails && !a.inventoryFails
  }

  /** The three counters of a pass, by the answers alone: over the cap; captured;
      and failed, which is an error object, a row that was gone, or a fault. */
  ghost predicate Counts(r: Result, ids: seq<ItemId>, answers: seq<Answer>, maxMb: nat, vanished: set<ItemId>)
  {
    && |answers| == |ids|
    && r.tooLarge == |set j: nat | j < |ids| && answers[j].Item? && answers[j].size.Some? && maxMb * 1024 * 1024 < answers[j].size.value|
    && r.captured == |set j: nat | j < |ids| && Clean(answers[j], maxMb) && ids[j] !in vanished|
    && r.failed == |set j: nat | j < |ids| && !Oversized(answers[j], maxMb) &&
                       (answers[j].Refused? || ids[j] in vanished || answers[j].writeFails || answers[j].inventoryFails)|
  }

  /** The ids over the cap among those that were answered. */
  ghost function Big(ids: seq<ItemId>, answers: seq<Answer>, maxMb: nat): set<ItemId> {
    set j | 0 <= j < |ids| && j < |answers| && Oversized(answers[j], maxMb) :: ids[j]
  }

  /** The ids that leave the queue. */
  ghost function Left(ids: seq<ItemId>, answers: seq<Answer>, maxMb: nat): set<ItemId> {
    set j | 0 <= j < |ids| && j < |answers| && (Oversized(answers[j], maxMb) || TakenUp(answers[j], maxMb)) :: ids[j]
  }

  ghost predicate Tallied(ids: seq<ItemId>, answers: seq<Answer>, maxMb: nat, vanished: set<ItemId>,
                          captured: nat, failed: nat, tooLarge: nat)
  {
    && |answers| == |ids|
    && tooLarge == |set j: nat | j < |ids| && Oversized(answers[j], maxMb)|
    && captured == |set j: nat | j < |ids| && Clean(answers[j], maxMb) && ids[j] !in vanished|
    && captured + failed + tooLarge == |ids|
  }

  lemma LeftAre(ids: seq<ItemId>, answers: seq<Answer>, maxMb: nat)
    ensures Big(ids, answers, maxMb) ==
              set j | 0 <= j < |ids| && j < |answers| && answers[j].Item? && answers[j].size.Some? &&
                      maxMb * 1024 * 1024 < answers[j].size.value :: ids[j]
    ensures Left(ids, answers, maxMb) ==
              set j | 0 <= j < |ids| && j < |answers| &&
                      (Oversized(answers[j], maxMb) ||
                       (answers[j].Item? && !answers[j].writeFails && (!answers[j].inventoryFails || answers[j].undoFails)))
                      :: ids[j]
  {
  }

  lemma LiveUnlessVanished(db: S.Db, aside: set<ItemId>, vanished: set<ItemId>, cutoff: int, matches: Mirror -> bool, ids: seq<ItemId>)
    requires forall i :: i in ids ==> i in Candidates(db, aside, cutoff, matches)
    ensures forall i :: i in ids ==> (S.InState(S.ApplyServerDeletes(db, vanished), i, Live) <==> i !in vanished)
    ensures forall i :: i in ids && i in S.ApplyServerDeletes(db, vanished).rows ==>
              i in Candidates(S.ApplyServerDeletes(db, vanished), aside, cutoff, matches)
  {
    RestVanishes(db, aside, vanished, cutoff, matches);
  }

  ghost predicate AllJudged(db: S.Db, ids: seq<ItemId>, answers: seq<Answer>, outcomes: seq<Outcome>, maxMb: nat) {
    && |outcomes| == (if |answers| < |ids| then |answers| else |ids|)
    && forall j :: 0 <= j < |outcomes| ==> JudgedAs(answers[j], maxMb, S.InState(db, ids[j], Live), outcomes[j])
  }

  lemma SetAsideAreBig(db: S.Db, ids: seq<ItemId>, answers: seq<Answer>, outcomes: seq<Outcome>, maxMb: nat)
    requires AllJudged(db, ids, answers, outcomes, maxMb)
    ensures Judged(ids, outcomes, SetAside) == Big(ids, answers, maxMb)
  {
    assert forall j :: 0 <= j < |outcomes| ==> JudgedAs(answers[j], maxMb, S.InState(db, ids[j], Live), outcomes[j]);
    hide S.InState, Oversized;
  }

  lemma CleanIsDone(db: S.Db, ids: seq<ItemId>, answers: seq<Answer>, outcomes: seq<Outcome>, maxMb: nat, j: nat)
    requires AllJudged(db, ids, answers, outcomes, maxMb) && |answers| == |ids| && j < |ids|
    ensures outcomes[j] == Done <==> Clean(answers[j], maxMb) && S.InState(db, ids[j], Live)
  {
    assert JudgedAs(answers[j], maxMb, S.InState(db, ids[j], Live), outcomes[j]);
    hide S.InState;
  }

  /** The queue after a batch: what was over the cap and what was taken up is
      out, and everything else that was in is in. */
  lemma AfterBatch(was: S.Db, db: S.Db, aside: set<ItemId>, ids: seq<ItemId>, answers: seq<Answer>, outcomes: seq<Outcome>,
                   maxMb: nat, cutoff: int, matches: Mirror -> bool)
    requires AllJudged(was, ids, answers, outcomes, maxMb) && OnlyMoved(was, db, Elems(ids[..|outcomes|]))
    requires forall i :: i in ids && i in was.rows ==> i in Candidates(was, aside, cutoff, matches)
    requires forall j :: 0 <= j < |outcomes| ==>
               (S.InState(db, ids[j], Live) <==> S.InState(was, ids[j], Live) && !TakenUp(answers[j], maxMb))
    ensures Candidates(db, aside + Big(ids, answers, maxMb), cutoff, matches) ==
              Candidates(was, aside, cutoff, matches) - Left(ids, answers, maxMb)
  {
    var before, big, gone := Candidates(was, aside, cutoff, matches), Big(ids, answers, maxMb), Left(ids, answers, maxMb);
    var now := Candidates(db, aside + big, cutoff, matches);
    hide Oversized, TakenUp, JudgedAs, Count;
    assert forall i :: i in Elems(ids[..|outcomes|]) ==> exists j :: 0 <= j < |outcomes| && ids[j] == i;
    forall i ensures i in now <==> i in before && i !in gone {
      if j :| 0 <= j < |outcomes| && ids[j] == i {
        assert i in ids;
      } else {
        assert i !in Elems(ids[..|outcomes|]) && i !in big && i !in gone;
      }
    }
  }

  /** The counters of the batch are those of its answers. */
  lemma AllTallied(db: S.Db, ids: seq<ItemId>, answers: seq<Answer>, outcomes: seq<Outcome>, maxMb: nat, vanished: set<ItemId>)
    requires AllJudged(db, ids, answers, outcomes, maxMb) && |answers| == |ids|
    requires forall i :: i in ids ==> (S.InState(db, i, Live) <==> i !in vanished)
    ensures Tallied(ids, answers, maxMb, vanished, Count(outcomes, Done), Count(outcomes, Missed), Count(outcomes, SetAside))
  {
    VerdictsAddUp(outcomes);
    CountIs(outcomes, Done);
    CountIs(outcomes, SetAside);
    forall j: nat | j < |ids|
      ensures outcomes[j] == Done <==> Clean(answers[j], maxMb) && ids[j] !in vanished
      ensures outcomes[j] == SetAside <==> Oversized(answers[j], maxMb)
    {
      CleanIsDone(db, ids, answers, outcomes, maxMb, j);
      assert ids[j] in ids;
      assert JudgedAs(answers[j], maxMb, S.InState(db, ids[j], Live), outcomes[j]);
    }
    hide Clean, Oversized, S.InState, JudgedAs, Count;
    assert (set j: nat | j < |outcomes| && outcomes[j] == Done) == set j: nat | j < |ids| && Clean(answers[j], maxMb) && ids[j] !in vanished;
    assert (set j: nat | j < |outcomes| && outcomes[j] == SetAside) == set j: nat | j < |ids| && Oversized(answers[j], maxMb);
  }

  lemma CountsAre(r: Result, ids: seq<ItemId>, answers: seq<Answer>, maxMb: nat, vanished: set<ItemId>)
    requires Tallied(ids, answers, maxMb, vanished, r.captured, r.failed, r.tooLarge)
    ensures Counts(r, ids, answers, maxMb, vanished) && r.captured + r.failed + r.tooLarge == |ids|
  {
    var big := set j: nat | j < |ids| && Oversized(answers[j], maxMb);
    var clean := set j: nat | j < |ids| && Clean(answers[j], maxMb) && ids[j] !in vanished;
    var rest := set j: nat | j < |ids| && Fails(answers[j], maxMb, ids[j] in vanished);
    assert big == set j: nat | j < |ids| && answers[j].Item? && answers[j].size.Some? && maxMb * 1024 * 1024 < answers[j].size.value;
    assert rest == set j: nat | j < |ids| && !Oversized(answers[j], maxMb) &&
                    (answers[j].Refused? || ids[j] in vanished || answers[j].writeFails || answers[j].inventoryFails);
    UptoIs(|ids|);
    forall j: nat | j < |ids|
      ensures j in big || j in clean || j in rest
      ensures !(j in big && j in clean) && !(j in big && j in rest) && !(j in clean && j in rest)
    {
      OneOfThree(answers[j], maxMb, ids[j] in vanished);
    }
    hide Clean, Oversized, Fails, Upto;
    Partition(Upto(|ids|), big, clean, rest);
  }

  predicate Fails(a: Answer, maxMb: nat, gone: bool) {
    !Oversized(a, maxMb) && (a.Refused? || gone || a.writeFails || a.inventoryFails)
  }

  lemma OneOfThree(a: Answer, maxMb: nat, gone: bool)
    ensures Oversized(a, maxMb) || (Clean(a, maxMb) && !gone) || Fails(a, maxMb, gone)
    ensures !(Oversized(a, maxMb) && Clean(a, maxMb)) && !(Oversized(a, maxMb) && Fails(a, maxMb, gone))
    ensures !(Clean(a, maxMb) && !gone && Fails(a, maxMb, gone))
  {
  }

  lemma Partition(all: set<nat>, a: set<nat>, b: set<nat>, c: set<nat>)
    requires all == a + b + c && a !! b && a !! c && b !! c
    ensures |all| == |a| + |b| + |c|
  {
    assert |a + b| == |a| + |b|;
    assert (a + b) !! c;
    assert |a + b + c| == |a + b| + |c|;
  }

  function Upto(n: nat): set<nat> {
    if n == 0 then {} else Upto(n - 1) + {n - 1}
  }

  lemma {:induction false} UptoIs(n: nat)
    ensures |Upto(n)| == n && forall j: nat :: j in Upto(n) <==> j < n
  {
    if n > 0 { UptoIs(n - 1); }
  }

  lemma {:induction false} CountIs(outcomes: seq<Outcome>, o: Outcome)
    ensures Count(outcomes, o) == |set j: nat | j < |outcomes| && outcomes[j] == o|
  {
    if outcomes != [] {
      var rest, n := outcomes[..|outcomes| - 1], |outcomes| - 1;
      CountIs(rest, o);
      assert (set j: nat | j < |outcomes| && outcomes[j] == o) ==
             (set j: nat | j < |rest| && rest[j] == o) + if outcomes[n] == o then {n} else {};
    }
  }

  function Count(outcomes: seq<Outcome>, o: Outcome): nat {
    if outcomes == [] then 0
    else Count(outcomes[..|outcomes| - 1], o) + if outcomes[|outcomes| - 1] == o then 1 else 0
  }

  /** The ids that got this verdict. */
  function Judged(ids: seq<ItemId>, outcomes: seq<Outcome>, o: Outcome): set<ItemId>
    requires |outcomes| <= |ids|
  {
    set j | 0 <= j < |outcomes| && outcomes[j] == o :: ids[j]
  }

  lemma NothingJudged(ids: seq<ItemId>)
    ensures forall o :: Count([], o) == 0 && Judged(ids, [], o) == {}
  {
  }

  lemma OneMore(ids: seq<ItemId>, outcomes: seq<Outcome>, o: Outcome)
    requires |outcomes| < |ids|
    ensures forall x :: Count(outcomes + [o], x) == Count(outcomes, x) + if x == o then 1 else 0
    ensures forall x :: Judged(ids, outcomes + [o], x) == Judged(ids, outcomes, x) + if x == o then {ids[|outcomes|]} else {}
  {
  }

  /** The verdicts partition the batch. */
  lemma {:induction false} VerdictsAddUp(outcomes: seq<Outcome>)
    ensures Count(outcomes, Done) + Count(outcomes, Missed) + Count(outcomes, SetAside) == |outcomes|
  {
    if outcomes != [] { VerdictsAddUp(outcomes[..|outcomes| - 1]); }
  }

  lemma NextId(ids: seq<ItemId>, k: nat)
    requires Distinct(ids) && k < |ids|
    ensures Elems(ids[..k + 1]) == Elems(ids[..k]) + {ids[k]} && ids[k] !in Elems(ids[..k])
    ensures forall j :: 0 <= j < k ==> ids[j] != ids[k]
  {
  }

  lemma MovedAmong(was: S.Db, db: S.Db, ids: seq<ItemId>, k: nat)
    requires k <= |ids| && OnlyMoved(was, db, Elems(ids[..k]))
    ensures OnlyMoved(was, db, Elems(ids))
  {
  }

  lemma OneMoved(was: S.Db, db: S.Db, id: ItemId)
    requires db.rows.Keys == was.rows.Keys && (id in db.rows ==> db.rows[id].mirror == was.rows[id].mirror)
    requires forall i :: i in db.rows && i != id ==> db.rows[i] == was.rows[i]
    requires forall i :: i != id ==> (i in db.atts <==> i in was.atts) && (i in db.atts ==> db.atts[i] == was.atts[i])
    ensures OnlyMoved(was, db, {id})
  {
  }

  lemma Listed(db: S.Db, id: ItemId)
    ensures id in db.atts ==> S.AttachmentsFor(db, id) == db.atts[id]
  {
  }

  lemma NothingMoved(db: S.Db, ids: set<ItemId>)
    ensures OnlyMoved(db, db, ids)
  {
  }

  lemma OthersAsLive(before: S.Db, db: S.Db, ids: seq<ItemId>, k: nat)
    requires Distinct(ids) && k < |ids| && OnlyMoved(before, db, {ids[k]})
    ensures forall j :: 0 <= j < k ==> (S.InState(db, ids[j], Live) <==> S.InState(before, ids[j], Live))
  {
  }

  lemma StillAs(before: S.Db, d0: Disk, db: S.Db, d: Disk, ids: seq<ItemId>, answers: seq<Answer>, outcomes: seq<Outcome>, k: nat)
    requires Distinct(ids) && k < |ids| && k < |answers| && |outcomes| == k && OnlyMoved(before, db, {ids[k]})
    requires forall j :: 0 <= j < k && outcomes[j] == Done ==> ArchivedAs(before, d0, ids[j], answers[j])
    requires forall i :: i != ids[k] && Archived(before, d0, i) ==> Archived(db, d, i)
    ensures forall j :: 0 <= j < k && outcomes[j] == Done ==> ArchivedAs(db, d, ids[j], answers[j])
  {
    hide Exact, InventoryOf;
  }

  lemma UnmovedIsAsLive(was: S.Db, db: S.Db, moved: set<ItemId>, id: ItemId)
    requires OnlyMoved(was, db, moved) && id !in moved
    ensures S.InState(db, id, Live) <==> S.InState(was, id, Live)
  {
  }

  lemma MovedMore(was: S.Db, before: S.Db, after: S.Db, moved: set<ItemId>, id: ItemId)
    requires OnlyMoved(was, before, moved) && OnlyMoved(before, after, {id})
    ensures OnlyMoved(was, after, moved + {id})
  {
  }

  /** Nothing but the rows named changed, and those kept their mirror. */
  ghost predicate OnlyMoved(was: S.Db, db: S.Db, ids: set<ItemId>) {
    && (forall i :: i in db.rows <==> i in was.rows)
    && (forall i :: i in db.rows ==> db.rows[i].mirror == was.rows[i].mirror)
    && (forall i :: i in db.rows && i !in ids ==> db.rows[i] == was.rows[i] && S.AttachmentsFor(db, i) == S.AttachmentsFor(was, i))
  }

  lemma OthersStayArchived(was: S.Db, db: S.Db, d: Disk, f: Fetched, n: nat, ids: set<ItemId>)
    requires OnlyMoved(was, db, ids)
    ensures forall i :: i !in ids && Archived(was, d, i) ==> Archived(db, WriteFiles(d, f, n), i)
  {
  }
}
