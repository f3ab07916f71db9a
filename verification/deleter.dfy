/**
 The delete lane: the only code that removes mail from Exchange without a human
 naming the message.  `Run` is the loop of delete.py over a live installation:
 the lock-free writers run at every await, the gateway, the database and each
 single delete may fail, and the invariant of the protocol holds throughout.
 */
module DeleteLane {
  import opened Mail
  import opened Copies
  import opened ArchivePolicy
  import opened ArchiveProtocol
  import opened ArchiveSafety
  import opened Sites
  import opened Queue
  import S = Store

  const BATCH_SIZE := 25

  datatype Why = BadCopy | StaleReason | Raising

  datatype Result = Result(eligible: nat, deleted: nat, failed: nat, remaining: int, unmarked: nat,
                           unrecorded: seq<ItemId>, reasons: seq<(ItemId, Why)>, requeued: nat,
                           blocked: bool, held: bool, warning: bool, error: bool)

  function Ids(reasons: seq<(ItemId, Why)>): seq<ItemId> {
    seq(|reasons|, k requires 0 <= k < |reasons| => reasons[k].0)
  }

  /** These candidates left the pass and are no longer verified; nothing was
      taken out of the mailbox. */
  ghost predicate SentBack(a: World, b: World, ids: set<ItemId>) {
    && a.pass.Deleting? && b.pass == a.pass.(byId := a.pass.byId - ids, checked := a.pass.checked - ids)
    && b.purged == a.purged && MovesOn(a.db, b.db)
    && forall i :: i in ids ==> !S.InState(b.db, i, Verified)
  }

  lemma NothingSentBack(w: World, stale: seq<ItemId>)
    requires w.pass.Deleting?
    ensures SentBack(w, w, Elems(stale[..0])) && Distinct([]) && Elems([]) <= Elems(stale[..0]) && Demotions([]) == []
  {
    assert w.pass.byId - {} == w.pass.byId && w.pass.checked - {} == w.pass.checked;
  }

  /** The next stale candidate is still in the pass. */
  lemma NextStale(a: World, b: World, c: World, stale: seq<ItemId>, k: nat)
    requires k < |stale| && SentBack(a, b, Elems(stale[..k])) && c.pass == b.pass && Distinct(stale)
    requires Answered(a, stale[k]) && StaleChangekey(a, stale[k])
    ensures Answered(c, stale[k]) && StaleChangekey(c, stale[k])
    ensures stale[k] !in Elems(stale[..k]) && Elems(stale[..k + 1]) == Elems(stale[..k]) + {stale[k]}
  {
    hide MovesOn;
    assert stale[..k + 1] == stale[..k] + [stale[k]];
  }

  lemma SentBackOne(a: World, b: World, mid: World, c: World, ids: set<ItemId>, id: ItemId)
    requires SentBack(a, b, ids) && mid.pass == b.pass && mid.purged == b.purged && MovesOn(b.db, mid.db)
    requires mid.pass.Deleting? && c.pass == mid.pass.(byId := mid.pass.byId - {id}, checked := mid.pass.checked - {id})
    requires c.purged == mid.purged && MovesOn(mid.db, c.db) && !S.InState(c.db, id, Verified)
    ensures SentBack(a, c, ids + {id})
  {
    MovesOnTransitive(b.db, mid.db, c.db);
    MovesOnTransitive(a.db, b.db, c.db);
    assert a.pass.byId - ids - {id} == a.pass.byId - (ids + {id});
    assert a.pass.checked - ids - {id} == a.pass.checked - (ids + {id});
  }

  function Demotions(ids: seq<ItemId>): seq<Event> {
    seq(|ids|, k requires 0 <= k < |ids| => DidDemote(ids[k]))
  }

  lemma MoreDemotions(moved: seq<ItemId>, id: ItemId, before: seq<ItemId>)
    requires Distinct(moved) && Elems(moved) <= Elems(before) && id !in Elems(before)
    ensures Distinct(moved + [id]) && Elems(moved + [id]) == Elems(moved) + {id}
    ensures Demotions(moved + [id]) == Demotions(moved) + [DidDemote(id)]
  {
  }

  /** The candidates a running pass still has to judge. */
  ghost predicate Ready(w: World, ids: set<ItemId>) {
    && Inv(w) && w.pass.Deleting?
    && ids <= w.pass.byId.Keys
    && forall i :: i in ids ==> i !in w.pass.checked
  }

  /** Marking a message deleted, or admitting that it was not. */
  ghost predicate Accounted(w: World, gone: set<ItemId>, unrecorded: seq<ItemId>) {
    forall i :: i in gone ==> S.InState(w.db, i, Deleted) || i in unrecorded
  }

  /** What the run meets.  In a `quiet` run nobody else writes.  The fetch answers
      with an error for the `silent`, item.delete() raises for the `refused`, and
      a bad copy's demotion fails for the `undemoted`.  A fetch may be cut short
      for a batch, after so many answers; marking it, or reading it back, may fail. */
  datatype Weather = Weather(quiet: bool, silent: set<ItemId>, refused: set<ItemId>, undemoted: set<ItemId>,
                             cutShort: seq<ItemId> -> Option<nat>, markFails: seq<ItemId> -> bool,
                             readFails: seq<ItemId> -> bool)

  // ------------------------------------------------------------- calm weather

  /** Nobody else writes, every fetch answers in full, and the store never fails.
      Single items may still answer with an error or refuse to be deleted. */
  ghost predicate Calm(t: Weather) {
    t.quiet && forall batch :: t.cutShort(batch).None? && !t.markFails(batch) && !t.readFails(batch)
  }

  /** Everything about this message is as it was. */
  ghost predicate SameOf(a: World, b: World, i: ItemId) {
    && (i in b.exchange <==> i in a.exchange) && (i in a.exchange ==> b.exchange[i] == a.exchange[i])
    && (i in b.db.rows <==> i in a.db.rows) && (i in a.db.rows ==> b.db.rows[i] == a.db.rows[i])
    && S.AttachmentsFor(b.db, i) == S.AttachmentsFor(a.db, i)
  }

  ghost predicate Untouched(a: World, b: World, ids: set<ItemId>) {
    b.disk == a.disk && b.clock == a.clock && forall i :: i !in ids ==> SameOf(a, b, i)
  }

  /** Candidates whose rows are still what the pass read, and verified. */
  ghost predicate AsRead(w: World, ids: set<ItemId>) {
    w.pass.Deleting? && forall i :: i in ids ==>
      i in w.pass.byId && i in w.db.rows && w.db.rows[i] == w.pass.byId[i] && w.db.rows[i].state == Verified
  }

  ghost predicate GoodCopy(w: World, i: ItemId, r: Row) {
    CopyProblem(w.disk, r.sha, S.AttachmentsFor(w.db, i)).Fine?
  }

  lemma CalmHas(t: Weather, batch: seq<ItemId>)
    ensures Calm(t) ==> t.quiet && t.cutShort(batch).None? && !t.markFails(batch) && !t.readFails(batch)
  {
  }

  /** In calm weather the disk check leaves out exactly the bad copies, and sends
      their rows back unless even that fails. */
  ghost predicate CalmChecked(t: Weather, a: World, b: World, chunk: set<ItemId>, bad: seq<ItemId>) {
    && b.exchange == a.exchange && Untouched(a, b, Elems(bad)) && Elems(bad) <= chunk
    && (AsRead(a, chunk) ==> forall i :: i in chunk ==> OneChecked(t, a, b, i, i in bad))
  }

  ghost predicate OneChecked(t: Weather, a: World, b: World, i: ItemId, bad: bool) {
    && i in a.db.rows && (bad <==> !GoodCopy(a, i, a.db.rows[i]))
    && (bad ==>
          && i in b.db.rows && S.AttachmentsFor(b.db, i) == S.AttachmentsFor(a.db, i)
          && b.db.rows[i] == if i in t.undemoted then a.db.rows[i] else a.db.rows[i].(state := Captured, verifiedAt := None))
  }

  lemma NothingChecked(t: Weather, w: World)
    ensures CalmChecked(t, w, w, Elems([]), [])
  {
  }

  lemma CheckedMore(t: Weather, a: World, b: World, c: World, chunk: set<ItemId>, bad: seq<ItemId>, id: ItemId)
    requires CalmChecked(t, a, b, chunk, bad) && id !in chunk && CanCheck(b, id)
    requires a.pass.Deleting? && b.pass.byId == a.pass.byId - Elems(bad)
    requires c == CheckCopy(b, id, id !in t.undemoted)
    ensures var ok := CopyProblem(b.disk, b.pass.byId[id].sha, S.AttachmentsFor(b.db, id)).Fine?;
            CalmChecked(t, a, c, chunk + {id}, if ok then bad else bad + [id])
  {
    hide CopyProblem;
    var ok := CopyProblem(b.disk, b.pass.byId[id].sha, S.AttachmentsFor(b.db, id)).Fine?;
    var bad' := if ok then bad else bad + [id];
    assert Elems(bad') == Elems(bad) + if ok then {} else {id};
    assert id in bad' <==> !ok;
    assert SameOf(a, b, id);
    CheckedOnly(t, b, c, id);
    hide SameOf, CheckCopy, CanCheck;
    UntouchedMore(a, b, c, Elems(bad), if ok then {} else {id}, Elems(bad'));
    if AsRead(a, chunk + {id}) {
      assert AsRead(a, chunk);
      SameCopies(a, b, id);
      assert OneChecked(t, a, c, id, !ok);
      hide OneChecked, AsRead;
      forall i | i in chunk ensures OneChecked(t, a, c, i, i in bad') {
        assert SameOf(b, c, i);
        CheckedStays(t, a, b, c, i, i in bad);
      }
    }
  }

  lemma CheckedStays(t: Weather, a: World, b: World, c: World, i: ItemId, bad: bool)
    requires OneChecked(t, a, b, i, bad) && SameOf(b, c, i)
    ensures OneChecked(t, a, c, i, bad)
  {
    hide GoodCopy;
  }

  lemma SameCopies(a: World, b: World, i: ItemId)
    requires SameOf(a, b, i) && b.disk == a.disk
    ensures i in a.db.rows ==> i in b.db.rows && b.db.rows[i] == a.db.rows[i]
    ensures S.AttachmentsFor(b.db, i) == S.AttachmentsFor(a.db, i)
  {
  }

  /** One check of one candidate. */
  lemma CheckedOnly(t: Weather, b: World, c: World, id: ItemId)
    requires CanCheck(b, id) && c == CheckCopy(b, id, id !in t.undemoted)
    ensures var ok := CopyProblem(b.disk, b.pass.byId[id].sha, S.AttachmentsFor(b.db, id)).Fine?;
            && Untouched(b, c, if ok then {} else {id}) && c.exchange == b.exchange
            && S.AttachmentsFor(c.db, id) == S.AttachmentsFor(b.db, id)
            && (id in b.db.rows ==> id in c.db.rows)
            && (id in b.db.rows && b.db.rows[id].state == Verified && !ok ==>
                  c.db.rows[id] == if id in t.undemoted then b.db.rows[id] else b.db.rows[id].(state := Captured, verifiedAt := None))
  {
    hide CopyProblem;
  }

  lemma UntouchedMore(a: World, b: World, c: World, s: set<ItemId>, s': set<ItemId>, all: set<ItemId>)
    requires Untouched(a, b, s) && Untouched(b, c, s') && s + s' <= all
    ensures Untouched(a, c, all)
    ensures forall i :: i !in s' ==> SameOf(b, c, i)
  {
    forall i | i !in all ensures SameOf(a, c, i) {
      assert SameOf(a, b, i) && SameOf(b, c, i);
    }
  }

  /** In calm weather exactly those are deleted whose item is there and answers,
      with the changekey of the capture, and is not refused; and exactly those
      found stale that answer with another, or with none. */
  ghost predicate CalmTaken(t: Weather, a: World, b: World, batch: set<ItemId>, done: seq<ItemId>, reasons: seq<(ItemId, Why)>) {
    && b.db == a.db && b.disk == a.disk && b.clock == a.clock
    && b.exchange == a.exchange - Elems(done)
    && a.pass.Deleting? && (forall i :: (i, BadCopy) !in reasons)
    && forall i :: i in batch && i in a.pass.byId ==> OneTaken(t, a, i, a.pass.byId[i], i in done, (i, StaleReason) in reasons)
  }

  ghost predicate OneTaken(t: Weather, a: World, i: ItemId, r: Row, gone: bool, stale: bool) {
    && (gone <==> Unmoved(a, i, r) && i !in t.silent && i !in t.refused)
    && (stale <==> i in a.exchange && i !in t.silent && !Unmoved(a, i, r))
  }

  /** The item is in the mailbox, and its changekey is usable and that of the capture. */
  ghost predicate Unmoved(w: World, i: ItemId, r: Row) {
    i in w.exchange && w.exchange[i] == r.capturedCk && r.capturedCk !in {None, Some("")}
  }

  lemma NothingTakenCalmly(t: Weather, a: World, b: World, batch: seq<ItemId>)
    requires a.pass.Deleting? && b.pass.Deleting? && b == Refetched(a, b.pass.seen)
    ensures CalmTaken(t, a, b, Elems([]), [], [])
  {
    assert a.exchange - {} == a.exchange;
  }

  lemma TakenMore(t: Weather, a: World, b: World, c: World, batch: seq<ItemId>, k: nat, done: seq<ItemId>,
                  reasons: seq<(ItemId, Why)>, why: Option<Why>)
    requires k < |batch| && Distinct(batch) && CalmTaken(t, a, b, Elems(batch[..k]), done, reasons)
    requires batch[k] !in Elems(done) && batch[k] !in Elems(Ids(reasons)) && Elems(done) <= Elems(batch)
    requires b.pass.Deleting? && b.pass.byId == a.pass.byId - Elems(done) && batch[k] in b.pass.byId
    requires b.pass.seen == map i | i in batch && i !in t.silent && i in a.exchange :: a.exchange[i]
    requires why.None? <==> Takable(t, b, batch[k])
    requires why == Some(StaleReason) <==>
               batch[k] in b.pass.seen && (b.pass.seen[batch[k]] != b.pass.byId[batch[k]].capturedCk || b.pass.seen[batch[k]] in {None, Some("")})
    requires why.None? ==> Answered(b, batch[k]) && c == DeleteOne(b, batch[k])
    requires why.Some? ==> c == b && why != Some(BadCopy)
    ensures CalmTaken(t, a, c, Elems(batch[..k + 1]),
                      if why.None? then done + [batch[k]] else done,
                      if why.None? then reasons else reasons + [(batch[k], why.value)])
  {
    var id := batch[k];
    var done' := if why.None? then done + [id] else done;
    var reasons' := if why.None? then reasons else reasons + [(id, why.value)];
    NotYetNamed(id, reasons);
    assert batch[..k + 1] == batch[..k] + [id] && id in batch;
    assert Elems(done') == Elems(done) + if why.None? then {id} else {};
    assert id !in batch[..k];
    assert a.exchange - Elems(done) - {id} == a.exchange - (Elems(done) + {id});
    assert id in a.pass.byId && OneTaken(t, a, id, a.pass.byId[id], why.None?, why == Some(StaleReason));
    hide OneTaken, Takable, Answered;
    forall i | i in Elems(batch[..k + 1]) && i in a.pass.byId
      ensures OneTaken(t, a, i, a.pass.byId[i], i in done', (i, StaleReason) in reasons')
    {
      if i == id { assert i !in done && (i, StaleReason) !in reasons; } else { assert i in Elems(batch[..k]); }
    }
  }

  /** In calm weather marking a batch makes every row `deleted`, and nothing else. */
  ghost predicate CalmMarked(a: World, b: World, deleted: seq<ItemId>, unmarked: seq<ItemId>) {
    && Untouched(a, b, Elems(deleted)) && b.exchange == a.exchange
    && ((forall i :: i in deleted ==> S.InState(a.db, i, Verified)) ==>
          && unmarked == []
          && forall i :: i in deleted ==> i in b.db.rows && b.db.rows[i] == a.db.rows[i].(state := Deleted))
  }

  /** In calm weather the stale rows go back, all of them, and nothing else moves. */
  ghost predicate CalmSent(a: World, b: World, stale: seq<ItemId>, count: nat) {
    && Untouched(a, b, Elems(stale)) && b.exchange == a.exchange
    && ((forall i :: i in stale ==> S.InState(a.db, i, Verified)) ==>
          && count == |stale|
          && forall i :: i in stale ==>
               i in b.db.rows && b.db.rows[i] == a.db.rows[i].(state := Captured, verifiedAt := None))
  }

  lemma NothingSentCalmly(w: World)
    ensures CalmSent(w, w, [], 0)
  {
  }

  lemma SentMore(a: World, b: World, c: World, stale: seq<ItemId>, k: nat, count: nat, rows: nat)
    requires k < |stale| && Distinct(stale) && CalmSent(a, b, stale[..k], count) && b.pass.Deleting?
    requires c == ArchiveProtocol.Requeue(b, stale[k]) && rows == if S.InState(b.db, stale[k], Verified) then 1 else 0
    ensures CalmSent(a, c, stale[..k + 1], count + rows)
  {
    var id := stale[k];
    assert stale[..k + 1] == stale[..k] + [id];
    assert id !in stale[..k];
    assert SameOf(a, b, id);
    RequeuedOnly(b, c, id);
    assert Elems(stale[..k + 1]) == Elems(stale[..k]) + {id};
    UntouchedMore(a, b, c, Elems(stale[..k]), {id}, Elems(stale[..k + 1]));
    hide ArchiveProtocol.Requeue, SameOf;
    if forall i :: i in stale[..k + 1] ==> S.InState(a.db, i, Verified) {
      SameCopies(a, b, id);
      forall i | i in stale[..k] ensures i in c.db.rows && b.db.rows[i] == c.db.rows[i] { SameCopies(b, c, i); }
    }
  }

  lemma RequeuedOnly(b: World, c: World, id: ItemId)
    requires b.pass.Deleting? && c == ArchiveProtocol.Requeue(b, id)
    ensures Untouched(b, c, {id}) && c.exchange == b.exchange
    ensures S.InState(b.db, id, Verified) ==>
              id in c.db.rows && c.db.rows[id] == b.db.rows[id].(state := Captured, verifiedAt := None)
  {
  }

  lemma NothingMarked(w: World)
    ensures CalmMarked(w, w, [], [])
  {
  }

  /** Sending back and marking, one after the other. */
  ghost predicate CalmSettled(a: World, b: World, done: seq<ItemId>, reasons: seq<(ItemId, Why)>, more: seq<ItemId>, requeued: int) {
    var stale := StaleIds(reasons);
    && Untouched(a, b, Elems(done) + Elems(stale)) && b.exchange == a.exchange
    && ((forall i :: i in done || i in stale ==> S.InState(a.db, i, Verified)) ==>
          && more == [] && requeued == |stale|
          && (forall i :: i in done ==> i in b.db.rows && b.db.rows[i] == a.db.rows[i].(state := Deleted))
          && (forall i :: i in stale ==>
                i in b.db.rows && b.db.rows[i] == a.db.rows[i].(state := Captured, verifiedAt := None)))
  }

  lemma SettledCalmly(a: World, b: World, c: World, done: seq<ItemId>, reasons: seq<(ItemId, Why)>, more: seq<ItemId>, requeued: nat)
    requires CalmSent(a, b, StaleIds(reasons), requeued) && CalmMarked(b, c, done, more)
    requires Elems(done) !! Elems(Ids(reasons))
    ensures CalmSettled(a, c, done, reasons, more, requeued)
  {
    var stale := StaleIds(reasons);
    StaleAreNamed(reasons);
    hide StaleIds, Ids;
    assert forall i :: i in done ==> i in Elems(done);
    assert forall i :: i in stale ==> i in Elems(stale);
    UntouchedMore(a, b, c, Elems(stale), Elems(done), Elems(done) + Elems(stale));
    if forall i :: i in done || i in stale ==> S.InState(a.db, i, Verified) {
      forall i | i in done ensures S.InState(b.db, i, Verified) && b.db.rows[i] == a.db.rows[i] { assert SameOf(a, b, i); }
      forall i | i in stale ensures i in c.db.rows && c.db.rows[i] == b.db.rows[i] { assert SameOf(b, c, i); }
    }
  }

  lemma {:induction false} StaleAreNamed(reasons: seq<(ItemId, Why)>)
    ensures forall i :: i in StaleIds(reasons) <==> (i, StaleReason) in reasons
    ensures Elems(StaleIds(reasons)) <= Elems(Ids(reasons))
  {
    if reasons != [] {
      var init, last := reasons[..|reasons| - 1], reasons[|reasons| - 1];
      StaleAreNamed(init);
      assert reasons == init + [last];
      assert Ids(reasons) == Ids(init) + [last.0];
      assert Elems(Ids(reasons)) == Elems(Ids(init)) + {last.0};
      forall i ensures i in StaleIds(reasons) <==> (i, StaleReason) in reasons {
        assert (i, StaleReason) in reasons <==> (i, StaleReason) in init || last == (i, StaleReason);
      }
    }
  }

  /** A gateway call and its aftermath. */
  ghost predicate CalmCalled(t: Weather, a: World, b: World, batch: seq<ItemId>, done: seq<ItemId>, why: seq<(ItemId, Why)>) {
    && Untouched(a, b, Elems(batch)) && (forall i :: (i, BadCopy) !in why)
    && forall i :: i in batch && i in a.db.rows ==>
         && OneTaken(t, a, i, a.db.rows[i], i in done, (i, StaleReason) in why)
         && AfterCall(a, b, i, i in done, (i, StaleReason) in why)
  }

  /** The message after the call: out of the mailbox and `deleted`, back with the
      verifier, or as it was. */
  ghost predicate AfterCall(a: World, b: World, i: ItemId, gone: bool, stale: bool) {
    && (i in b.exchange <==> i in a.exchange && !gone) && (i in b.exchange ==> b.exchange[i] == a.exchange[i])
    && i in a.db.rows && i in b.db.rows
    && b.db.rows[i] == if gone then a.db.rows[i].(state := Deleted)
                       else if stale then a.db.rows[i].(state := Captured, verifiedAt := None) else a.db.rows[i]
  }

  lemma CalledCalmly(t: Weather, a: World, b: World, c: World, batch: seq<ItemId>, done: seq<ItemId>, why: seq<(ItemId, Why)>,
                     more: seq<ItemId>, requeued: int)
    requires CalmTaken(t, a, b, Elems(batch), done, why) && CalmSettled(b, c, done, why, more, requeued)
    requires AsRead(a, Elems(batch)) && Verdicts(batch, done, why)
    ensures CalmCalled(t, a, c, batch, done, why) && more == [] && requeued == |StaleIds(why)|
  {
    StaleAreNamed(why);
    var stale := StaleIds(why);
    hide StaleIds, Ids, OneTaken;
    assert forall i :: i in done ==> i in Elems(done);
    assert forall i :: i in stale ==> i in Elems(stale);
    assert forall i :: i in batch ==> i in Elems(batch);
    assert Elems(done) + Elems(stale) <= Elems(batch) && Elems(done) !! Elems(stale);
    forall i | i in done || i in stale ensures S.InState(b.db, i, Verified) { assert i in Elems(batch); }
    hide AfterCall, SameOf;
    forall i ensures i !in Elems(batch) ==> SameOf(a, c, i)
      ensures i in batch ==> AfterCall(a, c, i, i in done, (i, StaleReason) in why)
    {
      OneAfterCall(a, b, c, batch, done, stale, i);
    }
  }

  lemma OneAfterCall(a: World, b: World, c: World, batch: seq<ItemId>, done: seq<ItemId>, stale: seq<ItemId>, i: ItemId)
    requires b.db == a.db && b.exchange == a.exchange - Elems(done) && c.exchange == b.exchange
    requires Untouched(b, c, Elems(done) + Elems(stale)) && AsRead(a, Elems(batch))
    requires Elems(done) + Elems(stale) <= Elems(batch) && Elems(done) !! Elems(stale)
    requires i in done ==> i in c.db.rows && i in b.db.rows && c.db.rows[i] == b.db.rows[i].(state := Deleted)
    requires i in stale ==>
               i in c.db.rows && i in b.db.rows && c.db.rows[i] == b.db.rows[i].(state := Captured, verifiedAt := None)
    ensures i !in Elems(batch) ==> SameOf(a, c, i)
    ensures i in batch ==> AfterCall(a, c, i, i in done, i in stale)
  {
    assert i in done <==> i in Elems(done);
    assert i in stale <==> i in Elems(stale);
    assert i in batch <==> i in Elems(batch);
    if i !in done && i !in stale { assert SameOf(b, c, i); }
  }

  /** One chunk: each candidate's verdict, and what became of it, decided by the
      disk, the mailbox and the weather as the chunk found them. */
  ghost predicate CalmJudged(t: Weather, a: World, b: World, chunk: set<ItemId>, done: seq<ItemId>, why: seq<(ItemId, Why)>) {
    && Untouched(a, b, chunk)
    && forall i :: i in chunk ==> OneJudged(t, a, b, i, i in done, (i, BadCopy) in why, (i, StaleReason) in why)
  }

  ghost predicate OneJudged(t: Weather, a: World, b: World, i: ItemId, gone: bool, bad: bool, stale: bool) {
    && i in a.db.rows
    && var r := a.db.rows[i];
    && (bad <==> !GoodCopy(a, i, r))
    && (gone <==> !bad && Unmoved(a, i, r) && i !in t.silent && i !in t.refused)
    && (stale <==> !bad && i in a.exchange && i !in t.silent && !Unmoved(a, i, r))
    && AfterCall(a, b, i, gone, stale || (bad && i !in t.undemoted))
  }

  lemma OnlyBadCalmly(t: Weather, a: World, b: World, chunk: seq<ItemId>, bad: seq<ItemId>, batch: seq<ItemId>)
    requires CalmChecked(t, a, b, Elems(chunk), bad) && AsRead(a, Elems(chunk))
    requires Elems(batch) == Elems(chunk) - Elems(bad) && batch == []
    ensures CalmJudged(t, a, b, Elems(chunk), [], BadOnes(bad)) && StaleIds(BadOnes(bad)) == []
  {
    assert Elems(batch) == {};
    NamedBad(bad, []);
    hide GoodCopy, StaleIds;
    assert forall i :: i in bad ==> i in Elems(bad);
    forall i | i !in Elems(chunk) ensures SameOf(a, b, i) { }
    forall i | i in Elems(chunk) ensures OneJudged(t, a, b, i, false, true, false) {
      assert i !in Elems(batch);
      assert i in Elems(bad);
    }
  }

  /** What the reasons of a chunk name: the bad copies, and what the call said. */
  lemma {:induction false} NamedBad(bad: seq<ItemId>, why: seq<(ItemId, Why)>)
    requires forall i :: (i, BadCopy) !in why
    ensures forall i :: (i, BadCopy) in BadOnes(bad) + why <==> i in bad
    ensures forall i :: (i, StaleReason) in BadOnes(bad) + why <==> (i, StaleReason) in why
    ensures StaleIds(BadOnes(bad) + why) == StaleIds(why)
    ensures BadOnes(bad) + [] == BadOnes(bad)
    decreases |why|
  {
    var all := BadOnes(bad) + why;
    forall i | i in bad ensures (i, BadCopy) in all {
      var k :| 0 <= k < |bad| && bad[k] == i;
      assert all[k] == (i, BadCopy);
    }
    if why == [] {
      NoStaleBad(bad);
      assert all == BadOnes(bad);
    } else {
      var init := why[..|why| - 1];
      assert why == init + [why[|why| - 1]];
      assert forall x :: x in init ==> x in why;
      NamedBad(bad, init);
      assert all[..|all| - 1] == BadOnes(bad) + init;
    }
  }

  lemma {:induction false} NoStaleBad(bad: seq<ItemId>)
    ensures StaleIds(BadOnes(bad)) == []
  {
    if bad != [] {
      NoStaleBad(bad[..|bad| - 1]);
      assert BadOnes(bad)[..|bad| - 1] == BadOnes(bad[..|bad| - 1]);
    }
  }

  lemma StillFresh(t: Weather, a: World, b: World, chunk: seq<ItemId>, bad: seq<ItemId>, batch: seq<ItemId>)
    requires CalmChecked(t, a, b, Elems(chunk), bad) && AsRead(a, Elems(chunk)) && Elems(batch) == Elems(chunk) - Elems(bad)
    requires b.pass.Deleting? && b.pass.byId == a.pass.byId - Elems(bad)
    ensures AsRead(b, Elems(batch))
  {
    forall i | i in Elems(batch) ensures i in b.pass.byId && i in b.db.rows && b.db.rows[i] == a.db.rows[i] {
      assert SameOf(a, b, i);
    }
  }

  lemma JudgedCalmly(t: Weather, a: World, b: World, c: World, chunk: seq<ItemId>, bad: seq<ItemId>, batch: seq<ItemId>,
                     done: seq<ItemId>, why: seq<(ItemId, Why)>)
    requires CalmChecked(t, a, b, Elems(chunk), bad) && AsRead(a, Elems(chunk)) && Elems(batch) == Elems(chunk) - Elems(bad)
    requires CalmCalled(t, b, c, batch, done, why) && Verdicts(batch, done, why)
    ensures CalmJudged(t, a, c, Elems(chunk), done, BadOnes(bad) + why)
    ensures StaleIds(BadOnes(bad) + why) == StaleIds(why)
  {
    NamedBad(bad, why);
    hide GoodCopy, StaleIds, Unmoved;
    assert forall i :: i in bad <==> i in Elems(bad);
    assert forall i :: i in batch <==> i in Elems(batch);
    UntouchedMore(a, b, c, Elems(bad), Elems(batch), Elems(chunk));
    forall i | i in Elems(chunk)
      ensures OneJudged(t, a, c, i, i in done, (i, BadCopy) in BadOnes(bad) + why, (i, StaleReason) in BadOnes(bad) + why)
    {
      BadOrCalled(t, a, b, c, chunk, bad, batch, done, why, i);
    }
  }

  lemma BadOrCalled(t: Weather, a: World, b: World, c: World, chunk: seq<ItemId>, bad: seq<ItemId>, batch: seq<ItemId>,
                    done: seq<ItemId>, why: seq<(ItemId, Why)>, i: ItemId)
    requires CalmChecked(t, a, b, Elems(chunk), bad) && AsRead(a, Elems(chunk)) && Elems(batch) == Elems(chunk) - Elems(bad)
    requires CalmCalled(t, b, c, batch, done, why) && Verdicts(batch, done, why) && i in Elems(chunk)
    ensures OneJudged(t, a, c, i, i in done, i in bad, (i, StaleReason) in why)
  {
    hide GoodCopy;
    if i in bad {
      assert i !in Elems(batch);
      assert SameOf(b, c, i);
      if (i, StaleReason) in why { NotInWhy(i, why); }
    } else {
      assert i in Elems(batch);
      assert i in batch && SameOf(a, b, i);
    }
  }

  lemma NotInWhy(i: ItemId, why: seq<(ItemId, Why)>)
    requires (i, StaleReason) in why
    ensures i in Elems(Ids(why))
  {
    var k :| 0 <= k < |why| && why[k] == (i, StaleReason);
    assert Ids(why)[k] == i;
  }

  lemma MarkedCalmly(a: World, b: World, deleted: seq<ItemId>)
    requires a.pass.Deleting? && a.pass.pending == Elems(deleted) && b == Persisted(a)
    ensures CalmMarked(a, b, deleted, [])
  {
  }

  lemma MarkedAreDeleted(w: World, deleted: seq<ItemId>)
    requires forall i :: i in Elems(deleted) ==> S.InState(w.db, i, Deleted)
    ensures Accounted(w, Elems(deleted), [])
  {
  }

  lemma ReadBackCalmly(a: World, b: World, deleted: seq<ItemId>, unmarked: seq<ItemId>)
    requires CalmMarked(a, b, deleted, []) && Elems(unmarked) <= Elems(deleted) && Distinct(unmarked)
    requires forall i :: i in deleted ==> (i in unmarked <==> !S.InState(b.db, i, Deleted))
    ensures CalmMarked(a, b, deleted, unmarked)
  {
    DistinctSize(unmarked);
    if forall i :: i in deleted ==> S.InState(a.db, i, Verified) {
      assert forall i :: i in Elems(unmarked) ==> i in Elems(deleted);
      assert Elems(unmarked) == {};
    }
  }

  /** Exchange is asked to delete the item, and does. */
  ghost predicate Takable(t: Weather, w: World, id: ItemId) {
    && w.pass.Deleting? && id in w.pass.byId && id in w.pass.seen
    && w.pass.seen[id] == w.pass.byId[id].capturedCk && w.pass.seen[id] !in {None, Some("")}
    && id in w.exchange && id !in t.refused
  }

  class Deleter {
    const site: Site
    const weather: Weather

    constructor (site: Site, weather: Weather)
      ensures this.site == site && this.weather == weather
    {
      this.site, this.weather := site, weather;
    }

    /** The last-mile disk check over a whole chunk, before any gateway call.
        What it returns is left out of the batch; what it does not return has
        been checked, and only that. */
    method UnusableCopies(chunk: seq<ItemId>) returns (bad: seq<ItemId>)
      requires Distinct(chunk) && Ready(site.State(), Elems(chunk))
      modifies site, site.store
      ensures Inv(site.State()) && site.pass.Deleting?
      ensures Distinct(bad) && Elems(bad) <= Elems(chunk)
      ensures site.pass.byId == old(site.pass.byId) - Elems(bad)
      ensures site.pass.checked.Keys == old(site.pass.checked.Keys) + (Elems(chunk) - Elems(bad))
      ensures site.pass.pending == old(site.pass.pending) && site.purged == old(site.purged)
      ensures MovesOn(old(site.store.Contents()), site.store.Contents())
      ensures Calm(weather) ==> CalmChecked(weather, old(site.State()), site.State(), Elems(chunk), bad)
    {
      hide Inv, S.LockFree, CheckCopy, Copies.CopyProblem, CalmChecked, Calm;
      bad := [];
      ghost var was := site.State();
      NothingChecked(weather, was);
      CalmHas(weather, chunk);
      assert chunk[..0] == [];
      for k := 0 to |chunk|
        invariant Calm(weather) ==> CalmChecked(weather, was, site.State(), Elems(chunk[..k]), bad)
        invariant Inv(site.State()) && site.pass.Deleting?
        invariant Distinct(bad) && Elems(bad) <= Elems(chunk[..k])
        invariant site.pass.byId == old(site.pass.byId) - Elems(bad)
        invariant site.pass.checked.Keys == old(site.pass.checked.Keys) + (Elems(chunk[..k]) - Elems(bad))
        invariant site.pass.pending == old(site.pass.pending) && site.purged == old(site.purged)
        invariant MovesOn(old(site.store.Contents()), site.store.Contents())
      {
        site.Outside(weather.quiet);
        assert chunk[k] !in Elems(chunk[..k]) && chunk[k] in Elems(chunk);
        assert Elems(chunk[..k + 1]) == Elems(chunk[..k]) + {chunk[k]};
        ghost var before := site.State();
        var ok := site.CheckOne(chunk[k], chunk[k] !in weather.undemoted);
        if Calm(weather) { CheckedMore(weather, was, before, site.State(), Elems(chunk[..k]), bad, chunk[k]); }
        if !ok {
          assert Elems(bad + [chunk[k]]) == Elems(bad) + {chunk[k]};
          bad := bad + [chunk[k]];
        }
      }
      assert chunk[..|chunk|] == chunk;
    }

    /** One item of a batch: deleted, or the reason it was not.  `turn` is the
        moment it is looked at; what happens is decided by it and the weather. */
    method TryOne(id: ItemId) returns (why: Option<Why>, ghost turn: World)
      requires Inv(site.State()) && site.pass.Deleting? && id in site.pass.byId && id in site.pass.checked
      modifies site, site.store
      ensures Inv(site.State()) && site.pass.Deleting? && site.pass.seen == old(site.pass.seen)
      ensures MovesOn(old(site.store.Contents()), site.store.Contents())
      ensures turn.pass == old(site.pass) && (weather.quiet ==> turn == old(site.State()))
      ensures why.None? <==> Takable(weather, turn, id)
      ensures why != Some(BadCopy)
      ensures why == Some(StaleReason) <==>
                id in turn.pass.seen && (turn.pass.seen[id] != turn.pass.byId[id].capturedCk || turn.pass.seen[id] in {None, Some("")})
      ensures why.None? ==> Answered(turn, id) && site.State() == DeleteOne(turn, id)
      ensures why.Some? ==> site.State() == turn
      ensures why.Some? ==> site.pass == old(site.pass) && site.purged == old(site.purged)
      ensures why == Some(StaleReason) ==> Answered(site.State(), id) && StaleChangekey(site.State(), id)
      ensures why.None? ==>
                && id !in old(site.purged) && site.purged.Keys == old(site.purged.Keys) + {id}
                && site.pass.byId == old(site.pass.byId) - {id} && site.pass.checked == old(site.pass.checked) - {id}
                && site.pass.pending == old(site.pass.pending) + {id}
    {
      hide Inv, S.LockFree, DeleteOne;
      site.Outside(weather.quiet);
      turn := site.State();
      if id !in site.pass.seen {
        why := Some(Raising);
      } else if StaleChangekey(site.State(), id) {
        why := Some(StaleReason);
      } else {
        var failed := site.HardDelete(id, id in weather.refused);
        why := if failed then Some(Raising) else None;
      }
    }

    /** One gateway call.  The items come from a generator zipped strictly
        against the ids: when it falls `short` (yields too few, too many, or
        breaks off, be it after its last answer) the call raises and everything
        it had collected is lost. */
    method DeleteBatch(batch: seq<ItemId>)
      returns (raised: bool, done: seq<ItemId>, reasons: seq<(ItemId, Why)>, ghost taken: set<ItemId>, ghost short: bool,
               ghost fetched: World, ghost turns: seq<World>)
      requires Inv(site.State()) && site.pass.Deleting? && site.pass.pending == {}
      requires Distinct(batch) && Elems(batch) <= site.pass.byId.Keys && Elems(batch) <= site.pass.checked.Keys
      modifies site, site.store
      ensures Inv(site.State()) && site.pass.Deleting?
      ensures taken <= Elems(batch) && Taking(old(site.State()), site.State(), taken)
      ensures raised <==> short
      ensures short <==> weather.cutShort(batch).Some?
      ensures short && weather.cutShort(batch).value <= |batch| ==> taken <= Elems(batch[..weather.cutShort(batch).value])
      ensures raised ==> done == [] && reasons == []
      ensures !raised ==> taken == Elems(done) && Verdicts(batch, done, reasons)
      // exactly who was deleted, by what the fetch and each turn found
      ensures !raised ==> |turns| == |batch| && TakenInTurn(weather, batch, turns, fetched, done, reasons)
      ensures Calm(weather) ==> CalmTaken(weather, old(site.State()), site.State(), Elems(batch), done, reasons)
      ensures !raised ==> StaleFound(site.State(), reasons)
    {
      hide Inv, S.LockFree, Refetched, StaleFound, Verdicts, Distinct, Taking, MovesOn, Answered, StaleChangekey, Elems, Takable,
           TakenInTurn, CalmTaken, Calm;
      taken, done, reasons, turns := {}, [], [], [];
      ghost var was := site.State();
      site.Outside(weather.quiet);
      fetched := site.State();
      var given := weather.cutShort(batch);
      short := given.Some?;
      var answers := site.Fetch(batch, weather.silent);
      NothingYet(site.State());
      NothingTaken(was, site.State());
      NoTurnYet(weather, fetched);
      CalmHas(weather, batch);
      if Calm(weather) { NothingTakenCalmly(weather, was, site.State(), batch); }
      assert batch[..0] == [];
      for k := 0 to |batch|
        invariant Inv(site.State()) && Taking(was, site.State(), taken) && site.pass.Deleting?
        invariant taken == Elems(done) && taken <= Elems(batch) && taken <= Elems(batch[..k])
        invariant given.Some? ==> k <= given.value
        invariant Verdicts(batch[..k], done, reasons) && StaleFound(site.State(), reasons)
        invariant site.pass.seen == answers
        invariant Calm(weather) ==> CalmTaken(weather, was, site.State(), Elems(batch[..k]), done, reasons)
        invariant |turns| == k && TakenInTurn(weather, batch[..k], turns, fetched, done, reasons)
      {
        if given == Some(k) { return true, [], [], taken, short, fetched, turns; }
        NextVerdict(batch, k, done, reasons);
        ghost var before := site.State();
        StillThere(was, before, taken, batch, batch[k]);
        var why; ghost var turn;
        why, turn := TryOne(batch[k]);
        OneTurnMore(weather, batch, k, turns, turn, fetched, done, reasons, why);
        if Calm(weather) { TakenMore(weather, was, before, site.State(), batch, k, done, reasons, why); }
        turns := turns + [turn];
        TakingOn(was, before, site.State(), taken, batch[k], why.None?);
        if why.None? {
          StaleStaysFound(before, site.State(), reasons, batch[k]);
          done, taken := done + [batch[k]], taken + {batch[k]};
        } else {
          StaleIsAdded(before, site.State(), reasons, batch[k], why.value);
          reasons := reasons + [(batch[k], why.value)];
        }
      }
      assert batch[..|batch|] == batch;
      raised := given.Some?;
      if raised { done, reasons := [], []; }
    }

    /** Stale candidates go back to the verifier.  The count is the number of
        rows that were moved back, which the history names. */
    method Requeue(stale: seq<ItemId>) returns (count: nat, ghost moved: seq<ItemId>)
      requires Inv(site.State()) && site.pass.Deleting? && Distinct(stale)
      requires forall i :: i in stale ==> Answered(site.State(), i) && StaleChangekey(site.State(), i)
      modifies site, site.store
      ensures Inv(site.State()) && site.pass.Deleting?
      ensures count == |moved| && Distinct(moved) && Elems(moved) <= Elems(stale)
      ensures site.log == old(site.log) + Demotions(moved)
      ensures SentBack(old(site.State()), site.State(), Elems(stale))
      ensures weather.quiet ==> CalmSent(old(site.State()), site.State(), stale, count)
    {
      hide Inv, ArchiveProtocol.Requeue, SentBack, CalmSent, MovesOn, Answered, StaleChangekey, Distinct, Elems;
      count, moved := 0, [];
      ghost var was := site.State();
      NothingSentBack(was, stale);
      NothingSentCalmly(was);
      assert stale[..0] == [];
      for k := 0 to |stale|
        invariant Inv(site.State()) && site.pass.Deleting?
        invariant count == |moved| && Distinct(moved) && Elems(moved) <= Elems(stale[..k])
        invariant site.log == was.log + Demotions(moved)
        invariant SentBack(was, site.State(), Elems(stale[..k]))
        invariant weather.quiet ==> CalmSent(was, site.State(), stale[..k], count)
      {
        ghost var before := site.State();
        site.Outside(weather.quiet);
        NextStale(was, before, site.State(), stale, k);
        ghost var mid := site.State();
        var rows := site.RequeueOne(stale[k]);
        SentBackOne(was, before, mid, site.State(), Elems(stale[..k]), stale[k]);
        if weather.quiet { SentMore(was, mid, site.State(), stale, k, count, rows); }
        count := count + rows;
        if rows == 1 {
          MoreDemotions(moved, stale[k], stale[..k]);
          moved := moved + [stale[k]];
        }
      }
      assert stale[..|stale|] == stale;
    }

    /** Mark and audit one batch.  Whatever did not become `deleted` is named. */
    method PersistBatch(deleted: seq<ItemId>) returns (raised: bool, unmarked: seq<ItemId>)
      requires Inv(site.State()) && site.pass.Deleting? && site.pass.pending == Elems(deleted) && Distinct(deleted)
      modifies site, site.store
      ensures Inv(site.State()) && site.pass.Deleting? && site.purged == old(site.purged)
      ensures site.pass.byId == old(site.pass.byId) && site.pass.checked == old(site.pass.checked)
      ensures MovesOn(old(site.store.Contents()), site.store.Contents())
      ensures weather.markFails(deleted) ==> raised
      ensures raised ==> weather.markFails(deleted) || weather.readFails(deleted)
      ensures !raised ==> site.pass.pending == {} && Distinct(unmarked) && Elems(unmarked) <= Elems(deleted)
      ensures !raised ==> Accounted(site.State(), Elems(deleted), unmarked)
      ensures !raised && weather.readFails(deleted) ==> unmarked == []
      ensures Calm(weather) ==> CalmMarked(old(site.State()), site.State(), deleted, unmarked)
    {
      hide Inv, Persisted, MovesOn, Accounted, CalmMarked, Elems, Distinct, S.InState;
      NothingYet(site.State());
      ghost var was := site.State();
      unmarked := [];
      site.Outside(weather.quiet);
      if weather.markFails(deleted) { return true, []; }
      DistinctSize(deleted);
      ghost var before := site.State();
      var marked := site.MarkPending();
      ghost var mid := site.State();
      raised := false;
      MarkedCalmly(before, mid, deleted);
      MovesOnTransitive(was.db, before.db, mid.db);
      if marked == |deleted| {
        MarkedAreDeleted(mid, deleted);
      } else {
        site.Outside(weather.quiet);
        MovesOnTransitive(was.db, mid.db, site.State().db);
        if weather.readFails(deleted) { return true, []; }
        unmarked := ReadBack(deleted);
        if Calm(weather) { ReadBackCalmly(before, mid, deleted, unmarked); }
      }
    }

    /** Which of them the store does not call deleted. */
    method ReadBack(deleted: seq<ItemId>) returns (unmarked: seq<ItemId>)
      requires Distinct(deleted)
      ensures Distinct(unmarked) && Elems(unmarked) <= Elems(deleted)
      ensures forall i :: i in deleted ==> (i in unmarked <==> !S.InState(site.store.Contents(), i, Deleted))
      ensures Accounted(site.State(), Elems(deleted), unmarked)
    {
      hide S.InState;
      unmarked := [];
      for k := 0 to |deleted|
        invariant Distinct(unmarked) && Elems(unmarked) <= Elems(deleted[..k])
        invariant forall j :: 0 <= j < k ==> (deleted[j] in unmarked <==> !S.InState(site.store.Contents(), deleted[j], Deleted))
      {
        assert Elems(deleted[..k + 1]) == Elems(deleted[..k]) + {deleted[k]} && deleted[k] !in Elems(deleted[..k]);
        if !S.InState(site.store.Contents(), deleted[k], Deleted) {
          assert Elems(unmarked + [deleted[k]]) == Elems(unmarked) + {deleted[k]};
          unmarked := unmarked + [deleted[k]];
        }
      }
      assert deleted[..|deleted|] == deleted;
    }

    method Rest(chunk: seq<ItemId>, bad: seq<ItemId>) returns (batch: seq<ItemId>)
      requires Distinct(chunk)
      ensures Distinct(batch) && Elems(batch) == Elems(chunk) - Elems(bad)
    {
      batch := [];
      for k := 0 to |chunk|
        invariant Distinct(batch) && Elems(batch) == Elems(chunk[..k]) - Elems(bad)
      {
        assert Elems(chunk[..k + 1]) == Elems(chunk[..k]) + {chunk[k]} && chunk[k] !in Elems(chunk[..k]);
        if chunk[k] !in bad {
          assert Elems(batch + [chunk[k]]) == Elems(batch) + {chunk[k]};
          batch := batch + [chunk[k]];
        }
      }
      assert chunk[..|chunk|] == chunk;
    }

    /** One iteration of the loop: the verdicts it reached, what it named as
        unrecorded, and what was deleted by a gateway call that then raised. */
    method JudgeChunk(chunk: seq<ItemId>, r: Result)
      returns (r': Result, stop: bool, judged: nat, ghost short: bool,
               ghost done: seq<ItemId>, ghost why: seq<(ItemId, Why)>, ghost more: seq<ItemId>, ghost lost: set<ItemId>)
      requires Distinct(chunk) && site.pass.Deleting? && site.pass.pending == {} && Ready(site.State(), Elems(chunk))
      requires |chunk| <= 25
      modifies site, site.store
      ensures Inv(site.State()) && site.pass.Deleting?
      ensures Added(r, r', done, why, more) && judged == |done| + |why|
      ensures Elems(more) <= Elems(done) && Accounted(site.State(), Elems(done), more)
      ensures StaleGone(site.State(), why)
      ensures PartVerdicts(chunk, done, why, lost)
      ensures Moved(old(site.State()), site.State(), Elems(done) + lost, Elems(chunk))
      ensures stop ==> r'.error
      ensures (lost != {} ==> short) && (short ==> stop)
      // without a usable copy there is no call that could fall short
      ensures short ==> judged < |chunk|
      ensures !stop ==> r'.error == r.error && lost == {} && Verdicts(chunk, done, why) && site.pass.pending == {}
      ensures !stop ==> r'.unmarked == r.unmarked + |more|
      ensures Calm(weather) && AsRead(old(site.State()), Elems(chunk)) ==>
                !stop && more == [] && CalmJudged(weather, old(site.State()), site.State(), Elems(chunk), done, why) &&
                r'.requeued == r.requeued + |StaleIds(why)|
    {
      hide Inv, StaleFound, StaleGone, MovesOn, Distinct, Accounted, Elems, Ids, Verdicts, PartVerdicts, Moved, Ready, Added, Calm,
           AsRead, CalmChecked, CalmCalled, CalmJudged, StaleIds, BadOnes;
      stop, short, done, more, lost := false, false, [], [], {};
      ghost var was := site.State();
      var bad := UnusableCopies(chunk);
      Checked(was, site.State(), Elems(bad), Elems(chunk));
      BatchReady(was, site.State(), Elems(bad), Elems(chunk));
      ghost var mid := site.State();
      var batch := Rest(chunk, bad);
      r' := r.(failed := r.failed + |bad|, reasons := r.reasons + BadOnes(bad));
      judged, why := |bad|, BadOnes(bad);
      ghost var checked := r';
      BadAdded(r, checked, checked, bad, [], [], []);
      NothingYet(site.State());
      if batch == [] {
        OnlyBad(chunk, bad, batch, {});
        BadIsNotStale(site.State(), bad, []);
        assert Elems(done) + lost == {};
        judged := |chunk|;
        Counted(chunk, [], why);
        if Calm(weather) && AsRead(was, Elems(chunk)) { OnlyBadCalmly(weather, was, mid, chunk, bad, batch); }
        return;
      }
      var raised; ghost var reasons;
      r', stop, raised, short, done, reasons, more, lost := CallGateway(batch, r');
      BadAdded(r, checked, r', bad, done, reasons, more);
      MovedOn(was, mid, site.State(), {}, Elems(done) + lost, Elems(done) + lost, Elems(chunk), Elems(batch));
      BadIsNotStale(site.State(), bad, reasons);
      if raised {
        OnlyBad(chunk, bad, batch, lost);
        FewerBad(chunk, bad, batch);
        assert BadOnes(bad) + reasons == BadOnes(bad);
      } else {
        Merge(chunk, bad, batch, done, reasons);
        judged, why := |chunk|, BadOnes(bad) + reasons;
        Counted(chunk, done, why);
      }
      if Calm(weather) && AsRead(was, Elems(chunk)) {
        StillFresh(weather, was, mid, chunk, bad, batch);
        assert !raised;
        JudgedCalmly(weather, was, mid, site.State(), chunk, bad, batch, done, reasons);
      }
    }

    /** The gateway call for what the disk check let through, and its aftermath. */
    method CallGateway(batch: seq<ItemId>, r: Result)
      returns (r': Result, stop: bool, raised: bool, ghost short: bool,
               ghost done: seq<ItemId>, ghost why: seq<(ItemId, Why)>, ghost more: seq<ItemId>, ghost lost: set<ItemId>)
      requires Inv(site.State()) && site.pass.Deleting? && site.pass.pending == {}
      requires Distinct(batch) && Elems(batch) <= site.pass.byId.Keys && Elems(batch) <= site.pass.checked.Keys
      modifies site, site.store
      ensures Inv(site.State()) && site.pass.Deleting?
      ensures Added(r, r', done, why, more)
      ensures Elems(more) <= Elems(done) && Accounted(site.State(), Elems(done), more)
      ensures StaleGone(site.State(), why)
      ensures raised <==> short
      ensures raised ==> stop && done == [] && why == [] && lost <= Elems(batch)
      ensures !raised ==> Verdicts(batch, done, why) && lost == {}
      ensures Moved(old(site.State()), site.State(), Elems(done) + lost, Elems(batch))
      ensures stop ==> r'.error
      ensures !stop ==> r'.error == r.error && site.pass.pending == {}
      ensures !stop ==> r'.unmarked == r.unmarked + |more|
      ensures Calm(weather) && AsRead(old(site.State()), Elems(batch)) ==>
                !stop && more == [] && CalmCalled(weather, old(site.State()), site.State(), batch, done, why) &&
                r'.requeued == r.requeued + |StaleIds(why)|
    {
      hide Inv, S.LockFree, StaleFound, StaleGone, MovesOn, Distinct, Accounted, Elems, Ids, Verdicts, Moved, Calm, CalmTaken,
           CalmSettled, CalmCalled, AsRead, Taking, Takable, TakenInTurn, StaleIds;
      CalmHas(weather, batch);
      ghost var was := site.State();
      var gone, reasons; ghost var taken;
      ghost var fetched, turns;
      raised, gone, reasons, taken, short, fetched, turns := DeleteBatch(batch);
      Took(was, site.State(), taken, Elems(batch));
      NothingYet(site.State());
      done, why, more, lost := gone, reasons, [], {};
      if raised {
        r', stop, lost := r.(error := true), true, taken;
        assert Elems(done) + lost == taken;
        return;
      }
      ghost var mid := site.State();
      r', stop, more := Settle(batch, gone, reasons, r.(failed := r.failed + |reasons|, reasons := r.reasons + reasons));
      MovedOn(was, mid, site.State(), taken, {}, Elems(done) + lost, Elems(batch), Elems(batch));
      if Calm(weather) && AsRead(was, Elems(batch)) {
        CalledCalmly(weather, was, mid, site.State(), batch, done, why, more, r'.requeued - r.requeued);
      }
    }

    /** After a gateway call came back: requeue what was stale, persist what was deleted. */
    method Settle(ghost batch: seq<ItemId>, done: seq<ItemId>, reasons: seq<(ItemId, Why)>, r: Result)
      returns (r': Result, stop: bool, ghost more: seq<ItemId>)
      requires Inv(site.State()) && site.pass.Deleting? && site.pass.pending == Elems(done)
      requires Verdicts(batch, done, reasons) && StaleFound(site.State(), reasons)
      modifies site, site.store
      ensures Inv(site.State()) && site.pass.Deleting?
      ensures Added(r, r', done, [], more)
      ensures Elems(more) <= Elems(done) && Accounted(site.State(), Elems(done), more)
      ensures StaleGone(site.State(), reasons)
      ensures Moved(old(site.State()), site.State(), {}, Elems(batch))
      ensures stop ==> r'.error && more == done
      ensures !stop ==> r'.error == r.error && site.pass.pending == {}
      ensures r'.unmarked == if stop then r.unmarked else r.unmarked + |more|
      ensures Calm(weather) ==> !stop && CalmSettled(old(site.State()), site.State(), done, reasons, more, r'.requeued - r.requeued)
    {
      assert Distinct(Ids(reasons)) && Distinct(done) && Elems(Ids(reasons)) <= Elems(batch);
      assert Elems(done) !! Elems(Ids(reasons));
      hide Inv, StaleFound, StaleGone, Distinct, Accounted, Elems, Ids, Verdicts, Moved, Calm, CalmSent, CalmMarked, CalmSettled;
      CalmHas(weather, done);
      ghost var was := site.State();
      var requeued; ghost var moved;
      requeued, moved := SendBack(reasons);
      ghost var mid := site.State();
      r', stop, more := Record(done, r.(requeued := r.requeued + requeued));
      MovedOn(was, mid, site.State(), {}, {}, {}, Elems(Ids(reasons)), {});
      MovedWithin(was, site.State(), Elems(Ids(reasons)), Elems(batch));
      StaleStaysGone(mid, site.State(), {}, reasons);
      if Calm(weather) { SettledCalmly(was, mid, site.State(), done, reasons, more, requeued); }
    }

    /** Stale candidates leave the pass and are no longer verified. */
    method SendBack(reasons: seq<(ItemId, Why)>) returns (count: nat, ghost moved: seq<ItemId>)
      requires Inv(site.State()) && site.pass.Deleting? && StaleFound(site.State(), reasons) && Distinct(Ids(reasons))
      modifies site, site.store
      ensures Inv(site.State()) && site.pass.Deleting? && site.pass.pending == old(site.pass.pending)
      ensures StaleGone(site.State(), reasons)
      ensures Moved(old(site.State()), site.State(), {}, Elems(Ids(reasons)))
      ensures count == |moved| && site.log == old(site.log) + Demotions(moved) && Elems(moved) <= Elems(StaleIds(reasons))
      ensures weather.quiet ==> CalmSent(old(site.State()), site.State(), StaleIds(reasons), count)
    {
      hide Inv, StaleFound, StaleGone, Distinct, Ids, MovesOn, StaleIds, SentBack, Moved, Answered, StaleChangekey, Elems, CalmSent;
      ghost var was := site.State();
      StaleIdsFound(was, reasons);
      count, moved := Requeue(StaleIds(reasons));
      SentBackMoved(was, site.State(), StaleIds(reasons), Elems(Ids(reasons)));
      StaleIdsGone(site.State(), reasons);
    }

    /** What was deleted is counted at once, then recorded, or listed. */
    method Record(done: seq<ItemId>, r: Result) returns (r': Result, stop: bool, ghost more: seq<ItemId>)
      requires Inv(site.State()) && site.pass.Deleting? && site.pass.pending == Elems(done) && Distinct(done)
      modifies site, site.store
      ensures Inv(site.State()) && site.pass.Deleting?
      ensures Added(r, r', done, [], more) && r'.requeued == r.requeued
      ensures Elems(more) <= Elems(done) && Accounted(site.State(), Elems(done), more)
      ensures Moved(old(site.State()), site.State(), {}, {})
      ensures stop ==> r'.error && more == done
      ensures !stop ==> r'.error == r.error && site.pass.pending == {}
      ensures r'.unmarked == if stop then r.unmarked else r.unmarked + |more|
      ensures done != [] && weather.markFails(done) ==> stop
      ensures stop ==> done != [] && (weather.markFails(done) || weather.readFails(done))
      ensures Calm(weather) ==> !stop && CalmMarked(old(site.State()), site.State(), done, more)
    {
      hide Inv, Distinct, Accounted, MovesOn, CalmMarked, Elems, Calm;
      ghost var was := site.State();
      NothingYet(site.State());
      Standing(site.State(), {});
      CalmHas(weather, done);
      r', stop, more := r, false, [];
      if done == [] {
        NothingMarked(was);
        return;
      }
      r' := r.(deleted := r.deleted + |done|);
      var failed, unmarked := PersistBatch(done);
      if failed {
        AllUnrecorded(site.State(), done);
        more := done;
        r', stop := r'.(unrecorded := r.unrecorded + done, error := true), true;
      } else {
        more := unmarked;
        r' := r'.(unmarked := r.unmarked + |unmarked|, unrecorded := r.unrecorded + unmarked);
      }
    }

    method Select() returns (ids: seq<ItemId>)
      requires Inv(site.State()) && site.pass.Cleared?
      modifies site
      ensures site.pass.Deleting? && Ready(site.State(), Elems(ids)) && Distinct(ids) && site.pass.pending == {}
      ensures Inv(site.State()) && site.purged == old(site.purged) && site.store.Contents() == old(site.store.Contents())
      ensures |ids| <= old(site.pass.policy.maxDelete)
      ensures IsOldest(old(Waiting(site.store.rows, site.pass.policy, site.clock)), old(site.pass.policy.maxDelete), ids)
      ensures AsRead(site.State(), Elems(ids)) && Untouched(old(site.State()), site.State(), {})
    {
      hide Inv;
      ids := site.SelectDeletable();
    }

    /** The loop over chunks, with every way out of it. */
    method Loop(ids: seq<ItemId>, r0: Result)
      returns (r: Result, ghost gone: seq<ItemId>, ghost lost: set<ItemId>, ghost short: bool)
      requires Inv(site.State()) && site.pass.Deleting? && site.pass.pending == {}
      requires Distinct(ids) && Ready(site.State(), Elems(ids))
      requires r0.deleted == 0 && r0.failed == 0 && r0.reasons == [] && r0.unrecorded == [] && !r0.error
      modifies site, site.store
      ensures Inv(site.State()) && site.pass.Deleting?
      ensures r == r0.(deleted := |gone|, failed := |r.reasons|, remaining := |ids| - |gone| - |r.reasons|,
                       reasons := r.reasons, unrecorded := r.unrecorded, unmarked := r.unmarked,
                       requeued := r.requeued, error := r.error)
      ensures 0 <= r.remaining && (!r.error ==> r.remaining == 0 && lost == {})
      ensures (lost != {} ==> short) && (short ==> r.error)
      ensures PartVerdicts(ids, gone, r.reasons, lost)
      ensures Moved(old(site.State()), site.State(), Elems(gone) + lost, Elems(ids))
      ensures Accounted(site.State(), Elems(gone), r.unrecorded) && Elems(r.unrecorded) <= Elems(gone)
      ensures StaleGone(site.State(), r.reasons)
      ensures Calm(weather) && AsRead(old(site.State()), Elems(ids)) ==>
                && !r.error && r.unrecorded == [] && r.unmarked == r0.unmarked && r.requeued == r0.requeued + |StaleIds(r.reasons)|
                && CalmJudged(weather, old(site.State()), site.State(), Elems(ids), gone, r.reasons)
      ensures !r.error ==> r.unmarked == r0.unmarked + |r.unrecorded|
    {
      hide Inv, Distinct, Elems, Ids, Verdicts, PartVerdicts, Accounted, MovesOn, Moved, Ready, StaleGone, Added, Summed, Calm, AsRead,
           CalmJudged, CalmSoFar;
      r, gone, lost, short := r0, [], {}, false;
      ghost var w0 := site.State();
      ghost var calm := Calm(weather) && AsRead(w0, Elems(ids));
      NothingJudged(weather, w0, ids, r0);
      Standing(site.State(), Elems(ids));
      NothingYet(site.State());
      NothingSummed(r0);
      var start, upto := 0, 0;
      assert ids[..0] == [] && ids[0..] == ids;
      while start < |ids|
        invariant !short && start <= |ids| && upto == start == |gone| + |r.reasons|
        invariant Inv(site.State()) && site.pass.Deleting?
        invariant Ready(site.State(), Elems(ids[start..])) && site.pass.pending == {}
        invariant PartVerdicts(ids, gone, r.reasons, {})
        invariant Verdicts(ids[..start], gone, r.reasons) && lost == {} && Elems(r.unrecorded) <= Elems(gone)
        invariant Summed(r0, r, gone) && !r.error && r.unmarked == r0.unmarked + |r.unrecorded|
        invariant calm ==> CalmSoFar(weather, w0, site.State(), ids, start, gone, r0, r)
        invariant Accounted(site.State(), Elems(gone), r.unrecorded) && StaleGone(site.State(), r.reasons)
        invariant Moved(old(site.State()), site.State(), Elems(gone) + lost, Elems(ids))
      {
        var end := if start + BATCH_SIZE < |ids| then start + BATCH_SIZE else |ids|;
        var chunk := ids[start..end];
        Split(ids, start, end);
        ReadyPart(site.State(), Elems(ids[start..]), Elems(chunk));
        ghost var was := site.State();
        var r', stop, judged; ghost var done, why, more;
        r', stop, judged, short, done, why, more, lost := JudgeChunk(chunk, r);
        SummedMore(r0, r, r', gone, done, why, more);
        Append(ids[..start], chunk, ids[..end], ids, gone, r.reasons, done, why, lost);
        if calm {
          ChunkIsAsRead(weather, w0, was, ids, start, end, gone, r0, r);
          JudgedFurther(weather, w0, was, site.State(), ids, start, end, gone, done, why, more, r0, r, r', Elems(done) + lost);
        }
        AccountedJoined(was, site.State(), gone, r.unrecorded, done, more, Elems(done) + lost, Elems(chunk));
        StaleGoneJoined(was, site.State(), r.reasons, why, Elems(done) + lost, Elems(chunk));
        MovedOn(old(site.State()), was, site.State(), Elems(gone) + {}, Elems(done) + lost, Elems(gone + done) + lost,
                Elems(ids), Elems(chunk));
        gone := gone + done;
        r, upto := r', start + judged;
        if stop { break; }
        StillReady(was, site.State(), ids, start, end);
        Counted(chunk, done, why);
        start := end;
      }
      SummedUp(r0, r, gone);
      if calm { AllJudged(weather, w0, site.State(), ids, start, gone, r0, r); }
      r := r.(remaining := |ids| - upto);
    }

    /** The candidates judged, from the selection to the end of the pass. */
    method JudgeAll(dryRun: bool, ids: seq<ItemId>, warning: bool)
      returns (r: Result, ghost gone: seq<ItemId>, ghost lost: set<ItemId>, ghost short: bool)
      requires Inv(site.State()) && site.pass.Deleting? && site.pass.pending == {}
      requires Distinct(ids) && Ready(site.State(), Elems(ids))
      modifies site, site.store
      ensures Inv(site.State()) && site.pass.Idle?
      ensures Booked(old(site.purged), site.State(), r, gone, lost, short)
      ensures r.eligible == |ids| && r.warning == warning && !r.blocked && !r.held
      ensures !r.error && !dryRun ==> r.remaining == 0
      ensures dryRun ==> site.purged == old(site.purged) && gone == []
      ensures dryRun || ids == [] ==> r == Result(|ids|, 0, 0, |ids|, 0, [], [], 0, false, false, warning, false)
      ensures !dryRun && Calm(weather) && AsRead(old(site.State()), Elems(ids)) ==>
                && !r.error && r.unrecorded == [] && r.unmarked == 0 && r.requeued == |StaleIds(r.reasons)|
                && CalmJudged(weather, old(site.State()), site.State(), Elems(ids), gone, r.reasons)
    {
      hide Inv, S.LockFree, Distinct, Elems, Ids, Verdicts, PartVerdicts, Accounted, MovesOn, Ready, StaleGone, Calm, AsRead, CalmJudged,
           StaleIds;
      if ids == [] { NobodyJudged(weather, site.State()); }
      r, gone, lost, short := Result(|ids|, 0, 0, |ids|, 0, [], [], 0, false, false, warning, false), [], {}, false;
      NothingYet(site.State());
      if !dryRun && ids != [] {
        r, gone, lost, short := Loop(ids, r);
      }
      NoTwoVerdicts(ids, gone, r.reasons, lost);
      ghost var ended := site.State();
      site.PassOver();
      PassingOver(ended, Elems(gone), r.unrecorded, r.reasons);
      JudgedWhenOver(weather, old(site.State()), ended, Elems(ids), gone, r.reasons);
    }

    /** One run of the lane.  `gone` was deleted and counted; `lost` was deleted
        by a gateway call that raised before it could say so, which takes a
        fetch that answers `short`. */
    method Run(dryRun: bool, settings: Settings, before: Option<int>, stamped: Option<int>)
      returns (r: Result, ghost gone: seq<ItemId>, ghost lost: set<ItemId>, ghost short: bool, ghost ids: seq<ItemId>)
      requires Inv(site.State()) && site.pass.Idle?
      modifies site, site.store
      ensures Inv(site.State()) && site.pass.Idle?
      // in calm weather everything is decided by the disk, the mailbox and the
      // rows as the run found them: who is selected, each verdict, each row after it
      ensures Calm(weather) && settings.deleteEnabled && !r.blocked ==>
                && IsOldest(old(Waiting(site.store.rows, FromSettings(settings, before), site.clock)), settings.maxDelete, ids)
                && r.eligible == |ids|
      ensures Calm(weather) && settings.deleteEnabled && !r.blocked && !dryRun ==>
                && !r.error && r.unrecorded == [] && r.unmarked == 0 && r.requeued == |StaleIds(r.reasons)|
                && CalmJudged(weather, old(site.State()), site.State(), Elems(ids), gone, r.reasons)
      // so when nothing is wrong with any of them, every one is deleted
      ensures Calm(weather) && settings.deleteEnabled && !r.blocked && !dryRun ==>
                ((forall i :: i in ids ==> NothingWrong(weather, old(site.State()), i)) ==> r.deleted == r.eligible)
      // every exit: what was counted, judged, deleted and recorded agree
      ensures Booked(old(site.purged), site.State(), r, gone, lost, short) && r.eligible <= settings.maxDelete
      // a clean run leaves nothing over, and a rail that holds leaves everything
      ensures !r.error && !r.blocked && !dryRun ==> r.remaining == 0
      ensures r.blocked || dryRun ==> site.purged == old(site.purged) && gone == []
      ensures r.blocked ==> r == Result(0, 0, 0, 0, 0, [], [], 0, true, settings.deleteEnabled, false, false)
      ensures dryRun && !r.blocked ==> r == Result(|ids|, 0, 0, |ids|, 0, [], [], 0, false, false, r.warning, false)
      ensures !settings.deleteEnabled ==> r.blocked && r.eligible == 0
      ensures settings.deleteEnabled ==>
                && r.held == r.blocked
                && (r.blocked <==> old(Holds(BackupState(FromSettings(settings, before), stamped, site.clock))))
                && (!r.blocked ==> (r.warning <==> old(BackupState(FromSettings(settings, before), stamped, site.clock)) == Expired))
    {
      hide Inv, S.LockFree, Distinct, Elems, Ids, Accounted, MovesOn, Apply, BackupState, Ready, StaleGone, Booked, Calm, AsRead,
           CalmJudged, StaleIds, NothingWrong, Untouched, IsOldest, Waiting;
      r, gone, lost, short, ids := Result(0, 0, 0, 0, 0, [], [], 0, false, false, false, false), [], {}, false, [];
      ghost var w0 := site.State();
      CalmHas(weather, []);
      NothingBooked(site.State(), r);
      if !settings.deleteEnabled { r := r.(blocked := true); return; }
      var backup := site.Clear(settings, before, stamped);
      if Holds(backup) { r := r.(blocked := true, held := true); return; }
      ClearedChangesNothing(w0, site.State(), settings, before, stamped);
      ghost var cleared := site.State();
      site.Outside(weather.quiet);
      ghost var mid := site.State();
      assert Calm(weather) ==> mid == cleared && site.store.rows == w0.db.rows && site.clock == w0.clock;
      assert site.pass.policy == FromSettings(settings, before) && site.pass.policy.maxDelete == settings.maxDelete;
      var picked := Select();
      ids := picked;
      ghost var w1 := site.State();
      r, gone, lost, short := JudgeAll(dryRun, picked, backup == Expired);
      if Calm(weather) && !dryRun {
        JudgedFromTheStart(weather, w0, mid, w1, site.State(), Elems(ids), gone, r.reasons);
        AllWell(weather, w0, site.State(), ids, gone, r, lost, short);
      }
    }
  }

  /** Nothing is wrong with this message: a good copy, in the mailbox with the
      changekey of its capture, answering, and not refused. */
  ghost predicate NothingWrong(t: Weather, w: World, i: ItemId) {
    i in w.db.rows && GoodCopy(w, i, w.db.rows[i]) && Unmoved(w, i, w.db.rows[i]) && i !in t.silent && i !in t.refused
  }

  lemma ClearedChangesNothing(a: World, b: World, settings: Settings, before: Option<int>, stamped: Option<int>)
    requires Enabled(a, DeleteClear(settings, before, stamped)) && b == Apply(a, DeleteClear(settings, before, stamped))
    ensures Untouched(a, b, {}) && b.db == a.db && b.clock == a.clock
  {
    hide BackupState, Holds;
  }

  lemma JudgedFromTheStart(t: Weather, a: World, b: World, c: World, d: World, ids: set<ItemId>, gone: seq<ItemId>,
                           reasons: seq<(ItemId, Why)>)
    requires Untouched(a, b, {}) && Untouched(b, c, {}) && CalmJudged(t, c, d, ids, gone, reasons)
    ensures CalmJudged(t, a, d, ids, gone, reasons)
  {
    UntouchedMore(a, b, c, {}, {}, {});
    UntouchedMore(a, c, d, {}, ids, ids);
    forall i | i in ids ensures OneJudged(t, a, d, i, i in gone, (i, BadCopy) in reasons, (i, StaleReason) in reasons) {
      assert SameOf(a, c, i);
      JudgedAfter(t, a, c, d, i, i in gone, (i, BadCopy) in reasons, (i, StaleReason) in reasons);
    }
    hide OneJudged;
  }

  lemma AllWell(t: Weather, a: World, b: World, ids: seq<ItemId>, gone: seq<ItemId>, r: Result, lost: set<ItemId>, short: bool)
    requires CalmJudged(t, a, b, Elems(ids), gone, r.reasons) && Distinct(ids) && r.eligible == |ids|
    requires Booked(a.purged, b, r, gone, lost, short)
    ensures (forall i :: i in ids ==> NothingWrong(t, a, i)) ==> r.deleted == r.eligible
  {
    if forall i :: i in ids ==> NothingWrong(t, a, i) {
      forall i | i in Elems(ids) ensures i in Elems(gone) {
        assert i in ids && NothingWrong(t, a, i);
        assert OneJudged(t, a, b, i, i in gone, (i, BadCopy) in r.reasons, (i, StaleReason) in r.reasons);
      }
      DistinctSize(ids);
      DistinctSize(gone);
      S.SubsetIsSmaller(Elems(ids), Elems(gone));
    }
  }

  /** The books of one run.  The three counters partition what was selected, and
      every attempted id has exactly one verdict.  What Exchange lost is exactly
      what is counted, plus what a gateway call took that fell short and raised;
      all of the former is recorded or listed.  What was refused for a moved
      changekey is no longer verified. */
  ghost predicate Booked(before: map<ItemId, Sha>, w: World, r: Result, gone: seq<ItemId>, lost: set<ItemId>, short: bool) {
    && r.deleted + r.failed + r.remaining == r.eligible && 0 <= r.remaining
    && r.deleted == |gone| && r.failed == |r.reasons| && Distinct(gone) && Distinct(Ids(r.reasons))
    && Elems(gone) !! Elems(Ids(r.reasons)) && lost !! (Elems(gone) + Elems(Ids(r.reasons)))
    && w.purged.Keys == before.Keys + Elems(gone) + lost && (Elems(gone) + lost) !! before.Keys
    && (lost != {} ==> short) && (short ==> r.error)
    && Accounted(w, Elems(gone), r.unrecorded) && Elems(r.unrecorded) <= Elems(gone)
    && StaleGone(w, r.reasons)
  }

  lemma NothingBooked(w: World, r: Result)
    requires r.eligible == r.deleted == r.failed == r.remaining == 0 && r.reasons == [] && r.unrecorded == []
    ensures forall blocked, held ::
              Booked(w.purged, w, r.(blocked := blocked, held := held), [], {}, false)
    ensures Booked(w.purged, w, r.(blocked := true), [], {}, false)
  {
    assert Ids(r.reasons) == [];
  }

  /** What the loop has done by `start`, in calm weather. */
  ghost predicate CalmSoFar(t: Weather, a: World, b: World, ids: seq<ItemId>, start: nat, gone: seq<ItemId>, r0: Result, r: Result) {
    && start <= |ids|
    && CalmJudged(t, a, b, Elems(ids[..start]), gone, r.reasons) && AsRead(b, Elems(ids[start..]))
    && r.unrecorded == [] && r.requeued == r0.requeued + |StaleIds(r.reasons)|
  }

  lemma NothingJudged(t: Weather, w: World, ids: seq<ItemId>, r: Result)
    requires r.reasons == [] && r.unrecorded == []
    ensures AsRead(w, Elems(ids)) ==> CalmSoFar(t, w, w, ids, 0, [], r, r)
  {
    assert ids[..0] == [] && ids[0..] == ids;
  }

  lemma AllJudged(t: Weather, a: World, b: World, ids: seq<ItemId>, start: nat, gone: seq<ItemId>, r0: Result, r: Result)
    requires CalmSoFar(t, a, b, ids, start, gone, r0, r) && start == |ids|
    ensures CalmJudged(t, a, b, Elems(ids), gone, r.reasons) && r.unrecorded == [] && r.requeued == r0.requeued + |StaleIds(r.reasons)|
  {
    assert ids[..start] == ids;
    hide CalmJudged, AsRead, StaleIds, Elems;
  }

  lemma ChunkIsAsRead(t: Weather, a: World, b: World, ids: seq<ItemId>, start: nat, end: nat, gone: seq<ItemId>, r0: Result, r: Result)
    requires start <= end <= |ids| && CalmSoFar(t, a, b, ids, start, gone, r0, r)
    ensures AsRead(b, Elems(ids[start..end]))
  {
    assert Elems(ids[start..end]) <= Elems(ids[start..]) by {
      forall i | i in ids[start..end] ensures i in ids[start..] {
        var k :| 0 <= k < end - start && ids[start..end][k] == i;
        assert ids[start..][k] == i;
      }
    }
    hide CalmJudged;
  }

  lemma JudgedFurther(t: Weather, a: World, b: World, c: World, ids: seq<ItemId>, start: nat, end: nat, gone: seq<ItemId>,
                      done: seq<ItemId>, why: seq<(ItemId, Why)>, more: seq<ItemId>, r0: Result, r: Result, r': Result,
                      taken: set<ItemId>)
    requires Distinct(ids) && start <= end <= |ids| && CalmSoFar(t, a, b, ids, start, gone, r0, r)
    requires Verdicts(ids[..start], gone, r.reasons) && Verdicts(ids[start..end], done, why)
    requires CalmJudged(t, b, c, Elems(ids[start..end]), done, why) && Moved(b, c, taken, Elems(ids[start..end]))
    requires Added(r, r', done, why, more) && more == [] && r'.requeued == r.requeued + |StaleIds(why)|
    ensures CalmSoFar(t, a, c, ids, end, gone + done, r0, r')
  {
    Split(ids, start, end);
    StaleIdsJoined(r.reasons, why);
    ChunksJoined(t, a, b, c, ids[..start], ids[start..end], gone, r.reasons, done, why);
    RestIsAsRead(t, b, c, ids, start, end, done, why, taken);
    hide CalmJudged, AsRead, Verdicts, Moved, Elems, StaleIds, Distinct;
  }

  lemma RestIsAsRead(t: Weather, b: World, c: World, ids: seq<ItemId>, start: nat, end: nat, done: seq<ItemId>,
                     why: seq<(ItemId, Why)>, taken: set<ItemId>)
    requires Distinct(ids) && start <= end <= |ids| && AsRead(b, Elems(ids[start..]))
    requires CalmJudged(t, b, c, Elems(ids[start..end]), done, why) && Moved(b, c, taken, Elems(ids[start..end]))
    ensures AsRead(c, Elems(ids[end..]))
  {
    Split(ids, start, end);
    hide OneJudged, MovesOn, Elems, Distinct;
    forall i | i in Elems(ids[end..])
      ensures i in c.pass.byId && i in c.db.rows && c.db.rows[i] == c.pass.byId[i] && c.db.rows[i].state == Verified
    {
      assert i in Elems(ids[start..]) && i !in Elems(ids[start..end]);
      assert SameOf(b, c, i);
    }
  }

  lemma {:induction false} StaleIdsJoined(a: seq<(ItemId, Why)>, b: seq<(ItemId, Why)>)
    ensures StaleIds(a + b) == StaleIds(a) + StaleIds(b)
  {
    if b == [] {
      assert a + b == a;
    } else {
      StaleIdsJoined(a, b[..|b| - 1]);
      assert (a + b)[..|a + b| - 1] == a + b[..|b| - 1];
    }
  }

  /** Two chunks, one after the other: neither disturbs the other's verdicts. */
  lemma ChunksJoined(t: Weather, a: World, b: World, c: World, front: seq<ItemId>, chunk: seq<ItemId>, gone: seq<ItemId>,
                     reasons: seq<(ItemId, Why)>, done: seq<ItemId>, why: seq<(ItemId, Why)>)
    requires CalmJudged(t, a, b, Elems(front), gone, reasons) && CalmJudged(t, b, c, Elems(chunk), done, why)
    requires Verdicts(front, gone, reasons) && Verdicts(chunk, done, why) && Elems(front) !! Elems(chunk)
    ensures CalmJudged(t, a, c, Elems(front) + Elems(chunk), gone + done, reasons + why)
  {
    UntouchedMore(a, b, c, Elems(front), Elems(chunk), Elems(front) + Elems(chunk));
    forall i | i in Elems(front) + Elems(chunk)
      ensures OneJudged(t, a, c, i, i in gone + done, (i, BadCopy) in reasons + why, (i, StaleReason) in reasons + why)
    {
      if i in Elems(front) {
        NotJudgedIn(i, chunk, done, why);
        assert i !in Elems(chunk);
        JudgedBefore(t, a, b, c, i, i in gone, (i, BadCopy) in reasons, (i, StaleReason) in reasons);
      } else {
        NotJudgedIn(i, front, gone, reasons);
        JudgedAfter(t, a, b, c, i, i in done, (i, BadCopy) in why, (i, StaleReason) in why);
      }
    }
  }

  lemma NotJudgedIn(i: ItemId, chunk: seq<ItemId>, done: seq<ItemId>, why: seq<(ItemId, Why)>)
    requires Verdicts(chunk, done, why) && i !in Elems(chunk)
    ensures i !in done && forall y :: (i, y) !in why
  {
    assert i !in Elems(done) && i !in Elems(Ids(why));
    NotYetNamed(i, why);
  }

  lemma NobodyJudged(t: Weather, w: World)
    ensures CalmJudged(t, w, w, Elems([]), [], []) && StaleIds([]) == []
  {
  }

  lemma JudgedWhenOver(t: Weather, a: World, b: World, ids: set<ItemId>, gone: seq<ItemId>, reasons: seq<(ItemId, Why)>)
    ensures CalmJudged(t, a, b, ids, gone, reasons) ==> CalmJudged(t, a, Apply(b, PassEnds), ids, gone, reasons)
  {
    PassEndsIs(b);
    hide Apply, GoodCopy, Unmoved;
  }

  lemma PassEndsIs(w: World)
    ensures Apply(w, PassEnds) == w.(pass := Idle)
  {
  }

  lemma JudgedBefore(t: Weather, a: World, b: World, c: World, i: ItemId, gone: bool, bad: bool, stale: bool)
    requires OneJudged(t, a, b, i, gone, bad, stale) && SameOf(b, c, i)
    ensures OneJudged(t, a, c, i, gone, bad, stale)
  {
    hide GoodCopy, Unmoved;
  }

  lemma JudgedAfter(t: Weather, a: World, b: World, c: World, i: ItemId, gone: bool, bad: bool, stale: bool)
    requires SameOf(a, b, i) && b.disk == a.disk && OneJudged(t, b, c, i, gone, bad, stale)
    ensures OneJudged(t, a, c, i, gone, bad, stale)
  {
  }

  /** How one chunk changes the result: what it decided and what it named. */
  ghost predicate Added(r: Result, r': Result, done: seq<ItemId>, why: seq<(ItemId, Why)>, more: seq<ItemId>) {
    r' == r.(deleted := r.deleted + |done|, failed := r.failed + |why|, reasons := r.reasons + why,
             unrecorded := r.unrecorded + more, unmarked := r'.unmarked, requeued := r'.requeued, error := r'.error)
  }

  /** The counters so far, and what a chunk does to them. */
  ghost predicate Summed(r0: Result, r: Result, gone: seq<ItemId>) {
    r == r0.(deleted := |gone|, failed := |r.reasons|, reasons := r.reasons, unrecorded := r.unrecorded,
             unmarked := r.unmarked, requeued := r.requeued, error := r.error)
  }

  lemma NothingSummed(r: Result)
    requires r.deleted == r.failed == 0 && r.reasons == []
    ensures Summed(r, r, [])
  {
  }

  lemma SummedMore(r0: Result, r: Result, r': Result, gone: seq<ItemId>, done: seq<ItemId>, why: seq<(ItemId, Why)>,
                   more: seq<ItemId>)
    requires Summed(r0, r, gone) && Added(r, r', done, why, more)
    ensures Summed(r0, r', gone + done)
    ensures r'.reasons == r.reasons + why && r'.unrecorded == r.unrecorded + more
  {
  }

  lemma SummedUp(r0: Result, r: Result, gone: seq<ItemId>)
    requires Summed(r0, r, gone)
    ensures r.deleted == |gone| && r.failed == |r.reasons|
    ensures forall n :: r.(remaining := n) ==
              r0.(deleted := |gone|, failed := |r.reasons|, remaining := n, reasons := r.reasons,
                  unrecorded := r.unrecorded, unmarked := r.unmarked, requeued := r.requeued, error := r.error)
  {
  }

  lemma BadAdded(r: Result, mid: Result, r': Result, bad: seq<ItemId>, done: seq<ItemId>, why: seq<(ItemId, Why)>, more: seq<ItemId>)
    requires mid == r.(failed := r.failed + |bad|, reasons := r.reasons + BadOnes(bad))
    ensures Added(mid, mid, [], [], [])
    ensures Added(mid, r', done, why, more) ==> Added(r, r', done, BadOnes(bad) + why, more)
    ensures BadOnes(bad) + [] == BadOnes(bad)
  {
    assert mid.reasons + why == r.reasons + (BadOnes(bad) + why);
  }

  function BadOnes(bad: seq<ItemId>): (why: seq<(ItemId, Why)>)
    ensures |why| == |bad| && Ids(why) == bad
  {
    seq(|bad|, k requires 0 <= k < |bad| => (bad[k], BadCopy))
  }

  /** Every id of a batch has exactly one verdict: deleted, or a reason why not. */
  ghost predicate Verdicts(batch: seq<ItemId>, done: seq<ItemId>, reasons: seq<(ItemId, Why)>) {
    && Distinct(done) && Distinct(Ids(reasons))
    && Elems(done) !! Elems(Ids(reasons))
    && Elems(done) + Elems(Ids(reasons)) == Elems(batch)
  }

  /** The same for a batch that was cut short: no id has two verdicts. */
  ghost predicate PartVerdicts(batch: seq<ItemId>, done: seq<ItemId>, reasons: seq<(ItemId, Why)>, lost: set<ItemId>) {
    && Distinct(done) && Distinct(Ids(reasons))
    && Elems(done) !! Elems(Ids(reasons)) && lost !! (Elems(done) + Elems(Ids(reasons)))
    && Elems(done) + Elems(Ids(reasons)) + lost <= Elems(batch)
  }

  lemma FewerBad(chunk: seq<ItemId>, bad: seq<ItemId>, batch: seq<ItemId>)
    requires Distinct(chunk) && Distinct(bad) && Elems(bad) <= Elems(chunk) && batch != []
    requires Elems(batch) == Elems(chunk) - Elems(bad)
    ensures |bad| < |chunk|
  {
    DistinctSize(chunk);
    DistinctSize(bad);
    assert batch[0] in Elems(batch);
    S.SubsetIsSmaller(Elems(bad), Elems(chunk) - {batch[0]});
  }

  lemma NoTwoVerdicts(batch: seq<ItemId>, done: seq<ItemId>, reasons: seq<(ItemId, Why)>, lost: set<ItemId>)
    requires PartVerdicts(batch, done, reasons, lost)
    ensures Distinct(done) && Distinct(Ids(reasons))
    ensures Elems(done) !! Elems(Ids(reasons)) && lost !! (Elems(done) + Elems(Ids(reasons)))
  {
  }

  /** What a stretch of the run did: it took `taken` out of the mailbox, and
      judged or dropped nothing but `touched`. */
  ghost predicate Moved(a: World, b: World, taken: set<ItemId>, touched: set<ItemId>) {
    && b.purged.Keys == a.purged.Keys + taken && taken !! a.purged.Keys
    && MovesOn(a.db, b.db)
    && a.pass.Deleting? && b.pass.Deleting?
    && (forall i :: i in a.pass.byId && i !in touched ==> i in b.pass.byId && b.pass.byId[i] == a.pass.byId[i])
    && b.pass.checked.Keys <= a.pass.checked.Keys + touched
  }

  lemma MovedOn(a: World, b: World, c: World, t: set<ItemId>, t': set<ItemId>, all: set<ItemId>,
                s: set<ItemId>, s': set<ItemId>)
    requires Moved(a, b, t, s) && Moved(b, c, t', s') && s' <= s && all == t + t'
    ensures Moved(a, c, all, s)
  {
  }

  lemma SentBackMoved(a: World, b: World, stale: seq<ItemId>, touched: set<ItemId>)
    requires SentBack(a, b, Elems(stale)) && Elems(stale) <= touched
    ensures Moved(a, b, {}, touched) && b.pass.Deleting? && b.pass.pending == a.pass.pending
    ensures forall i :: i in stale ==> !S.InState(b.db, i, Verified)
  {
    hide MovesOn;
    assert forall i :: i in stale ==> i in Elems(stale);
  }

  lemma MovedWithin(a: World, b: World, s: set<ItemId>, s': set<ItemId>)
    requires Moved(a, b, {}, s) && s <= s'
    ensures Moved(a, b, {}, s')
  {
  }

  lemma Checked(a: World, b: World, bad: set<ItemId>, chunk: set<ItemId>)
    requires a.pass.Deleting? && b.pass.Deleting? && b.purged == a.purged && MovesOn(a.db, b.db) && bad <= chunk
    requires b.pass.byId == a.pass.byId - bad && b.pass.checked.Keys == a.pass.checked.Keys + (chunk - bad)
    ensures Moved(a, b, {}, chunk)
  {
  }

  lemma BatchReady(a: World, b: World, bad: set<ItemId>, chunk: set<ItemId>)
    requires Ready(a, chunk) && b.pass.Deleting?
    requires b.pass.byId == a.pass.byId - bad && b.pass.checked.Keys == a.pass.checked.Keys + (chunk - bad)
    ensures chunk - bad <= b.pass.byId.Keys && chunk - bad <= b.pass.checked.Keys
  {
  }

  lemma Standing(w: World, touched: set<ItemId>)
    requires w.pass.Deleting?
    ensures Moved(w, w, {}, touched)
  {
  }

  lemma ReadyPart(w: World, ids: set<ItemId>, part: set<ItemId>)
    requires Ready(w, ids) && part <= ids
    ensures Ready(w, part)
  {
  }

  lemma Took(a: World, b: World, taken: set<ItemId>, batch: set<ItemId>)
    requires Taking(a, b, taken) && taken <= batch
    ensures Moved(a, b, taken, batch) && b.pass.pending == taken
  {
  }

  lemma PassingOver(w: World, gone: set<ItemId>, unrecorded: seq<ItemId>, reasons: seq<(ItemId, Why)>)
    requires w.pass.Deleting? && Accounted(w, gone, unrecorded) && StaleGone(w, reasons)
    ensures Accounted(Apply(w, PassEnds), gone, unrecorded) && StaleGone(Apply(w, PassEnds), reasons)
    ensures Apply(w, PassEnds).purged == w.purged && Apply(w, PassEnds).pass == Idle
  {
  }

  lemma Joined(a: seq<ItemId>, b: seq<ItemId>)
    requires Distinct(a) && Distinct(b) && Elems(a) !! Elems(b)
    ensures Distinct(a + b) && Elems(a + b) == Elems(a) + Elems(b)
  {
    forall i, j | 0 <= i < |a| && 0 <= j < |b| ensures a[i] != b[j] {
      assert a[i] in Elems(a) && b[j] in Elems(b);
    }
  }

  lemma IdsJoined(a: seq<(ItemId, Why)>, b: seq<(ItemId, Why)>)
    ensures Ids(a + b) == Ids(a) + Ids(b) && |Ids(a)| == |a|
  {
  }

  /** One verdict each means the verdicts can be counted. */
  lemma Counted(chunk: seq<ItemId>, done: seq<ItemId>, why: seq<(ItemId, Why)>)
    requires Distinct(chunk) && Verdicts(chunk, done, why)
    ensures |done| + |why| == |chunk| && PartVerdicts(chunk, done, why, {})
  {
    Joined(done, Ids(why));
    DistinctSize(done + Ids(why));
    DistinctSize(chunk);
  }

  /** The disk check refused some; the rest was never decided, or was taken
      by a call that raised. */
  lemma OnlyBad(chunk: seq<ItemId>, bad: seq<ItemId>, batch: seq<ItemId>, taken: set<ItemId>)
    requires Distinct(bad) && Elems(bad) <= Elems(chunk) && Elems(batch) == Elems(chunk) - Elems(bad)
    requires taken <= Elems(batch)
    ensures PartVerdicts(chunk, [], BadOnes(bad), taken)
    ensures batch == [] ==> Verdicts(chunk, [], BadOnes(bad))
  {
  }

  lemma Merge(chunk: seq<ItemId>, bad: seq<ItemId>, batch: seq<ItemId>, done: seq<ItemId>, reasons: seq<(ItemId, Why)>)
    requires Distinct(bad) && Elems(bad) <= Elems(chunk) && Elems(batch) == Elems(chunk) - Elems(bad)
    requires Verdicts(batch, done, reasons)
    ensures Verdicts(chunk, done, BadOnes(bad) + reasons)
  {
    Joined(bad, Ids(reasons));
    IdsJoined(BadOnes(bad), reasons);
  }

  lemma Split(ids: seq<ItemId>, a: nat, b: nat)
    requires Distinct(ids) && a <= b <= |ids|
    ensures Distinct(ids[a..b])
    ensures Elems(ids[a..]) == Elems(ids[a..b]) + Elems(ids[b..]) && Elems(ids[a..b]) !! Elems(ids[b..])
    ensures Elems(ids[..b]) == Elems(ids[..a]) + Elems(ids[a..b]) && Elems(ids[..a]) !! Elems(ids[a..b])
    ensures Elems(ids[..b]) <= Elems(ids)
  {
  }

  lemma Append(front: seq<ItemId>, chunk: seq<ItemId>, upto: seq<ItemId>, all: seq<ItemId>,
               gone: seq<ItemId>, reasons: seq<(ItemId, Why)>, done: seq<ItemId>, why: seq<(ItemId, Why)>, lost: set<ItemId>)
    requires Verdicts(front, gone, reasons) && PartVerdicts(chunk, done, why, lost)
    requires Elems(front) !! Elems(chunk) && Elems(upto) == Elems(front) + Elems(chunk) && Elems(upto) <= Elems(all)
    ensures Elems(gone + done) == Elems(gone) + Elems(done)
    ensures PartVerdicts(all, gone + done, reasons + why, lost)
    ensures Verdicts(chunk, done, why) ==> Verdicts(upto, gone + done, reasons + why)
    ensures |gone| + |reasons| + |done| + |why| <= |all|
  {
    Joined(gone, done);
    Joined(Ids(reasons), Ids(why));
    IdsJoined(reasons, why);
    Fits(all, gone + done, reasons + why, lost);
  }

  lemma Fits(all: seq<ItemId>, done: seq<ItemId>, why: seq<(ItemId, Why)>, lost: set<ItemId>)
    requires PartVerdicts(all, done, why, lost)
    ensures |done| + |why| <= |all|
  {
    Joined(done, Ids(why));
    DistinctSize(done + Ids(why));
    ElemsSize(all);
    S.SubsetIsSmaller(Elems(done + Ids(why)), Elems(all));
  }

  lemma StillReady(was: World, w: World, ids: seq<ItemId>, a: nat, b: nat)
    requires Distinct(ids) && a <= b <= |ids|
    requires Ready(was, Elems(ids[a..])) && Inv(w) && w.pass.Deleting?
    requires exists taken :: Moved(was, w, taken, Elems(ids[a..b]))
    ensures Ready(w, Elems(ids[b..]))
  {
    Split(ids, a, b);
    hide Inv, Elems, Distinct;
  }

  lemma AccountedJoined(was: World, w: World, gone: seq<ItemId>, u: seq<ItemId>, done: seq<ItemId>, more: seq<ItemId>,
                        taken: set<ItemId>, touched: set<ItemId>)
    requires Accounted(was, Elems(gone), u) && Moved(was, w, taken, touched) && Accounted(w, Elems(done), more)
    requires Elems(u) <= Elems(gone) && Elems(more) <= Elems(done)
    ensures Accounted(w, Elems(gone + done), u + more) && Elems(u + more) <= Elems(gone + done)
  {
    assert Elems(gone + done) == Elems(gone) + Elems(done) && Elems(u + more) == Elems(u) + Elems(more);
  }

  /** The ids a stale changekey refused, in order. */
  function StaleIds(reasons: seq<(ItemId, Why)>): seq<ItemId> {
    if reasons == [] then []
    else
      var rest := StaleIds(reasons[..|reasons| - 1]);
      var last := reasons[|reasons| - 1];
      if last.1 == StaleReason then rest + [last.0] else rest
  }

  lemma {:induction false} StaleIdsFound(w: World, reasons: seq<(ItemId, Why)>)
    requires StaleFound(w, reasons) && Distinct(Ids(reasons))
    ensures Distinct(StaleIds(reasons)) && Elems(StaleIds(reasons)) <= Elems(Ids(reasons))
    ensures forall i :: i in StaleIds(reasons) ==> Answered(w, i) && StaleChangekey(w, i)
  {
    if reasons != [] {
      var init, last := reasons[..|reasons| - 1], reasons[|reasons| - 1];
      assert Ids(init) == Ids(reasons)[..|reasons| - 1] && Ids(reasons)[|reasons| - 1] == last.0;
      assert StaleFound(w, init);
      StaleIdsFound(w, init);
      assert Elems(Ids(reasons)) == Elems(Ids(init)) + {last.0};
      assert last.0 !in Elems(Ids(init));
      assert Elems(StaleIds(init) + [last.0]) == Elems(StaleIds(init)) + {last.0};
    }
  }

  lemma MovesOnTransitive(a: S.Db, b: S.Db, c: S.Db)
    requires MovesOn(a, b) && MovesOn(b, c)
    ensures MovesOn(a, c)
  {
  }

  lemma AllUnrecorded(w: World, done: seq<ItemId>)
    ensures Accounted(w, Elems(done), done)
  {
  }

  lemma NothingYet(w: World)
    ensures Verdicts([], [], []) && StaleFound(w, []) && Distinct([]) && Ids([]) == [] && Elems([]) == {}
    ensures StaleGone(w, []) && forall u :: Accounted(w, {}, u)
    ensures forall all :: PartVerdicts(all, [], [], {})
  {
  }

  /** What was found stale is still there to be sent back. */
  ghost predicate StaleFound(w: World, reasons: seq<(ItemId, Why)>) {
    forall k :: 0 <= k < |reasons| && reasons[k].1 == StaleReason ==>
      Answered(w, reasons[k].0) && StaleChangekey(w, reasons[k].0)
  }

  /** What was refused for a moved changekey is back with the verifier, or gone. */
  ghost predicate StaleGone(w: World, reasons: seq<(ItemId, Why)>) {
    forall k :: 0 <= k < |reasons| && reasons[k].1 == StaleReason ==> !S.InState(w.db, reasons[k].0, Verified)
  }

  lemma {:induction false} StaleIdsAre(reasons: seq<(ItemId, Why)>, k: nat)
    requires k < |reasons| && reasons[k].1 == StaleReason
    ensures reasons[k].0 in StaleIds(reasons)
  {
    if k < |reasons| - 1 {
      StaleIdsAre(reasons[..|reasons| - 1], k);
    }
  }

  lemma StaleIdsGone(w: World, reasons: seq<(ItemId, Why)>)
    requires forall i :: i in StaleIds(reasons) ==> !S.InState(w.db, i, Verified)
    ensures StaleGone(w, reasons)
  {
    forall k | 0 <= k < |reasons| && reasons[k].1 == StaleReason ensures reasons[k].0 in StaleIds(reasons) {
      StaleIdsAre(reasons, k);
    }
  }

  lemma StaleStaysGone(w: World, w': World, taken: set<ItemId>, reasons: seq<(ItemId, Why)>)
    requires StaleGone(w, reasons) && exists touched :: Moved(w, w', taken, touched)
    ensures StaleGone(w', reasons)
  {
  }

  lemma BadIsNotStale(w: World, bad: seq<ItemId>, reasons: seq<(ItemId, Why)>)
    requires StaleGone(w, reasons)
    ensures StaleGone(w, BadOnes(bad) + reasons) && StaleGone(w, BadOnes(bad))
  {
  }

  lemma StaleGoneJoined(was: World, w: World, reasons: seq<(ItemId, Why)>, why: seq<(ItemId, Why)>,
                        taken: set<ItemId>, touched: set<ItemId>)
    requires StaleGone(was, reasons) && Moved(was, w, taken, touched) && StaleGone(w, why)
    ensures StaleGone(w, reasons + why)
  {
    StaleStaysGone(was, w, taken, reasons);
  }

  lemma StaleStaysFound(w: World, w': World, reasons: seq<(ItemId, Why)>, gone: ItemId)
    requires StaleFound(w, reasons) && gone !in Elems(Ids(reasons))
    requires w.pass.Deleting? && w'.pass.Deleting? && w'.pass.seen == w.pass.seen
    requires w'.pass.byId == w.pass.byId - {gone} && w'.pass.checked == w.pass.checked - {gone}
    ensures StaleFound(w', reasons)
  {
    forall k | 0 <= k < |reasons| ensures reasons[k].0 != gone {
      assert Ids(reasons)[k] == reasons[k].0;
    }
  }

  lemma StaleIsAdded(w: World, w': World, reasons: seq<(ItemId, Why)>, id: ItemId, why: Why)
    requires StaleFound(w, reasons) && w'.pass == w.pass
    requires why == StaleReason ==> Answered(w', id) && StaleChangekey(w', id)
    ensures StaleFound(w', reasons + [(id, why)])
  {
  }

  /** Each id of the batch, by what was known when its turn came: the answers of
      the fetch, the mailbox at that moment, and whether the server refuses. */
  ghost predicate TakenInTurn(t: Weather, batch: seq<ItemId>, turns: seq<World>, fetched: World, done: seq<ItemId>,
                              reasons: seq<(ItemId, Why)>)
  {
    && |turns| == |batch|
    && forall k :: 0 <= k < |batch| ==> OneTurn(t, batch[k], turns[k], fetched, done, reasons)
  }

  ghost predicate OneTurn(t: Weather, id: ItemId, turn: World, fetched: World, done: seq<ItemId>, reasons: seq<(ItemId, Why)>) {
    && turn.pass.Deleting?
    && (id in turn.pass.seen <==> id !in t.silent && id in fetched.exchange)
    && (id in turn.pass.seen ==> turn.pass.seen[id] == fetched.exchange[id])
    && (id in done <==> Takable(t, turn, id))
    && ((id, StaleReason) in reasons <==>
          id in turn.pass.byId && id in turn.pass.seen &&
          (turn.pass.seen[id] != turn.pass.byId[id].capturedCk || turn.pass.seen[id] in {None, Some("")}))
  }

  lemma NoTurnYet(t: Weather, fetched: World)
    ensures TakenInTurn(t, [], [], fetched, [], [])
  {
  }

  lemma OneTurnMore(t: Weather, batch: seq<ItemId>, k: nat, turns: seq<World>, turn: World, fetched: World, done: seq<ItemId>,
                    reasons: seq<(ItemId, Why)>, why: Option<Why>)
    requires k < |batch| && Distinct(batch) && TakenInTurn(t, batch[..k], turns, fetched, done, reasons)
    requires batch[k] !in Elems(done) && batch[k] !in Elems(Ids(reasons))
    requires turn.pass.Deleting? && batch[k] in turn.pass.byId && batch[k] in batch
    requires turn.pass.seen == map i | i in batch && i !in t.silent && i in fetched.exchange :: fetched.exchange[i]
    requires why.None? <==> Takable(t, turn, batch[k])
    requires why == Some(StaleReason) <==>
               batch[k] in turn.pass.seen &&
               (turn.pass.seen[batch[k]] != turn.pass.byId[batch[k]].capturedCk || turn.pass.seen[batch[k]] in {None, Some("")})
    ensures TakenInTurn(t, batch[..k + 1], turns + [turn], fetched,
                        if why.None? then done + [batch[k]] else done,
                        if why.None? then reasons else reasons + [(batch[k], why.value)])
  {
    hide Takable;
    var id := batch[k];
    var done' := if why.None? then done + [id] else done;
    var reasons' := if why.None? then reasons else reasons + [(id, why.value)];
    NotYetNamed(id, reasons);
    forall j | 0 <= j < k ensures OneTurn(t, batch[j], turns[j], fetched, done', reasons') {
      assert batch[..k][j] == batch[j] && OneTurn(t, batch[..k][j], turns[j], fetched, done, reasons);
      assert batch[j] != id;
    }
    assert OneTurn(t, id, turn, fetched, done', reasons');
  }

  lemma NotYetNamed(id: ItemId, reasons: seq<(ItemId, Why)>)
    requires id !in Elems(Ids(reasons))
    ensures forall y :: (id, y) !in reasons
  {
    forall k | 0 <= k < |reasons| ensures reasons[k].0 != id { assert Ids(reasons)[k] == reasons[k].0; }
  }

  /** A batch in progress: what it has taken out of the mailbox has left the
      pass's books and waits to be recorded. */
  ghost predicate Taking(a: World, b: World, taken: set<ItemId>) {
    && a.pass.Deleting? && b.pass.Deleting?
    && taken !! a.purged.Keys && b.purged.Keys == a.purged.Keys + taken
    && b.pass.byId == a.pass.byId - taken && b.pass.checked == a.pass.checked - taken && b.pass.pending == taken
    && MovesOn(a.db, b.db)
  }

  lemma NothingTaken(a: World, b: World)
    requires a.pass.Deleting? && b.pass.Deleting? && a.pass.pending == {} && MovesOn(a.db, b.db)
    requires b.pass == a.pass.(seen := b.pass.seen) && b.purged == a.purged
    ensures Taking(a, b, {})
  {
  }

  lemma TakingOn(a: World, b: World, c: World, taken: set<ItemId>, id: ItemId, one: bool)
    requires Taking(a, b, taken) && c.pass.Deleting? && MovesOn(b.db, c.db)
    requires !one ==> c.pass == b.pass && c.purged == b.purged
    requires one ==>
               && id !in b.purged && c.purged.Keys == b.purged.Keys + {id}
               && c.pass.byId == b.pass.byId - {id} && c.pass.checked == b.pass.checked - {id}
               && c.pass.pending == b.pass.pending + {id}
    ensures Taking(a, c, if one then taken + {id} else taken)
  {
    MovesOnTransitive(a.db, b.db, c.db);
    hide MovesOn;
  }

  lemma StillThere(a: World, b: World, taken: set<ItemId>, batch: seq<ItemId>, id: ItemId)
    requires Taking(a, b, taken) && id in Elems(batch) && id !in taken
    requires Elems(batch) <= a.pass.byId.Keys && Elems(batch) <= a.pass.checked.Keys
    ensures id in b.pass.byId && id in b.pass.checked && b.pass.byId == a.pass.byId - taken
  {
  }

  lemma NextVerdict(batch: seq<ItemId>, k: nat, done: seq<ItemId>, reasons: seq<(ItemId, Why)>)
    requires Distinct(batch) && k < |batch| && Verdicts(batch[..k], done, reasons)
    ensures batch[k] !in Elems(done) && batch[k] !in Elems(Ids(reasons)) && batch[k] in Elems(batch)
    ensures Elems(done + [batch[k]]) == Elems(done) + {batch[k]}
    ensures Verdicts(batch[..k + 1], done + [batch[k]], reasons)
    ensures forall y :: Verdicts(batch[..k + 1], done, reasons + [(batch[k], y)])
  {
    assert batch[k] !in Elems(batch[..k]);
    assert Elems(batch[..k + 1]) == Elems(batch[..k]) + {batch[k]};
    forall y ensures Verdicts(batch[..k + 1], done, reasons + [(batch[k], y)]) {
      assert Ids(reasons + [(batch[k], y)]) == Ids(reasons) + [batch[k]];
      assert Elems(Ids(reasons) + [batch[k]]) == Elems(Ids(reasons)) + {batch[k]};
    }
  }

  /** A fetch for one candidate that answers twice: the item is deleted, the
      strict zip raises, and the run ends with nothing counted and nothing
      recorded.  The row still reads `verified`. */
  lemma ShortFetchLosesADelete()
    ensures exists before: World, after: World, r: Result ::
              && ArchiveSafety.Reachable(before) && ArchiveSafety.Reachable(after)
              && before.pass.Deleting? && before.pass.byId.Keys == {ID} && ID !in before.purged && after.pass.Idle?
              && r.eligible == 1 && Booked(before.purged, after, r, [], {ID}, true)
              && S.InState(after.db, ID, Verified)
  {
    SampleIsReady();
    SampleIsLost();
    hide ArchiveSafety.Reachable;
    var r := Result(1, 0, 0, 1, 0, [], [], 0, false, false, false, true);
    LostIsBooked(SampleReady(), SampleLost(), r);
  }

  lemma LostIsBooked(a: World, b: World, r: Result)
    requires a == SampleReady() && b == SampleLost() && r == Result(1, 0, 0, 1, 0, [], [], 0, false, false, false, true)
    ensures Booked(a.purged, b, r, [], {ID}, true) && S.InState(b.db, ID, Verified)
  {
    assert Ids(r.reasons) == [];
  }
}
