/**
 The running installation: the store object, the mailbox, the disk and the clock,
 plus a record of what the lane holding the lock has done so far.  Every method is
 one hop of a lane, written as the code performs it and proved to be one step of
 the protocol; `Outside` is everything that may happen between two hops.
 */
module Sites {
  import opened Mail
  import opened Copies
  import opened ArchivePolicy
  import opened ArchiveProtocol
  import opened Queue
  import opened CacheStores
  import S = Store

  /** Steps of everyone who does not take the runner lock. */
  predicate Lockless(s: Step) {
    s.SyncUpsert? || s.SyncReadFlag? || s.ServerDeletes? || s.FolderVanishes? || s.MailArrives? || s.OwnerEdits? ||
    s.OwnerDeletes? || s.MimeDamaged? || s.BlobDamaged? || s.ToolCachesMime? || s.Tick?
  }

  /** What a lane may rely on across an await. */
  ghost predicate Interfered(a: World, b: World) {
    && b.pass == a.pass && b.purged == a.purged && b.proof == a.proof && b.log == a.log
    && a.clock <= b.clock
    && S.LockFree(a.db, b.db)
  }

  /** What the store does between two points of a delete pass: a row called
      deleted keeps being called so, and none becomes verified. */
  ghost predicate MovesOn(a: S.Db, b: S.Db) {
    && (forall i :: S.InState(a, i, Deleted) ==> S.InState(b, i, Deleted))
    && (forall i :: S.InState(b, i, Verified) ==> S.InState(a, i, Verified))
  }

  lemma LocklessInterferes(w: World, s: Step)
    requires Lockless(s) && Enabled(w, s)
    ensures Interfered(w, Apply(w, s))
  {
    hide ApplyCapture, ApplyVerify, ApplyDelete, ApplyCollect, Mailbox, CaptureEnabled, VerifyEnabled, DeleteEnabled,
         CollectEnabled, OwnerEnabled, Entrusted, Lost, S.LockFree;
    if ByWriters(s) { WritersAreLockFree(w.db, s); } else { NoWriteIsLockFree(w.db); }
  }

  lemma NoWriteIsLockFree(db: S.Db)
    ensures S.LockFree(db, db)
  {
  }

  lemma WritersAreLockFree(db: S.Db, s: Step)
    requires ByWriters(s)
    ensures S.LockFree(db, Written(db, s))
  {
    hide S.LockFree;
    if s.SyncUpsert? { S.UpsertIsLockFree(db, s.id, s.mirror); }
    if s.SyncReadFlag? { S.ReadFlagIsLockFree(db, s.id, s.isRead); }
    if s.ServerDeletes? { S.ServerDeletesAreLockFree(db, s.ids); }
    if s.FolderVanishes? { S.FolderDropIsLockFree(db, s.folder); }
  }

  lemma LockFreeTransitive(a: S.Db, b: S.Db, c: S.Db)
    requires S.LockFree(a, b) && S.LockFree(b, c)
    ensures S.LockFree(a, c)
  {
  }

  /** What the last-mile check does, case by case. */
  lemma CheckedIs(w: World, id: ItemId)
    requires CanCheck(w, id)
    ensures var without := w.(pass := w.pass.(byId := w.pass.byId - {id}));
            match CopyProblem(w.disk, w.pass.byId[id].sha, S.AttachmentsFor(w.db, id))
            case Fine(hashed) =>
              forall recorded :: CheckCopy(w, id, recorded) == w.(pass := w.pass.(checked := w.pass.checked[id := hashed]))
            case _ => CheckCopy(w, id, false) == without && CheckCopy(w, id, true) == Demote(without, id)
  {
    hide CopyProblem, Demote;
  }

  lemma DemotionMovesOn(db: S.Db, id: ItemId)
    ensures MovesOn(db, S.DemoteToCaptured(db, id)) && MovesOn(db, db)
  {
  }

  lemma NothingInterferes(w: World)
    ensures Interfered(w, w)
  {
  }

  lemma InterferedMore(a: World, b: World, c: World)
    requires Interfered(a, b) && Interfered(b, c)
    ensures Interfered(a, c)
  {
    hide S.LockFree;
    LockFreeTransitive(a.db, b.db, c.db);
  }

  /** What others leave alone need not be written back. */
  lemma Landed(was: World, w: World, now: World)
    requires Interfered(was, w)
    requires now == World(w.exchange, w.db, w.disk, w.clock, was.pass, was.purged, was.proof, was.log)
    ensures now == w
  {
    hide S.LockFree;
  }

  lemma InterferenceMovesOn(a: World, b: World)
    requires Interfered(a, b)
    ensures MovesOn(a.db, b.db)
  {
  }

  lemma PurgedIsGone(w: World)
    requires Inv(w)
    ensures forall i :: i in w.purged ==> i !in w.exchange
  {
  }

  /** The rows both halves of rail 3 let through, with their dates. */
  function Waiting(rows: S.Rows, p: Policy, now: int): map<ItemId, int> {
    map i | i in rows && S.Deletable(rows[i], DeleteCutoff(p, now), GraceInstant(p, now)) :: rows[i].mirror.dateTs.value
  }

  /** Which rows the query returns, from the settings and the clock alone: those
      that are verified, whose verification lies the grace period back, and
      whose mail is `afterDays` and the grace period old. */
  lemma WaitingExactly(rows: S.Rows, s: Settings, before: Option<int>, now: int, id: ItemId)
    requires id in rows && rows[id].verifiedAt.Some? ==> 0 < rows[id].verifiedAt.value
    ensures id in Waiting(rows, FromSettings(s, before), now) <==>
              && id in rows && rows[id].state == Verified
              && rows[id].mirror.dateTs.Some? && rows[id].verifiedAt.Some?
              && Aged(s, before, now, rows[id].mirror.dateTs.value)
              && (rows[id].verifiedAt.value + SECOND - 1) / SECOND * SECOND + Max(1, s.graceDays) * DAY <= now
    ensures id in Waiting(rows, FromSettings(s, before), now) ==>
              Waiting(rows, FromSettings(s, before), now)[id] == rows[id].mirror.dateTs.value
  {
    hide DeleteCutoff, GraceInstant;
    if id in rows && rows[id].mirror.dateTs.Some? && rows[id].verifiedAt.Some? {
      AgedExactly(s, before, now, rows[id].mirror.dateTs.value);
      GraceIsNoLongerExactly(s, before, now, rows[id].verifiedAt.value);
    }
  }

  class Site {
    const store: CacheStore
    var exchange: map<ItemId, Option<string>>
    var disk: Disk
    var clock: int
    // What the running lane has done, and the history of the installation.
    var pass: Pass
    var purged: map<ItemId, Sha>
    var proof: map<ItemId, nat>
    var log: seq<Event>

    constructor (store: CacheStore, now: int)
      requires 0 < now && store.Contents() == S.Db(map[], map[])
      ensures this.store == store && Init(State()) && Inv(State())
    {
      this.store := store;
      exchange, disk, clock := map[], Disk(map[], map[]), now;
      pass, purged, proof, log := Idle, map[], map[], [];
      new;
      InitKeeps(State());
    }

    function State(): World
      reads this, store
    {
      World(exchange, store.Contents(), disk, clock, pass, purged, proof, log)
    }

    /** Any number of lock-free steps, in any order; none in a quiet run. */
    method Outside(quiet: bool)
      requires Inv(State())
      modifies this, store
      ensures quiet ==> State() == old(State())
      ensures Inv(State()) && Interfered(old(State()), State())
      ensures MovesOn(old(store.Contents()), store.Contents())
    {
      hide Inv, Interfered;
      NothingInterferes(State());
      var n: nat := *;
      if quiet { n := 0; }
      while n > 0
        invariant Inv(State()) && Interfered(old(State()), State())
        invariant quiet ==> n == 0 && State() == old(State())
      {
        var s: Step := *;
        if Lockless(s) && Enabled(State(), s) {
          ghost var was := State();
          StepKeeps(State(), s);
          LocklessInterferes(State(), s);
          var w := Apply(State(), s);
          InterferedMore(old(State()), was, w);
          store.Put(w.db);
          exchange, disk, clock := w.exchange, w.disk, w.clock;
          Landed(was, w, State());
        }
        n := n - 1;
      }
      InterferenceMovesOn(old(State()), State());
    }

    method PassOver()
      requires Inv(State())
      modifies `pass
      ensures State() == Apply(old(State()), PassEnds) && Inv(State())
    {
      StepKeeps(State(), PassEnds);
      pass := Idle;
    }

    // ------------------------------------------------------ the delete lane

    /** The switch and the backup rail, read before anything is selected. */
    method Clear(settings: Settings, before: Option<int>, stamped: Option<int>) returns (backup: Backup)
      requires Inv(State()) && pass.Idle? && settings.deleteEnabled
      modifies `pass
      ensures Inv(State()) && backup == BackupState(FromSettings(settings, before), stamped, clock)
      ensures Holds(backup) ==> pass.Idle? && State() == old(State())
      ensures !Holds(backup) ==>
                && old(Enabled(State(), DeleteClear(settings, before, stamped)))
                && State() == Apply(old(State()), DeleteClear(settings, before, stamped))
                && pass == Cleared(FromSettings(settings, before), backup, clock)
    {
      hide Inv, BackupState, Holds;
      backup := BackupState(FromSettings(settings, before), stamped, clock);
      if !Holds(backup) {
        DeleteClearKeeps(State(), DeleteClear(settings, before, stamped));
        pass := Cleared(FromSettings(settings, before), backup, clock);
      }
    }

    /** The one query that selects candidates: both halves of rail 3, oldest
        first.  Time has passed, and others have written, since `Clear`. */
    method SelectDeletable() returns (ids: seq<ItemId>)
      requires Inv(State()) && pass.Cleared?
      modifies `pass
      ensures Inv(State())
      ensures old(Enabled(State(), DeleteSelect(set i | i in ids)))
      ensures State() == Selected(old(State()), set i | i in ids)
      ensures IsOldest(Waiting(store.rows, old(pass.policy), clock), old(pass.policy.maxDelete), ids)
      ensures pass.Deleting? && pass.byId.Keys == (set i | i in ids) && pass.checked == map[] && pass.pending == {}
    {
      hide Inv, S.Deletable, GraceInstant, DeleteCutoff;
      ids := Oldest(Waiting(store.rows, pass.policy, clock), pass.policy.maxDelete);
      var picked := set i | i in ids;
      assert forall i :: i in ids ==> i in Waiting(store.rows, pass.policy, clock);
      DeleteSelectKeeps(State(), picked);
      ghost var w' := Selected(State(), picked);
      pass := Deleting(Gate(pass.policy, pass.backup, pass.clearedAt, clock), map i | i in picked :: store.rows[i],
                       map[], map[], {});
      assert State() == w';
    }

    /** One candidate of the last-mile disk check.  The demotion of a bad copy
        may itself fail; that is swallowed, and the row is not deleted either way. */
    method CheckOne(id: ItemId, recorded: bool) returns (ok: bool)
      requires Inv(State()) && CanCheck(State(), id)
      modifies this, store
      ensures Inv(State())
      ensures ok <==> old(CopyProblem(disk, pass.byId[id].sha, S.AttachmentsFor(store.Contents(), id)).Fine?)
      ensures State() == CheckCopy(old(State()), id, recorded)
      ensures pass.Deleting? && pass.pending == old(pass.pending) && purged == old(purged)
      ensures ok ==> pass.byId == old(pass.byId) && pass.checked.Keys == old(pass.checked.Keys) + {id}
      ensures !ok ==> pass.byId == old(pass.byId) - {id} && pass.checked == old(pass.checked)
      ensures MovesOn(old(store.Contents()), store.Contents())
    {
      hide Inv, CheckCopy, CopyProblem, S.DemoteToCaptured, S.AttachmentsFor, MovesOn;
      DeleteCheckKeeps(State(), id, recorded);
      CheckedIs(State(), id);
      DemotionMovesOn(store.Contents(), id);
      ghost var w' := CheckCopy(State(), id, recorded);
      match CopyProblem(disk, pass.byId[id].sha, S.AttachmentsFor(store.Contents(), id))
      case Fine(hashed) =>
        ok := true;
        pass := pass.(checked := pass.checked[id := hashed]);
        assert State() == w';
      case _ =>
        ok := false;
        pass := pass.(byId := pass.byId - {id});
        if recorded {
          if S.InState(store.Contents(), id, Verified) { log := log + [DidDemote(id)]; }
          var _ := store.DemoteToCaptured(id);
        }
        assert State() == w';
    }

    /** account.fetch for a batch: an item that is there answers, with the
        changekey it has, unless it comes back as an error. */
    method Fetch(ids: seq<ItemId>, silent: set<ItemId>) returns (answers: map<ItemId, Option<string>>)
      requires Inv(State()) && pass.Deleting?
      modifies `pass
      ensures Inv(State()) && State() == Refetched(old(State()), answers)
      ensures pass == old(pass).(seen := answers) && purged == old(purged)
      ensures answers == map i | i in ids && i !in silent && i in exchange :: exchange[i]
    {
      answers := map i | i in ids && i !in silent && i in exchange :: exchange[i];
      FetchKeeps(State(), answers);
      pass := pass.(seen := answers);
    }

    /** Item.delete() is a hard delete.  It raises exactly when the server refuses
        it or the item is no longer there.  Its preconditions are the rails. */
    method HardDelete(id: ItemId, refused: bool) returns (raised: bool)
      requires Inv(State())
      requires Answered(State(), id) && !StaleChangekey(State(), id)
      modifies this
      ensures Inv(State())
      ensures raised <==> refused || id !in old(exchange)
      ensures raised ==> State() == old(State())
      ensures !raised ==> id in old(exchange) && State() == DeleteOne(old(State()), id)
      ensures !raised ==> id !in old(purged) && purged.Keys == old(purged.Keys) + {id}
      ensures !raised ==> pass.Deleting? && pass.byId == old(pass.byId) - {id} && pass.checked == old(pass.checked) - {id}
      ensures !raised ==> pass.seen == old(pass.seen) && pass.pending == old(pass.pending) + {id}
    {
      hide Inv;
      PurgedIsGone(State());
      if refused || id !in exchange { return true; }
      DeleteItemKeeps(State(), id);
      ghost var w' := DeleteOne(State(), id);
      raised := false;
      log := log + [DidDelete(id, pass.byId[id], pass.seen[id], pass.checked[id], pass.gate, clock)];
      exchange := exchange - {id};
      purged := purged[id := pass.checked[id]];
      pass := pass.(byId := pass.byId - {id}, checked := pass.checked - {id}, pending := pass.pending + {id});
      assert State() == w';
    }

    /** A stale changekey sends the row back to the verifier. */
    method RequeueOne(id: ItemId) returns (count: nat)
      requires Inv(State()) && Answered(State(), id) && StaleChangekey(State(), id)
      modifies this, store
      ensures Inv(State()) && State() == Requeue(old(State()), id)
      ensures pass == old(pass).(byId := old(pass.byId) - {id}, checked := old(pass.checked) - {id})
      ensures purged == old(purged)
      ensures count == if old(S.InState(store.Contents(), id, Verified)) then 1 else 0
      ensures log == old(log) + if count == 1 then [DidDemote(id)] else []
      ensures MovesOn(old(store.Contents()), store.Contents()) && !S.InState(store.Contents(), id, Verified)
    {
      hide Inv;
      StaleKeeps(State(), id);
      ghost var w' := Requeue(State(), id);
      pass := pass.(byId := pass.byId - {id}, checked := pass.checked - {id});
      if S.InState(store.Contents(), id, Verified) { log := log + [DidDemote(id)]; }
      count := store.DemoteToCaptured(id);
      assert State() == w';
    }

    method MarkPending() returns (count: nat)
      requires Inv(State()) && pass.Deleting?
      modifies `pass, store
      ensures Inv(State()) && State() == Persisted(old(State()))
      ensures pass == old(pass).(pending := {}) && purged == old(purged)
      ensures count == |old(pass.pending)| ==> forall i :: i in old(pass.pending) ==> S.InState(store.Contents(), i, Deleted)
      ensures MovesOn(old(store.Contents()), store.Contents())
    {
      PersistKeeps(State());
      count := store.MarkDeleted(pass.pending);
      pass := pass.(pending := {});
    }
  }
}
