/** The verify lane's bookkeeping: what one pass's verdicts do to the store, and
    how they are counted. */
module VerifyLane {
  import opened Mail
  import opened Copies
  import opened CacheStores
  import S = Store

  datatype Result = Result(verified: nat, reset: nat, failed: nat, reasons: seq<ItemId>)

  type Verdicts = seq<(ItemId, Verdict)>

  /** What one verdict does, and only to a row that is still `captured`. */
  function Applied(db: S.Db, v: (ItemId, Verdict), now: int): S.Db {
    match v.1
    case Promote(_) => S.MarkVerified(db, v.0, now)
    case Mismatch(_) => S.ResetToLive(db, v.0)
    case Failed => db
  }

  function AllApplied(db: S.Db, vs: Verdicts, now: int): S.Db {
    if vs == [] then db else Applied(AllApplied(db, vs[..|vs| - 1], now), vs[|vs| - 1], now)
  }

  ghost predicate DistinctIds(vs: Verdicts) {
    forall j, k :: 0 <= j < k < |vs| ==> vs[j].0 != vs[k].0
  }

  /** The rows whose verdict of this kind found them still `captured`. */
  function Took(db: S.Db, vs: Verdicts, promoted: bool): set<ItemId> {
    set k | 0 <= k < |vs| && Takes(db, vs[k], promoted) :: vs[k].0
  }

  predicate Takes(db: S.Db, v: (ItemId, Verdict), promoted: bool) {
    S.InState(db, v.0, Captured) && (if promoted then v.1.Promote? else v.1.Mismatch?)
  }

  lemma {:induction false} UntouchedByOthers(db: S.Db, vs: Verdicts, now: int, id: ItemId)
    requires forall k :: 0 <= k < |vs| ==> vs[k].0 != id
    ensures (id in AllApplied(db, vs, now).rows <==> id in db.rows) &&
            (id in db.rows ==> AllApplied(db, vs, now).rows[id] == db.rows[id])
  {
    if vs != [] { UntouchedByOthers(db, vs[..|vs| - 1], now, id); }
  }

  /** What becomes of one row. */
  function Decided(r: Row, v: Verdict, now: int): Row {
    if r.state != Captured || v.Failed? then r
    else if v.Promote? then r.(state := Verified, verifiedAt := Some(now))
    else r.(state := Live, sha := None, capturedCk := None, verifiedAt := None)
  }

  /** A pass promotes and resets exactly what it judged and what was still
      `captured`; a poisoned row, or one that moved meanwhile, keeps its state. */
  lemma {:induction false} VerdictDecides(db: S.Db, vs: Verdicts, now: int, k: nat)
    requires DistinctIds(vs) && k < |vs|
    ensures var id, after := vs[k].0, AllApplied(db, vs, now);
            && (id in after.rows <==> id in db.rows)
            && (id in db.rows ==> after.rows[id] == Decided(db.rows[id], vs[k].1, now))
  {
    var rest := vs[..|vs| - 1];
    if k == |rest| {
      UntouchedByOthers(db, rest, now, vs[k].0);
    } else {
      assert rest[k] == vs[k] && vs[k].0 != vs[|rest|].0;
      VerdictDecides(db, rest, now, k);
    }
  }

  /** Mail edited after its capture is captured anew: its row, if it is still
      `captured`, ends `live` with nothing left of the old capture. */
  lemma EditedIsForgotten(db: S.Db, vs: Verdicts, now: int, k: nat, d: Disk, live: Option<string>)
    requires DistinctIds(vs) && k < |vs| && S.InState(db, vs[k].0, Captured)
    requires vs[k].1 == Evaluate(d, db.rows[vs[k].0], live, S.AttachmentsFor(db, vs[k].0))
    requires live != db.rows[vs[k].0].capturedCk
    ensures var id, after := vs[k].0, AllApplied(db, vs, now);
            && id in after.rows && after.rows[id].state == Live && after.rows[id].mirror == db.rows[id].mirror
            && after.rows[id].sha == None && after.rows[id].capturedCk == None && after.rows[id].verifiedAt == None
  {
    MismatchExactly(d, db.rows[vs[k].0], live, S.AttachmentsFor(db, vs[k].0));
    VerdictDecides(db, vs, now, k);
    hide Evaluate, AllApplied;
  }

  /** So is mail whose copy is no longer good; a row whose digest is unreadable stays. */
  lemma BadCopyIsForgotten(db: S.Db, vs: Verdicts, now: int, k: nat, d: Disk, live: Option<string>)
    requires DistinctIds(vs) && k < |vs| && S.InState(db, vs[k].0, Captured) && db.rows[vs[k].0].sha.Some?
    requires vs[k].1 == Evaluate(d, db.rows[vs[k].0], live, S.AttachmentsFor(db, vs[k].0))
    requires !GoodMime(d, db.rows[vs[k].0].sha.value) && live == db.rows[vs[k].0].capturedCk && Usable(live)
    ensures var id, after := vs[k].0, AllApplied(db, vs, now);
            id in after.rows && after.rows[id].state == if db.rows[id].sha.value.Sha256? then Live else Captured
  {
    MismatchExactly(d, db.rows[vs[k].0], live, S.AttachmentsFor(db, vs[k].0));
    FailedExactly(d, db.rows[vs[k].0], live, S.AttachmentsFor(db, vs[k].0));
    VerdictDecides(db, vs, now, k);
    hide Evaluate, AllApplied, GoodMime;
  }

  class Verifier {
    const store: CacheStore

    constructor (store: CacheStore)
      ensures this.store == store
    {
      this.store := store;
    }

    /** The three counters partition the verdicts; only real transitions count
        as `verified` or `reset`, and only resets have a reason. */
    method Apply(vs: Verdicts, now: int) returns (r: Result)
      requires DistinctIds(vs)
      modifies store
      ensures store.Contents() == AllApplied(old(store.Contents()), vs, now)
      ensures r.verified + r.reset + r.failed == |vs| && |r.reasons| == r.reset
      ensures r.verified == |Took(old(store.Contents()), vs, true)| && r.reset == |Took(old(store.Contents()), vs, false)|
      ensures forall i :: i in r.reasons <==> i in Took(old(store.Contents()), vs, false)
    {
      hide AllApplied, Took;
      r := Result(0, 0, 0, []);
      ghost var db := store.Contents();
      NothingTaken(db, now);
      assert vs[..0] == [];
      for k := 0 to |vs|
        invariant store.Contents() == AllApplied(db, vs[..k], now)
        invariant r.verified + r.reset + r.failed == k && |r.reasons| == r.reset
        invariant r.verified == |Took(db, vs[..k], true)| && r.reset == |Took(db, vs[..k], false)|
        invariant forall i :: i in r.reasons <==> i in Took(db, vs[..k], false)
      {
        var (id, verdict) := vs[k];
        NextVerdict(db, vs, k, now);
        match verdict {
          case Failed =>
            r := r.(failed := r.failed + 1);
          case Promote(_) =>
            var changed := store.MarkVerified(id, now);
            r := if changed == 0 then r.(failed := r.failed + 1) else r.(verified := r.verified + 1);
          case Mismatch(_) =>
            var changed := store.ResetToLive(id);
            r := if changed == 0 then r.(failed := r.failed + 1)
                 else r.(reset := r.reset + 1, reasons := r.reasons + [id]);
        }
      }
      assert vs[..|vs|] == vs;
    }
  }

  lemma NothingTaken(db: S.Db, now: int)
    ensures Took(db, [], true) == {} && Took(db, [], false) == {} && AllApplied(db, [], now) == db
  {
  }

  lemma NextVerdict(db: S.Db, vs: Verdicts, k: nat, now: int)
    requires DistinctIds(vs) && k < |vs|
    ensures AllApplied(db, vs[..k + 1], now) == Applied(AllApplied(db, vs[..k], now), vs[k], now)
    ensures S.InState(AllApplied(db, vs[..k], now), vs[k].0, Captured) <==> S.InState(db, vs[k].0, Captured)
    ensures forall p ::
              && vs[k].0 !in Took(db, vs[..k], p)
              && Took(db, vs[..k + 1], p) == Took(db, vs[..k], p) + if Takes(db, vs[k], p) then {vs[k].0} else {}
  {
    var more := vs[..k + 1];
    assert more[..k] == vs[..k];
    UntouchedByOthers(db, vs[..k], now, vs[k].0);
    forall p ensures Took(db, more, p) == Took(db, vs[..k], p) + if Takes(db, vs[k], p) then {vs[k].0} else {}
    {
      var expected := Took(db, vs[..k], p) + if Takes(db, vs[k], p) then {vs[k].0} else {};
      forall i ensures i in Took(db, more, p) <==> i in expected
      {
        if j :| 0 <= j < k && vs[j].0 == i { assert more[j] == vs[j] && vs[..k][j] == vs[j]; }
        if vs[k].0 == i { assert more[k] == vs[k]; }
      }
    }
  }
}
