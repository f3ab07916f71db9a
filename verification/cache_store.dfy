/** ews.messages and ews.attachments as the process sees them: an object whose
    methods each run one statement and report the rows it changed. */
module CacheStores {
  import opened Mail
  import S = Store

  class CacheStore {
    var rows: S.Rows
    var atts: S.Inventory

    constructor ()
      ensures Contents() == S.Db(map[], map[])
    {
      rows, atts := map[], map[];
    }

    function Contents(): S.Db
      reads this
    {
      S.Db(rows, atts)
    }

    method Put(db: S.Db)
      modifies this
      ensures Contents() == db
    {
      rows, atts := db.rows, db.atts;
    }

    method MarkCaptured(id: ItemId, sha: Sha, ck: Option<string>) returns (count: nat)
      modifies this
      ensures Contents() == S.MarkCaptured(old(Contents()), id, sha, ck)
      ensures count == if old(S.InState(Contents(), id, Live)) then 1 else 0
    {
      count := if S.InState(Contents(), id, Live) then 1 else 0;
      Put(S.MarkCaptured(Contents(), id, sha, ck));
    }

    method MarkVerified(id: ItemId, now: int) returns (count: nat)
      modifies this
      ensures Contents() == S.MarkVerified(old(Contents()), id, now)
      ensures count == if old(S.InState(Contents(), id, Captured)) then 1 else 0
    {
      count := if S.InState(Contents(), id, Captured) then 1 else 0;
      Put(S.MarkVerified(Contents(), id, now));
    }

    method DemoteToCaptured(id: ItemId) returns (count: nat)
      modifies this
      ensures Contents() == S.DemoteToCaptured(old(Contents()), id)
      ensures count == if old(S.InState(Contents(), id, Verified)) then 1 else 0
    {
      count := if S.InState(Contents(), id, Verified) then 1 else 0;
      Put(S.DemoteToCaptured(Contents(), id));
    }

    method ResetToLive(id: ItemId) returns (count: nat)
      modifies this
      ensures Contents() == S.ResetToLive(old(Contents()), id)
      ensures count == if old(S.InState(Contents(), id, Captured)) then 1 else 0
    {
      count := if S.InState(Contents(), id, Captured) then 1 else 0;
      Put(S.ResetToLive(Contents(), id));
    }

    method MarkDeleted(ids: set<ItemId>) returns (count: nat)
      modifies this
      ensures Contents() == S.MarkDeleted(old(Contents()), ids)
      ensures count == |set i | i in ids && old(S.InState(Contents(), i, Verified))|
      ensures count == |ids| ==> forall i :: i in ids ==> i in rows && rows[i].state == Deleted
    {
      var hit := set i | i in ids && S.InState(Contents(), i, Verified);
      count := |hit|;
      Put(S.MarkDeleted(Contents(), ids));
      if count == |ids| {
        assert hit <= ids && |ids - hit| == 0;
      }
    }

    method ApplyServerDeletes(ids: set<ItemId>) returns (dropped: nat, tombstoned: nat)
      modifies this
      ensures Contents() == S.ApplyServerDeletes(old(Contents()), ids)
      ensures dropped == |set i | i in ids && old(S.InState(Contents(), i, Live))|
      ensures tombstoned == |set i | i in ids && old(S.InState(Contents(), i, Captured) || S.InState(Contents(), i, Verified))|
    {
      dropped := |set i | i in ids && S.InState(Contents(), i, Live)|;
      tombstoned := |set i | i in ids && (S.InState(Contents(), i, Captured) || S.InState(Contents(), i, Verified))|;
      Put(S.ApplyServerDeletes(Contents(), ids));
    }

    method ReplaceAttachments(id: ItemId, list: seq<Attachment>, fault: bool) returns (raised: bool)
      modifies this
      ensures raised <==> fault || (list != [] && old(id !in rows))
      ensures Contents() == if raised then old(Contents()) else S.Execute(old(Contents()), S.Lists(id, list))
    {
      if fault { return true; }                        // the database can fail any statement
      if id !in rows { return list != []; }            // foreign key: the message row is gone
      raised := false;
      Put(S.ReplaceAttachments(Contents(), id, list));
    }
  }
}
