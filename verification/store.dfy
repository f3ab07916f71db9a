/**
 The archive half of the mirror store.  Each SQL statement is an atomic guarded
 update on two tables: messages and the attachment inventory, which cascades
 when its message row is dropped.
 */
module Store {
  import opened Mail

  type Rows = map<ItemId, Row>
  type Inventory = map<ItemId, seq<Attachment>>

  datatype Db = Db(rows: Rows, atts: Inventory)

  // ------------------------------------------------------------- statements

  /** INSERT ... ON CONFLICT DO UPDATE: only the mirror columns move. */
  function Upsert(db: Db, id: ItemId, m: Mirror): Db {
    db.(rows := db.rows[id := if id in db.rows then db.rows[id].(mirror := m)
                              else Row(m, Live, None, None, None)])
  }

  function SetReadFlag(db: Db, id: ItemId, isRead: bool): Db {
    if id in db.rows
    then db.(rows := db.rows[id := db.rows[id].(mirror := db.rows[id].mirror.(isRead := isRead))])
    else db
  }

  predicate InState(db: Db, id: ItemId, s: ArchiveState) {
    id in db.rows && db.rows[id].state == s
  }

  function MarkCaptured(db: Db, id: ItemId, sha: Sha, ck: Option<string>): Db {
    if InState(db, id, Live)
    then db.(rows := db.rows[id := db.rows[id].(state := Captured, sha := Some(sha), capturedCk := ck)])
    else db
  }

  function MarkVerified(db: Db, id: ItemId, now: int): Db {
    if InState(db, id, Captured)
    then db.(rows := db.rows[id := db.rows[id].(state := Verified, verifiedAt := Some(now))])
    else db
  }

  function DemoteToCaptured(db: Db, id: ItemId): Db {
    if InState(db, id, Verified)
    then db.(rows := db.rows[id := db.rows[id].(state := Captured, verifiedAt := None)])
    else db
  }

  function ResetToLive(db: Db, id: ItemId): Db {
    if InState(db, id, Captured)
    then Db(db.rows[id := db.rows[id].(state := Live, sha := None, capturedCk := None, verifiedAt := None)],
            db.atts - {id})
    else db
  }

  function MarkDeleted(db: Db, ids: set<ItemId>): Db {
    db.(rows := map i | i in db.rows ::
                  if i in ids && db.rows[i].state == Verified then db.rows[i].(state := Deleted)
                  else db.rows[i])
  }

  function Tombstoned(r: Row): Row {
    if r.state == Captured || r.state == Verified then r.(state := Deleted) else r
  }

  /** A server-side delete: archived rows are kept as `deleted`, live rows go. */
  function ApplyServerDeletes(db: Db, ids: set<ItemId>): Db {
    Cascade(db, map i | i in db.rows && !(i in ids && db.rows[i].state == Live) ::
                  if i in ids then Tombstoned(db.rows[i]) else db.rows[i])
  }

  function DeleteLiveInFolder(db: Db, folder: string): Db {
    Cascade(db, map i | i in db.rows && !(db.rows[i].mirror.folder == folder && db.rows[i].state == Live)
                :: db.rows[i])
  }

  /** ON DELETE CASCADE from messages to attachments. */
  function Cascade(db: Db, rows: Rows): Db {
    Db(rows, map i | i in db.atts && i in rows :: db.atts[i])
  }

  function ReplaceAttachments(db: Db, id: ItemId, list: seq<Attachment>): Db
    requires id in db.rows
  {
    db.(atts := db.atts[id := list])
  }

  function AttachmentsFor(db: Db, id: ItemId): seq<Attachment> {
    if id in db.atts then db.atts[id] else []
  }

  /** Rail 3, both halves, as the one candidate query states it. */
  predicate Deletable(r: Row, beforeTs: int, verifiedBefore: int) {
    && r.state == Verified
    && r.mirror.dateTs.Some? && r.mirror.dateTs.value <= beforeTs
    && r.verifiedAt.Some? && r.verifiedAt.value <= verifiedBefore * SECOND
  }

  // --------------------------------------------------------------- gc roots

  ghost predicate MimeReferenced(db: Db, s: Sha) {
    exists i :: i in db.rows && db.rows[i].sha == Some(s)
  }

  ghost predicate BlobReferenced(db: Db, s: Sha) {
    exists i, k :: i in db.atts && 0 <= k < |db.atts[i]| && db.atts[i][k].sha == Some(s)
  }

  // ------------------------------------------------- what statements preserve

  /** `later` still holds the capture `earlier` had for this message. */
  predicate CaptureKept(earlier: Db, later: Db, id: ItemId) {
    && id in earlier.rows && id in later.rows
    && later.rows[id].sha == earlier.rows[id].sha
    && later.rows[id].capturedCk == earlier.rows[id].capturedCk
    && later.rows[id].state != Live
  }

  /** Whatever the lock-free writers do, an archived row survives with its
      capture intact, and nothing but the archive lanes ever starts a capture. */
  predicate LockFree(a: Db, b: Db) {
    && (forall i :: i in a.rows && a.rows[i].state != Live ==>
          CaptureKept(a, b, i) && b.rows[i].verifiedAt == a.rows[i].verifiedAt &&
          (b.rows[i].state == a.rows[i].state || b.rows[i].state == Deleted))
    && (forall i :: i in b.rows && b.rows[i].state != Live ==> i in a.rows && a.rows[i].state != Live)
    && (forall i :: i in b.rows && b.rows[i].state == Live ==>
          b.rows[i].sha == None || (i in a.rows && b.rows[i].sha == a.rows[i].sha))
    && (forall i :: i in b.atts ==> i in a.atts && b.atts[i] == a.atts[i])
  }

  lemma UpsertIsLockFree(db: Db, id: ItemId, m: Mirror)
    ensures LockFree(db, Upsert(db, id, m))
  {
  }

  lemma ReadFlagIsLockFree(db: Db, id: ItemId, isRead: bool)
    ensures LockFree(db, SetReadFlag(db, id, isRead))
  {
  }

  lemma ServerDeletesAreLockFree(db: Db, ids: set<ItemId>)
    ensures LockFree(db, ApplyServerDeletes(db, ids))
  {
  }

  lemma FolderDropIsLockFree(db: Db, folder: string)
    ensures LockFree(db, DeleteLiveInFolder(db, folder))
  {
  }

  // ---------------------------------------------------- the life of one row

  /** Every statement that touches the archive columns, or drops a row. */
  datatype Statement =
    | Mirrors(id: ItemId, mirror: Mirror)
    | Flags(id: ItemId, isRead: bool)
    | Captures(id: ItemId, sha: Sha, ck: Option<string>)
    | Verifies(id: ItemId, now: int)
    | Demotes(id: ItemId)
    | Resets(id: ItemId)
    | Deletes(ids: set<ItemId>)
    | ServerDeletes(ids: set<ItemId>)
    | DropsFolder(folder: string)
    | Lists(id: ItemId, list: seq<Attachment>)

  /** An inventory for a message that has no row is refused by the foreign key;
      an empty one changes nothing. */
  function Execute(db: Db, s: Statement): Db {
    match s
    case Mirrors(id, m) => Upsert(db, id, m)
    case Flags(id, b) => SetReadFlag(db, id, b)
    case Captures(id, sha, ck) => MarkCaptured(db, id, sha, ck)
    case Verifies(id, now) => MarkVerified(db, id, now)
    case Demotes(id) => DemoteToCaptured(db, id)
    case Resets(id) => ResetToLive(db, id)
    case Deletes(ids) => MarkDeleted(db, ids)
    case ServerDeletes(ids) => ApplyServerDeletes(db, ids)
    case DropsFolder(folder) => DeleteLiveInFolder(db, folder)
    case Lists(id, list) => if id in db.rows then ReplaceAttachments(db, id, list) else db
  }

  /** The only ways a row's archive state changes, each under its own statement. */
  predicate Moves(s: Statement, id: ItemId, a: ArchiveState, b: ArchiveState) {
    || (a == Live && b == Captured && s.Captures? && s.id == id)
    || (a == Captured && b == Verified && s.Verifies? && s.id == id)
    || (a == Verified && b == Captured && s.Demotes? && s.id == id)
    || (a == Captured && b == Live && s.Resets? && s.id == id)
    || (a == Verified && b == Deleted && s.Deletes? && id in s.ids)
    || (a in {Captured, Verified} && b == Deleted && s.ServerDeletes? && id in s.ids)
  }

  /** A statement with an id in it changes that row, and from the right state. */
  predicate Guarded(db: Db, s: Statement, id: ItemId)
    requires id in db.rows
  {
    var a := db.rows[id].state;
    || (s.Captures? && s.id == id && a == Live) || (s.Verifies? && s.id == id && a == Captured)
    || (s.Demotes? && s.id == id && a == Verified) || (s.Resets? && s.id == id && a == Captured)
    || (s.Deletes? && id in s.ids && a == Verified)
    || (s.ServerDeletes? && id in s.ids && a in {Captured, Verified})
  }

  /** Only live rows ever go, through a server delete or with their folder.  A
      row changes its state exactly when a statement names it in the state the
      statement starts from, and then by one of the six moves; only a capture
      and a reset touch what was captured; an archived row keeps its inventory
      unless it is listed anew or reset. */
  lemma StatementMovesRow(db: Db, s: Statement, id: ItemId)
    requires id in db.rows
    ensures var db' := Execute(db, s); var r := db.rows[id];
            && (id !in db'.rows <==>
                  (r.state == Live && ((s.ServerDeletes? && id in s.ids) || (s.DropsFolder? && r.mirror.folder == s.folder))))
            && (id in db'.rows ==>
                  var r' := db'.rows[id];
                  && (r'.state != r.state <==> Guarded(db, s, id))
                  && (r'.state != r.state ==> Moves(s, id, r.state, r'.state))
                  && ((r'.sha != r.sha || r'.capturedCk != r.capturedCk) ==> Guarded(db, s, id) && (s.Captures? || s.Resets?))
                  && (r'.mirror != r.mirror ==> (s.Mirrors? || s.Flags?) && s.id == id)
                  && (AttachmentsFor(db', id) != AttachmentsFor(db, id) ==>
                        (s.Lists? || (s.Resets? && Guarded(db, s, id))) && s.id == id))
  {
  }

  /** What each statement writes: a new row starts live and empty, a capture is
      what the lane passed, a verification its time; a demotion and a reset take
      the time back, a reset also the capture and the inventory. */
  lemma StatementWrites(db: Db, s: Statement, id: ItemId)
    ensures var db' := Execute(db, s);
            && (id !in db.rows ==>
                  if s.Mirrors? && s.id == id then id in db'.rows && db'.rows[id] == Row(s.mirror, Live, None, None, None)
                  else id !in db'.rows)
            && (id in db.rows && id !in db'.rows ==> AttachmentsFor(db', id) == [])
            && (id in db.rows && id in db'.rows ==>
                  var r, r' := db.rows[id], db'.rows[id];
                  && (s.Mirrors? && s.id == id ==> r'.mirror == s.mirror)
                  && (s.Flags? && s.id == id ==> r'.mirror == r.mirror.(isRead := s.isRead))
                  && (s.Lists? && s.id == id ==> AttachmentsFor(db', id) == s.list)
                  && (Guarded(db, s, id) ==>
                        && (s.Captures? ==> r'.sha == Some(s.sha) && r'.capturedCk == s.ck)
                        && (s.Resets? ==> r'.sha == None && r'.capturedCk == None && AttachmentsFor(db', id) == []))
                  && r'.verifiedAt == (if Guarded(db, s, id) && s.Verifies? then Some(s.now)
                                       else if Guarded(db, s, id) && (s.Demotes? || s.Resets?) then None
                                       else r.verifiedAt))
  {
  }

  function Executed(db: Db, ss: seq<Statement>): Db {
    if ss == [] then db else Execute(Executed(db, ss[..|ss| - 1]), ss[|ss| - 1])
  }

  lemma ExecutedNext(db: Db, ss: seq<Statement>, s: Statement)
    ensures Executed(db, []) == db && Executed(db, ss + [s]) == Execute(Executed(db, ss), s)
  {
    assert (ss + [s])[..|ss|] == ss;
  }

  /** What the columns of a row say of one another, and no inventory without its row. */
  ghost predicate Sound(db: Db) {
    && (forall i :: i in db.rows ==>
          var r := db.rows[i];
          && (r.state == Live <==> r.sha.None?)
          && (r.state == Live ==> r.capturedCk.None?)
          && (r.state == Verified ==> r.verifiedAt.Some?)
          && (r.state in {Live, Captured} ==> r.verifiedAt.None?))
    && db.atts.Keys <= db.rows.Keys
  }

  lemma ExecuteKeepsSound(db: Db, s: Statement)
    requires Sound(db)
    ensures Sound(Execute(db, s))
  {
  }

  /** Whatever statements run, in any order, the columns stay consistent. */
  lemma {:induction false} TableStaysSound(db: Db, ss: seq<Statement>)
    requires Sound(db)
    ensures Sound(Executed(db, ss))
  {
    hide Execute, Sound;
    if ss != [] {
      TableStaysSound(db, ss[..|ss| - 1]);
      ExecuteKeepsSound(Executed(db, ss[..|ss| - 1]), ss[|ss| - 1]);
    }
  }

  /** A deleted row is final: no statement removes it, changes its state or
      touches what was captured. */
  lemma {:induction false} DeletedIsFinal(db: Db, ss: seq<Statement>, id: ItemId)
    requires InState(db, id, Deleted)
    ensures InState(Executed(db, ss), id, Deleted) && CaptureKept(db, Executed(db, ss), id)
  {
    hide Execute, Moves;
    if ss != [] {
      DeletedIsFinal(db, ss[..|ss| - 1], id);
      StatementMovesRow(Executed(db, ss[..|ss| - 1]), ss[|ss| - 1], id);
    }
  }

  /** What a row was captured as is fixed until it is reset. */
  lemma {:induction false} CaptureIsFixed(db: Db, ss: seq<Statement>, id: ItemId)
    requires id in db.rows && db.rows[id].state != Live
    requires Resets(id) !in ss
    ensures CaptureKept(db, Executed(db, ss), id)
  {
    hide Execute, Moves;
    if ss != [] {
      assert ss == ss[..|ss| - 1] + [ss[|ss| - 1]];
      CaptureIsFixed(db, ss[..|ss| - 1], id);
      StatementMovesRow(Executed(db, ss[..|ss| - 1]), ss[|ss| - 1], id);
    }
  }

  lemma {:induction false} SubsetIsSmaller<T>(a: set<T>, b: set<T>)
    requires a <= b
    ensures |a| <= |b|
  {
    if a != {} {
      var x :| x in a;
      SubsetIsSmaller(a - {x}, b - {x});
    }
  }
}
