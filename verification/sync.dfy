/**
 Delta sync of one folder.  Changes are buffered and flushed every FLUSH_EVERY:
 the upserts, then the server deletes, then the read flags.  Against it stands
 the plain reading, which applies each change as it comes.
 */
module FolderSync {
  import opened Mail
  import S = Store

  const FLUSH_EVERY := 200

  datatype Change = Put(id: ItemId, mirror: Mirror) | Gone(id: ItemId) | Flag(id: ItemId, isRead: bool)

  // ------------------------------------------------- one change at a time

  function ApplyOne(db: S.Db, c: Change): S.Db {
    match c
    case Put(id, m) => S.Upsert(db, id, m)
    case Gone(id) => S.ApplyServerDeletes(db, {id})
    case Flag(id, b) => S.SetReadFlag(db, id, b)
  }

  function InOrder(db: S.Db, cs: seq<Change>): S.Db
    decreases |cs|
  {
    if cs == [] then db else InOrder(ApplyOne(db, cs[0]), cs[1..])
  }

  // ----------------------------------------------------- one flush, batched

  function Puts(cs: seq<Change>): seq<Change> {
    if cs == [] then [] else if cs[0].Put? then [cs[0]] + Puts(cs[1..]) else Puts(cs[1..])
  }

  function Flags(cs: seq<Change>): seq<Change> {
    if cs == [] then [] else if cs[0].Flag? then [cs[0]] + Flags(cs[1..]) else Flags(cs[1..])
  }

  function GoneIds(cs: seq<Change>): set<ItemId> {
    set c | c in cs && c.Gone? :: c.id
  }

  function Flushed(db: S.Db, cs: seq<Change>): S.Db {
    InOrder(S.ApplyServerDeletes(InOrder(db, Puts(cs)), GoneIds(cs)), Flags(cs))
  }

  /** The whole delta, one flush per `n` changes and one at the end. */
  function Windowed(db: S.Db, cs: seq<Change>, n: nat): S.Db
    requires 0 < n
    decreases |cs|
  {
    if |cs| < n then Flushed(db, cs) else Windowed(Flushed(db, cs[..n]), cs[n..], n)
  }

  // ------------------------------------------------------ one message's view

  /** What the store holds of one message: its row and its inventory. */
  datatype Slot = Nothing | Held(row: Row, atts: Option<seq<Attachment>>)

  function At(db: S.Db, id: ItemId): Slot {
    if id in db.rows then Held(db.rows[id], if id in db.atts then Some(db.atts[id]) else None) else Nothing
  }

  /** The foreign key from attachments to messages. */
  predicate Sound(db: S.Db) {
    db.atts.Keys <= db.rows.Keys
  }

  function Move(s: Slot, c: Change): Slot {
    match c
    case Put(_, m) => if s.Held? then s.(row := s.row.(mirror := m)) else Held(Row(m, Live, None, None, None), None)
    case Gone(_) => if s.Nothing? || s.row.state == Live then Nothing else s.(row := S.Tombstoned(s.row))
    case Flag(_, b) => if s.Held? then s.(row := s.row.(mirror := s.row.mirror.(isRead := b))) else s
  }

  function Moves(s: Slot, cs: seq<Change>): Slot
    decreases |cs|
  {
    if cs == [] then s else Moves(Move(s, cs[0]), cs[1..])
  }

  function Of(cs: seq<Change>, id: ItemId): seq<Change> {
    if cs == [] then [] else if cs[0].id == id then [cs[0]] + Of(cs[1..], id) else Of(cs[1..], id)
  }

  lemma {:induction false} InOrderAt(db: S.Db, cs: seq<Change>, id: ItemId)
    requires Sound(db)
    ensures Sound(InOrder(db, cs)) && At(InOrder(db, cs), id) == Moves(At(db, id), Of(cs, id))
    decreases |cs|
  {
    if cs != [] {
      assert At(ApplyOne(db, cs[0]), id) == if cs[0].id == id then Move(At(db, id), cs[0]) else At(db, id);
      InOrderAt(ApplyOne(db, cs[0]), cs[1..], id);
      if cs[0].id == id { assert ([cs[0]] + Of(cs[1..], id))[1..] == Of(cs[1..], id); }
    }
  }

  lemma SameSlotsSameDb(a: S.Db, b: S.Db)
    requires Sound(a) && Sound(b) && forall id :: At(a, id) == At(b, id)
    ensures a == b
  {
    assert forall id :: id in a.rows <==> At(a, id).Held?;
    assert forall id :: id in b.rows <==> At(b, id).Held?;
    assert forall id :: id in a.rows ==> a.rows[id] == At(a, id).row && b.rows[id] == At(b, id).row;
    assert a.rows == b.rows;
    assert forall id :: id in a.rows ==> (id in a.atts <==> At(a, id).atts.Some?) && (id in b.atts <==> At(b, id).atts.Some?);
    assert a.atts.Keys == b.atts.Keys;
    assert forall id :: id in a.atts ==> At(a, id).atts == Some(a.atts[id]) && At(b, id).atts == Some(b.atts[id]);
    assert a.atts == b.atts;
  }

  // ------------------------------------------------- what decides the outcome

  /** The changes one flush makes to a message, in the order it makes them. */
  function Reordered(ops: seq<Change>): seq<Change> {
    Puts(ops) + Gones(ops) + Flags(ops)
  }

  function Gones(cs: seq<Change>): seq<Change> {
    if cs == [] then [] else if cs[0].Gone? then [cs[0]] + Gones(cs[1..]) else Gones(cs[1..])
  }

  lemma {:induction false} MovesJoin(s: Slot, a: seq<Change>, b: seq<Change>)
    ensures Moves(s, a + b) == Moves(Moves(s, a), b)
    decreases |a|
  {
    if a == [] {
      assert a + b == b;
    } else {
      assert (a + b)[0] == a[0] && (a + b)[1..] == a[1..] + b;
      MovesJoin(Move(s, a[0]), a[1..], b);
    }
  }

  /** The mirror an upsert last brought. */
  function LastPut(ops: seq<Change>): Option<Mirror> {
    if ops == [] then None
    else if LastPut(ops[1..]).Some? then LastPut(ops[1..])
    else if ops[0].Put? then Some(ops[0].mirror) else None
  }

  /** The read state the last flag change asked for. */
  function LastFlag(ops: seq<Change>): Option<bool> {
    if ops == [] then None
    else if LastFlag(ops[1..]).Some? then LastFlag(ops[1..])
    else if ops[0].Flag? then Some(ops[0].isRead) else None
  }

  /** The read state the last change of any kind asked for. */
  function LastRead(ops: seq<Change>): Option<bool> {
    if ops == [] then None
    else if LastRead(ops[1..]).Some? then LastRead(ops[1..])
    else match ops[0]
      case Put(_, m) => Some(m.isRead)
      case Flag(_, b) => Some(b)
      case Gone(_) => None
  }

  predicate HasGone(ops: seq<Change>) {
    ops != [] && (ops[0].Gone? || HasGone(ops[1..]))
  }

  /** An upsert stands after the last delete. */
  predicate PutAfterGone(ops: seq<Change>) {
    ops != [] &&
    if HasGone(ops[1..]) then PutAfterGone(ops[1..]) else ops[0].Gone? && LastPut(ops[1..]).Some?
  }

  /** A caller can check this before it flushes: no upsert stands after the last
      delete of its message, and the last read state is the last flag's, if any. */
  predicate Settled(ops: seq<Change>) {
    !PutAfterGone(ops) && (LastFlag(ops).Some? ==> LastRead(ops) == LastFlag(ops))
  }

  function WithRead(m: Mirror, read: Option<bool>): Mirror {
    if read.Some? then m.(isRead := read.value) else m
  }

  /** The mirror a message that is never dropped ends up with. */
  function MirrorAfter(m: Mirror, ops: seq<Change>): Mirror {
    WithRead(if LastPut(ops).Some? then LastPut(ops).value else m, LastRead(ops))
  }

  lemma {:induction false} ArchivedMoves(s: Slot, ops: seq<Change>)
    requires s.Held? && s.row.state != Live
    ensures Moves(s, ops) == s.(row := s.row.(mirror := MirrorAfter(s.row.mirror, ops),
                                              state := if HasGone(ops) then Deleted else s.row.state))
    decreases |ops|
  {
    if ops != [] {
      ReadIsKnown(ops[1..]);
      ArchivedMoves(Move(s, ops[0]), ops[1..]);
    }
  }

  predicate Unarchived(s: Slot) {
    s.Nothing? || s.row.state == Live
  }

  lemma {:induction false} UnarchivedMoves(s: Slot, ops: seq<Change>)
    requires Unarchived(s)
    ensures Unarchived(Moves(s, ops))
    ensures HasGone(ops) ==> (Moves(s, ops).Held? <==> PutAfterGone(ops))
    ensures !HasGone(ops) && s.Held? ==> Moves(s, ops) == s.(row := s.row.(mirror := MirrorAfter(s.row.mirror, ops)))
    ensures !HasGone(ops) && s.Nothing? ==>
              Moves(s, ops) == if LastPut(ops).None? then Nothing
                               else Held(Row(MirrorAfter(LastPut(ops).value, ops), Live, None, None, None), None)
    decreases |ops|
  {
    if ops != [] { UnarchivedMoves(Move(s, ops[0]), ops[1..]); }
  }

  // ------------------------------------------------- the reordering, summarised

  lemma {:induction false} JoinSummary(a: seq<Change>, b: seq<Change>)
    ensures LastPut(a + b) == if LastPut(b).Some? then LastPut(b) else LastPut(a)
    ensures LastRead(a + b) == if LastRead(b).Some? then LastRead(b) else LastRead(a)
    ensures HasGone(a + b) <==> HasGone(a) || HasGone(b)
    decreases |a|
  {
    if a == [] {
      assert a + b == b;
    } else {
      assert (a + b)[0] == a[0] && (a + b)[1..] == a[1..] + b;
      JoinSummary(a[1..], b);
    }
  }

  lemma {:induction false} PutsSummary(ops: seq<Change>)
    ensures LastPut(Puts(ops)) == LastPut(ops) && !HasGone(Puts(ops))
    ensures LastRead(Puts(ops)) == if LastPut(ops).Some? then Some(LastPut(ops).value.isRead) else None
    ensures LastFlag(ops).None? ==> LastRead(Puts(ops)) == LastRead(ops)
  {
    if ops != [] {
      PutsSummary(ops[1..]);
    }
  }

  lemma {:induction false} GonesSummary(ops: seq<Change>)
    ensures LastPut(Gones(ops)).None? && LastRead(Gones(ops)).None? && (HasGone(Gones(ops)) <==> HasGone(ops))
  {
    if ops != [] {
      GonesSummary(ops[1..]);
    }
  }

  lemma {:induction false} FlagsSummary(ops: seq<Change>)
    ensures LastPut(Flags(ops)).None? && LastRead(Flags(ops)) == LastFlag(ops) && !HasGone(Flags(ops))
  {
    if ops != [] {
      FlagsSummary(ops[1..]);
    }
  }

  lemma {:induction false} NoPutNoPutAfterGone(a: seq<Change>, b: seq<Change>)
    requires !HasGone(a) && LastPut(b).None?
    ensures !PutAfterGone(a + b)
    decreases |a| + |b|
  {
    if a != [] {
      assert (a + b)[0] == a[0] && (a + b)[1..] == a[1..] + b;
      NoPutNoPutAfterGone(a[1..], b);
    } else if b != [] {
      assert a + b == b && b == [] + b && b[1..] == [] + b[1..];
      NoPutNoPutAfterGone([], b[1..]);
    }
  }

  lemma ReorderedSummary(ops: seq<Change>)
    ensures var o := Reordered(ops);
            && LastPut(o) == LastPut(ops) && (HasGone(o) <==> HasGone(ops)) && !PutAfterGone(o)
            && LastRead(o) == if LastFlag(ops).Some? then LastFlag(ops) else LastRead(ops)
  {
    PutsSummary(ops);
    GonesSummary(ops);
    FlagsSummary(ops);
    JoinSummary(Puts(ops) + Gones(ops), Flags(ops));
    JoinSummary(Puts(ops), Gones(ops));
    JoinSummary(Gones(ops), Flags(ops));
    assert Puts(ops) + Gones(ops) + Flags(ops) == Puts(ops) + (Gones(ops) + Flags(ops));
    NoPutNoPutAfterGone(Puts(ops), Gones(ops) + Flags(ops));
  }

  /** For one message: the flush order gives what the plain order gives, whatever
      was stored before, exactly when the changes are settled. */
  lemma ReorderingIsHarmlessExactly(ops: seq<Change>)
    ensures (forall s :: Moves(s, Reordered(ops)) == Moves(s, ops)) <==> Settled(ops)
  {
    if Settled(ops) {
      forall s ensures Moves(s, Reordered(ops)) == Moves(s, ops) { SettledIsHarmless(ops, s); }
    } else {
      var s := Telltale(ops);
      UnsettledShows(ops);
      assert Moves(s, Reordered(ops)) != Moves(s, ops);
    }
  }

  lemma SettledIsHarmless(ops: seq<Change>, s: Slot)
    requires Settled(ops)
    ensures Moves(s, Reordered(ops)) == Moves(s, ops)
  {
    ReorderedSummary(ops);
    hide Reordered;
    if Unarchived(s) {
      UnarchivedMoves(s, ops);
      UnarchivedMoves(s, Reordered(ops));
    } else {
      ArchivedMoves(s, ops);
      ArchivedMoves(s, Reordered(ops));
    }
  }

  /** A starting point that shows an unsettled list up. */
  function Telltale(ops: seq<Change>): Slot {
    if PutAfterGone(ops) then Nothing
    else Held(Row(Mirror("", None, [], false, ""), Captured, None, None, None), None)
  }

  lemma UnsettledShows(ops: seq<Change>)
    requires !Settled(ops)
    ensures Moves(Telltale(ops), Reordered(ops)) != Moves(Telltale(ops), ops)
  {
    var s := Telltale(ops);
    ReorderedSummary(ops);
    ReadIsKnown(ops);
    hide Reordered;
    if PutAfterGone(ops) {
      UnarchivedMoves(s, ops);
      UnarchivedMoves(s, Reordered(ops));
    } else {
      ArchivedMoves(s, ops);
      ArchivedMoves(s, Reordered(ops));
    }
  }

  lemma {:induction false} ReadIsKnown(ops: seq<Change>)
    ensures LastFlag(ops).Some? ==> LastRead(ops).Some?
    ensures LastPut(ops).Some? ==> LastRead(ops).Some?
    ensures LastPut(ops).None? && LastFlag(ops).None? ==> LastRead(ops).None?
    ensures PutAfterGone(ops) ==> HasGone(ops)
  {
    if ops != [] { ReadIsKnown(ops[1..]); }
  }

  // --------------------------------------------------------- the whole store

  lemma {:induction false} OfKinds(cs: seq<Change>, id: ItemId)
    ensures Of(Puts(cs), id) == Puts(Of(cs, id)) && Of(Flags(cs), id) == Flags(Of(cs, id))
    ensures HasGone(Of(cs, id)) <==> id in GoneIds(cs)
  {
    if cs != [] {
      OfKinds(cs[1..], id);
      assert GoneIds(cs) == GoneIds(cs[1..]) + if cs[0].Gone? then {cs[0].id} else {};
    }
  }

  lemma {:induction false} GonesAreOne(s: Slot, ops: seq<Change>, id: ItemId)
    ensures Moves(s, Gones(ops)) == if HasGone(ops) then Move(s, Gone(id)) else s
    decreases |ops|
  {
    if ops != [] {
      GonesAreOne(if ops[0].Gone? then Move(s, ops[0]) else s, ops[1..], id);
    }
  }

  lemma FlushedAt(db: S.Db, cs: seq<Change>, id: ItemId)
    requires Sound(db)
    ensures Sound(Flushed(db, cs)) && At(Flushed(db, cs), id) == Moves(At(db, id), Reordered(Of(cs, id)))
  {
    var ops := Of(cs, id);
    var put := InOrder(db, Puts(cs));
    var gone := S.ApplyServerDeletes(put, GoneIds(cs));
    OfKinds(cs, id);
    InOrderAt(db, Puts(cs), id);
    assert Sound(gone) && At(gone, id) == if id in GoneIds(cs) then Move(At(put, id), Gone(id)) else At(put, id);
    InOrderAt(gone, Flags(cs), id);
    GonesAreOne(At(put, id), ops, id);
    MovesJoin(At(db, id), Puts(ops) + Gones(ops), Flags(ops));
    MovesJoin(At(db, id), Puts(ops), Gones(ops));
  }

  /** One flush of a window leaves the mirror the plain order leaves, from every
      store, exactly when each message's changes in the window are settled. */
  lemma FlushRefinesExactly(cs: seq<Change>)
    ensures (forall db :: Sound(db) ==> Flushed(db, cs) == InOrder(db, cs)) <==> forall id :: Settled(Of(cs, id))
  {
    if forall id :: Settled(Of(cs, id)) {
      forall db | Sound(db) ensures Flushed(db, cs) == InOrder(db, cs) { FlushRefines(db, cs); }
    }
    if !forall id :: Settled(Of(cs, id)) {
      var id :| !Settled(Of(cs, id));
      UnsettledStore(cs, id);
    }
  }

  lemma FlushRefines(db: S.Db, cs: seq<Change>)
    requires Sound(db) && forall id :: Settled(Of(cs, id))
    ensures Flushed(db, cs) == InOrder(db, cs) && Sound(InOrder(db, cs))
  {
    forall id
      ensures At(Flushed(db, cs), id) == At(InOrder(db, cs), id)
      ensures Sound(Flushed(db, cs)) && Sound(InOrder(db, cs))
    {
      FlushedAt(db, cs, id);
      InOrderAt(db, cs, id);
      SettledIsHarmless(Of(cs, id), At(db, id));
    }
    var any: ItemId := "";
    FlushedAt(db, cs, any);
    InOrderAt(db, cs, any);
    SameSlotsSameDb(Flushed(db, cs), InOrder(db, cs));
  }

  lemma UnsettledStore(cs: seq<Change>, id: ItemId)
    requires !Settled(Of(cs, id))
    ensures exists db :: Sound(db) && Flushed(db, cs) != InOrder(db, cs)
  {
    var s := Telltale(Of(cs, id));
    var db := if s.Nothing? then S.Db(map[], map[]) else S.Db(map[id := s.row], map[]);
    assert Sound(db) && At(db, id) == s;
    FlushedAt(db, cs, id);
    InOrderAt(db, cs, id);
    UnsettledShows(Of(cs, id));
  }

  ghost predicate WindowsSettled(cs: seq<Change>, n: nat)
    requires 0 < n
    decreases |cs|
  {
    if |cs| < n then forall id :: Settled(Of(cs, id))
    else (forall id :: Settled(Of(cs[..n], id))) && WindowsSettled(cs[n..], n)
  }

  lemma {:induction false} InOrderJoins(db: S.Db, a: seq<Change>, b: seq<Change>)
    ensures InOrder(db, a + b) == InOrder(InOrder(db, a), b)
    decreases |a|
  {
    if a == [] {
      assert a + b == b;
    } else {
      assert (a + b)[0] == a[0] && (a + b)[1..] == a[1..] + b;
      InOrderJoins(ApplyOne(db, a[0]), a[1..], b);
    }
  }

  /** Buffered sync of a whole folder is plain sync of it, for any window size. */
  lemma {:induction false} BatchedSyncRefines(db: S.Db, cs: seq<Change>, n: nat)
    requires 0 < n && Sound(db) && WindowsSettled(cs, n)
    ensures Windowed(db, cs, n) == InOrder(db, cs) && Sound(InOrder(db, cs))
    decreases |cs|
  {
    if |cs| < n {
      FlushRefines(db, cs);
    } else {
      FlushRefines(db, cs[..n]);
      BatchedSyncRefines(Flushed(db, cs[..n]), cs[n..], n);
      InOrderJoins(db, cs[..n], cs[n..]);
      assert cs[..n] + cs[n..] == cs;
    }
  }

  /** The one thing Exchange has to promise for that: it does not bring back a
      message after deleting it or changing its read flag in the same delta. */
  predicate NoLatePut(cs: seq<Change>) {
    forall j, k :: 0 <= j < k < |cs| && cs[k].Put? && cs[j].id == cs[k].id ==> cs[j].Put?
  }

  lemma {:induction false} NoLatePutSettles(cs: seq<Change>, id: ItemId)
    requires NoLatePut(cs)
    ensures Settled(Of(cs, id))
  {
    if cs != [] {
      assert NoLatePut(cs[1..]);
      NoLatePutSettles(cs[1..], id);
      if cs[0].id == id && !cs[0].Put? { NoPutsLeft(cs, id, 1); }
      ReadIsKnown(Of(cs[1..], id));
    }
  }

  lemma {:induction false} NoPutsLeft(cs: seq<Change>, id: ItemId, k: nat)
    requires 1 <= k <= |cs| && NoLatePut(cs) && cs[0].id == id && !cs[0].Put?
    ensures LastPut(Of(cs[k..], id)).None?
    decreases |cs| - k
  {
    if k < |cs| {
      assert cs[k..][1..] == cs[k + 1..] && cs[k..][0] == cs[k];
      NoPutsLeft(cs, id, k + 1);
    }
  }

  lemma {:induction false} NoLatePutSettlesWindows(cs: seq<Change>, n: nat)
    requires 0 < n && NoLatePut(cs)
    ensures WindowsSettled(cs, n)
    decreases |cs|
  {
    if |cs| < n {
      forall id ensures Settled(Of(cs, id)) { NoLatePutSettles(cs, id); }
    } else {
      assert NoLatePut(cs[..n]) && NoLatePut(cs[n..]);
      forall id ensures Settled(Of(cs[..n], id)) { NoLatePutSettles(cs[..n], id); }
      NoLatePutSettlesWindows(cs[n..], n);
    }
  }

  // ------------------------------------------------------------ after a crash

  /** How far a store that already saw some of the changes can be from one that
      did not, seen from the change that made the difference. */
  predicate Apart(a: Slot, b: Slot, c: Change) {
    || a == b
    || (match c
        case Put(_, m) =>
          (a.Nothing? && b.Held? && b == Held(Row(b.row.mirror, Live, None, None, None), None)) ||
          (a.Held? && b.Held? && b == a.(row := a.row.(mirror := b.row.mirror)))
        case Flag(_, _) =>
          a.Held? && b.Held? && b == a.(row := a.row.(mirror := a.row.mirror.(isRead := b.row.mirror.isRead)))
        case Gone(_) =>
          if Unarchived(a) then Unarchived(b) else b == a.(row := S.Tombstoned(a.row)))
  }

  predicate SameKind(c: Change, d: Change) {
    (c.Put? && d.Put?) || (c.Gone? && d.Gone?) || (c.Flag? && d.Flag?)
  }

  lemma {:induction false} CatchesUp(a: Slot, b: Slot, ops: seq<Change>, c: Change)
    requires Apart(a, b, c) && exists k :: 0 <= k < |ops| && SameKind(c, ops[k])
    ensures Moves(a, ops) == Moves(b, ops)
    decreases |ops|
  {
    var a', b', rest := Move(a, ops[0]), Move(b, ops[0]), ops[1..];
    assert Apart(a', b', c);
    if SameKind(c, ops[0]) {
      assert a' == b';
    } else {
      var k :| 0 <= k < |ops| && SameKind(c, ops[k]);
      assert SameKind(c, rest[k - 1]);
      CatchesUp(a', b', rest, c);
    }
  }

  lemma {:induction false} OfHolds(cs: seq<Change>, c: Change)
    requires c in cs
    ensures exists k :: 0 <= k < |Of(cs, c.id)| && SameKind(c, Of(cs, c.id)[k])
  {
    if cs[0] == c {
      assert SameKind(c, Of(cs, c.id)[0]);
    } else {
      OfHolds(cs[1..], c);
      var k :| 0 <= k < |Of(cs[1..], c.id)| && SameKind(c, Of(cs[1..], c.id)[k]);
      assert Of(cs, c.id)[if cs[0].id == c.id then k + 1 else k] == Of(cs[1..], c.id)[k];
    }
  }

  lemma ReplayAbsorbsOne(db: S.Db, cs: seq<Change>, c: Change)
    requires Sound(db) && c in cs
    ensures InOrder(ApplyOne(db, c), cs) == InOrder(db, cs) && Sound(ApplyOne(db, c))
  {
    var db' := ApplyOne(db, c);
    forall id
      ensures At(InOrder(db', cs), id) == At(InOrder(db, cs), id)
      ensures Sound(InOrder(db', cs)) && Sound(InOrder(db, cs))
    {
      InOrderAt(db', cs, id);
      InOrderAt(db, cs, id);
      if id == c.id {
        OfHolds(cs, c);
        assert At(db', id) == Move(At(db, id), c);
        CatchesUp(At(db, id), At(db', id), Of(cs, id), c);
      } else {
        assert At(db', id) == At(db, id);
      }
    }
    InOrderAt(db', cs, "");
    InOrderAt(db, cs, "");
    SameSlotsSameDb(InOrder(db', cs), InOrder(db, cs));
  }

  /** The token is saved once, at the end, so a crash replays the whole delta.
      Whatever part of it had already been applied, in whatever order, the
      replay ends in the mirror an uninterrupted sync would have left. */
  lemma {:induction false} ReplayIsHarmless(db: S.Db, cs: seq<Change>, done: seq<Change>)
    requires Sound(db) && forall c :: c in done ==> c in cs
    ensures InOrder(InOrder(db, done), cs) == InOrder(db, cs) && Sound(InOrder(db, done))
    decreases |done|
  {
    if done != [] {
      ReplayAbsorbsOne(db, cs, done[0]);
      ReplayIsHarmless(ApplyOne(db, done[0]), cs, done[1..]);
    }
  }

  lemma {:induction false} KindsAreFrom(cs: seq<Change>, c: Change)
    ensures c in Puts(cs) || c in Gones(cs) || c in Flags(cs) ==> c in cs
  {
    if cs != [] { KindsAreFrom(cs[1..], c); }
  }

  lemma {:induction false} OfGones(cs: seq<Change>, id: ItemId)
    ensures Of(Gones(cs), id) == Gones(Of(cs, id))
  {
    if cs != [] { OfGones(cs[1..], id); }
  }

  lemma {:induction false} OfJoins(a: seq<Change>, b: seq<Change>, id: ItemId)
    ensures Of(a + b, id) == Of(a, id) + Of(b, id)
  {
    if a == [] {
      assert a + b == b;
    } else {
      assert (a + b)[0] == a[0] && (a + b)[1..] == a[1..] + b;
      OfJoins(a[1..], b, id);
    }
  }

  /** A flush is some order of its own changes, so it is covered by the above. */
  lemma FlushIsAnOrder(db: S.Db, cs: seq<Change>)
    requires Sound(db)
    ensures Flushed(db, cs) == InOrder(db, Reordered(cs)) && forall c :: c in Reordered(cs) ==> c in cs
  {
    forall c | c in Reordered(cs) ensures c in cs { KindsAreFrom(cs, c); }
    forall id
      ensures At(Flushed(db, cs), id) == At(InOrder(db, Reordered(cs)), id)
      ensures Sound(Flushed(db, cs)) && Sound(InOrder(db, Reordered(cs)))
    {
      FlushedAt(db, cs, id);
      OfKinds(cs, id);
      OfGones(cs, id);
      OfJoins(Puts(cs) + Gones(cs), Flags(cs), id);
      OfJoins(Puts(cs), Gones(cs), id);
      InOrderAt(db, Reordered(cs), id);
    }
    FlushedAt(db, cs, "");
    InOrderAt(db, Reordered(cs), "");
    SameSlotsSameDb(Flushed(db, cs), InOrder(db, Reordered(cs)));
  }

  /** A crash and a fresh buffered sync, for any window size. */
  lemma CrashAndResync(db: S.Db, cs: seq<Change>, done: seq<Change>, n: nat)
    requires 0 < n && Sound(db) && NoLatePut(cs) && forall c :: c in done ==> c in cs
    ensures Windowed(InOrder(db, done), cs, n) == Windowed(db, cs, n) == InOrder(db, cs)
  {
    ReplayIsHarmless(db, cs, done);
    NoLatePutSettlesWindows(cs, n);
    BatchedSyncRefines(db, cs, n);
    BatchedSyncRefines(InOrder(db, done), cs, n);
  }

  // ------------------------------------------------------------- the program

  class FolderLane {
    var db: S.Db
    var upserts: seq<(ItemId, Mirror)>
    var deletes: seq<ItemId>
    var readFlags: seq<(ItemId, bool)>

    constructor (db: S.Db)
      ensures this.db == db && Buffers([])
    {
      this.db, upserts, deletes, readFlags := db, [], [], [];
    }

    /** The three buffers hold this window, each kind in the order it came. */
    ghost predicate Buffers(window: seq<Change>)
      reads this
    {
      && |Puts(window)| == |upserts| && (forall k :: 0 <= k < |upserts| ==> Puts(window)[k] == Put(upserts[k].0, upserts[k].1))
      && (forall i :: i in deletes <==> i in GoneIds(window))
      && |Flags(window)| == |readFlags| && (forall k :: 0 <= k < |readFlags| ==> Flags(window)[k] == Flag(readFlags[k].0, readFlags[k].1))
    }

    method Flush(ghost window: seq<Change>)
      requires Buffers(window) && Sound(db)
      modifies this
      ensures db == Flushed(old(db), window) && Sound(db)
      ensures Buffers([])
    {
      hide InOrder, Puts, Flags, Sound;
      ghost var was := db;
      InOrderNothing(was);
      for k := 0 to |upserts|
        invariant upserts == old(upserts) && deletes == old(deletes) && readFlags == old(readFlags)
        invariant db == InOrder(was, Puts(window)[..k])
      {
        InOrderNext(was, Puts(window), k);
        db := S.Upsert(db, upserts[k].0, upserts[k].1);
      }
      assert Puts(window)[..|upserts|] == Puts(window);
      InOrderAt(was, Puts(window), "");
      upserts := [];
      NoDeletes(db, GoneIds(window));
      assert (set i | i in deletes) == GoneIds(window);
      if deletes != [] {
        db := S.ApplyServerDeletes(db, set i | i in deletes);
        deletes := [];
      }
      ghost var gone := db;
      assert gone == S.ApplyServerDeletes(InOrder(was, Puts(window)), GoneIds(window));
      InOrderNothing(gone);
      for k := 0 to |readFlags|
        invariant upserts == [] && deletes == [] && readFlags == old(readFlags)
        invariant db == InOrder(gone, Flags(window)[..k])
      {
        InOrderNext(gone, Flags(window), k);
        db := S.SetReadFlag(db, readFlags[k].0, readFlags[k].1);
      }
      assert Flags(window)[..|readFlags|] == Flags(window);
      InOrderAt(gone, Flags(window), "");
      readFlags := [];
      NothingBuffered();
    }

    method Buffer(ghost window: seq<Change>, c: Change)
      requires Buffers(window)
      modifies `upserts, `deletes, `readFlags
      ensures Buffers(window + [c])
    {
      BufferNext(window, c);
      match c {
        case Put(id, m) => upserts := upserts + [(id, m)];
        case Gone(id) => deletes := deletes + [id];
        case Flag(id, b) => readFlags := readFlags + [(id, b)];
      }
    }

    /** The folder's delta, buffered and flushed; the token is saved by the caller. */
    method Run(changes: seq<Change>)
      requires Buffers([]) && Sound(db)
      modifies this
      ensures db == Windowed(old(db), changes, 200)
      ensures Buffers([]) && Sound(db)
    {
      hide Buffers, Flushed, Sound;
      var pending := 0;
      ghost var start := 0;
      ghost var all := Windowed(db, changes, FLUSH_EVERY);
      assert changes[0..] == changes;
      for k := 0 to |changes|
        invariant 0 <= start <= k && pending == k - start < FLUSH_EVERY
        invariant Buffers(changes[start..k]) && Sound(db)
        invariant Windowed(db, changes[start..], FLUSH_EVERY) == all
      {
        Buffer(changes[start..k], changes[k]);
        assert changes[start..k] + [changes[k]] == changes[start..k + 1];
        pending := pending + 1;
        if pending >= FLUSH_EVERY {
          assert changes[start..][..FLUSH_EVERY] == changes[start..k + 1];
          assert changes[start..][FLUSH_EVERY..] == changes[k + 1..];
          Flush(changes[start..k + 1]);
          start, pending := k + 1, 0;
        }
      }
      assert changes[start..|changes|] == changes[start..];
      Flush(changes[start..]);
    }
  }

  lemma NothingBuffered()
    ensures Puts([]) == [] && Flags([]) == [] && GoneIds([]) == {}
  {
  }

  lemma InOrderNothing(db: S.Db)
    ensures InOrder(db, []) == db
  {
  }

  lemma InOrderNext(db: S.Db, cs: seq<Change>, k: nat)
    requires k < |cs|
    ensures InOrder(db, cs[..k + 1]) == ApplyOne(InOrder(db, cs[..k]), cs[k])
  {
    assert cs[..k + 1] == cs[..k] + [cs[k]];
    InOrderJoins(db, cs[..k], [cs[k]]);
  }

  lemma NoDeletes(db: S.Db, ids: set<ItemId>)
    requires Sound(db)
    ensures S.ApplyServerDeletes(db, {}) == db && Sound(S.ApplyServerDeletes(db, ids))
  {
  }

  lemma {:induction false} BufferNext(window: seq<Change>, c: Change)
    ensures Puts(window + [c]) == Puts(window) + if c.Put? then [c] else []
    ensures Flags(window + [c]) == Flags(window) + if c.Flag? then [c] else []
    ensures GoneIds(window + [c]) == GoneIds(window) + if c.Gone? then {c.id} else {}
  {
    if window != [] {
      BufferNext(window[1..], c);
      assert (window + [c])[0] == window[0] && (window + [c])[1..] == window[1..] + [c];
    }
    forall i ensures i in GoneIds(window + [c]) <==> i in GoneIds(window) + if c.Gone? then {c.id} else {} {
      if i in GoneIds(window) {
        var d :| d in window && d.Gone? && d.id == i;
        assert d in window + [c];
      }
      if c.Gone? && c.id == i { assert c in window + [c]; }
    }
  }
}
