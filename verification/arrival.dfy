/**
 The bridge's change feed.  A sweep gives every new or amended message the next
 sequence number; a consumer walks pages bounded by arrival time, keeps the
 cursor the walk ends on, and polls from there.  Sync adds, amends and drops
 messages between any two of these steps.
 */
module ArrivalFeed {
  import opened Mail
  import opened Queue

  // ------------------------------------------------------------------- state

  /** What a consumer is shown of a message, and the changekey that names it. */
  datatype Version = Version(ck: Option<string>, body: string)

  datatype Letter = Letter(version: Version, conversation: Option<string>)

  /** One row of bridge_arrival. */
  datatype Arrival = Arrival(no: nat, ck: Option<string>, firstSeen: int, firstArrival: int, chat: string)

  /** `last` is the sequence's last value; `started` is when the latest sweep's
      transaction began.  Dropping a message cascades to its ledger row. */
  datatype Feed = Feed(letters: map<ItemId, Letter>, ledger: map<ItemId, Arrival>, last: nat, started: int)

  function ChatOf(id: ItemId, l: Letter): string {
    if l.conversation.Some? then l.conversation.value else id
  }

  predicate IsDue(f: Feed, id: ItemId) {
    id in f.letters && (id !in f.ledger || f.ledger[id].ck != f.letters[id].version.ck)
  }

  function Due(f: Feed): set<ItemId> {
    set i | i in f.letters && IsDue(f, i)
  }

  /** INSERT ... ON CONFLICT DO UPDATE for one message: an amendment moves the
      sequence and the arrival time together, and nothing else. */
  function RowAt(f: Feed, id: ItemId, no: nat, now: int): Arrival
    requires id in f.letters
  {
    var ck := f.letters[id].version.ck;
    if id in f.ledger then f.ledger[id].(no := no, ck := ck, firstSeen := now)
    else Arrival(no, ck, now, now, ChatOf(id, f.letters[id]))
  }

  function Entered(f: Feed, id: ItemId, now: int): Feed
    requires id in f.letters
  {
    f.(last := f.last + 1, ledger := f.ledger[id := RowAt(f, id, f.last + 1, now)])
  }

  /** A sweep whose rows the planner happened to number in this order. */
  function Swept(f: Feed, order: seq<ItemId>, now: int): Feed
    requires forall i :: i in order ==> i in f.letters
    ensures Swept(f, order, now).letters == f.letters
  {
    if order == [] then f
    else Entered(Swept(f, order[..|order| - 1], now), order[|order| - 1], now)
  }

  ghost predicate IsOrder(f: Feed, order: seq<ItemId>) {
    && (forall i, j :: 0 <= i < j < |order| ==> order[i] != order[j])
    && (forall i :: i in order <==> i in Due(f))
  }

  // ------------------------------------------------------------- what a sweep does

  lemma {:induction false} SweepFrame(f: Feed, order: seq<ItemId>, now: int)
    requires forall i :: i in order ==> i in f.letters
    ensures var g := Swept(f, order, now);
            && g.last == f.last + |order| && g.started == f.started
            && (forall i :: i in g.ledger <==> i in f.ledger || i in order)
            && (forall i :: i in f.ledger && i !in order ==> g.ledger[i] == f.ledger[i])
  {
    if order != [] {
      var rest, id := order[..|order| - 1], order[|order| - 1];
      SweepFrame(f, rest, now);
      assert order == rest + [id];
    }
  }

  lemma {:induction false} SweepAt(f: Feed, order: seq<ItemId>, now: int, k: nat)
    requires forall i, j :: 0 <= i < j < |order| ==> order[i] != order[j]
    requires forall i :: i in order ==> i in f.letters
    requires k < |order|
    ensures order[k] in Swept(f, order, now).ledger
    ensures Swept(f, order, now).ledger[order[k]] == RowAt(f, order[k], f.last + 1 + k, now)
  {
    var rest, id := order[..|order| - 1], order[|order| - 1];
    SweepFrame(f, rest, now);
    if k < |rest| {
      SweepAt(f, rest, now, k);
      assert order[k] == rest[k];
    } else {
      assert id !in rest;
    }
  }

  /** Each sequence is used once and lies in the range handed out. */
  ghost predicate Unique(f: Feed) {
    && f.ledger.Keys <= f.letters.Keys
    && (forall i :: i in f.ledger ==> 1 <= f.ledger[i].no <= f.last)
    && (forall i, j :: i in f.ledger && j in f.ledger && i != j ==> f.ledger[i].no != f.ledger[j].no)
  }

  /** Arrival times never run against the sequence: an `until` bound selects a prefix. */
  ghost predicate Ordered(f: Feed) {
    forall i, j :: i in f.ledger && j in f.ledger && f.ledger[i].no < f.ledger[j].no ==>
      f.ledger[i].firstSeen <= f.ledger[j].firstSeen
  }

  /** Whatever order the planner picks, everything due gets its own new number
      above every number handed out before, and is no longer due. */
  lemma SweepNumbers(f: Feed, order: seq<ItemId>, now: int)
    requires Unique(f) && IsOrder(f, order)
    ensures var g := Swept(f, order, now);
            && Unique(g) && Due(g) == {} && g.ledger.Keys == f.letters.Keys
            && (forall i :: i in Due(f) ==> f.last < g.ledger[i].no && g.ledger[i].firstSeen == now)
            && (forall i :: i in f.ledger && i !in Due(f) ==> g.ledger[i] == f.ledger[i])
            && (forall i :: i in f.ledger ==>
                  g.ledger[i].chat == f.ledger[i].chat && g.ledger[i].firstArrival == f.ledger[i].firstArrival)
            // at first sight: its conversation, or a chat of its own, and this moment
            && (forall i :: i in f.letters && i !in f.ledger ==>
                  && g.ledger[i].firstArrival == now
                  && (f.letters[i].conversation == None ==> g.ledger[i].chat == i)
                  && (f.letters[i].conversation.Some? ==> g.ledger[i].chat == f.letters[i].conversation.value))
  {
    var g := Swept(f, order, now);
    SweptUnique(f, order, now);
    hide Swept, RowAt, ChatOf, IsDue, Unique, IsOrder;
    forall i | i in f.letters ensures SweptRow(f, g, order, now, i) && (i in order <==> i in Due(f)) {
      OneSweptRow(f, order, now, i);
    }
    assert g.letters == f.letters;
  }

  lemma SweptUnique(f: Feed, order: seq<ItemId>, now: int)
    requires Unique(f) && IsOrder(f, order)
    ensures Unique(Swept(f, order, now)) && Swept(f, order, now).ledger.Keys == f.letters.Keys
  {
    var g := Swept(f, order, now);
    SweepFrame(f, order, now);
    hide Swept, IsDue, SweptRow, IsOrder;
    forall i | i in f.letters ensures i in g.ledger && 1 <= g.ledger[i].no <= g.last { NumberedWithin(f, order, now, i); }
    forall i, j | i in f.letters && j in f.letters && i != j ensures g.ledger[i].no != g.ledger[j].no {
      NumbersApart(f, order, now, i, j);
    }
  }

  lemma NumberedWithin(f: Feed, order: seq<ItemId>, now: int, i: ItemId)
    requires Unique(f) && IsOrder(f, order) && i in f.letters
    ensures i in Swept(f, order, now).ledger && 1 <= Swept(f, order, now).ledger[i].no <= f.last + |order|
  {
    OneSweptRow(f, order, now, i);
    hide Swept;
  }

  lemma NumbersApart(f: Feed, order: seq<ItemId>, now: int, i: ItemId, j: ItemId)
    requires Unique(f) && IsOrder(f, order) && i in f.letters && j in f.letters && i != j
    ensures i in Swept(f, order, now).ledger && j in Swept(f, order, now).ledger
    ensures Swept(f, order, now).ledger[i].no != Swept(f, order, now).ledger[j].no
  {
    OneSweptRow(f, order, now, i);
    OneSweptRow(f, order, now, j);
    if i in order && j in order { SweepSeparates(f, order, now, i, j); }
    hide Swept;
  }

  /** What a sweep makes of one message. */
  ghost predicate SweptRow(f: Feed, g: Feed, order: seq<ItemId>, now: int, i: ItemId)
    requires i in f.letters
  {
    && i in g.ledger && g.letters == f.letters && !IsDue(g, i)
    && (i in order ==> f.last < g.ledger[i].no && g.ledger[i].firstSeen == now)
    && (i !in order ==> i in f.ledger && g.ledger[i] == f.ledger[i])
    && (i in f.ledger ==> g.ledger[i].chat == f.ledger[i].chat && g.ledger[i].firstArrival == f.ledger[i].firstArrival)
    && (i !in f.ledger ==>
          && g.ledger[i].firstArrival == now
          && (f.letters[i].conversation == None ==> g.ledger[i].chat == i)
          && (f.letters[i].conversation.Some? ==> g.ledger[i].chat == f.letters[i].conversation.value))
  }

  lemma OneSweptRow(f: Feed, order: seq<ItemId>, now: int, i: ItemId)
    requires Unique(f) && IsOrder(f, order) && i in f.letters
    ensures SweptRow(f, Swept(f, order, now), order, now, i)
    ensures i in order ==> Swept(f, order, now).ledger[i].no <= f.last + |order|
  {
    SweepFrame(f, order, now);
    if i in order {
      var k :| 0 <= k < |order| && order[k] == i;
      SweepAt(f, order, now, k);
    } else {
      assert i !in Due(f);
    }
    hide Swept;
  }

  lemma SweepSeparates(f: Feed, order: seq<ItemId>, now: int, i: ItemId, j: ItemId)
    requires forall i, j :: 0 <= i < j < |order| ==> order[i] != order[j]
    requires forall i :: i in order ==> i in f.letters
    requires i in order && j in order && i != j
    ensures i in Swept(f, order, now).ledger && j in Swept(f, order, now).ledger
    ensures Swept(f, order, now).ledger[i].no != Swept(f, order, now).ledger[j].no
  {
    var k :| 0 <= k < |order| && order[k] == i;
    var m :| 0 <= m < |order| && order[m] == j;
    SweepAt(f, order, now, k);
    SweepAt(f, order, now, m);
  }

  /** The exact condition for a sweep to keep the order: its transaction must
      not have begun before the arrival of a message it leaves alone.  Because
      now() is the start of the transaction and the lock is taken after it,
      sweeps that start in one order and take the lock in the other break it. */
  lemma SweepKeepsOrderExactly(f: Feed, order: seq<ItemId>, now: int)
    requires Unique(f) && Ordered(f) && IsOrder(f, order) && order != []
    ensures Ordered(Swept(f, order, now)) <==>
              forall i :: i in f.ledger && !IsDue(f, i) ==> f.ledger[i].firstSeen <= now
  {
    var g := Swept(f, order, now);
    SweepNumbers(f, order, now);
    var d := order[0];
    assert d in Due(f) && d in g.ledger;
    if Ordered(g) {
      forall i | i in f.ledger && !IsDue(f, i) ensures f.ledger[i].firstSeen <= now {
        assert g.ledger[i] == f.ledger[i] && g.ledger[i].no < g.ledger[d].no;
      }
    }
    if forall i :: i in f.ledger && !IsDue(f, i) ==> f.ledger[i].firstSeen <= now {
      forall i, j | i in g.ledger && j in g.ledger && g.ledger[i].no < g.ledger[j].no
        ensures g.ledger[i].firstSeen <= g.ledger[j].firstSeen
      {
        if !IsDue(f, j) {
          assert g.ledger[j] == f.ledger[j] && j in f.ledger;
          assert i !in Due(f);
        }
      }
    }
  }

  // ------------------------------------------------------------------- pages

  predicate InPage(f: Feed, after: Option<nat>, until: Option<int>, id: ItemId) {
    && id in f.ledger
    && (after.Some? ==> after.value < f.ledger[id].no)
    && (until.Some? ==> f.ledger[id].firstSeen <= until.value)
  }

  /** The page: the first `limit` matches in sequence order. */
  ghost predicate IsPage(f: Feed, after: Option<nat>, until: Option<int>, limit: nat, rows: seq<ItemId>) {
    && |rows| <= limit
    && (forall k :: 0 <= k < |rows| ==> InPage(f, after, until, rows[k]))
    && (forall j, k :: 0 <= j < k < |rows| ==> f.ledger[rows[j]].no < f.ledger[rows[k]].no)
    && (forall i :: InPage(f, after, until, i) && i !in rows ==>
          |rows| == limit && forall k :: 0 <= k < |rows| ==> f.ledger[rows[k]].no < f.ledger[i].no)
  }

  /** The last row returned, or the cursor we were given, or zero; never the head. */
  function NextCursor(f: Feed, after: Option<nat>, rows: seq<ItemId>): nat
    requires forall k :: 0 <= k < |rows| ==> rows[k] in f.ledger
  {
    if rows != [] then f.ledger[rows[|rows| - 1]].no
    else if after.Some? then after.value else 0
  }

  lemma LeastComesFirst(f: Feed, after: Option<nat>, until: Option<int>, limit: nat, rows: seq<ItemId>, id: ItemId)
    requires IsPage(f, after, until, limit, rows) && InPage(f, after, until, id) && 0 < limit
    ensures rows != [] && f.ledger[rows[0]].no <= f.ledger[id].no
  {
  }

  lemma RestIsPage(f: Feed, after: Option<nat>, until: Option<int>, limit: nat, rows: seq<ItemId>)
    requires Unique(f) && IsPage(f, after, until, limit, rows) && rows != []
    ensures IsPage(f, Some(f.ledger[rows[0]].no), until, limit - 1, rows[1..])
  {
  }

  lemma SameHead(f: Feed, after: Option<nat>, until: Option<int>, limit: nat, rows: seq<ItemId>, rows': seq<ItemId>)
    requires Unique(f) && IsPage(f, after, until, limit, rows) && IsPage(f, after, until, limit, rows')
    requires rows != []
    ensures 0 < limit && rows' != [] && rows[0] == rows'[0] && rows[0] in f.ledger
  {
    LeastComesFirst(f, after, until, limit, rows', rows[0]);
    LeastComesFirst(f, after, until, limit, rows, rows'[0]);
  }

  lemma HeadAndTail(rows: seq<ItemId>, rows': seq<ItemId>)
    requires rows != [] && rows' != [] && rows[0] == rows'[0] && rows[1..] == rows'[1..]
    ensures rows == rows'
  {
  }

  /** There is only one such page. */
  lemma {:induction false} PageIsUnique(f: Feed, after: Option<nat>, until: Option<int>, limit: nat,
                                        rows: seq<ItemId>, rows': seq<ItemId>)
    requires Unique(f) && IsPage(f, after, until, limit, rows) && IsPage(f, after, until, limit, rows')
    ensures rows == rows'
    decreases limit
  {
    hide Unique, IsPage, InPage;
    if rows == [] {
      if rows' != [] { SameHead(f, after, until, limit, rows', rows); }
    } else {
      SameHead(f, after, until, limit, rows, rows');
      RestIsPage(f, after, until, limit, rows);
      RestIsPage(f, after, until, limit, rows');
      PageIsUnique(f, Some(f.ledger[rows[0]].no), until, limit - 1, rows[1..], rows'[1..]);
      HeadAndTail(rows, rows');
    }
  }

  // ------------------------------------------------- the state machine with a consumer

  datatype Delivered = Delivered(version: Version, chat: string, firstArrival: int)

  /** A consumer first walks up to `until`, posting nothing, and then goes live. */
  datatype Consumer = Consumer(until: int, live: bool, cursor: Option<nat>, got: map<ItemId, Delivered>)

  datatype State = State(feed: Feed, consumer: Consumer)

  /** An upsert may write anything under any changekey: a replay after a failed
      flush, or a repair of the bodies, rewrites the text under the old one. */
  datatype Step =
    | Upsert(id: ItemId, letter: Letter)
    | Remove(id: ItemId)
    | Sweep(order: seq<ItemId>, now: int)
    | AbortedSweep(taken: nat)
    | Bootstrap(until: int)
    | Walk(limit: nat, rows: seq<ItemId>)
    | GoLive
    | Poll(limit: nat, rows: seq<ItemId>)

  ghost predicate Enabled(s: State, step: Step) {
    var f, c := s.feed, s.consumer;
    match step
    case Upsert(_, _) => true
    case Remove(_) => true
    case Sweep(order, now) => IsOrder(f, order) && f.started <= now
    case AbortedSweep(_) => true
    case Bootstrap(_) => true
    case Walk(limit, rows) => !c.live && IsPage(f, c.cursor, Some(c.until), limit, rows)
    case GoLive => !c.live
    case Poll(limit, rows) => c.live && IsPage(f, c.cursor, None, limit, rows)
  }

  /** Only enabled steps are ever applied; a sweep that is not an order of what
      is due, or a page with a row outside the ledger, changes nothing. */
  ghost function Apply(s: State, step: Step): State
    requires Enabled(s, step)
  {
    var f, c := s.feed, s.consumer;
    match step
    case Upsert(id, l) => s.(feed := f.(letters := f.letters[id := l]))
    case Remove(id) => s.(feed := f.(letters := f.letters - {id}, ledger := f.ledger - {id}))
    case Sweep(order, now) => s.(feed := Swept(f, order, now).(started := now))
    case AbortedSweep(taken) => s.(feed := f.(last := f.last + taken))
    case Bootstrap(until) => s.(consumer := Consumer(until, false, None, map[]))
    case Walk(_, rows) => s.(consumer := c.(cursor := Some(NextCursor(f, c.cursor, rows))))
    case GoLive => s.(consumer := c.(live := true))
    case Poll(_, rows) =>
      s.(consumer := c.(cursor := Some(NextCursor(f, c.cursor, rows)),
                        got := c.got + Shown(f, rows)))
  }

  /** What the rows of a page say, by the letters as they stand at that moment. */
  function Shown(f: Feed, rows: seq<ItemId>): map<ItemId, Delivered> {
    map i | i in rows && i in f.letters && i in f.ledger ::
      Delivered(f.letters[i].version, f.ledger[i].chat, f.ledger[i].firstArrival)
  }

  // -------------------------------------------------------------- the invariant

  predicate Passed(c: Consumer, row: Arrival) {
    c.cursor.Some? && row.no <= c.cursor.value
  }

  /** A message the cursor has passed was inside the bootstrap window, or the
      consumer holds it, under its one chat and its first arrival. */
  ghost predicate Covered(s: State, id: ItemId)
    requires id in s.feed.ledger && id in s.feed.letters
  {
    var row, c := s.feed.ledger[id], s.consumer;
    || row.firstSeen <= c.until
    || (c.live && id in c.got && c.got[id].chat == row.chat && c.got[id].firstArrival == row.firstArrival)
  }

  ghost predicate Inv(s: State) {
    var f, c := s.feed, s.consumer;
    && Unique(f) && Ordered(f)
    && (forall i :: i in f.ledger ==> f.ledger[i].firstArrival <= f.ledger[i].firstSeen <= f.started)
    && (c.cursor.Some? ==> c.cursor.value <= f.last)
    && (forall i :: i in f.ledger && Passed(c, f.ledger[i]) ==> Covered(s, i))
  }

  lemma UpsertKeeps(s: State, id: ItemId, l: Letter)
    requires Inv(s) && Enabled(s, Upsert(id, l))
    ensures Inv(Apply(s, Upsert(id, l)))
  {
  }

  lemma RemoveKeeps(s: State, id: ItemId)
    requires Inv(s)
    ensures Inv(Apply(s, Remove(id)))
  {
  }

  lemma SweepKeeps(s: State, order: seq<ItemId>, now: int)
    requires Inv(s) && Enabled(s, Sweep(order, now))
    ensures Inv(Apply(s, Sweep(order, now)))
  {
    hide Swept, IsOrder, Due, IsDue, Covered, Ordered, Passed;
    var f, s' := s.feed, Apply(s, Sweep(order, now));
    SweepNumbers(f, order, now);
    SweepOrders(s, order, now);
    forall i | i in s'.feed.ledger
      ensures s'.feed.ledger[i].firstArrival <= s'.feed.ledger[i].firstSeen <= now
      ensures Passed(s'.consumer, s'.feed.ledger[i]) ==> Covered(s', i)
      ensures !IsDue(s'.feed, i)
    {
      SweepKeepsRow(s, order, now, i);
    }
  }

  lemma SweepOrders(s: State, order: seq<ItemId>, now: int)
    requires Inv(s) && Enabled(s, Sweep(order, now))
    ensures Ordered(Apply(s, Sweep(order, now)).feed) && s.feed.last <= Apply(s, Sweep(order, now)).feed.last
  {
    SweepFrame(s.feed, order, now);
    if order != [] { SweepKeepsOrderExactly(s.feed, order, now); }
  }

  lemma SweepKeepsRow(s: State, order: seq<ItemId>, now: int, id: ItemId)
    requires Inv(s) && Enabled(s, Sweep(order, now)) && id in s.feed.letters
    ensures var s' := Apply(s, Sweep(order, now));
            && id in s'.feed.ledger && !IsDue(s'.feed, id)
            && s'.feed.ledger[id].firstArrival <= s'.feed.ledger[id].firstSeen <= now
            && (Passed(s'.consumer, s'.feed.ledger[id]) ==> Covered(s', id))
  {
    var f := s.feed;
    SweepNumbers(f, order, now);
    var g := Swept(f, order, now);
    assert id in g.ledger && id !in Due(g);
    if id in Due(f) {
      SweepArrival(f, order, now, id);
    } else {
      assert id in f.ledger;
      if Passed(s.consumer, f.ledger[id]) { assert Covered(s, id); }
    }
  }

  lemma SweepArrival(f: Feed, order: seq<ItemId>, now: int, id: ItemId)
    requires Unique(f) && IsOrder(f, order) && id in Due(f)
    requires forall i :: i in f.ledger ==> f.ledger[i].firstArrival <= f.ledger[i].firstSeen <= now
    ensures id in Swept(f, order, now).ledger && Swept(f, order, now).ledger[id].firstArrival <= now
  {
    var k :| 0 <= k < |order| && order[k] == id;
    SweepAt(f, order, now, k);
  }

  /** A page leaves no gap: whatever lies at or below the new cursor was at or
      below the old one, or is on the page. */
  lemma PageLeavesNoGap(f: Feed, after: Option<nat>, until: Option<int>, limit: nat, rows: seq<ItemId>, id: ItemId)
    requires Unique(f) && Ordered(f) && IsPage(f, after, until, limit, rows)
    requires id in f.ledger && f.ledger[id].no <= NextCursor(f, after, rows)
    ensures (after.Some? && f.ledger[id].no <= after.value) || id in rows
    ensures until.Some? && id in rows ==> f.ledger[id].firstSeen <= until.value
  {
  }

  /** The cursor stays within the numbers handed out and never moves backwards. */
  lemma CursorAdvances(f: Feed, after: Option<nat>, until: Option<int>, limit: nat, rows: seq<ItemId>)
    requires Unique(f) && IsPage(f, after, until, limit, rows)
    requires after.Some? ==> after.value <= f.last
    ensures NextCursor(f, after, rows) <= f.last
    ensures after.Some? ==> after.value <= NextCursor(f, after, rows)
    ensures after.Some? && rows != [] ==> after.value < NextCursor(f, after, rows)
  {
  }

  lemma WalkKeeps(s: State, limit: nat, rows: seq<ItemId>)
    requires Inv(s) && Enabled(s, Walk(limit, rows))
    ensures Inv(Apply(s, Walk(limit, rows)))
  {
    var f, c, s' := s.feed, s.consumer, Apply(s, Walk(limit, rows));
    CursorAdvances(f, c.cursor, Some(c.until), limit, rows);
    forall i | i in f.ledger && Passed(s'.consumer, f.ledger[i]) ensures Covered(s', i) {
      PageLeavesNoGap(f, c.cursor, Some(c.until), limit, rows, i);
      if Passed(c, f.ledger[i]) { assert Covered(s, i); }
    }
  }

  lemma PollKeeps(s: State, limit: nat, rows: seq<ItemId>)
    requires Inv(s) && Enabled(s, Poll(limit, rows))
    ensures Inv(Apply(s, Poll(limit, rows)))
  {
    var f, c, s' := s.feed, s.consumer, Apply(s, Poll(limit, rows));
    CursorAdvances(f, c.cursor, None, limit, rows);
    forall i | i in f.ledger && Passed(s'.consumer, f.ledger[i]) ensures Covered(s', i) {
      PageLeavesNoGap(f, c.cursor, None, limit, rows, i);
      if i !in rows { assert Covered(s, i); }
    }
  }

  /** Every step keeps the invariant. */
  lemma StepKeeps(s: State, step: Step)
    requires Inv(s) && Enabled(s, step)
    ensures Inv(Apply(s, step))
  {
    match step
    case Upsert(id, l) => UpsertKeeps(s, id, l);
    case Remove(id) => RemoveKeeps(s, id);
    case Sweep(order, now) => SweepKeeps(s, order, now);
    case Walk(limit, rows) => WalkKeeps(s, limit, rows);
    case Poll(limit, rows) => PollKeeps(s, limit, rows);
    case GoLive => GoLiveKeeps(s);
    case AbortedSweep(taken) => AbortKeeps(s, taken);
    case Bootstrap(until) => BootstrapKeeps(s, until);
  }

  lemma GoLiveKeeps(s: State)
    requires Inv(s) && Enabled(s, GoLive)
    ensures Inv(Apply(s, GoLive))
  {
  }

  /** Numbers taken by a sweep that rolled back are gaps. */
  lemma AbortKeeps(s: State, taken: nat)
    requires Inv(s)
    ensures Inv(Apply(s, AbortedSweep(taken)))
  {
    var s' := s.(feed := s.feed.(last := s.feed.last + taken));
    assert Unique(s'.feed) && Ordered(s'.feed) by { hide Covered, Passed, IsDue; }
    forall i | i in s.feed.ledger && Passed(s.consumer, s.feed.ledger[i]) ensures Covered(s', i) { assert Covered(s, i); }
    hide Unique, Ordered, IsDue, Covered;
  }

  lemma BootstrapKeeps(s: State, until: int)
    requires Inv(s)
    ensures Inv(Apply(s, Bootstrap(until)))
  {
  }

  // --------------------------------------------------------------- whole runs

  /** The first migration's backfill: the messages ranked by a reconstructed
      arrival, never later than the migration itself. */
  ghost predicate Backfilled(f: Feed) {
    && f.ledger.Keys <= f.letters.Keys
    && (forall i :: i in f.ledger ==>
          && 1 <= f.ledger[i].no <= f.last
          && f.ledger[i].ck == f.letters[i].version.ck
          && f.ledger[i].firstArrival == f.ledger[i].firstSeen <= f.started)
    && (forall i, j :: i in f.ledger && j in f.ledger && i != j ==>
          f.ledger[i].no != f.ledger[j].no &&
          (f.ledger[i].no < f.ledger[j].no ==> f.ledger[i].firstSeen <= f.ledger[j].firstSeen))
  }

  ghost predicate Init(s: State) {
    Backfilled(s.feed) && s.consumer.cursor.None?
  }

  ghost predicate Run(ss: seq<State>, steps: seq<Step>) {
    && |ss| == |steps| + 1
    && Init(ss[0])
    && forall k :: 0 <= k < |steps| ==> Enabled(ss[k], steps[k]) && ss[k + 1] == Apply(ss[k], steps[k])
  }

  lemma {:induction false} RunKeeps(ss: seq<State>, steps: seq<Step>, k: nat)
    requires Run(ss, steps) && k < |ss|
    ensures Inv(ss[k])
  {
    hide Inv, Enabled, Apply;
    if k > 0 {
      RunKeeps(ss, steps, k - 1);
      StepKeeps(ss[k - 1], steps[k - 1]);
    } else {
      StartKeeps(ss[0]);
    }
  }

  lemma StartKeeps(s: State)
    requires Init(s)
    ensures Inv(s)
  {
  }

  /** A write the sweep cannot see: what is shown changes, and the changekey
      left in place is the one the ledger already has. */
  predicate Silent(f: Feed, id: ItemId, l: Letter) {
    && id in f.letters && id in f.ledger
    && l.version.ck == f.ledger[id].ck && l.version != f.letters[id].version
  }

  /** The version the latest silent write put there since the message was last
      delivered, if there was one. */
  ghost function LastSilent(ss: seq<State>, steps: seq<Step>, k: nat, id: ItemId): Option<Version>
    requires |ss| == |steps| + 1 && k < |ss|
  {
    if k == 0 then None
    else match steps[k - 1]
      case Upsert(i, l) => if i == id && Silent(ss[k - 1].feed, id, l) then Some(l.version) else LastSilent(ss, steps, k - 1, id)
      case Poll(_, rows) => if id in rows then None else LastSilent(ss, steps, k - 1, id)
      case _ => LastSilent(ss, steps, k - 1, id)
  }

  /** A message a live consumer has passed after its bootstrap window, and which
      no sweep is about to offer again. */
  ghost predicate Settled(s: State, id: ItemId) {
    && s.consumer.live && id in s.feed.letters && id in s.feed.ledger && !IsDue(s.feed, id)
    && Passed(s.consumer, s.feed.ledger[id]) && s.consumer.until < s.feed.ledger[id].firstSeen
  }

  /** A step that leaves the message settled found it settled, or delivered it,
      or wrote it back under the changekey the ledger has. */
  lemma SettledBefore(s: State, step: Step, id: ItemId)
    requires Inv(s) && Enabled(s, step) && Settled(Apply(s, step), id)
    ensures Settled(s, id) || (step.Poll? && id in step.rows) || (step.Upsert? && step.id == id && Silent(s.feed, id, step.letter))
  {
    if step.Poll? { PageLeavesNoGap(s.feed, s.consumer.cursor, None, step.limit, step.rows, id); }
    if step.Sweep? {
      SweepNumbers(s.feed, step.order, step.now);
      assert id in Due(s.feed) <==> IsDue(s.feed, id);
    }
  }

  /** Otherwise the step changed neither what is stored nor what is held. */
  lemma SettledUnchanged(s: State, step: Step, id: ItemId)
    requires Inv(s) && Enabled(s, step) && Settled(s, id) && Settled(Apply(s, step), id)
    requires !(step.Poll? && id in step.rows) && !(step.Upsert? && step.id == id && Silent(s.feed, id, step.letter))
    ensures Apply(s, step).feed.letters[id].version == s.feed.letters[id].version
    ensures id in s.consumer.got ==> id in Apply(s, step).consumer.got && Apply(s, step).consumer.got[id] == s.consumer.got[id]
  {
  }

  /** What is stored and what the consumer holds, of a settled message: they
      differ by the silent writes since the delivery and by nothing else. */
  lemma {:induction false} StoredVersionIs(ss: seq<State>, steps: seq<Step>, k: nat, id: ItemId)
    requires Run(ss, steps) && k < |ss| && Settled(ss[k], id)
    ensures id in ss[k].consumer.got
    ensures ss[k].feed.letters[id].version ==
              match LastSilent(ss, steps, k, id) case Some(v) => v case None => ss[k].consumer.got[id].version
  {
    RunKeeps(ss, steps, k);
    assert Covered(ss[k], id);
    if k > 0 {
      RunKeeps(ss, steps, k - 1);
      var s, step := ss[k - 1], steps[k - 1];
      SettledBefore(s, step, id);
      if step.Poll? && id in step.rows {
      } else if step.Upsert? && step.id == id && Silent(s.feed, id, step.letter) {
      } else {
        StoredVersionIs(ss, steps, k - 1, id);
        SettledUnchanged(s, step, id);
      }
    }
  }

  /** A changekey the message had left is written back before a sweep saw it gone. */
  ghost predicate KeyReturns(s: State, step: Step, id: ItemId) {
    && step.Upsert? && step.id == id && id in s.feed.letters && id in s.feed.ledger
    && step.letter.version.ck == s.feed.ledger[id].ck != s.feed.letters[id].version.ck
  }

  /** The consumer holds a settled message under the changekey that is stored,
      whatever is rewritten under it, unless an old changekey came back. */
  lemma {:induction false} HeldKeyIsStored(ss: seq<State>, steps: seq<Step>, k: nat, id: ItemId)
    requires Run(ss, steps) && k < |ss| && Settled(ss[k], id)
    ensures id in ss[k].consumer.got
    ensures ss[k].consumer.got[id].version.ck == ss[k].feed.letters[id].version.ck ||
            exists j :: 0 <= j < k && KeyReturns(ss[j], steps[j], id)
  {
    StoredVersionIs(ss, steps, k, id);
    if k > 0 {
      RunKeeps(ss, steps, k - 1);
      var s, step := ss[k - 1], steps[k - 1];
      SettledBefore(s, step, id);
      if Settled(s, id) {
        HeldKeyIsStored(ss, steps, k - 1, id);
        if !(step.Poll? && id in step.rows) && !(step.Upsert? && step.id == id && Silent(s.feed, id, step.letter)) {
          SettledUnchanged(s, step, id);
        }
      } else if step.Upsert? {
        assert KeyReturns(s, step, id) || !IsDue(s.feed, id);
      }
    }
  }

  /** The change feed loses no message.  At any point of any run, for every
      message in the store and a consumer that is live: the next sweep will
      offer it, or it lies ahead of the cursor, or it arrived inside the
      bootstrap window, or the consumer has it under its one chat.  It has it in
      the version stored exactly when the silent writes since the delivery, if
      there were any, have put that version back. */
  lemma NothingIsLost(ss: seq<State>, steps: seq<Step>, k: nat, id: ItemId)
    requires Run(ss, steps) && k < |ss| && id in ss[k].feed.letters && ss[k].consumer.live
    ensures var f, c := ss[k].feed, ss[k].consumer;
            || IsDue(f, id)
            || (id in f.ledger && (c.cursor.None? || c.cursor.value < f.ledger[id].no))
            || (id in f.ledger && f.ledger[id].firstSeen <= c.until)
            || (id in f.ledger && id in c.got
                && c.got[id].chat == f.ledger[id].chat && c.got[id].firstArrival == f.ledger[id].firstArrival
                && (c.got[id].version == f.letters[id].version <==>
                      LastSilent(ss, steps, k, id) in {None, Some(c.got[id].version)}))
  {
    RunKeeps(ss, steps, k);
    if Settled(ss[k], id) {
      assert Covered(ss[k], id);
      StoredVersionIs(ss, steps, k, id);
    }
  }

  /** No silent write in the run: then what is held is what is stored. */
  lemma {:induction false} NoSilentWrite(ss: seq<State>, steps: seq<Step>, k: nat, id: ItemId)
    requires Run(ss, steps) && k < |ss|
    requires forall j :: 0 <= j < k && steps[j].Upsert? && steps[j].id == id ==> !Silent(ss[j].feed, id, steps[j].letter)
    ensures LastSilent(ss, steps, k, id) == None
  {
    if k > 0 { NoSilentWrite(ss, steps, k - 1, id); }
  }

  /** An empty page right after a sweep: the consumer holds everything after its
      window, and in the version stored for each message that was never written
      silently. */
  lemma EmptyPageMeansUpToDate(ss: seq<State>, steps: seq<Step>, k: nat, limit: nat, id: ItemId)
    requires Run(ss, steps) && k < |ss| && 1 <= limit
    requires var s := ss[k]; s.consumer.live && Due(s.feed) == {} && IsPage(s.feed, s.consumer.cursor, None, limit, [])
    requires id in ss[k].feed.letters
    ensures id in ss[k].feed.ledger
    ensures ss[k].feed.ledger[id].firstSeen <= ss[k].consumer.until || id in ss[k].consumer.got
    ensures ss[k].consumer.until < ss[k].feed.ledger[id].firstSeen ==>
              (ss[k].consumer.got[id].version == ss[k].feed.letters[id].version <==>
                LastSilent(ss, steps, k, id) in {None, Some(ss[k].consumer.got[id].version)})
    ensures (forall j :: 0 <= j < k && steps[j].Upsert? && steps[j].id == id ==> !Silent(ss[j].feed, id, steps[j].letter)) ==>
              LastSilent(ss, steps, k, id) == None
  {
    var s := ss[k];
    assert id !in Due(s.feed);
    NothingIsLost(ss, steps, k, id);
    assert !InPage(s.feed, s.consumer.cursor, None, id);
    if forall j :: 0 <= j < k && steps[j].Upsert? && steps[j].id == id ==> !Silent(ss[j].feed, id, steps[j].letter) {
      NoSilentWrite(ss, steps, k, id);
    }
  }

  /** A version that was missed stays missed: only a write to the message, its
      removal or a new bootstrap changes what the consumer holds of it. */
  lemma MissedStaysMissed(s: State, step: Step, id: ItemId)
    requires Inv(s) && Enabled(s, step) && Settled(s, id)
    requires !step.Bootstrap? && step != Remove(id) && !(step.Upsert? && step.id == id)
    ensures var s' := Apply(s, step);
            && Settled(s', id) && s'.feed.letters[id] == s.feed.letters[id]
            && (id in s.consumer.got ==> id in s'.consumer.got && s'.consumer.got[id] == s.consumer.got[id])
  {
    assert Covered(s, id);
    if step.Sweep? {
      assert id !in Due(s.feed);
      SweepNumbers(s.feed, step.order, step.now);
      SweepFrame(s.feed, step.order, step.now);
      assert id !in Due(Apply(s, step).feed);
    }
    if step.Poll? {
      CursorAdvances(s.feed, s.consumer.cursor, None, step.limit, step.rows);
      assert !InPage(s.feed, s.consumer.cursor, None, id);
    }
  }

  /** At any point of any run an `until` bound cuts the stream at one number:
      a page bounded by it is a page of a prefix. */
  lemma UntilCutsAtANumber(ss: seq<State>, steps: seq<Step>, k: nat, until: int) returns (cut: nat)
    requires Run(ss, steps) && k < |ss|
    ensures cut <= ss[k].feed.last
    ensures forall i, after :: InPage(ss[k].feed, after, Some(until), i) <==>
                                 InPage(ss[k].feed, after, None, i) && ss[k].feed.ledger[i].no <= cut
  {
    RunKeeps(ss, steps, k);
    var f := ss[k].feed;
    var inside := set i | i in f.ledger && f.ledger[i].firstSeen <= until;
    cut := Highest(f, inside);
    forall i | i in f.ledger ensures f.ledger[i].firstSeen <= until <==> f.ledger[i].no <= cut {
      assert f.ledger[i].firstSeen <= until <==> i in inside;
    }
  }

  lemma {:induction false} Highest(f: Feed, ids: set<ItemId>) returns (cut: nat)
    requires Unique(f) && ids <= f.ledger.Keys
    ensures cut <= f.last && forall i :: i in ids ==> f.ledger[i].no <= cut
    ensures ids == {} ==> cut == 0
    ensures ids != {} ==> exists i :: i in ids && f.ledger[i].no == cut
  {
    if ids == {} { return 0; }
    var i :| i in ids;
    cut := Highest(f, ids - {i});
    if cut < f.ledger[i].no { cut := f.ledger[i].no; }
  }

  /** What a poll has still to bring. */
  function Ahead(f: Feed, after: Option<nat>): set<ItemId> {
    set i | i in f.ledger && InPage(f, after, None, i)
  }

  /** A poll removes exactly its rows from what lies ahead, and as many as it
      is allowed: polling until a page is short always ends. */
  lemma PollDrains(f: Feed, after: Option<nat>, limit: nat, rows: seq<ItemId>)
    requires Unique(f) && Ordered(f) && IsPage(f, after, None, limit, rows)
    requires after.Some? || 0 < limit
    ensures Ahead(f, Some(NextCursor(f, after, rows))) == Ahead(f, after) - set i | i in rows
    ensures |rows| < limit ==> Ahead(f, Some(NextCursor(f, after, rows))) == {}
    ensures |Ahead(f, Some(NextCursor(f, after, rows)))| == |Ahead(f, after)| - |rows|
  {
    hide IsPage, InPage, Unique, Ordered, NextCursor, Ahead;
    AheadIsTaken(f, after, limit, rows);
    var taken := set i | i in rows;
    assert |Ahead(f, after) - taken| == |Ahead(f, after)| - |taken|;
  }

  lemma AheadIsTaken(f: Feed, after: Option<nat>, limit: nat, rows: seq<ItemId>)
    requires Unique(f) && Ordered(f) && IsPage(f, after, None, limit, rows)
    ensures var taken := set i | i in rows;
            && Ahead(f, Some(NextCursor(f, after, rows))) == Ahead(f, after) - taken
            && taken <= Ahead(f, after) && |taken| == |rows|
            && (|rows| < limit ==> Ahead(f, after) <= taken)
  {
    forall i | i in f.ledger ensures i in Ahead(f, Some(NextCursor(f, after, rows))) <==> i in Ahead(f, after) && i !in rows {
      AheadOfPage(f, after, limit, rows, i);
    }
    hide NextCursor;
    assert forall i :: i in rows ==> InPage(f, after, None, i);
    RowsAreDistinct(f, rows);
  }

  lemma AheadOfPage(f: Feed, after: Option<nat>, limit: nat, rows: seq<ItemId>, id: ItemId)
    requires Unique(f) && Ordered(f) && IsPage(f, after, None, limit, rows) && id in f.ledger
    ensures NextCursor(f, after, rows) < f.ledger[id].no <==> InPage(f, after, None, id) && id !in rows
  {
  }

  lemma {:induction false} RowsAreDistinct(f: Feed, rows: seq<ItemId>)
    requires forall i :: i in rows ==> i in f.ledger
    requires forall j, k :: 0 <= j < k < |rows| ==> f.ledger[rows[j]].no < f.ledger[rows[k]].no
    ensures |set i | i in rows| == |rows|
  {
    if rows != [] {
      var rest, last := rows[..|rows| - 1], rows[|rows| - 1];
      RowsAreDistinct(f, rest);
      assert last !in rest;
      assert (set i | i in rows) == (set i | i in rest) + {last};
    }
  }

  /** Cursors never move backwards within one bootstrap. */
  lemma CursorNeverMovesBack(s: State, step: Step)
    requires Inv(s) && Enabled(s, step) && !step.Bootstrap? && s.consumer.cursor.Some?
    ensures Apply(s, step).consumer.cursor.Some?
    ensures s.consumer.cursor.value <= Apply(s, step).consumer.cursor.value
  {
  }

  /** While a message stays in the store its chat and its first arrival are
      pinned, and its sequence only ever moves up past every cursor. */
  lemma FirstSightIsPinned(s: State, step: Step, id: ItemId)
    requires Inv(s) && Enabled(s, step) && id in s.feed.ledger && step != Remove(id)
    ensures id in Apply(s, step).feed.ledger
    ensures var row, row' := s.feed.ledger[id], Apply(s, step).feed.ledger[id];
            && row'.chat == row.chat && row'.firstArrival == row.firstArrival
            && (row'.no == row.no || s.feed.last < row'.no)
  {
    if step.Sweep? { SweepNumbers(s.feed, step.order, step.now); }
  }

  /** The chats route: the pinned id, or the one a sweep would pin. */
  function Chats(f: Feed): set<string> {
    set i | i in f.letters :: if i in f.ledger then f.ledger[i].chat else ChatOf(i, f.letters[i])
  }

  /** What the chats route names: the chat a message was given at first sight,
      or, before any sweep has seen it, its conversation, or else its own id. */
  lemma ChatsNameExactly(f: Feed, chat: string)
    ensures chat in Chats(f) <==>
              exists i :: i in f.letters &&
                if i in f.ledger then f.ledger[i].chat == chat
                else match f.letters[i].conversation case Some(c) => c == chat case None => i == chat
  {
  }

  /** That is the chat the next sweep gives it, so a sweep changes nothing of
      what the route names. */
  lemma SweepKeepsChats(f: Feed, order: seq<ItemId>, now: int)
    requires Unique(f) && IsOrder(f, order)
    ensures Chats(Swept(f, order, now)) == Chats(f)
  {
    hide Swept, Unique, IsDue;
    var g := Swept(f, order, now);
    SweepNumbers(f, order, now);
    assert g.letters == f.letters;
    forall i | i in f.letters
      ensures i in g.ledger
      ensures g.ledger[i].chat == (if i in f.ledger then f.ledger[i].chat else ChatOf(i, f.letters[i]))
    {
    }
  }

  /** Messages of one conversation that are first seen with it share a chat,
      however many sweeps lie between their discoveries, and for good. */
  lemma ConversationsShareAChat(ss: seq<State>, steps: seq<Step>, j: nat, k: nat, n: nat, a: ItemId, b: ItemId)
    requires Run(ss, steps) && j < |steps| && k < |steps| && j < n < |ss| && k < n
    requires FirstSeen(ss, steps, j, n, a) && FirstSeen(ss, steps, k, n, b)
    requires ss[j].feed.letters[a].conversation == ss[k].feed.letters[b].conversation
    requires ss[j].feed.letters[a].conversation.Some?
    ensures a in ss[n].feed.ledger && b in ss[n].feed.ledger
    ensures ss[n].feed.ledger[a].chat == ss[n].feed.ledger[b].chat == ss[j].feed.letters[a].conversation.value
  {
    hide Enabled, Apply, Init;
    FirstSightLasts(ss, steps, j, n, a);
    FirstSightLasts(ss, steps, k, n, b);
  }

  /** A message met by this sweep for the first time, and not removed since. */
  ghost predicate FirstSeen(ss: seq<State>, steps: seq<Step>, j: nat, n: nat, id: ItemId) {
    && j < n < |ss| && |ss| == |steps| + 1
    && steps[j].Sweep? && id in ss[j].feed.letters && id !in ss[j].feed.ledger
    && forall t :: j < t < n ==> steps[t] != Remove(id)
  }

  lemma SweepIs(s: State, step: Step)
    requires Enabled(s, step) && step.Sweep?
    ensures IsOrder(s.feed, step.order) && Apply(s, step).feed == Swept(s.feed, step.order, step.now).(started := step.now)
  {
    hide Swept, IsOrder;
  }

  lemma {:induction false} FirstSightLasts(ss: seq<State>, steps: seq<Step>, j: nat, n: nat, id: ItemId)
    requires Run(ss, steps) && FirstSeen(ss, steps, j, n, id)
    ensures id in ss[n].feed.ledger
    ensures match ss[j].feed.letters[id].conversation
            case Some(c) => ss[n].feed.ledger[id].chat == c
            case None => ss[n].feed.ledger[id].chat == id
    ensures ss[n].feed.ledger[id].firstArrival == steps[j].now
  {
    hide Enabled, Apply, Init;
    if n == j + 1 {
      RunKeeps(ss, steps, j);
      SweepIs(ss[j], steps[j]);
      SweepNumbers(ss[j].feed, steps[j].order, steps[j].now);
    } else {
      FirstSightLasts(ss, steps, j, n - 1, id);
      RunKeeps(ss, steps, n - 1);
      FirstSightIsPinned(ss[n - 1], steps[n - 1], id);
    }
  }

  /** Every conversation a consumer has been told of is one `chats` names, for
      as long as the message is in the store. */
  lemma ChatsNameWhatWasDelivered(ss: seq<State>, steps: seq<Step>, k: nat, id: ItemId)
    requires Run(ss, steps) && k < |ss| && ss[k].consumer.live && id in ss[k].feed.ledger
    requires Passed(ss[k].consumer, ss[k].feed.ledger[id]) && ss[k].consumer.until < ss[k].feed.ledger[id].firstSeen
    ensures id in ss[k].consumer.got && ss[k].consumer.got[id].chat in Chats(ss[k].feed)
  {
    RunKeeps(ss, steps, k);
    assert Covered(ss[k], id);
    assert id in ss[k].feed.letters;
  }

  ghost predicate Reachable(s: State) {
    exists ss: seq<State>, steps: seq<Step> :: Run(ss, steps) && ss[|steps|] == s
  }

  lemma Continue(s: State, step: Step, s': State)
    requires Reachable(s) && Enabled(s, step) && s' == Apply(s, step)
    ensures Reachable(s')
  {
    hide Enabled, Apply, Init;
    var ss: seq<State>, steps: seq<Step> :| Run(ss, steps) && ss[|steps|] == s;
    assert Run(ss + [s'], steps + [step]);
  }

  const BARE := Letter(Version(Some("k"), ""), None)
  const FULL := Letter(Version(Some("k"), "text"), None)
  const FIRST_ROW := Arrival(1, Some("k"), 2, 2, "a")
  const TOLD := Consumer(1, true, Some(1), map["a" := Delivered(BARE.version, "a", 2)])

  /** A mail is stored without its body, swept and delivered; the body comes
      later under the same changekey.  It is never offered to the consumer. */
  lemma RewrittenBodyIsMissed()
    ensures exists s, id :: Reachable(s) && Settled(s, id) && id in s.consumer.got &&
              s.consumer.got[id].version.body == "" && s.feed.letters[id].version.body == "text"
  {
    BareIsTold();
    var told := State(Feed(map["a" := BARE], map["a" := FIRST_ROW], 1, 2), TOLD);
    var end := State(Feed(map["a" := FULL], map["a" := FIRST_ROW], 1, 2), TOLD);
    hide Reachable;
    Continue(told, Upsert("a", FULL), end);
    assert Settled(end, "a");
  }

  lemma BareIsTold()
    ensures Reachable(State(Feed(map["a" := BARE], map["a" := FIRST_ROW], 1, 2), TOLD))
  {
    var swept := State(Feed(map["a" := BARE], map["a" := FIRST_ROW], 1, 2), Consumer(1, true, None, map[]));
    BareIsSwept(swept);
    hide Reachable;
    assert InPage(swept.feed, None, None, "a");
    Continue(swept, Poll(500, ["a"]), swept.(consumer := TOLD));
  }

  lemma BareIsSwept(swept: State)
    requires swept == State(Feed(map["a" := BARE], map["a" := FIRST_ROW], 1, 2), Consumer(1, true, None, map[]))
    ensures Reachable(swept)
  {
    var none := State(Feed(map[], map[], 0, 0), Consumer(1, true, None, map[]));
    var stored := none.(feed := Feed(map["a" := BARE], map[], 0, 0));
    StartIsReachable(none);
    hide Reachable;
    Continue(none, Upsert("a", BARE), stored);
    OneIsSwept(stored.feed, swept.feed, "a", 2);
    Continue(stored, Sweep(["a"], 2), swept);
  }

  lemma StartIsReachable(s: State)
    requires Init(s)
    ensures Reachable(s)
  {
    var none: seq<Step> := [];
    assert Run([s], none) && [s][|none|] == s;
  }

  lemma OneIsSwept(f: Feed, g: Feed, id: ItemId, now: int)
    requires Due(f) == {id} && id in f.letters && g == Entered(f, id, now).(started := now)
    ensures IsOrder(f, [id]) && Swept(f, [id], now).(started := now) == g
  {
    assert [id][..0] == [] && Swept(f, [], now) == f;
    assert forall i :: i in [id] <==> i in Due(f);
  }

  /** Sweeps must take the lock in the order their transactions began.  Here `a`
      is numbered by a sweep that began at 2; a sweep that began at 1 waited for
      the lock and then numbers `b`.  A walk bounded by 1 ends past `a`, which
      arrived after the bound and is never offered again. */
  lemma OverlappingSweepsLoseMail()
    ensures exists f: Feed, f': Feed, order: seq<ItemId>, rows: seq<ItemId>, a: ItemId ::
              && Unique(f) && Ordered(f) && IsOrder(f, order) && f' == Swept(f, order, 1)
              && IsPage(f', None, Some(1), 500, rows)
              && a in f'.ledger && f'.ledger[a].no <= NextCursor(f', None, rows) && 1 < f'.ledger[a].firstSeen
  {
    var v := Letter(Version(Some("k"), "text"), None);
    var f := Feed(map["a" := v, "b" := v], map["a" := Arrival(1, Some("k"), 2, 2, "a")], 1, 2);
    var order := ["b"];
    var f' := f.(last := 2, ledger := f.ledger["b" := Arrival(2, Some("k"), 1, 1, "b")]);
    assert Swept(f, order, 1) == f' by {
      assert order[..0] == [] && order[|order| - 1] == "b";
      assert Swept(f, order[..0], 1) == f;
    }
    assert "b" in order && IsDue(f, "b") && !IsDue(f, "a");
    assert IsOrder(f, order);
    assert InPage(f', None, Some(1), "b");
    assert IsPage(f', None, Some(1), 500, ["b"]);
    assert f'.ledger["a"].no <= NextCursor(f', None, ["b"]);
  }

  // ------------------------------------------------------------ the program

  lemma SweptThen(f: Feed, order: seq<ItemId>, id: ItemId, now: int)
    requires forall i :: i in order + [id] ==> i in f.letters
    ensures id in f.letters && forall i :: i in order ==> i in f.letters
    ensures Swept(f, order + [id], now) == Entered(Swept(f, order, now), id, now)
  {
  }

  /** A sweep half done: what is left of what was due, and the order so far. */
  ghost predicate Taken(f: Feed, due: set<ItemId>, order: seq<ItemId>) {
    && (forall i :: i in due || i in order <==> i in Due(f))
    && (forall i :: i in order ==> i !in due)
    && (forall i, j :: 0 <= i < j < |order| ==> order[i] != order[j])
  }

  lemma NothingTaken(f: Feed)
    ensures Taken(f, Due(f), [])
  {
  }

  lemma OneIsTaken(f: Feed, due: set<ItemId>, order: seq<ItemId>, id: ItemId)
    requires Taken(f, due, order) && id in due
    ensures Taken(f, due - {id}, order + [id]) && id in f.letters
  {
    hide IsDue;
    assert id in Due(f);
    assert forall i :: i in order + [id] <==> i in order || i == id;
  }

  lemma InOrderOfDue(f: Feed, order: seq<ItemId>)
    requires Taken(f, {}, order)
    ensures IsOrder(f, order)
  {
  }

  lemma SameFeed(f: Feed, now: int)
    ensures Due(f.(started := now)) == Due(f) && (Unique(f) ==> Unique(f.(started := now)))
  {
  }

  const PAGE_LIMIT := 500

  class Bridge {
    var letters: map<ItemId, Letter>
    var ledger: map<ItemId, Arrival>
    var last: nat
    var started: int

    function Contents(): Feed
      reads this
    {
      Feed(letters, ledger, last, started)
    }

    /** The whole sweep: everything due, in whatever order the planner yields it. */
    method Sweep(now: int) returns (count: nat, ghost order: seq<ItemId>)
      requires Unique(Contents())
      modifies `ledger, `last, `started
      ensures IsOrder(old(Contents()), order) && count == |order|
      ensures Contents() == Swept(old(Contents()), order, now).(started := now)
      ensures Unique(Contents()) && Due(Contents()) == {}
    {
      assert Swept(Contents(), [], now) == Contents();
      NothingTaken(Contents());
      var due := Due(Contents());
      hide Swept, Unique, IsDue, Due, ChatOf, IsOrder, Taken;
      ghost var was := Contents();
      order, count, started := [], 0, now;
      while due != {}
        invariant Taken(was, due, order)
        invariant forall i :: i in order ==> i in was.letters
        invariant Contents() == Swept(was, order, now).(started := now) && count == |order|
        decreases |due|
      {
        var id :| id in due;
        OneIsTaken(was, due, order, id);
        SweptThen(was, order, id, now);
        last := last + 1;
        ledger := ledger[id := RowAt(Contents(), id, last, now)];
        order, count, due := order + [id], count + 1, due - {id};
      }
      InOrderOfDue(was, order);
      SweepNumbers(was, order, now);
      SameFeed(Swept(was, order, now), now);
    }

    method Page(after: Option<nat>, until: Option<int>, limit: nat) returns (rows: seq<ItemId>)
      requires Unique(Contents())
      ensures IsPage(Contents(), after, until, limit, rows)
    {
      var f := Contents();
      var numbers := map i | i in f.ledger && InPage(f, after, until, i) :: f.ledger[i].no as int;
      rows := Oldest(numbers, limit);
      forall j, k | 0 <= j < k < |rows| ensures f.ledger[rows[j]].no < f.ledger[rows[k]].no {
        assert numbers[rows[j]] <= numbers[rows[k]];
      }
      forall i | InPage(f, after, until, i) && i !in rows
        ensures |rows| == limit && forall k :: 0 <= k < |rows| ==> f.ledger[rows[k]].no < f.ledger[i].no
      {
        assert i in numbers;
        forall k | 0 <= k < |rows| ensures f.ledger[rows[k]].no < f.ledger[i].no {
          assert numbers[rows[k]] <= numbers[i];
        }
      }
    }

    /** One request: sweep, read the page, and say where to resume. */
    method Messages(after: Option<nat>, until: Option<int>, limit: Option<int>, now: int)
      returns (rows: Option<seq<ItemId>>, next: nat, ghost order: seq<ItemId>)
      requires Unique(Contents())
      modifies `ledger, `last, `started
      ensures rows.None? <==> limit.Some? && limit.value < 1
      ensures rows.None? ==> Contents() == old(Contents())
      ensures rows.Some? ==>
                && IsOrder(old(Contents()), order)
                && Contents() == Swept(old(Contents()), order, now).(started := now)
                && IsPage(Contents(), after, until,
                          if limit.None? || 500 < limit.value then 500 else limit.value, rows.value)
                && (forall k :: 0 <= k < |rows.value| ==> rows.value[k] in ledger)
                && next == NextCursor(Contents(), after, rows.value)
    {
      if limit.Some? && limit.value < 1 { return None, 0, []; }
      var most := if limit.None? || PAGE_LIMIT < limit.value then PAGE_LIMIT else limit.value;
      var count;
      count, order := Sweep(now);
      var page := Page(after, until, most);
      assert forall k :: 0 <= k < |page| ==> InPage(Contents(), after, until, page[k]);
      rows := Some(page);
      next := if page != [] then ledger[page[|page| - 1]].no else if after.Some? then after.value else 0;
    }
  }
}
