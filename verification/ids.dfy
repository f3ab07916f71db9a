/**
 Short aliases for raw item ids.  Any number of processes mint from one counter
 per kind; a mint is several statements inside a transaction, other minters and
 rebinds run between them, and a transaction may abort at any point.
 */
module AliasTable {
  import opened Mail

  // ------------------------------------------------------------ alias names

  datatype Handle = Handle(kind: string, n: nat)

  predicate IsDigit(c: char) { '0' <= c <= '9' }

  predicate IsLetter(c: char) { 'a' <= c <= 'z' }

  predicate AllDigits(s: string) {
    forall i :: 0 <= i < |s| ==> IsDigit(s[i])
  }

  predicate AllLetters(s: string) {
    forall i :: 0 <= i < |s| ==> IsLetter(s[i])
  }

  function Decimal(n: nat): (s: string)
    ensures s != [] && AllDigits(s)
  {
    (if n < 10 then [] else Decimal(n / 10)) + ['0' + (n % 10) as char]
  }

  function Number(s: string): nat
    requires AllDigits(s)
  {
    if s == [] then 0
    else
      var last := s[|s| - 1];
      assert IsDigit(last);
      Number(s[..|s| - 1]) * 10 + (last - '0') as nat
  }

  lemma {:induction false} DecimalRoundTrip(n: nat)
    ensures Number(Decimal(n)) == n
  {
    var front := if n < 10 then [] else Decimal(n / 10);
    assert Decimal(n)[..|Decimal(n)| - 1] == front;
    if n >= 10 { DecimalRoundTrip(n / 10); }
  }

  /** `$` matches at the end, and also before a newline that ends the text. */
  function UptoNewline(s: string): string {
    if s != [] && s[|s| - 1] == '\n' then s[..|s| - 1] else s
  }

  predicate IsKind(k: string) {
    var letters := UptoNewline(k);
    1 <= |letters| <= 2 && AllLetters(letters)
  }

  function Name(h: Handle): string {
    h.kind + Decimal(h.n)
  }

  predicate SplitsAt(s: string, k: nat) {
    k < |s| && AllLetters(s[..k]) && AllDigits(s[k..])
  }

  /** What `resolve` takes for an alias: one or two letters, then digits. */
  predicate IsAliasShaped(s: string) {
    SplitsAt(UptoNewline(s), 1) || SplitsAt(UptoNewline(s), 2)
  }

  /** Both grammars by their characters. */
  lemma ShapesExactly(s: string)
    ensures IsKind(s) <==>
              var k := if s != "" && s[|s| - 1] == '\n' then |s| - 1 else |s|;
              k in {1, 2} && forall i :: 0 <= i < k ==> 97 <= s[i] as int <= 122
    ensures IsAliasShaped(s) <==>
              var end := if s != "" && s[|s| - 1] == '\n' then |s| - 1 else |s|;
              && 2 <= end && 97 <= s[0] as int <= 122
              && (48 <= s[1] as int <= 57 || (97 <= s[1] as int <= 122 && 3 <= end))
              && (forall i :: 2 <= i < end ==> 48 <= s[i] as int <= 57)
  {
    var t := UptoNewline(s);
    assert forall i :: 0 <= i < |t| ==> t[i] == s[i] && (IsLetter(t[i]) <==> 97 <= s[i] as int <= 122);
    forall k | k in {1, 2}
      ensures SplitsAt(t, k) <==> k < |t| && (forall i :: 0 <= i < k ==> 97 <= s[i] as int <= 122) &&
                                  forall i :: k <= i < |t| ==> 48 <= s[i] as int <= 57
    {
      if k < |t| {
        assert forall i :: 0 <= i < k ==> t[..k][i] == s[i];
        assert forall i :: k <= i < |t| ==> t[k..][i - k] == s[i];
        assert forall i :: 0 <= i < |t| - k ==> t[k..][i] == s[k + i];
      }
    }
  }

  /** Where the digits at the end begin. */
  predicate DigitsFrom(s: string, k: nat) {
    k < |s| && (forall i :: 0 <= i < k ==> !IsDigit(s[i])) && AllDigits(s[k..])
  }

  lemma DigitsBeginOnce(s: string, j: nat, k: nat)
    requires DigitsFrom(s, j) && DigitsFrom(s, k)
    ensures j == k
  {
    assert s[j] == s[j..][0] && s[k] == s[k..][0];
  }

  lemma NameSplits(h: Handle)
    requires IsKind(h.kind)
    ensures DigitsFrom(Name(h), |h.kind|) && Name(h)[..|h.kind|] == h.kind && Name(h)[|h.kind|..] == Decimal(h.n)
    ensures IsAliasShaped(Name(h)) <==> '\n' !in h.kind
  {
    var s, k := Name(h), |h.kind|;
    assert s[..k] == h.kind && s[k..] == Decimal(h.n);
    assert forall i :: 0 <= i < k ==> s[i] == h.kind[i];
    assert UptoNewline(s) == s by { assert s[|s| - 1] == s[k..][|s| - 1 - k]; }
    if '\n' in h.kind {
      assert h.kind[k - 1] == '\n' == s[k - 1];
      forall j | j in {1, 2} ensures !SplitsAt(s, j) {
        if j < k { assert j < |s| ==> s[j..][k - 1 - j] == s[k - 1]; } else { assert j < |s| ==> s[..j][k - 1] == s[k - 1]; }
      }
    } else {
      assert UptoNewline(h.kind) == h.kind;
      assert SplitsAt(s, k);
    }
  }

  /** No two handles share a name; a minted name is alias-shaped exactly when no
      newline ends its kind, which `$` lets pass. */
  lemma NamesAreUnique(h: Handle, g: Handle)
    requires IsKind(h.kind) && IsKind(g.kind)
    ensures IsAliasShaped(Name(h)) <==> '\n' !in h.kind
    ensures Name(h) == Name(g) ==> h == g
  {
    NameSplits(h);
    NameSplits(g);
    hide Name, DigitsFrom, Decimal, Number, IsKind;
    if Name(h) == Name(g) {
      DigitsBeginOnce(Name(h), |h.kind|, |g.kind|);
      DecimalRoundTrip(h.n);
      DecimalRoundTrip(g.n);
    }
  }

  /** An alias with a newline behind it is still taken for one, but names nothing. */
  lemma NewlineBehindAnAlias(h: Handle, g: Handle)
    requires IsKind(h.kind) && IsKind(g.kind) && '\n' !in h.kind
    ensures IsAliasShaped(Name(h) + "\n") && Name(g) != Name(h) + "\n"
  {
    NameSplits(h);
    NameSplits(g);
    var s := Name(h) + "\n";
    assert s[..|s| - 1] == Name(h);
    assert Name(h)[|Name(h)| - 1] == Name(h)[|h.kind|..][|Decimal(h.n)| - 1];
    assert Name(g)[|Name(g)| - 1] == Name(g)[|g.kind|..][|Decimal(g.n)| - 1];
  }

  // ------------------------------------------------------------------- state

  /** What a mint tells its caller: an alias, or the raw id itself. */
  datatype Reply = Known(h: Handle) | Raw

  /** An open transaction: counters it has bumped and so holds locked, rows it
      inserted, the insert it is about to make, and what it has answered. */
  datatype Txn = Txn(bumped: map<string, nat>, made: map<Handle, ItemId>,
                     next: Option<(Handle, ItemId)>, out: map<ItemId, Reply>)

  /** The committed tables, the open transactions, and every alias that has ever
      been handed to a caller with the id it was handed for. */
  datatype Sys = Sys(table: map<Handle, ItemId>, counter: map<string, nat>, open: map<nat, Txn>,
                     handed: set<(Handle, ItemId)>)

  datatype Step =
    | Begin(t: nat)
    | Find(t: nat, id: ItemId)
    | Bump(t: nat, id: ItemId, kind: string)
    | Insert(t: nat)
    | Lose(t: nat)
    | Commit(t: nat)
    | Abort(t: nat, answered: bool)
    | Rebind(was: ItemId, now: ItemId)

  function Count(counter: map<string, nat>, kind: string): nat {
    if kind in counter then counter[kind] else 0
  }

  /** Some row names this id. */
  ghost predicate Holds(table: map<Handle, ItemId>, id: ItemId) {
    exists h :: h in table && table[h] == id
  }

  ghost function Holder(table: map<Handle, ItemId>, id: ItemId): (h: Handle)
    requires Holds(table, id)
    ensures h in table && table[h] == id
  {
    var h :| h in table && table[h] == id;
    h
  }

  /** What a transaction sees: the committed rows and its own. */
  ghost function Answer(s: Sys, x: Txn, id: ItemId): Reply {
    if Holds(x.made, id) then Known(Holder(x.made, id))
    else if Holds(s.table, id) then Known(Holder(s.table, id))
    else Raw
  }

  /** `item` says which mailbox item a raw id names; an id never changes hands. */
  ghost predicate Enabled(s: Sys, step: Step, item: ItemId -> nat) {
    match step
    case Begin(t) => t !in s.open
    case Find(t, id) => t in s.open && s.open[t].next.None? && Answer(s, s.open[t], id).Known?
    case Bump(t, id, kind) =>
      // the row lock on the counter makes everyone else wait
      t in s.open && s.open[t].next.None? && !Holds(s.open[t].made, id) && IsKind(kind) &&
      forall u :: u in s.open && u != t ==> kind !in s.open[u].bumped
    case Insert(t) =>
      // an uncommitted insert of the same id makes this one wait, a committed one makes it lose
      t in s.open && s.open[t].next.Some? && !Holds(s.table, s.open[t].next.value.1) &&
      forall u :: u in s.open ==> !Holds(s.open[u].made, s.open[t].next.value.1)
    case Lose(t) => t in s.open && s.open[t].next.Some?
    case Commit(t) => t in s.open && s.open[t].next.None?
    case Abort(t, _) => t in s.open
    case Rebind(was, now) =>
      item(was) == item(now) && forall u :: u in s.open ==> !Holds(s.open[u].made, now)
  }

  function Told(x: Txn): set<(Handle, ItemId)> {
    set i | i in x.out && x.out[i].Known? :: (x.out[i].h, i)
  }

  ghost function Rebound(table: map<Handle, ItemId>, was: ItemId, now: ItemId): map<Handle, ItemId> {
    if !Holds(table, was) then table
    else
      var kept := Holder(table, was);
      map h | h in table && (h == kept || table[h] != now) :: if h == kept then now else table[h]
  }

  function Bumped(counter: map<string, nat>, x: Txn, id: ItemId, kind: string): Txn {
    var n := (if kind in x.bumped then x.bumped[kind] else Count(counter, kind)) + 1;
    x.(bumped := x.bumped[kind := n], next := Some((Handle(kind, n), id)))
  }

  function Inserted(x: Txn): Txn
    requires x.next.Some?
  {
    var (h, id) := x.next.value;
    x.(made := x.made[h := id], next := None, out := x.out[id := Known(h)])
  }

  ghost function Apply(s: Sys, step: Step, item: ItemId -> nat): Sys
    requires Enabled(s, step, item)
  {
    match step
    case Begin(t) => s.(open := s.open[t := Txn(map[], map[], None, map[])])
    case Find(t, id) =>
      s.(open := s.open[t := s.open[t].(out := s.open[t].out[id := Answer(s, s.open[t], id)])])
    case Bump(t, id, kind) =>
      s.(open := s.open[t := Bumped(s.counter, s.open[t], id, kind)])
    case Insert(t) =>
      s.(open := s.open[t := Inserted(s.open[t])])
    case Lose(t) =>
      var x := s.open[t];
      var id := x.next.value.1;
      s.(open := s.open[t := x.(next := None, out := x.out[id := Answer(s, x, id)])])
    case Commit(t) =>
      var x := s.open[t];
      Sys(s.table + x.made, s.counter + x.bumped, s.open - {t}, s.handed + Told(x))
    case Abort(t, answered) =>
      if answered then Aborted(s, t) else s.(open := s.open - {t})
    case Rebind(was, now) => s.(table := Rebound(s.table, was, now))
  }

  // --------------------------------------------------------------- invariant

  predicate OneToOne(table: map<Handle, ItemId>) {
    forall h, g :: h in table && g in table && h != g ==> table[h] != table[g]
  }

  /** An alias once handed out for an item can only ever name that item, or
      nothing: its number is spent, and its row, if any, is of that item. */
  predicate Trusted(table: map<Handle, ItemId>, counter: map<string, nat>, h: Handle, id: ItemId, item: ItemId -> nat) {
    && 1 <= h.n <= Count(counter, h.kind)
    && (h in table ==> item(table[h]) == item(id))
  }

  predicate TableOk(table: map<Handle, ItemId>, counter: map<string, nat>) {
    && OneToOne(table)
    && forall h :: h in table ==> 1 <= h.n <= Count(counter, h.kind)
  }

  /** The rows a transaction has inserted carry numbers nobody else can have. */
  ghost predicate RowsOk(table: map<Handle, ItemId>, counter: map<string, nat>, x: Txn) {
    && (forall k :: k in x.bumped ==> Count(counter, k) < x.bumped[k])
    && (forall h :: h in x.made ==> h.kind in x.bumped && Count(counter, h.kind) < h.n <= x.bumped[h.kind])
    && OneToOne(x.made)
    && (forall h :: h in x.made ==> !Holds(table, x.made[h]))
  }

  /** Its answers are its own rows, or aliases that can be trusted already. */
  ghost predicate AnswersOk(table: map<Handle, ItemId>, counter: map<string, nat>, x: Txn, item: ItemId -> nat) {
    && (forall h :: h in x.made ==> x.made[h] in x.out && x.out[x.made[h]] == Known(h))
    && (forall i :: i in x.out && x.out[i].Known? ==>
          (x.out[i].h in x.made && x.made[x.out[i].h] == i) || Trusted(table, counter, x.out[i].h, i, item))
  }

  ghost predicate NextOk(counter: map<string, nat>, x: Txn) {
    x.next.Some? ==>
      var (h, id) := x.next.value;
      && h.kind in x.bumped && Count(counter, h.kind) < h.n == x.bumped[h.kind]
      && h !in x.made && !Holds(x.made, id)
  }

  ghost predicate TxnOk(table: map<Handle, ItemId>, counter: map<string, nat>, x: Txn, item: ItemId -> nat) {
    RowsOk(table, counter, x) && AnswersOk(table, counter, x, item) && NextOk(counter, x)
  }

  /** Two open transactions share no counter and no id. */
  ghost predicate Apart(x: Txn, y: Txn) {
    && x.bumped.Keys !! y.bumped.Keys
    && x.made.Values !! y.made.Values
  }

  ghost predicate Inv(s: Sys, item: ItemId -> nat) {
    && TableOk(s.table, s.counter)
    && (forall t :: t in s.open ==> TxnOk(s.table, s.counter, s.open[t], item))
    && (forall t, u :: t in s.open && u in s.open && t != u ==> Apart(s.open[t], s.open[u]))
    && (forall p :: p in s.handed ==> Trusted(s.table, s.counter, p.0, p.1, item))
  }

  /** A step inside one transaction. */
  lemma OneTxnMoves(s: Sys, t: nat, x: Txn, item: ItemId -> nat)
    requires Inv(s, item) && TxnOk(s.table, s.counter, x, item)
    requires forall u :: u in s.open && u != t ==> Apart(x, s.open[u])
    ensures Inv(s.(open := s.open[t := x]), item)
  {
  }

  lemma BeginKeeps(s: Sys, t: nat, item: ItemId -> nat)
    requires Inv(s, item) && Enabled(s, Begin(t), item)
    ensures Inv(Apply(s, Begin(t), item), item)
  {
    OneTxnMoves(s, t, Txn(map[], map[], None, map[]), item);
  }

  /** What a transaction sees is its own or can be trusted. */
  lemma AnswerOk(s: Sys, x: Txn, id: ItemId, item: ItemId -> nat)
    requires TableOk(s.table, s.counter) && TxnOk(s.table, s.counter, x, item)
    ensures TxnOk(s.table, s.counter, x.(next := None, out := x.out[id := Answer(s, x, id)]), item)
  {
  }

  lemma AnswerKeeps(s: Sys, t: nat, id: ItemId, item: ItemId -> nat)
    requires Inv(s, item) && t in s.open
    ensures Inv(s.(open := s.open[t := s.open[t].(next := None, out := s.open[t].out[id := Answer(s, s.open[t], id)])]), item)
  {
    var x := s.open[t];
    AnswerOk(s, x, id, item);
    hide TableOk, TxnOk, Trusted, Answer;
    OneTxnMoves(s, t, x.(next := None, out := x.out[id := Answer(s, x, id)]), item);
  }

  lemma BumpOk(s: Sys, x: Txn, id: ItemId, kind: string, item: ItemId -> nat)
    requires TableOk(s.table, s.counter) && TxnOk(s.table, s.counter, x, item) && !Holds(x.made, id)
    ensures TxnOk(s.table, s.counter, Bumped(s.counter, x, id, kind), item)
  {
  }

  lemma BumpKeeps(s: Sys, t: nat, id: ItemId, kind: string, item: ItemId -> nat)
    requires Inv(s, item) && Enabled(s, Bump(t, id, kind), item)
    ensures Inv(Apply(s, Bump(t, id, kind), item), item)
  {
    var x := s.open[t];
    BumpOk(s, x, id, kind, item);
    var x' := Bumped(s.counter, x, id, kind);
    assert x'.bumped.Keys == x.bumped.Keys + {kind};
    forall u | u in s.open && u != t ensures Apart(x', s.open[u]) {
      assert Apart(x, s.open[u]) && kind !in s.open[u].bumped.Keys;
    }
    hide TxnOk, TableOk, Apart, Trusted, Bumped;
    OneTxnMoves(s, t, x', item);
  }

  lemma InsertOk(s: Sys, x: Txn, item: ItemId -> nat)
    requires TxnOk(s.table, s.counter, x, item) && x.next.Some? && !Holds(s.table, x.next.value.1)
    ensures TxnOk(s.table, s.counter, Inserted(x), item)
  {
  }

  lemma InsertKeeps(s: Sys, t: nat, item: ItemId -> nat)
    requires Inv(s, item) && Enabled(s, Insert(t), item)
    ensures Inv(Apply(s, Insert(t), item), item)
  {
    var x := s.open[t];
    InsertOk(s, x, item);
    forall u | u in s.open && u != t ensures Apart(Inserted(x), s.open[u]) {
      assert Apart(x, s.open[u]) && !Holds(s.open[u].made, x.next.value.1);
    }
    OneTxnMoves(s, t, Inserted(x), item);
  }

  // ------------------------------------------- steps that touch the tables

  lemma TrustAfterCommit(table: map<Handle, ItemId>, counter: map<string, nat>, x: Txn, h: Handle, id: ItemId,
                         item: ItemId -> nat)
    requires RowsOk(table, counter, x) && Trusted(table, counter, h, id, item)
    ensures Trusted(table + x.made, counter + x.bumped, h, id, item)
  {
  }

  lemma StillUnheld(table: map<Handle, ItemId>, made: map<Handle, ItemId>, id: ItemId)
    requires !Holds(table, id) && id !in made.Values
    ensures !Holds(table + made, id)
  {
  }

  lemma OtherAfterCommit(table: map<Handle, ItemId>, counter: map<string, nat>, x: Txn, y: Txn, item: ItemId -> nat)
    requires TxnOk(table, counter, x, item) && TxnOk(table, counter, y, item) && Apart(x, y)
    ensures TxnOk(table + x.made, counter + x.bumped, y, item)
  {
    var table', counter' := table + x.made, counter + x.bumped;
    assert forall k :: k in y.bumped ==> k !in x.bumped && Count(counter', k) == Count(counter, k);
    forall h | h in y.made ensures !Holds(table', y.made[h]) {
      assert y.made[h] in y.made.Values;
      StillUnheld(table, x.made, y.made[h]);
    }
    forall i | i in y.out && y.out[i].Known? && !(y.out[i].h in y.made && y.made[y.out[i].h] == i)
      ensures Trusted(table', counter', y.out[i].h, i, item)
    {
      TrustAfterCommit(table, counter, x, y.out[i].h, i, item);
    }
  }

  lemma TableAfterCommit(table: map<Handle, ItemId>, counter: map<string, nat>, x: Txn)
    requires TableOk(table, counter) && RowsOk(table, counter, x)
    ensures TableOk(table + x.made, counter + x.bumped)
  {
  }

  lemma ToldAfterCommit(table: map<Handle, ItemId>, counter: map<string, nat>, x: Txn, h: Handle, id: ItemId,
                        item: ItemId -> nat)
    requires TxnOk(table, counter, x, item) && (h, id) in Told(x)
    ensures Trusted(table + x.made, counter + x.bumped, h, id, item)
  {
  }

  lemma TablesAfterCommit(s: Sys, t: nat, item: ItemId -> nat)
    requires Inv(s, item) && t in s.open
    ensures TableOk(s.table + s.open[t].made, s.counter + s.open[t].bumped)
  {
    assert TxnOk(s.table, s.counter, s.open[t], item);
    hide TableOk, Apart, Trusted;
    TableAfterCommit(s.table, s.counter, s.open[t]);
  }

  lemma OthersAfterCommit(s: Sys, t: nat, item: ItemId -> nat)
    requires Inv(s, item) && t in s.open
    ensures forall u :: u in s.open && u != t ==>
              TxnOk(s.table + s.open[t].made, s.counter + s.open[t].bumped, s.open[u], item)
  {
    hide TxnOk, TableOk, Apart, Trusted, Told;
    forall u | u in s.open && u != t
      ensures TxnOk(s.table + s.open[t].made, s.counter + s.open[t].bumped, s.open[u], item)
    {
      assert Apart(s.open[t], s.open[u]);
      OtherAfterCommit(s.table, s.counter, s.open[t], s.open[u], item);
    }
  }

  lemma HandedAfterCommit(s: Sys, t: nat, item: ItemId -> nat)
    requires Inv(s, item) && t in s.open
    ensures forall p :: p in s.handed + Told(s.open[t]) ==>
              Trusted(s.table + s.open[t].made, s.counter + s.open[t].bumped, p.0, p.1, item)
  {
    var x := s.open[t];
    assert TxnOk(s.table, s.counter, x, item);
    hide Trusted, Told, AnswersOk, NextOk, TableOk;
    forall p | p in s.handed + Told(x) ensures Trusted(s.table + x.made, s.counter + x.bumped, p.0, p.1, item) {
      if p in s.handed { TrustAfterCommit(s.table, s.counter, x, p.0, p.1, item); }
      else { ToldAfterCommit(s.table, s.counter, x, p.0, p.1, item); }
    }
  }

  lemma CommitKeeps(s: Sys, t: nat, item: ItemId -> nat)
    requires Inv(s, item) && Enabled(s, Commit(t), item)
    ensures Inv(Apply(s, Commit(t), item), item)
  {
    hide TxnOk, TableOk, Apart, Trusted, Told;
    TablesAfterCommit(s, t, item);
    OthersAfterCommit(s, t, item);
    HandedAfterCommit(s, t, item);
  }

  /** An abort is harmless exactly when its caller learns no alias the aborted
      transaction had minted.  `alias_many` does return what it had so far when
      the storage fails in the middle of a page. */
  lemma AbortKeepsExactly(s: Sys, t: nat, answered: bool, item: ItemId -> nat)
    requires Inv(s, item) && t in s.open
    ensures Inv(Apply(s, Abort(t, answered), item), item) <==> !answered || s.open[t].made == map[]
  {
    hide OneToOne, Holds;
    var s', x := Apply(s, Abort(t, answered), item), s.open[t];
    assert TxnOk(s.table, s.counter, x, item);
    if answered && x.made != map[] {
      var h :| h in x.made;
      assert (h, x.made[h]) in Told(x);
      assert !Trusted(s.table, s.counter, h, x.made[h], item);
    } else {
      forall p | p in s'.handed ensures Trusted(s.table, s.counter, p.0, p.1, item) { }
    }
    hide TableOk, TxnOk, Apart, Trusted;
  }

  lemma ReboundPoints(table: map<Handle, ItemId>, was: ItemId, now: ItemId, h: Handle)
    requires OneToOne(table)
    ensures h in Rebound(table, was, now) ==>
              && h in table
              && (Rebound(table, was, now)[h] == table[h] || (table[h] == was && Rebound(table, was, now)[h] == now))
    ensures OneToOne(Rebound(table, was, now))
    ensures h in table && table[h] == was ==> h in Rebound(table, was, now) && Rebound(table, was, now)[h] == now
    ensures h in table && table[h] == now && was != now && Holds(table, was) ==> h !in Rebound(table, was, now)
    ensures h in table && table[h] != was && table[h] != now ==> h in Rebound(table, was, now) && Rebound(table, was, now)[h] == table[h]
  {
  }

  lemma TxnAfterRebind(table: map<Handle, ItemId>, counter: map<string, nat>, was: ItemId, now: ItemId, x: Txn,
                       item: ItemId -> nat)
    requires OneToOne(table) && TxnOk(table, counter, x, item) && item(was) == item(now) && !Holds(x.made, now)
    ensures TxnOk(Rebound(table, was, now), counter, x, item)
  {
  }

  lemma RebindKeeps(s: Sys, was: ItemId, now: ItemId, item: ItemId -> nat)
    requires Inv(s, item) && Enabled(s, Rebind(was, now), item)
    ensures Inv(Apply(s, Rebind(was, now), item), item)
  {
    var s' := Apply(s, Rebind(was, now), item);
    forall u | u in s.open ensures TxnOk(s'.table, s.counter, s.open[u], item) {
      TxnAfterRebind(s.table, s.counter, was, now, s.open[u], item);
    }
    forall h | h in s'.table ensures 1 <= h.n <= Count(s.counter, h.kind) { ReboundPoints(s.table, was, now, h); }
    ReboundPoints(s.table, was, now, Handle("", 0));
    forall p | p in s.handed ensures Trusted(s'.table, s.counter, p.0, p.1, item) {
      ReboundPoints(s.table, was, now, p.0);
    }
    hide TxnOk, Apart, Rebound;
  }

  /** The one step the promise does not survive. */
  predicate LeaksMinted(s: Sys, step: Step) {
    step.Abort? && step.answered && step.t in s.open && s.open[step.t].made != map[]
  }

  lemma StepKeeps(s: Sys, step: Step, item: ItemId -> nat)
    requires Inv(s, item) && Enabled(s, step, item)
    ensures Inv(Apply(s, step, item), item) <==> !LeaksMinted(s, step)
  {
    match step
    case Begin(t) => BeginKeeps(s, t, item);
    case Find(t, id) => AnswerKeeps(s, t, id, item);
    case Bump(t, id, kind) => BumpKeeps(s, t, id, kind, item);
    case Insert(t) => InsertKeeps(s, t, item);
    case Lose(t) => AnswerKeeps(s, t, s.open[t].next.value.1, item);
    case Commit(t) => CommitKeeps(s, t, item);
    case Abort(t, answered) => AbortKeepsExactly(s, t, answered, item);
    case Rebind(was, now) => RebindKeeps(s, was, now, item);
  }

  // --------------------------------------------------------------- whole runs

  const EMPTY := Sys(map[], map[], map[], {})

  /** A run from empty tables in which no aborted batch returns what it minted. */
  ghost predicate Run(ss: seq<Sys>, steps: seq<Step>, item: ItemId -> nat) {
    && |ss| == |steps| + 1
    && ss[0] == EMPTY
    && forall k :: 0 <= k < |steps| ==>
         Enabled(ss[k], steps[k], item) && ss[k + 1] == Apply(ss[k], steps[k], item) && !LeaksMinted(ss[k], steps[k])
  }

  lemma {:induction false} RunKeeps(ss: seq<Sys>, steps: seq<Step>, item: ItemId -> nat, k: nat)
    requires Run(ss, steps, item) && k < |ss|
    ensures Inv(ss[k], item)
  {
    if k > 0 {
      RunKeeps(ss, steps, item, k - 1);
      StepKeeps(ss[k - 1], steps[k - 1], item);
    }
  }

  /** Whatever minters and rebinds race, aliases and ids stay one to one, and an
      alias once handed out for an item names that item or nothing, for ever. */
  lemma AnAliasNeverChangesHands(ss: seq<Sys>, steps: seq<Step>, item: ItemId -> nat, j: nat, k: nat, h: Handle, id: ItemId)
    requires Run(ss, steps, item) && j <= k < |ss| && (h, id) in ss[j].handed
    ensures OneToOne(ss[k].table)
    ensures h in ss[k].table ==> item(ss[k].table[h]) == item(id)
    ensures 1 <= h.n <= Count(ss[k].counter, h.kind)
  {
    HandedStays(ss, steps, item, j, k, (h, id));
    RunKeeps(ss, steps, item, k);
  }

  lemma {:induction false} HandedStays(ss: seq<Sys>, steps: seq<Step>, item: ItemId -> nat, j: nat, k: nat, p: (Handle, ItemId))
    requires Run(ss, steps, item) && j <= k < |ss| && p in ss[j].handed
    ensures p in ss[k].handed
  {
    if j < k {
      HandedStays(ss, steps, item, j, k - 1, p);
      HandedGrows(ss[k - 1], steps[k - 1], item);
    }
  }

  lemma HandedGrows(s: Sys, step: Step, item: ItemId -> nat)
    requires Enabled(s, step, item)
    ensures s.handed <= Apply(s, step, item).handed
  {
  }

  /** A number is never given out twice for its kind: what a mint takes lies
      above every committed row, every alias handed out and every other mint. */
  lemma NumbersAreNeverReused(ss: seq<Sys>, steps: seq<Step>, item: ItemId -> nat, k: nat, t: nat)
    requires Run(ss, steps, item) && k < |steps| && steps[k] == Insert(t)
    ensures var h := ss[k].open[t].next.value.0;
            && (forall g :: g in ss[k].table && g.kind == h.kind ==> g.n < h.n)
            && (forall p :: p in ss[k].handed && p.0.kind == h.kind ==> p.0.n < h.n)
            && (forall u :: u in ss[k].open ==> h !in ss[k].open[u].made)
  {
    RunKeeps(ss, steps, item, k);
    var s := ss[k];
    var h := s.open[t].next.value.0;
    assert TxnOk(s.table, s.counter, s.open[t], item);
    forall u | u in s.open && u != t ensures h !in s.open[u].made {
      assert TxnOk(s.table, s.counter, s.open[u], item) && Apart(s.open[t], s.open[u]);
      assert h.kind in s.open[t].bumped.Keys;
    }
  }

  /** The id a row's item has after a stretch of the run: every rebind of the
      id it has by then moves it on. */
  function Followed(steps: seq<Step>, j: nat, k: nat, id: ItemId): ItemId
    requires j <= k <= |steps|
  {
    if j == k then id
    else
      var at := Followed(steps, j, k - 1, id);
      if steps[k - 1].Rebind? && steps[k - 1].was == at then steps[k - 1].now else at
  }

  /** This rebind gives the id to another alias, and its own one is dropped as
      the duplicate. */
  ghost predicate Displaces(s: Sys, step: Step, id: ItemId) {
    step.Rebind? && step.now == id && step.was != id && Holds(s.table, step.was)
  }

  /** At no step of the stretch does a rebind give away the id the item has then. */
  ghost predicate NeverDisplaced(ss: seq<Sys>, steps: seq<Step>, j: nat, k: nat, id: ItemId)
    requires j <= k <= |steps| < |ss|
  {
    j < k ==>
      && NeverDisplaced(ss, steps, j, k - 1, id)
      && !Displaces(ss[k - 1], steps[k - 1], Followed(steps, j, k - 1, id))
  }

  /** What one step does to one committed alias. */
  lemma StepMovesAlias(s: Sys, step: Step, item: ItemId -> nat, h: Handle)
    requires Inv(s, item) && Enabled(s, step, item) && 1 <= h.n <= Count(s.counter, h.kind)
    ensures var s' := Apply(s, step, item);
            && h.n <= Count(s'.counter, h.kind)
            && (h in s'.table <==> h in s.table && !Displaces(s, step, s.table[h]))
            && (h in s'.table ==> s'.table[h] == if step.Rebind? && step.was == s.table[h] then step.now else s.table[h])
  {
    match step
    case Commit(t) => CommitMovesAlias(s, t, item, h);
    case Rebind(was, now) => ReboundPoints(s.table, was, now, h); hide Inv;
    case _ =>
  }

  lemma CommitMovesAlias(s: Sys, t: nat, item: ItemId -> nat, h: Handle)
    requires Inv(s, item) && Enabled(s, Commit(t), item) && 1 <= h.n <= Count(s.counter, h.kind)
    ensures var s' := Apply(s, Commit(t), item);
            && h.n <= Count(s'.counter, h.kind)
            && (h in s'.table <==> h in s.table) && (h in s.table ==> s'.table[h] == s.table[h])
  {
    assert TxnOk(s.table, s.counter, s.open[t], item);
    hide AnswersOk, NextOk, TableOk, Trusted, Apart;
  }

  /** An alias follows its item through any run of mints, races and moves: it
      names the id the item has by now.  It becomes unknown exactly when a move
      brings another alias of the item to that id, and never names anything
      after that. */
  lemma {:induction false} AliasFollowsTheItem(ss: seq<Sys>, steps: seq<Step>, item: ItemId -> nat, j: nat, k: nat, h: Handle)
    requires Run(ss, steps, item) && j <= k < |ss| && h in ss[j].table
    ensures h in ss[k].table <==> NeverDisplaced(ss, steps, j, k, ss[j].table[h])
    ensures h in ss[k].table ==> ss[k].table[h] == Followed(steps, j, k, ss[j].table[h])
    ensures 1 <= h.n <= Count(ss[k].counter, h.kind)
  {
    hide Inv, Enabled, Apply, Displaces, LeaksMinted;
    RunKeeps(ss, steps, item, j);
    CountedRows(ss[j], item);
    if j < k {
      AliasFollowsTheItem(ss, steps, item, j, k - 1, h);
      RunKeeps(ss, steps, item, k - 1);
      StepMovesAlias(ss[k - 1], steps[k - 1], item, h);
    }
  }

  lemma CountedRows(s: Sys, item: ItemId -> nat)
    requires Inv(s, item)
    ensures forall h :: h in s.table ==> 1 <= h.n <= Count(s.counter, h.kind)
  {
  }

  /** Without the restriction: a bulk mint returns `m1` for one item and rolls
      back, and the next mint gives `m1` to another.  All of it is reached from
      empty tables. */
  lemma LeakedAliasNamesAnotherItem(item: ItemId -> nat)
    requires item("a") != item("b")
    ensures exists s: Sys, t: nat ::
              && Later(EMPTY, s, item) && Inv(s, item) && t in s.open && LeaksMinted(s, Abort(t, true))
              && (exists s': Sys, h: Handle, id: ItemId ::
                    && Later(Aborted(s, t), s', item)
                    && (h, id) in s'.handed && h in s'.table && item(s'.table[h]) != item(id))
  {
    var h := Handle("m", 1);
    var x := Txn(map["m" := 1], map[h := "a"], None, map["a" := Known(h)]);
    var s := Sys(map[], map[], map[0 := x], {});
    hide Later, Inv;
    MintIsOpen(EMPTY, "a", item);
    MintingIsFine("a", item);
    assert "a" in x.out && x.out["a"] == Known(h) && (x.out["a"].h, "a") in Told(x);
    var s1 := Aborted(s, 0);
    assert s1 == Sys(map[], map[], map[], {(h, "a")}) by { assert Told(x) == {(h, "a")}; }
    MintsFresh(s1, "b", item);
    assert LeaksMinted(s, Abort(0, true));
  }

  /** A transaction rolled back whose caller is told what it had minted. */
  function Aborted(s: Sys, t: nat): Sys
    requires t in s.open
  {
    Sys(s.table, s.counter, s.open - {t}, s.handed + Told(s.open[t]))
  }

  /** Some steps lead from one state to another. */
  ghost predicate Later(s: Sys, s': Sys, item: ItemId -> nat) {
    exists ss: seq<Sys>, steps: seq<Step> :: Leads(ss, steps, item) && ss[0] == s && ss[|steps|] == s'
  }

  ghost predicate Leads(ss: seq<Sys>, steps: seq<Step>, item: ItemId -> nat) {
    && |ss| == |steps| + 1
    && forall k :: 0 <= k < |steps| ==> Enabled(ss[k], steps[k], item) && ss[k + 1] == Apply(ss[k], steps[k], item)
  }

  lemma OneMore(s: Sys, s': Sys, step: Step, s'': Sys, item: ItemId -> nat)
    requires Later(s, s', item) && Enabled(s', step, item) && s'' == Apply(s', step, item)
    ensures Later(s, s'', item)
  {
    hide Enabled, Apply;
    var ss: seq<Sys>, steps: seq<Step> :| Leads(ss, steps, item) && ss[0] == s && ss[|steps|] == s';
    assert Leads(ss + [s''], steps + [step], item);
  }

  function Minting(s: Sys, id: ItemId): Sys {
    var h := Handle("m", 1);
    s.(open := map[0 := Txn(map["m" := 1], map[h := id], None, map[id := Known(h)])])
  }

  lemma MintingIsFine(id: ItemId, item: ItemId -> nat)
    ensures Inv(Minting(EMPTY, id), item)
  {
    var x := Minting(EMPTY, id).open[0];
    assert TxnOk(map[], map[], x, item);
  }

  /** On empty tables a transaction mints `m1`. */
  lemma MintIsOpen(s: Sys, id: ItemId, item: ItemId -> nat)
    requires s.table == map[] && s.counter == map[] && s.open == map[]
    ensures Later(s, Minting(s, id), item)
  {
    var s1 := s.(open := map[0 := Txn(map[], map[], None, map[])]);
    var s2 := s.(open := map[0 := Txn(map["m" := 1], map[], Some((Handle("m", 1), id)), map[])]);
    hide Later, Leads;
    Stays(s, item);
    OneMore(s, s, Begin(0), s1, item);
    assert IsKind("m") by { assert AllLetters("m") && UptoNewline("m") == "m"; }
    OneMore(s, s1, Bump(0, id, "m"), s2, item);
    OneMore(s, s2, Insert(0), Minting(s, id), item);
  }

  lemma MintsFresh(s: Sys, id: ItemId, item: ItemId -> nat)
    requires s.table == map[] && s.counter == map[] && s.open == map[]
    ensures exists s' :: Later(s, s', item) && s.handed <= s'.handed && s'.table == map[Handle("m", 1) := id]
  {
    hide Later, Leads;
    MintIsOpen(s, id, item);
    var s4 := Apply(Minting(s, id), Commit(0), item);
    OneMore(s, Minting(s, id), Commit(0), s4, item);
    assert s4.table == map[Handle("m", 1) := id];
  }

  lemma Stays(s: Sys, item: ItemId -> nat)
    ensures Later(s, s, item)
  {
    var none: seq<Step> := [];
    assert Leads([s], none, item) && [s][|none|] == s;
  }

  // ------------------------------------------------------------- the program

  /** Dropping the duplicate and repointing the survivor, as two statements. */
  lemma RebindInTwo(table: map<Handle, ItemId>, was: ItemId, now: ItemId, x: Handle)
    requires OneToOne(table) && x in table && table[x] == was
    ensures (map g | g in table && (g == x || table[g] != now) :: table[g])[x := now] == Rebound(table, was, now)
    ensures Holds(table, was)
  {
  }

  lemma XIsAKind()
    ensures IsKind("x")
  {
    assert AllLetters("x") && UptoNewline("x") == "x";
  }

  /** The tables after some mints: the old rows as they were, the new ones
      numbered above everything counted before. */
  ghost predicate Grown(t0: map<Handle, ItemId>, c0: map<string, nat>, t: map<Handle, ItemId>, c: map<string, nat>) {
    && (forall h :: h in t0 ==> h in t && t[h] == t0[h])
    && (forall k :: Count(c0, k) <= Count(c, k))
    && (forall h :: h in t && h !in t0 ==> Count(c0, h.kind) < h.n && IsKind(h.kind))
  }

  lemma GrownByNothing(t: map<Handle, ItemId>, c: map<string, nat>)
    ensures Grown(t, c, t, c)
  {
  }

  lemma GrownByOne(t0: map<Handle, ItemId>, c0: map<string, nat>, t: map<Handle, ItemId>, c: map<string, nat>,
                   id: ItemId, h: Handle)
    requires Grown(t0, c0, t, c) && IsKind(h.kind) && h.n == Count(c, h.kind) + 1 && h !in t
    ensures Grown(t0, c0, t[h := id], c[h.kind := h.n])
  {
    hide IsKind;
  }

  lemma NewAreAbove(t0: map<Handle, ItemId>, c0: map<string, nat>, t: map<Handle, ItemId>, c: map<string, nat>,
                    out: map<ItemId, Handle>)
    requires Grown(t0, c0, t, c) && TableOk(t, c) && forall i :: i in out ==> out[i] in t && t[out[i]] == i
    ensures forall h :: h in t0 ==> h in t && t[h] == t0[h]
    ensures forall i :: i in out && Holds(t0, i) ==> out[i] in t0 && t0[out[i]] == i
    ensures forall i :: i in out && !Holds(t0, i) ==> Count(c0, out[i].kind) < out[i].n && IsKind(out[i].kind)
  {
    hide IsKind, Count;
    forall i | i in out && Holds(t0, i) ensures out[i] in t0 && t0[out[i]] == i {
      var h :| h in t0 && t0[h] == i;
      assert t[h] == i;
    }
  }

  /** The entry that first names an id without an alias. */
  ghost predicate FirstAsked(t0: map<Handle, ItemId>, entries: seq<(ItemId, string)>, k: nat) {
    k < |entries| && !Holds(t0, entries[k].0) && forall j :: 0 <= j < k ==> entries[j].0 != entries[k].0
  }

  /** Answers are for ids of the page, and a new alias has the kind that was
      first asked for, or x in place of a bad one. */
  ghost predicate Asked(t0: map<Handle, ItemId>, entries: seq<(ItemId, string)>, out: map<ItemId, Handle>) {
    && (forall i :: i in out ==> i != "" && exists k :: 0 <= k < |entries| && entries[k].0 == i)
    && (forall k: nat :: FirstAsked(t0, entries, k) && entries[k].0 in out ==>
          out[entries[k].0].kind == if IsKind(entries[k].1) then entries[k].1 else "x")
  }

  lemma NothingAsked(t0: map<Handle, ItemId>, entries: seq<(ItemId, string)>)
    ensures Asked(t0, entries[..0], map[])
  {
  }

  lemma NothingNewAsked(t0: map<Handle, ItemId>, entries: seq<(ItemId, string)>, n: nat, out: map<ItemId, Handle>)
    requires n < |entries| && Asked(t0, entries[..n], out)
    ensures Asked(t0, entries[..n + 1], out)
  {
    assert entries[..n + 1][..n] == entries[..n];
    AskedEarlier(t0, entries[..n + 1], n, out);
  }

  lemma AskedEarlier(t0: map<Handle, ItemId>, entries: seq<(ItemId, string)>, n: nat, out: map<ItemId, Handle>)
    requires n <= |entries| && Asked(t0, entries[..n], out)
    ensures Asked(t0, entries, out)
  {
    hide IsKind, Holds;
    forall i | i in out ensures i != "" && exists k :: 0 <= k < n && entries[k].0 == i {
      var k :| 0 <= k < n && entries[..n][k].0 == i;
      assert entries[k].0 == i;
    }
    forall k: nat | FirstAsked(t0, entries, k) && entries[k].0 in out
      ensures out[entries[k].0].kind == if IsKind(entries[k].1) then entries[k].1 else "x"
    {
      assert FirstAsked(t0, entries[..n], k);
    }
  }

  lemma AskedMore(t0: map<Handle, ItemId>, entries: seq<(ItemId, string)>, n: nat, out: map<ItemId, Handle>, h: Handle)
    requires n < |entries| && Asked(t0, entries[..n], out) && entries[n].0 != "" && entries[n].0 !in out
    requires forall j :: 0 <= j < n && entries[j].0 != "" ==> entries[j].0 in out
    requires !Holds(t0, entries[n].0) ==> h.kind == if IsKind(entries[n].1) then entries[n].1 else "x"
    ensures Asked(t0, entries[..n + 1], out[entries[n].0 := h])
  {
    NothingNewAsked(t0, entries, n, out);
    hide IsKind, Holds;
    var more := entries[..n + 1];
    assert more[n].0 == entries[n].0;
    forall j | 0 <= j < n ensures more[j].0 != entries[n].0 { assert more[j] == entries[j]; }
  }

  /** What a mint answers, by what has been answered before. */
  lemma MintedFor(t0: map<Handle, ItemId>, t: map<Handle, ItemId>, c: map<string, nat>, out: map<ItemId, Handle>, id: ItemId, h: Handle)
    requires TableOk(t, c) && forall i :: i in out ==> out[i] in t && t[out[i]] == i
    requires forall g :: g in t && g !in t0 ==> t[g] in out
    requires forall g :: g in t0 ==> g in t && t0[g] == t[g]
    requires if h in t then t[h] == id else !Holds(t, id)
    ensures id in out ==> out[id] == h
    ensures id !in out && !Holds(t0, id) ==> h !in t
  {
  }

  /** Who wins the race for an id between a mint's look-up and its insert:
      nobody, another transaction, or one whose row is gone when we look again. */
  datatype Rival = Nobody | Wins(g: Handle) | Leaves

  datatype Resolution = Same | Unknown | Found(id: ItemId)

  class IdAliaser {
    var table: map<Handle, ItemId>
    var counter: map<string, nat>

    constructor ()
      ensures TableOk(table, counter) && table == map[]
    {
      table, counter := map[], map[];
    }

    /** Inside a transaction: the alias the id has, or a fresh one.  A rival may
        commit an alias for the id before the insert: the number is spent, and
        the answer is the rival's alias, or the raw id if that is gone again. */
    method MintLocked(id: ItemId, kind: string, rival: Rival) returns (r: Reply)
      requires TableOk(table, counter) && IsKind(kind)
      // the counter of this kind is locked from the bump on
      requires rival.Wins? ==> rival.g.kind != kind && Count(counter, rival.g.kind) < rival.g.n
      modifies this
      ensures TableOk(table, counter)
      ensures r.Known? ==> r.h in table && table[r.h] == id
      ensures r.Raw? <==> rival.Leaves? && !old(Holds(table, id))
      ensures r.Raw? ==> table == old(table) && !Holds(table, id)
      ensures old(Holds(table, id)) ==> table == old(table) && counter == old(counter)
      ensures !old(Holds(table, id)) ==> Count(counter, kind) == old(Count(counter, kind)) + 1
      ensures !old(Holds(table, id)) && rival.Nobody? ==>
                && r == Known(Handle(kind, old(Count(counter, kind)) + 1)) && r.h !in old(table)
                && table == old(table)[r.h := id] && counter == old(counter)[kind := r.h.n]
      ensures !old(Holds(table, id)) && rival.Wins? ==> r == Known(rival.g) && table == old(table)[rival.g := id]
    {
      if x :| x in table && table[x] == id {
        return Known(x);
      }
      counter := counter[kind := Count(counter, kind) + 1];
      var h := Handle(kind, counter[kind]);
      match rival
      case Nobody =>
        table := table[h := id];
        r := Known(h);
      case Wins(g) =>
        table, counter := table[g := id], counter[g.kind := g.n];
        r := Known(g);
      case Leaves =>
        r := Raw;
    }

    /** A page of mints in one transaction.  When the storage fails part of the
        way, or at the commit after the last entry, the tables roll back but the
        answers collected so far are returned. */
    method AliasMany(entries: seq<(ItemId, string)>, failsAt: Option<nat>) returns (out: map<ItemId, Handle>)
      requires TableOk(table, counter)
      modifies this
      ensures TableOk(table, counter)
      ensures failsAt.None? || |entries| < failsAt.value ==>
                && (forall i :: i in out ==> out[i] in table && table[out[i]] == i)
                && (forall k :: 0 <= k < |entries| && entries[k].0 != "" ==> entries[k].0 in out)
                && (forall h :: h in old(table) ==> h in table && table[h] == old(table)[h])
      ensures failsAt.Some? && failsAt.value <= |entries| ==>
                && table == old(table) && counter == old(counter)
                && (forall k :: 0 <= k < failsAt.value && entries[k].0 != "" ==> entries[k].0 in out)
                && (forall i :: i in out && old(Holds(table, i)) ==> out[i] in table && table[out[i]] == i)
                && (forall i :: i in out && !old(Holds(table, i)) ==> Count(counter, out[i].kind) < out[i].n)
      ensures Asked(old(table), entries, out)
    {
      hide TableOk, IsKind, Grown, Count, Asked;
      var savedTable, savedCounter := table, counter;
      out := map[];
      GrownByNothing(table, counter);
      NothingAsked(table, entries);
      for k := 0 to |entries|
        invariant TableOk(table, counter) && (failsAt.Some? ==> k <= failsAt.value)
        invariant forall i :: i in out ==> out[i] in table && table[out[i]] == i
        invariant forall j :: 0 <= j < k && entries[j].0 != "" ==> entries[j].0 in out
        invariant Grown(savedTable, savedCounter, table, counter)
        invariant Asked(savedTable, entries[..k], out) && forall h :: h in table && h !in savedTable ==> table[h] in out
      {
        assert entries[..k + 1] == entries[..k] + [entries[k]];
        NewAreAbove(savedTable, savedCounter, table, counter, out);
        if failsAt == Some(k) {
          AskedEarlier(savedTable, entries, k, out);
          table, counter := savedTable, savedCounter;
          return;
        }
        if entries[k].0 != "" {
          XIsAKind();
          var kind := if IsKind(entries[k].1) then entries[k].1 else "x";
          ghost var t, c := table, counter;
          var r := MintLocked(entries[k].0, kind, Nobody);
          if r.h !in t { GrownByOne(savedTable, savedCounter, t, c, entries[k].0, r.h); }
          MintedFor(savedTable, t, c, out, entries[k].0, r.h);
          if entries[k].0 in out {
            NothingNewAsked(savedTable, entries, k, out);
            assert out[entries[k].0 := r.h] == out;
          } else {
            AskedMore(savedTable, entries, k, out, r.h);
          }
          out := out[entries[k].0 := r.h];
        } else {
          NothingNewAsked(savedTable, entries, k, out);
        }
      }
      NewAreAbove(savedTable, savedCounter, table, counter, out);
      assert entries[..|entries|] == entries;
      if failsAt == Some(|entries|) { table, counter := savedTable, savedCounter; }
    }

    /** After a move: the alias stays, a duplicate of the new id goes. */
    method Rebind(was: ItemId, now: ItemId) returns (h: Option<Handle>)
      requires TableOk(table, counter)
      modifies `table
      ensures TableOk(table, counter) && table == Rebound(old(table), was, now)
      ensures h.Some? <==> old(Holds(table, was))
      ensures h.Some? ==> h.value in table && table[h.value] == now
    {
      ghost var before := table;
      if x :| x in table && table[x] == was {
        hide Rebound;
        RebindInTwo(table, was, now, x);
        ReboundPoints(table, was, now, x);
        table := map g | g in table && (g == x || table[g] != now) :: table[g];
        table := table[x := now];
        assert forall g :: g in table ==> g in before;
        return Some(x);
      }
      h := None;
    }

    /** An alias names its row, an unknown alias is refused, the rest passes;
        and so does, unresolved, an alias whose kind ends in a newline. */
    method Resolve(value: string) returns (r: Resolution)
      requires forall h :: h in table ==> IsKind(h.kind)
      ensures r.Same? <==> !IsAliasShaped(value)
      ensures r.Found? <==> exists h :: h in table && Name(h) == value && '\n' !in h.kind
      ensures forall h :: h in table && Name(h) == value ==> r == if '\n' in h.kind then Same else Found(table[h])
    {
      forall h, g | h in table && g in table && Name(h) == Name(g)
        ensures h == g && (IsAliasShaped(Name(h)) <==> '\n' !in h.kind)
      {
        NamesAreUnique(h, g);
      }
      if !IsAliasShaped(value) { return Same; }
      if h :| h in table && Name(h) == value { return Found(table[h]); }
      r := Unknown;
    }
  }
}
