/** ORDER BY date ASC LIMIT n over a keyed candidate set. */
module Queue {
  import opened Mail

  /** `ids` are the `limit` oldest of `dates`, oldest first; ties fall anywhere. */
  ghost predicate IsOldest(dates: map<ItemId, int>, limit: nat, ids: seq<ItemId>) {
    && (forall i :: 0 <= i < |ids| ==> ids[i] in dates)
    && (forall i, j :: 0 <= i < j < |ids| ==> ids[i] != ids[j])
    && (forall i, j :: 0 <= i < j < |ids| ==> dates[ids[i]] <= dates[ids[j]])
    && |ids| <= limit
    && (|ids| < limit ==> forall x :: x in dates ==> x in ids)
    && (forall x, i :: x in dates && x !in ids && 0 <= i < |ids| ==> dates[ids[i]] <= dates[x])
  }

  method Earliest(dates: map<ItemId, int>, from: set<ItemId>) returns (x: ItemId)
    requires from != {} && from <= dates.Keys
    ensures x in from && forall y :: y in from ==> dates[x] <= dates[y]
  {
    x :| x in from;
    var rest := from - {x};
    while rest != {}
      invariant rest <= from && x in from
      invariant forall y :: y in from && y !in rest ==> dates[x] <= dates[y]
      decreases |rest|
    {
      var y :| y in rest;
      if dates[y] < dates[x] { x := y; }
      rest := rest - {y};
    }
  }

  method Oldest(dates: map<ItemId, int>, limit: nat) returns (ids: seq<ItemId>)
    ensures IsOldest(dates, limit, ids)
  {
    ids := [];
    var rest := dates.Keys;
    while rest != {} && |ids| < limit
      invariant rest <= dates.Keys && |ids| <= limit
      invariant forall x :: x in dates ==> (x in ids <==> x !in rest)
      invariant forall i :: 0 <= i < |ids| ==> ids[i] in dates
      invariant forall i, j :: 0 <= i < j < |ids| ==> ids[i] != ids[j] && dates[ids[i]] <= dates[ids[j]]
      invariant forall i, x :: 0 <= i < |ids| && x in rest ==> dates[ids[i]] <= dates[x]
      decreases |rest|
    {
      var x := Earliest(dates, rest);
      ids := ids + [x];
      rest := rest - {x};
    }
  }

  // ---------------------------------------------------- ids without repetition

  function Elems(s: seq<ItemId>): set<ItemId> {
    set i | i in s
  }

  ghost predicate Distinct(s: seq<ItemId>) {
    forall i, j :: 0 <= i < j < |s| ==> s[i] != s[j]
  }

  lemma {:induction false} DistinctSize(s: seq<ItemId>)
    requires Distinct(s)
    ensures |Elems(s)| == |s|
  {
    if s != [] {
      var rest, last := s[..|s| - 1], s[|s| - 1];
      DistinctSize(rest);
      assert s == rest + [last];
      assert last !in Elems(rest);
      assert Elems(s) == Elems(rest) + {last};
    }
  }

  lemma {:induction false} ElemsSize(s: seq<ItemId>)
    ensures |Elems(s)| <= |s|
  {
    if s != [] {
      ElemsSize(s[..|s| - 1]);
      assert Elems(s) == Elems(s[..|s| - 1]) + {s[|s| - 1]};
    }
  }
}
