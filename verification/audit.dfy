/**
 The hash chain of the audit log, as records: what the verifier makes of a
 sequence of lines, and which sequences it accepts.
 */
module AuditChain {
  import opened Mail

  /** A record without its `h`: what is serialised canonically and hashed. */
  datatype Rec = Rec(no: Option<int>, prev: Option<string>, body: string)

  datatype Line = NotJson | Line(rec: Rec, h: Option<string>)

  /** chain.state as a reader finds it. */
  datatype Head = Absent | Unreadable | Saved(prev: Option<string>, no: Option<int>)

  const GENESIS := "GENESIS"

  type Digest = (string, Rec) -> string

  /** The idealised hash: no collisions, and no record hashes to the anchor. */
  ghost predicate Ideal(h: Digest) {
    && (forall p, r, p', r' :: h(p, r) == h(p', r') ==> p == p' && r == r')
    && (forall p, r :: h(p, r) != GENESIS)
  }

  function Short(p: string): string {
    if |p| <= 12 then p else p[..12]
  }

  // ---------------------------------------------------------------- verifier

  datatype Tally = Tally(breaks: nat, prev: string, checked: nat, last: Option<Rec>)

  /** A record numbered 1 starts a fresh chain. */
  function Anchor(prev: string, rec: Rec): string {
    if rec.no == Some(1) then GENESIS else prev
  }

  function Judged(h: Digest, t: Tally, line: Line): Tally {
    match line
    case NotJson => t.(breaks := t.breaks + 1)
    case Line(rec, got) =>
      var prev := Anchor(t.prev, rec);
      Tally(t.breaks + (if got != Some(h(prev, rec)) then 1 else 0) + (if rec.prev != Some(Short(prev)) then 1 else 0),
            if got.Some? then got.value else prev, t.checked + 1, Some(rec))
  }

  function Scan(h: Digest, lines: seq<Line>): Tally {
    if lines == [] then Tally(0, GENESIS, 0, None)
    else Judged(h, Scan(h, lines[..|lines| - 1]), lines[|lines| - 1])
  }

  /** The cross-check against chain.state; skipped when no record was read. */
  function StateBreaks(t: Tally, head: Head): nat {
    if head.Absent? || t.last.None? then 0
    else if head.Unreadable? then 1
    else (if head.prev != Some(t.prev) then 1 else 0) + (if head.no != t.last.value.no then 1 else 0)
  }

  function Breaks(h: Digest, lines: seq<Line>, head: Head): nat {
    var t := Scan(h, lines);
    t.breaks + StateBreaks(t, head)
  }

  lemma ScanNext(h: Digest, lines: seq<Line>, line: Line)
    ensures Scan(h, lines + [line]) == Judged(h, Scan(h, lines), line)
  {
  }

  // -------------------------------------------------------- what is counted

  /** The hash a line is judged against: the last one read, or the anchor for a
      record numbered 1 and at the beginning. */
  function Due(lines: seq<Line>, k: nat): string
    requires k < |lines|
    decreases k
  {
    if lines[k].Line? && lines[k].rec.no == Some(1) then GENESIS
    else if k == 0 then GENESIS
    else if lines[k - 1].Line? && lines[k - 1].h.Some? then lines[k - 1].h.value
    else Due(lines, k - 1)
  }

  /** The link a record after this hash holds. */
  predicate Links(link: Option<string>, hash: string) {
    link == Some(if |hash| < 12 then hash else hash[..12])
  }

  /** What can be wrong with a line: it is no record, its hash is not that of
      its record after the hash before it, its link is not the beginning of that
      hash. */
  datatype Wrong = Unread | Altered | Unlinked

  predicate IsWrong(h: Digest, lines: seq<Line>, wrong: Wrong, k: nat)
    requires k < |lines|
  {
    match lines[k]
    case NotJson => wrong == Unread
    case Line(rec, got) =>
      (wrong == Altered && got != Some(h(Due(lines, k), rec))) || (wrong == Unlinked && !Links(rec.prev, Due(lines, k)))
  }

  ghost function WrongOnes(h: Digest, lines: seq<Line>, wrong: Wrong): set<nat> {
    set k | 0 <= k < |lines| && IsWrong(h, lines, wrong, k)
  }

  lemma {:induction false} DueKeeps(lines: seq<Line>, line: Line, k: nat)
    requires k < |lines|
    ensures Due(lines + [line], k) == Due(lines, k)
  {
    if k > 0 { DueKeeps(lines, line, k - 1); }
  }

  /** One line more adds itself to the sets it belongs to. */
  lemma OneLineMore(h: Digest, was: seq<Line>, line: Line, wrong: Wrong)
    ensures |WrongOnes(h, was + [line], wrong)| ==
            |WrongOnes(h, was, wrong)| + if IsWrong(h, was + [line], wrong, |was|) then 1 else 0
  {
    hide IsWrong;
    var lines, n := was + [line], |was|;
    var before, now := WrongOnes(h, was, wrong), WrongOnes(h, lines, wrong);
    forall k | 0 <= k < n ensures k in now <==> k in before { WrongStays(h, was, line, wrong, k); }
    assert now == if IsWrong(h, lines, wrong, n) then before + {n} else before;
  }

  lemma WrongStays(h: Digest, was: seq<Line>, line: Line, wrong: Wrong, k: nat)
    requires k < |was|
    ensures IsWrong(h, was + [line], wrong, k) == IsWrong(h, was, wrong, k)
  {
    DueKeeps(was, line, k);
    hide Due, Links;
  }

  /** The verifier's count is the number of lines that do not parse, of hashes
      that are wrong and of links that are wrong. */
  lemma {:induction false} BreaksAre(h: Digest, lines: seq<Line>)
    ensures Scan(h, lines).breaks == |WrongOnes(h, lines, Unread)| + |WrongOnes(h, lines, Altered)| + |WrongOnes(h, lines, Unlinked)|
    ensures Scan(h, lines).checked == |lines| - |WrongOnes(h, lines, Unread)|
    ensures lines != [] ==> Scan(h, lines).prev ==
                              var last := lines[|lines| - 1];
                              if last.Line? && last.h.Some? then last.h.value else Due(lines, |lines| - 1)
  {
    if lines != [] {
      var was, line := lines[..|lines| - 1], lines[|lines| - 1];
      BreaksAre(h, was);
      assert lines == was + [line];
      OneLineMore(h, was, line, Unread);
      OneLineMore(h, was, line, Altered);
      OneLineMore(h, was, line, Unlinked);
      hide Links, WrongOnes, Short;
      DueIs(lines);
      if line.Line? { ShortLinks(line.rec.prev, Due(lines, |was|)); }
      if |was| > 0 { DueKeeps(was, line, |was| - 1); }
    }
  }

  lemma DueIs(lines: seq<Line>)
    requires lines != []
    ensures var n := |lines| - 1;
            Due(lines, n) ==
              if lines[n].Line? && lines[n].rec.no == Some(1) then GENESIS
              else if n == 0 then GENESIS
              else if lines[n - 1].Line? && lines[n - 1].h.Some? then lines[n - 1].h.value
              else Due(lines, n - 1)
  {
  }

  lemma ShortLinks(link: Option<string>, hash: string)
    ensures link == Some(Short(hash)) <==> Links(link, hash)
  {
    if |hash| == 12 { assert hash[..12] == hash; }
  }

  lemma NothingScanned(h: Digest)
    ensures Scan(h, []) == Tally(0, GENESIS, 0, None)
  {
  }

  // ------------------------------------------------------------------ chains

  function RecordAfter(no: int, prev: string, body: string): Rec {
    Rec(Some(no), Some(Short(prev)), body)
  }

  /** The hash at the head of a chain with these bodies. */
  function Tip(h: Digest, bodies: seq<string>): string {
    if bodies == [] then GENESIS
    else
      var before := Tip(h, bodies[..|bodies| - 1]);
      h(before, RecordAfter(|bodies|, before, bodies[|bodies| - 1]))
  }

  /** The lines of one chain. */
  function Written(h: Digest, bodies: seq<string>): (lines: seq<Line>)
    ensures |lines| == |bodies|
  {
    if bodies == [] then []
    else
      var front := bodies[..|bodies| - 1];
      Written(h, front) + [Line(RecordAfter(|bodies|, Tip(h, front), bodies[|bodies| - 1]), Some(Tip(h, bodies)))]
  }

  function HeadOf(h: Digest, bodies: seq<string>): Head {
    if bodies == [] then Absent else Saved(Some(Tip(h, bodies)), Some(|bodies|))
  }

  lemma AppendScan(h: Digest, front: seq<Line>, lines: seq<Line>)
    requires lines != []
    ensures Scan(h, front + lines) == Judged(h, Scan(h, front + lines[..|lines| - 1]), lines[|lines| - 1])
  {
    assert (front + lines)[..|front + lines| - 1] == front + lines[..|lines| - 1];
  }

  /** A chain verifies on its own, and after anything else that verifies. */
  lemma {:induction false} ChainScans(h: Digest, front: seq<Line>, bodies: seq<string>)
    requires bodies != []
    ensures Scan(h, front + Written(h, bodies)).breaks == Scan(h, front).breaks
    ensures Scan(h, front + Written(h, bodies)).prev == Tip(h, bodies)
    ensures Scan(h, front + Written(h, bodies)).last.Some? && Scan(h, front + Written(h, bodies)).last.value.no == Some(|bodies|)
  {
    var lines := Written(h, bodies);
    var rest := bodies[..|bodies| - 1];
    AppendScan(h, front, lines);
    assert lines[..|lines| - 1] == Written(h, rest);
    if rest == [] {
      assert front + Written(h, rest) == front;
    } else {
      ChainScans(h, front, rest);
    }
  }

  /** With the head of the files intact, the lines can only end in the chain
      that was written. */
  lemma {:induction false} OnlyTheChainEndsHere(h: Digest, lines: seq<Line>, bodies: seq<string>)
    requires Ideal(h) && bodies != []
    requires Scan(h, lines).breaks == 0 && Scan(h, lines).prev == Tip(h, bodies)
    ensures |bodies| <= |lines| && lines[|lines| - |bodies|..] == Written(h, bodies)
    ensures Scan(h, lines[..|lines| - |bodies|]).breaks == 0
  {
    assert Tip(h, bodies) != GENESIS;
    var front, last := lines[..|lines| - 1], lines[|lines| - 1];
    var rest := bodies[..|bodies| - 1];
    var t := Scan(h, front);
    assert Scan(h, lines) == Judged(h, t, last);
    assert last.rec == RecordAfter(|bodies|, Tip(h, rest), bodies[|bodies| - 1]) && Anchor(t.prev, last.rec) == Tip(h, rest);
    if rest == [] {
      assert lines[|lines| - 1..] == Written(h, rest) + [last];
    } else {
      OnlyTheChainEndsHere(h, front, rest);
      assert lines[|lines| - |bodies|..] == front[|front| - |rest|..] + [last];
      assert lines[..|lines| - |bodies|] == front[..|front| - |rest|];
    }
  }

  lemma SomethingWasRead(h: Digest, lines: seq<Line>)
    requires lines != [] && Scan(h, lines).breaks == 0
    ensures Scan(h, lines).last.Some?
  {
  }

  /** What zero breaks means, exactly.  The files end in precisely the records
      that were written, in order, with nothing edited, removed, inserted or
      moved; what stands before them is some other chain that verifies by
      itself.  The one exception: files with no line left pass unnoticed. */
  lemma ZeroBreaksExactly(h: Digest, lines: seq<Line>, bodies: seq<string>)
    requires Ideal(h) && bodies != []
    ensures Breaks(h, lines, HeadOf(h, bodies)) == 0 <==>
              lines == [] ||
              (|bodies| <= |lines| && lines[|lines| - |bodies|..] == Written(h, bodies) &&
               Scan(h, lines[..|lines| - |bodies|]).breaks == 0)
  {
    NothingScanned(h);
    hide Ideal, Written, Scan, Judged;
    if lines != [] && Breaks(h, lines, HeadOf(h, bodies)) == 0 {
      SomethingWasRead(h, lines);
      assert Scan(h, lines).breaks == 0 && Scan(h, lines).prev == Tip(h, bodies);
      OnlyTheChainEndsHere(h, lines, bodies);
    }
    if |bodies| <= |lines| && lines[|lines| - |bodies|..] == Written(h, bodies) {
      var front := lines[..|lines| - |bodies|];
      assert lines == front + Written(h, bodies);
      ChainScans(h, front, bodies);
    }
  }

  /** Nothing can follow the records written, and none of them can be missing. */
  lemma NoTailIsLost(h: Digest, bodies: seq<string>, n: nat)
    requires Ideal(h) && 0 < n < |bodies|
    ensures Breaks(h, Written(h, bodies)[..n], HeadOf(h, bodies)) > 0
    ensures Breaks(h, Written(h, bodies)[..n], Absent) == 0
  {
    ZeroBreaksExactly(h, Written(h, bodies)[..n], bodies);
    PrefixOfChain(h, bodies, n);
    ChainScans(h, [], bodies[..n]);
    assert [] + Written(h, bodies[..n]) == Written(h, bodies[..n]);
  }

  lemma {:induction false} PrefixOfChain(h: Digest, bodies: seq<string>, n: nat)
    requires n <= |bodies|
    ensures Written(h, bodies)[..n] == Written(h, bodies[..n])
    decreases |bodies|
  {
    if n < |bodies| {
      var rest := bodies[..|bodies| - 1];
      PrefixOfChain(h, rest, n);
      assert rest[..n] == bodies[..n];
    } else {
      assert bodies[..n] == bodies;
    }
  }

  /** The line a call writes is accepted exactly when it was computed from the
      head the verifier has reached. */
  lemma LineIsAccepted(h: Digest, t: Tally, no: int, prev: string, body: string)
    requires Ideal(h)
    ensures var rec := RecordAfter(no, prev, body); var t' := Judged(h, t, Line(rec, Some(h(prev, rec))));
            && (t'.breaks == t.breaks <==> prev == Anchor(t.prev, rec)) && t'.breaks >= t.breaks
            && StateBreaks(t', Saved(Some(h(prev, rec)), Some(no))) == 0
  {
  }

  lemma {:induction false} BreaksOnlyGrow(h: Digest, lines: seq<Line>, n: nat)
    requires n <= |lines|
    ensures Scan(h, lines[..n]).breaks <= Scan(h, lines).breaks
    decreases |lines|
  {
    if n < |lines| {
      BreaksOnlyGrow(h, lines[..|lines| - 1], n);
      assert lines[..|lines| - 1][..n] == lines[..n];
    } else {
      assert lines[..n] == lines;
    }
  }

  /** A line that is no record is a break wherever it stands. */
  lemma {:induction false} NoRecordBreaks(h: Digest, lines: seq<Line>, k: nat)
    requires k < |lines| && lines[k].NotJson?
    ensures Scan(h, lines).breaks > 0
  {
    BreaksOnlyGrow(h, lines, k + 1);
    assert lines[..k + 1] == lines[..k] + [NotJson];
    ScanNext(h, lines[..k], NotJson);
  }

  /** Chains of different length have different heads: the number is hashed too. */
  lemma TipsDiffer(h: Digest, a: seq<string>, b: seq<string>)
    requires Ideal(h) && |a| < |b|
    ensures Tip(h, a) != Tip(h, b)
  {
  }

  /** A clock set back to an earlier day puts the new record in the middle of
      the stream; it verifies there exactly when no line follows. */
  lemma BackdatedRecordExactly(h: Digest, bodies: seq<string>, body: string, p: nat)
    requires Ideal(h) && bodies != [] && p <= |bodies|
    ensures var rec := RecordAfter(|bodies| + 1, Tip(h, bodies), body);
            var line := Line(rec, Some(h(Tip(h, bodies), rec)));
            Scan(h, Written(h, bodies)[..p] + [line] + Written(h, bodies)[p..]).breaks == 0 <==> p == |bodies|
  {
    hide Written, Scan, Tip, Ideal;
    var rec := RecordAfter(|bodies| + 1, Tip(h, bodies), body);
    var line := Line(rec, Some(h(Tip(h, bodies), rec)));
    var all := Written(h, bodies);
    var lines := all[..p] + [line] + all[p..];
    AcceptedOnlyAtTheEnd(h, bodies, body, p);
    BreaksOnlyGrow(h, lines, p + 1);
    assert lines[..p + 1] == all[..p] + [line];
    if p == |bodies| { assert lines == lines[..p + 1]; }
  }

  lemma AcceptedOnlyAtTheEnd(h: Digest, bodies: seq<string>, body: string, p: nat)
    requires Ideal(h) && bodies != [] && p <= |bodies|
    ensures var rec := RecordAfter(|bodies| + 1, Tip(h, bodies), body);
            Scan(h, Written(h, bodies)[..p] + [Line(rec, Some(h(Tip(h, bodies), rec)))]).breaks == 0 <==> p == |bodies|
  {
    hide Written, Scan, Tip, Judged, Ideal;
    var rec := RecordAfter(|bodies| + 1, Tip(h, bodies), body);
    var front := Written(h, bodies)[..p];
    PrefixScans(h, bodies, p);
    ScanNext(h, front, Line(rec, Some(h(Tip(h, bodies), rec))));
    LineIsAccepted(h, Scan(h, front), |bodies| + 1, Tip(h, bodies), body);
    if p < |bodies| { TipsDiffer(h, bodies[..p], bodies); } else { assert bodies[..p] == bodies; }
  }

  lemma PrefixScans(h: Digest, bodies: seq<string>, p: nat)
    requires p <= |bodies|
    ensures Scan(h, Written(h, bodies)[..p]).breaks == 0 && Scan(h, Written(h, bodies)[..p]).prev == Tip(h, bodies[..p])
  {
    PrefixOfChain(h, bodies, p);
    assert [] + Written(h, bodies[..p]) == Written(h, bodies[..p]);
    if p > 0 { ChainScans(h, [], bodies[..p]); }
  }
}
