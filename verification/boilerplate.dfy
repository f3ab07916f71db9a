/**
 Dropping boilerplate from the end of a body: the paragraphs and their offsets,
 the tail window, the anchor rules, and the two detectors.  Whatever a detector
 or a model answers, the cut stays behind the first paragraph.
 */
module Boilerplate {
  import opened Mail
  import opened BodyClean

  const TAIL_MIN_CHARS := 400
  const TAIL_MAX_PARAGRAPHS := 8

  // ------------------------------------------------------------- paragraphs

  datatype Para = Para(off: nat, chunk: string)

  function Whitespace(g: Grammar): bool {
    g.space('\n') && g.space(' ') && g.space('\t')
  }

  /** Past the blanks and tabs that start here. */
  function SkipBlanks(text: string, i: nat): (k: nat)
    requires i <= |text|
    ensures i <= k <= |text| && forall j :: i <= j < k ==> text[j] == ' ' || text[j] == '\t'
    decreases |text| - i
  {
    if i < |text| && (text[i] == ' ' || text[i] == '\t') then SkipBlanks(text, i + 1) else i
  }

  function SkipNewlines(text: string, i: nat): (k: nat)
    requires i <= |text|
    ensures i <= k <= |text| && forall j :: i <= j < k ==> text[j] == '\n'
    decreases |text| - i
  {
    if i < |text| && text[i] == '\n' then SkipNewlines(text, i + 1) else i
  }

  /** Where the separator that starts here ends: a newline, blanks, newlines. */
  function SeparatorEnd(text: string, i: nat): (end: Option<nat>)
    requires i < |text|
    ensures end.Some? ==> i + 2 <= end.value <= |text|
    ensures end.Some? ==> forall j :: i <= j < end.value ==> text[j] in ['\n', ' ', '\t']
  {
    if text[i] != '\n' then None
    else
      var k := SkipBlanks(text, i + 1);
      if k < |text| && text[k] == '\n' then Some(SkipNewlines(text, k + 1)) else None
  }

  /** The next separator at or after `i`. */
  function NextSeparator(text: string, i: nat): (r: Option<(nat, nat)>)
    requires i <= |text|
    ensures r.Some? ==> i <= r.value.0 < |text| && SeparatorEnd(text, r.value.0) == Some(r.value.1)
    ensures forall j :: i <= j < (if r.Some? then r.value.0 else |text|) ==> SeparatorEnd(text, j).None?
    decreases |text| - i
  {
    if i == |text| then None
    else if SeparatorEnd(text, i).Some? then Some((i, SeparatorEnd(text, i).value))
    else NextSeparator(text, i + 1)
  }

  function Block(g: Grammar, text: string, a: nat, b: nat): seq<Para>
    requires a <= b <= |text|
  {
    if IsBlank(g, text[a..b]) then [] else [Para(a, text[a..b])]
  }

  function ParagraphsFrom(g: Grammar, text: string, pos: nat): seq<Para>
    requires pos <= |text|
    decreases |text| - pos
  {
    match NextSeparator(text, pos)
    case None => Block(g, text, pos, |text|)
    case Some((a, b)) => Block(g, text, pos, a) + ParagraphsFrom(g, text, b)
  }

  /** A separator, declaratively: two newlines with at most blanks between them,
      and all the newlines that follow. */
  ghost predicate Gap(text: string, a: nat, b: nat) {
    exists k :: GapAt(text, a, k, b)
  }

  ghost predicate GapAt(text: string, a: nat, k: int, b: nat) {
    && a < k < b <= |text| && text[a] == '\n' && (forall j :: a < j < k ==> text[j] == ' ' || text[j] == '\t')
    && (forall j :: k <= j < b ==> text[j] == '\n') && (b < |text| ==> text[b] != '\n')
  }

  lemma {:induction false} BlanksEnd(text: string, i: nat, k: nat)
    requires i <= k < |text| && text[k] == '\n' && forall j :: i <= j < k ==> text[j] == ' ' || text[j] == '\t'
    ensures SkipBlanks(text, i) == k
    decreases k - i
  {
    if i < k { BlanksEnd(text, i + 1, k); }
  }

  lemma {:induction false} BlanksStop(text: string, i: nat)
    requires i <= |text|
    ensures var k := SkipBlanks(text, i); k < |text| ==> text[k] != ' ' && text[k] != '\t'
    decreases |text| - i
  {
    if i < |text| && (text[i] == ' ' || text[i] == '\t') { BlanksStop(text, i + 1); }
  }

  lemma {:induction false} NewlinesEnd(text: string, i: nat)
    requires i <= |text|
    ensures var k := SkipNewlines(text, i); k < |text| ==> text[k] != '\n'
    decreases |text| - i
  {
    if i < |text| && text[i] == '\n' { NewlinesEnd(text, i + 1); }
  }

  lemma SeparatorExactly(text: string, a: nat, b: nat)
    requires a < |text|
    ensures SeparatorEnd(text, a) == Some(b) <==> Gap(text, a, b)
  {
    if SeparatorEnd(text, a) == Some(b) {
      var k := SkipBlanks(text, a + 1);
      NewlinesEnd(text, k + 1);
      assert GapAt(text, a, k, b);
    }
    if Gap(text, a, b) {
      var m :| GapAt(text, a, m, b);
      BlanksEnd(text, a + 1, m);
      NewlinesEnd(text, m + 1);
    }
  }

  /** A paragraph runs from the beginning or a separator to the next separator
      or the end, and no separator begins in it. */
  ghost predicate Between(text: string, p: Para) {
    var end := p.off + |p.chunk|;
    && end <= |text|
    && (p.off == 0 || exists a :: Gap(text, a, p.off))
    && (end == |text| || exists b :: Gap(text, end, b))
    && (forall i, b :: p.off <= i < end ==> !Gap(text, i, b))
  }

  lemma NextIsTheFirstGap(text: string, pos: nat)
    requires pos <= |text|
    ensures var m := NextSeparator(text, pos); var end := if m.Some? then m.value.0 else |text|;
            && (m.Some? ==> Gap(text, m.value.0, m.value.1))
            && (forall i, b :: pos <= i < end ==> !Gap(text, i, b))
  {
    var m := NextSeparator(text, pos);
    if m.Some? { SeparatorExactly(text, m.value.0, m.value.1); }
    forall i, b | pos <= i < (if m.Some? then m.value.0 else |text|) ensures !Gap(text, i, b) {
      if Gap(text, i, b) { SeparatorExactly(text, i, b); }
    }
  }

  lemma BlockBetween(g: Grammar, text: string, a: nat, b: nat)
    requires a <= b <= |text| && (a == 0 || exists x :: Gap(text, x, a)) && (b == |text| || exists x :: Gap(text, b, x))
    requires forall i, x :: a <= i < b ==> !Gap(text, i, x)
    ensures forall k :: 0 <= k < |Block(g, text, a, b)| ==> Between(text, Block(g, text, a, b)[k])
  {
    hide Gap, IsBlank;
    var p := Para(a, text[a..b]);
    assert p.off + |p.chunk| == b;
    assert Between(text, p);
  }

  /** The paragraphs are exactly what lies between the separators. */
  lemma {:induction false} ParagraphsBetween(g: Grammar, text: string, pos: nat)
    requires pos <= |text| && (pos == 0 || exists a :: Gap(text, a, pos))
    ensures forall k :: 0 <= k < |ParagraphsFrom(g, text, pos)| ==> Between(text, ParagraphsFrom(g, text, pos)[k])
    decreases |text| - pos
  {
    NextIsTheFirstGap(text, pos);
    hide Gap, IsBlank, SeparatorEnd;
    match NextSeparator(text, pos)
    case None => BlockBetween(g, text, pos, |text|);
    case Some((a, b)) =>
      assert Gap(text, a, b);
      ParagraphsBetween(g, text, b);
      var rest := ParagraphsFrom(g, text, b);
      BlockBetween(g, text, pos, a);
      assert ParagraphsFrom(g, text, pos) == Block(g, text, pos, a) + rest;
      hide Between, Block;
  }

  /** Exact slices, none blank, in order and without overlap, within these bounds. */
  predicate Laid(g: Grammar, text: string, ps: seq<Para>, from: nat, to: nat) {
    && (forall k :: 0 <= k < |ps| ==>
          && from <= ps[k].off && ps[k].off + |ps[k].chunk| <= to <= |text|
          && ps[k].chunk == text[ps[k].off..ps[k].off + |ps[k].chunk|]
          && !IsBlank(g, ps[k].chunk))
    && (forall j, k :: 0 <= j < k < |ps| ==> ps[j].off + |ps[j].chunk| < ps[k].off)
  }

  predicate Inside(ps: seq<Para>, i: nat) {
    exists k :: 0 <= k < |ps| && ps[k].off <= i < ps[k].off + |ps[k].chunk|
  }

  /** Every mark of this stretch of the text is in one of the paragraphs. */
  predicate Covers(g: Grammar, text: string, ps: seq<Para>, from: nat, to: nat)
    requires to <= |text|
  {
    forall i :: from <= i < to && !g.space(text[i]) ==> Inside(ps, i)
  }

  lemma {:induction false} BlankHasNoMark(g: Grammar, s: string, i: nat)
    requires IsBlank(g, s) && i < |s|
    ensures g.space(s[i])
  {
    LStripBlank(g, RStrip(g, s));
    RStripBlank(g, s, i);
  }

  lemma {:induction false} LStripBlank(g: Grammar, s: string)
    ensures LStrip(g, s) == [] ==> forall i :: 0 <= i < |s| ==> g.space(s[i])
  {
    if s != [] && g.space(s[0]) {
      LStripBlank(g, s[1..]);
      assert forall i :: 1 <= i < |s| ==> s[i] == s[1..][i - 1];
    }
  }

  lemma {:induction false} RStripBlank(g: Grammar, s: string, i: nat)
    requires i < |s|
    ensures i < |RStrip(g, s)| || g.space(s[i])
  {
    if g.space(s[|s| - 1]) && i < |s| - 1 { RStripBlank(g, s[..|s| - 1], i); }
  }

  /** The paragraphs are exact slices in order, and no mark of the text is in
      none of them. */
  lemma {:induction false} ParagraphsCover(g: Grammar, text: string, pos: nat)
    requires Whitespace(g) && pos <= |text|
    ensures Laid(g, text, ParagraphsFrom(g, text, pos), pos, |text|)
    ensures Covers(g, text, ParagraphsFrom(g, text, pos), pos, |text|)
    decreases |text| - pos
  {
    hide Laid, Covers, IsBlank, Block, Inside;
    match NextSeparator(text, pos)
    case None =>
      BlockCovers(g, text, pos, |text|);
    case Some((a, b)) =>
      hide NextSeparator;
      BlockCovers(g, text, pos, a);
      ParagraphsCover(g, text, b);
      SeparatorIsBlank(g, text, a, b);
      CoversJoin(g, text, Block(g, text, pos, a), ParagraphsFrom(g, text, b), pos, a, b);
  }

  lemma SeparatorIsBlank(g: Grammar, text: string, a: nat, b: nat)
    requires Whitespace(g) && a < |text| && SeparatorEnd(text, a) == Some(b)
    ensures forall i :: a <= i < b ==> g.space(text[i])
  {
  }

  lemma CoversJoin(g: Grammar, text: string, ps: seq<Para>, qs: seq<Para>, pos: nat, a: nat, b: nat)
    requires pos <= a < b <= |text| && forall i :: a <= i < b ==> g.space(text[i])
    requires Laid(g, text, ps, pos, a) && Laid(g, text, qs, b, |text|)
    requires Covers(g, text, ps, pos, a) && Covers(g, text, qs, b, |text|)
    ensures Laid(g, text, ps + qs, pos, |text|) && Covers(g, text, ps + qs, pos, |text|)
  {
    LaidJoin(g, text, ps, qs, pos, a, b);
    hide Laid;
    forall i | pos <= i < |text| && !g.space(text[i]) ensures Inside(ps + qs, i) {
      if i < a { assert Inside(ps, i); } else { assert i >= b && Inside(qs, i); }
      InsideJoin(ps, qs, i);
    }
  }

  lemma LaidJoin(g: Grammar, text: string, ps: seq<Para>, qs: seq<Para>, pos: nat, a: nat, b: nat)
    requires pos <= a < b <= |text| && Laid(g, text, ps, pos, a) && Laid(g, text, qs, b, |text|)
    ensures Laid(g, text, ps + qs, pos, |text|)
  {
  }

  lemma InsideJoin(ps: seq<Para>, qs: seq<Para>, i: nat)
    requires Inside(ps, i) || Inside(qs, i)
    ensures Inside(ps + qs, i)
  {
    if Inside(ps, i) {
      var k :| 0 <= k < |ps| && ps[k].off <= i < ps[k].off + |ps[k].chunk|;
      assert (ps + qs)[k] == ps[k];
    } else {
      var k :| 0 <= k < |qs| && qs[k].off <= i < qs[k].off + |qs[k].chunk|;
      assert (ps + qs)[|ps| + k] == qs[k];
    }
  }

  lemma BlockCovers(g: Grammar, text: string, a: nat, b: nat)
    requires a <= b <= |text|
    ensures Laid(g, text, Block(g, text, a, b), a, b) && Covers(g, text, Block(g, text, a, b), a, b)
  {
    var block := Block(g, text, a, b);
    forall i | a <= i < b && !g.space(text[i]) ensures Inside(block, i) {
      if IsBlank(g, text[a..b]) {
        BlankHasNoMark(g, text[a..b], i - a);
      } else {
        assert block[0].off <= i < block[0].off + |block[0].chunk|;
      }
    }
  }

  lemma OneMoreBlock(g: Grammar, text: string, ps: seq<Para>, pos: nat)
    requires pos <= |text|
    ensures var m := NextSeparator(text, pos);
            && (m.None? ==> ParagraphsFrom(g, text, pos) == Block(g, text, pos, |text|))
            && (m.Some? ==>
                  ps + ParagraphsFrom(g, text, pos) ==
                  ps + Block(g, text, pos, m.value.0) + ParagraphsFrom(g, text, m.value.1))
  {
  }

  method Paragraphs(g: Grammar, text: string) returns (ps: seq<Para>)
    ensures ps == ParagraphsFrom(g, text, 0)
  {
    hide NextSeparator, IsBlank, ParagraphsFrom;
    ps := [];
    var pos := 0;
    var m := NextSeparator(text, pos);
    while m.Some?
      invariant pos <= |text| && m == NextSeparator(text, pos)
      invariant ps + ParagraphsFrom(g, text, pos) == ParagraphsFrom(g, text, 0)
      decreases |text| - pos
    {
      OneMoreBlock(g, text, ps, pos);
      var (a, b) := m.value;
      var chunk := text[pos..a];
      if !IsBlank(g, chunk) { ps := ps + [Para(pos, chunk)]; } else { assert ps + [] == ps; }
      pos := b;
      m := NextSeparator(text, pos);
    }
    OneMoreBlock(g, text, ps, pos);
    assert text[pos..] == text[pos..|text|];
    if !IsBlank(g, text[pos..]) { ps := ps + [Para(pos, text[pos..])]; } else { assert ps + [] == ps; }
  }

  // ------------------------------------------------------------- the tail window

  function Late(ps: seq<Para>, floor: nat): seq<Para> {
    if ps == [] then [] else if ps[0].off >= floor then [ps[0]] + Late(ps[1..], floor) else Late(ps[1..], floor)
  }

  /** Of the paragraphs after the first, those that start late; at most the last eight. */
  function TailOf(ps: seq<Para>, floor: nat): seq<Para> {
    if |ps| < 2 then []
    else
      var late := Late(ps[1..], floor);
      if |late| <= TAIL_MAX_PARAGRAPHS then late else late[|late| - TAIL_MAX_PARAGRAPHS..]
  }

  function Floor(text: string): nat {
    |text| * 3 / 5
  }

  function Tail(g: Grammar, text: string): seq<Para> {
    if |text| < TAIL_MIN_CHARS then [] else TailOf(ParagraphsFrom(g, text, 0), Floor(text))
  }

  lemma {:induction false} AllLate(ps: seq<Para>, floor: nat)
    requires forall k :: 0 <= k < |ps| ==> ps[k].off >= floor
    ensures Late(ps, floor) == ps
  {
    if ps != [] { AllLate(ps[1..], floor); }
  }

  /** Offsets ascend, so what starts late is a suffix. */
  lemma {:induction false} LateIsASuffix(ps: seq<Para>, floor: nat) returns (k: nat)
    requires forall i, j :: 0 <= i < j < |ps| ==> ps[i].off <= ps[j].off
    ensures k <= |ps| && Late(ps, floor) == ps[k..]
    ensures forall j :: 0 <= j < |ps| ==> (ps[j].off >= floor <==> k <= j)
  {
    if ps == [] || ps[0].off >= floor {
      k := 0;
      AllLate(ps, floor);
    } else {
      var m := LateIsASuffix(ps[1..], floor);
      k := m + 1;
      assert forall j :: 1 <= j < |ps| ==> ps[j] == ps[1..][j - 1];
    }
  }

  predicate OffsetsAscend(ps: seq<Para>) {
    forall i, j :: 0 <= i < j < |ps| ==> ps[i].off <= ps[j].off
  }

  lemma TailOfIsASuffix(ps: seq<Para>, floor: nat) returns (k: nat)
    requires OffsetsAscend(ps)
    ensures k <= |ps| <= k + TAIL_MAX_PARAGRAPHS && TailOf(ps, floor) == ps[k..] && (ps != [] ==> 1 <= k)
    ensures forall j :: 1 <= j < |ps| && j >= |ps| - TAIL_MAX_PARAGRAPHS ==> (ps[j].off >= floor <==> k <= j)
  {
    k := |ps|;
    if |ps| >= 2 {
      var m := LateIsASuffix(ps[1..], floor);
      forall j | 1 <= j < |ps| ensures ps[j].off >= floor <==> m + 1 <= j { assert ps[j] == ps[1..][j - 1]; }
      assert ps[1..][m..] == ps[m + 1..];
      hide Late;
      k := if |ps| - (m + 1) <= TAIL_MAX_PARAGRAPHS then m + 1 else |ps| - TAIL_MAX_PARAGRAPHS;
      assert ps[m + 1..][k - (m + 1)..] == ps[k..];
    }
  }

  /** The window the rules act on: a suffix of the paragraphs, never the first,
      at most eight, and of the last eight exactly the ones that start late. */
  lemma TailIsASuffix(g: Grammar, text: string) returns (k: nat)
    requires Whitespace(g)
    ensures var ps := ParagraphsFrom(g, text, 0);
            && k <= |ps| <= k + (if |text| >= 400 then 8 else 0)
            && Tail(g, text) == ps[k..] && (ps != [] ==> 1 <= k)
            && (|text| >= 400 ==>
                  forall j :: 1 <= j < |ps| && j >= |ps| - 8 ==> (5 * ps[j].off + 4 >= 3 * |text| <==> k <= j))
  {
    ParagraphsCover(g, text, 0);
    LaidAscends(g, text, ParagraphsFrom(g, text, 0));
    hide ParagraphsFrom, TailOf, Laid, Covers, OffsetsAscend;
    k := |ParagraphsFrom(g, text, 0)|;
    if |text| >= TAIL_MIN_CHARS { k := TailOfIsASuffix(ParagraphsFrom(g, text, 0), Floor(text)); }
  }

  lemma LaidAscends(g: Grammar, text: string, ps: seq<Para>)
    requires Laid(g, text, ps, 0, |text|)
    ensures OffsetsAscend(ps)
  {
  }

  // ----------------------------------------------------- nothing cuts the first

  /** What is left after a cut at a later paragraph still holds the first one,
      right-stripped, in its place. */
  predicate KeepsFirst(g: Grammar, text: string, kept: string) {
    var ps := ParagraphsFrom(g, text, 0);
    ps != [] ==> KeepsSlice(g, ps[0].chunk, ps[0].off, kept)
  }

  predicate KeepsSlice(g: Grammar, chunk: string, off: nat, kept: string) {
    var first := RStrip(g, chunk);
    first != "" && off + |first| <= |kept| && kept[off..off + |first|] == first
  }

  lemma {:induction false} RStripKeepsMark(g: Grammar, s: string, i: nat)
    requires i < |s| && !g.space(s[i])
    ensures i < |RStrip(g, s)|
  {
    RStripBlank(g, s, i);
  }

  lemma {:induction false} RStripEndsInMark(g: Grammar, s: string)
    requires RStrip(g, s) != []
    ensures !g.space(RStrip(g, s)[|RStrip(g, s)| - 1])
  {
    if g.space(s[|s| - 1]) { RStripEndsInMark(g, s[..|s| - 1]); }
  }

  lemma CutKeepsFirst(g: Grammar, text: string, k: nat)
    requires Whitespace(g) && 1 <= k < |ParagraphsFrom(g, text, 0)|
    ensures ParagraphsFrom(g, text, 0)[k].off <= |text|
    ensures KeepsFirst(g, text, RStrip(g, text[..ParagraphsFrom(g, text, 0)[k].off]))
  {
    hide ParagraphsFrom, KeepsSlice, IsBlank, Covers, Laid, Whitespace, RStrip;
    var ps := ParagraphsFrom(g, text, 0);
    ParagraphsCover(g, text, 0);
    LaidBefore(g, text, ps, k);
    SliceKeepsFirst(g, text, ps[0].off, |ps[0].chunk|, ps[k].off);
  }

  lemma LaidBefore(g: Grammar, text: string, ps: seq<Para>, k: nat)
    requires Laid(g, text, ps, 0, |text|) && 1 <= k < |ps|
    ensures ps[0].off + |ps[0].chunk| <= ps[k].off <= |text| && !IsBlank(g, ps[0].chunk)
    ensures ps[0].chunk == text[ps[0].off..ps[0].off + |ps[0].chunk|]
  {
  }

  lemma SliceKeepsFirst(g: Grammar, text: string, off: nat, size: nat, end: nat)
    requires off + size <= end <= |text| && !IsBlank(g, text[off..off + size])
    ensures KeepsSlice(g, text[off..off + size], off, RStrip(g, text[..end]))
  {
    var chunk, head := text[off..off + size], text[..end];
    FirstIsNotEmpty(g, chunk);
    RStripEndsInMark(g, chunk);
    var first, kept := RStrip(g, chunk), RStrip(g, head);
    hide IsBlank, RStrip;
    var last := off + |first| - 1;
    SliceOfSlice(text, off, size, end, |first|);
    assert head[off..off + |first|] == first;
    assert head[last] == head[off..off + |first|][|first| - 1];
    RStripKeepsMark(g, head, last);
    assert kept == head[..|kept|];
    assert kept[off..off + |first|] == head[off..off + |first|];
  }

  lemma SliceOfSlice(text: string, off: nat, size: nat, end: nat, n: nat)
    requires n <= size && off + size <= end <= |text|
    ensures text[..end][off..off + n] == text[off..off + size][..n]
  {
  }

  lemma FirstIsNotEmpty(g: Grammar, chunk: string)
    requires !IsBlank(g, chunk)
    ensures RStrip(g, chunk) != []
  {
  }

  lemma WholeKeepsFirst(g: Grammar, text: string)
    requires Whitespace(g)
    ensures KeepsFirst(g, text, text)
  {
    hide ParagraphsFrom, KeepsSlice, IsBlank, Laid, Covers, Whitespace;
    var ps := ParagraphsFrom(g, text, 0);
    ParagraphsCover(g, text, 0);
    if ps != [] {
      FirstLaid(g, text, ps);
      SliceKept(g, text, ps[0].off, |ps[0].chunk|);
    }
  }

  lemma FirstLaid(g: Grammar, text: string, ps: seq<Para>)
    requires Laid(g, text, ps, 0, |text|) && ps != []
    ensures ps[0].off + |ps[0].chunk| <= |text| && !IsBlank(g, ps[0].chunk)
    ensures ps[0].chunk == text[ps[0].off..ps[0].off + |ps[0].chunk|]
  {
    hide IsBlank;
  }

  lemma SliceKept(g: Grammar, text: string, off: nat, size: nat)
    requires off + size <= |text| && !IsBlank(g, text[off..off + size])
    ensures KeepsSlice(g, text[off..off + size], off, text)
  {
    var chunk := text[off..off + size];
    FirstIsNotEmpty(g, chunk);
    hide RStrip, IsBlank;
    SliceOfSlice(text, off, size, |text|, |RStrip(g, chunk)|);
    assert text[..|text|] == text;
  }

  // ------------------------------------------------------------- the anchor rules

  /** A legal disclaimer counts only inside the tail window, which begins at
      paragraph `window`; an automatic footer counts wherever it starts. */
  predicate Anchored(ps: seq<Para>, window: nat, disclaimer: string -> bool, footer: string -> bool, k: nat) {
    1 <= k < |ps| && (footer(ps[k].chunk) || (window <= k && disclaimer(ps[k].chunk)))
  }

  /** The text before a paragraph, right-stripped. */
  function Before(g: Grammar, text: string, k: nat): string
    requires k < |ParagraphsFrom(g, text, 0)| && ParagraphsFrom(g, text, 0)[k].off <= |text|
  {
    RStrip(g, text[..ParagraphsFrom(g, text, 0)[k].off])
  }

  /** The first paragraph from `from` on that the rule fits, or the end. */
  method FirstFit(ps: seq<Para>, from: nat, rule: string -> bool) returns (k: nat)
    requires from <= |ps|
    ensures from <= k <= |ps| && (k < |ps| ==> rule(ps[k].chunk)) && forall j :: from <= j < k ==> !rule(ps[j].chunk)
  {
    k := from;
    while k < |ps| && !rule(ps[k].chunk)
      invariant from <= k <= |ps| && forall j :: from <= j < k ==> !rule(ps[j].chunk)
    {
      k := k + 1;
    }
  }

  lemma EarlierOffsetIsEarlier(g: Grammar, text: string, ps: seq<Para>, j: nat, k: nat)
    requires Laid(g, text, ps, 0, |text|) && j < |ps| && k < |ps|
    ensures ps[j].off < ps[k].off <==> j < k
  {
  }

  /** The first disclaimer in the window and the first footer anywhere decide. */
  lemma AnchorsAre(ps: seq<Para>, window: nat, tail: seq<Para>, disclaimer: string -> bool, footer: string -> bool,
                   t: nat, f: nat)
    requires ps != [] && 1 <= window <= |ps| && tail == ps[window..]
    requires t <= |tail| && (t < |tail| ==> disclaimer(tail[t].chunk)) && forall j :: 0 <= j < t ==> !disclaimer(tail[j].chunk)
    requires 1 <= f <= |ps| && (f < |ps| ==> footer(ps[f].chunk)) && forall j :: 1 <= j < f ==> !footer(ps[j].chunk)
    ensures var d := window + t; var at := if f < d then f else d;
            && (at < |ps| <==> exists k: nat :: Anchored(ps, window, disclaimer, footer, k))
            && (at < |ps| ==> Anchored(ps, window, disclaimer, footer, at))
            && forall k: nat :: Anchored(ps, window, disclaimer, footer, k) ==> at <= k
  {
    forall k: nat | Anchored(ps, window, disclaimer, footer, k) ensures (if f < window + t then f else window + t) <= k {
      if window <= k { assert ps[k] == tail[k - window]; }
    }
    var at: nat := if f < window + t then f else window + t;
    if at < |ps| {
      if at != f { assert tail[t] == ps[window + t]; }
      assert Anchored(ps, window, disclaimer, footer, at);
    }
  }

  lemma NothingAnchored(window: nat, disclaimer: string -> bool, footer: string -> bool)
    ensures forall k: nat :: !Anchored([], window, disclaimer, footer, k)
  {
  }

  /** The rule cuts at the earliest anchored paragraph, never at the first one,
      and only if there is one. */
  method StripDisclaimerTail(g: Grammar, text: string, disclaimer: string -> bool, footer: string -> bool)
    returns (kept: string, cut: bool, ghost at: nat, ghost window: nat)
    requires Whitespace(g)
    ensures KeepsFirst(g, text, kept)
    ensures var ps := ParagraphsFrom(g, text, 0);
            && window <= |ps| && Tail(g, text) == ps[window..] && (ps != [] ==> 1 <= window)
            && (cut <==> exists k :: Anchored(ps, window, disclaimer, footer, k))
            && (!cut ==> kept == text)
            && (cut ==> Anchored(ps, window, disclaimer, footer, at) && ps[at].off <= |text| && kept == Before(g, text, at)
                        && forall k :: Anchored(ps, window, disclaimer, footer, k) ==> at <= k)
  {
    hide Laid, Covers, KeepsFirst, ParagraphsFrom, Tail, RStrip, IsBlank, Whitespace, Anchored;
    window := TailIsASuffix(g, text);
    ParagraphsCover(g, text, 0);
    WholeKeepsFirst(g, text);
    var ps := Paragraphs(g, text);
    var tail := Tail(g, text);
    kept, cut, at := text, false, |ps|;
    if ps == [] {
      NothingAnchored(window, disclaimer, footer);
      return;
    }
    var t := FirstFit(tail, 0, disclaimer);
    var f := FirstFit(ps, 1, footer);
    AnchorsAre(ps, window, tail, disclaimer, footer, t, f);
    var off: Option<nat> := None;
    if t < |tail| { off, at := Some(tail[t].off), window + t; }
    if f < |ps| {
      if at < |ps| { EarlierOffsetIsEarlier(g, text, ps, f, at); }
      if off.None? || ps[f].off < off.value { off, at := Some(ps[f].off), f; }
    }
    cut := off.Some?;
    if cut {
      CutKeepsFirst(g, text, at);
      kept := RStrip(g, text[..off.value]);
    }
  }

  // --------------------------------------------------------------- the detectors

  datatype Hit = Hit(detector: string, index: int, ref: string)

  /** The best reference for one vector: the first with the highest score, if
      that score is above the floor of minus one. */
  method BestRef<V>(vec: V, refs: seq<(string, V)>, score: (V, V) -> real) returns (best: Option<nat>)
    ensures best.None? <==> forall r :: 0 <= r < |refs| ==> score(vec, refs[r].1) <= -1.0
    ensures best.Some? ==>
              && best.value < |refs| && score(vec, refs[best.value].1) > -1.0
              && (forall r :: 0 <= r < |refs| ==> score(vec, refs[r].1) <= score(vec, refs[best.value].1))
              && (forall r :: 0 <= r < best.value ==> score(vec, refs[r].1) < score(vec, refs[best.value].1))
  {
    best := None;
    var top := -1.0;
    for k := 0 to |refs|
      invariant best.None? ==> top == -1.0
      invariant best.Some? ==> best.value < k && top == score(vec, refs[best.value].1) > -1.0
      invariant forall r :: 0 <= r < k ==> score(vec, refs[r].1) <= top
      invariant best.Some? ==> forall r :: 0 <= r < best.value ==> score(vec, refs[r].1) < top
    {
      var s := score(vec, refs[k].1);
      if s > top { best, top := Some(k), s; }
    }
  }

  /** The first reference with the highest score. */
  predicate IsBest<V>(vec: V, refs: seq<(string, V)>, score: (V, V) -> real, b: nat) {
    && b < |refs|
    && (forall r :: 0 <= r < |refs| ==> score(vec, refs[r].1) <= score(vec, refs[b].1))
    && (forall r :: 0 <= r < b ==> score(vec, refs[r].1) < score(vec, refs[b].1))
  }

  predicate Resembles<V>(vec: V, refs: seq<(string, V)>, score: (V, V) -> real, threshold: real) {
    exists r :: 0 <= r < |refs| && score(vec, refs[r].1) > -1.0 && score(vec, refs[r].1) >= threshold
  }

  /** A hit for each paragraph whose vector resembles a reference, in order,
      under the name of the best one; a wrong number of vectors only shortens
      the list. */
  method EmbeddingDetect<V>(n: nat, vectors: seq<V>, refs: seq<(string, V)>, score: (V, V) -> real, threshold: real)
    returns (hits: seq<Hit>)
    ensures forall h :: h in hits ==>
              && h.detector == "embedding" && 0 <= h.index < n && h.index < |vectors|
              && exists b: nat :: IsBest(vectors[h.index], refs, score, b) && h.ref == refs[b].0
    ensures forall i :: 0 <= i < n && i < |vectors| ==>
              (Resembles(vectors[i], refs, score, threshold) <==> exists h :: h in hits && h.index == i)
    ensures forall j, k :: 0 <= j < k < |hits| ==> hits[j].index < hits[k].index
  {
    hits := [];
    var m := if n < |vectors| then n else |vectors|;
    for i := 0 to m
      invariant forall h :: h in hits ==>
                  && h.detector == "embedding" && 0 <= h.index < i
                  && exists b: nat :: IsBest(vectors[h.index], refs, score, b) && h.ref == refs[b].0
      invariant forall j :: 0 <= j < i ==> (Resembles(vectors[j], refs, score, threshold) <==> exists h :: h in hits && h.index == j)
      invariant forall j, k :: 0 <= j < k < |hits| ==> hits[j].index < hits[k].index
    {
      var best := BestRef(vectors[i], refs, score);
      ghost var before := hits;
      if best.Some? && score(vectors[i], refs[best.value].1) >= threshold {
        var hit := Hit("embedding", i, refs[best.value].0);
        assert IsBest(vectors[i], refs, score, best.value);
        assert forall k :: 0 <= k < |hits| ==> hits[k] in hits;
        hits := hits + [hit];
        assert hit in hits && forall h :: h in before ==> h in hits;
      } else {
        assert !Resembles(vectors[i], refs, score, threshold);
      }
    }
  }

  /** What the model's answer amounts to, however it was phrased. */
  datatype Answer = Raises | Malformed | Nothing | NotANumber | DropFrom(index: int)

  class LlmDetector {
    var budget: Option<int>

    constructor (budget: Option<int>)
      ensures this.budget == budget
    {
      this.budget := budget;
    }

    /** At most `budget` calls a pass; no answer becomes an index out of range. */
    method Detect(answer: Answer, n: nat) returns (hits: seq<Hit>, asked: bool)
      modifies this
      ensures asked <==> old(budget.None? || budget.value > 0)
      ensures budget == if old(budget.None?) then None else if asked then Some(old(budget).value - 1) else old(budget)
      ensures |hits| <= 1 && forall h :: h in hits ==> h.detector == "llm" && -1 <= h.index < n
      ensures (exists h :: h in hits && h.index >= 0) <==> asked && answer.DropFrom? && 0 <= answer.index < n
      ensures forall h :: h in hits && h.index >= 0 ==> answer == DropFrom(h.index)
    {
      if budget.Some? {
        if budget.value <= 0 { return [], false; }
        budget := Some(budget.value - 1);
      }
      asked := true;
      hits := match answer
        case Nothing => []
        case DropFrom(i) => if 0 <= i < n then [Hit("llm", i, "boilerplate")] else [Hit("llm", -1, "error")]
        case _ => [Hit("llm", -1, "error")];
      if answer.DropFrom? && 0 <= answer.index < n { assert hits[0] in hits; }
    }
  }

  // ----------------------------------------------------------------- the harness

  predicate Allowed(drop: string, h: Hit) {
    0 <= h.index && (drop == "both" || drop == h.detector)
  }

  /** The lowest index an allowed hit names. */
  method LowestAllowed(drop: string, hits: seq<Hit>) returns (low: Option<nat>)
    ensures low.None? <==> forall h :: h in hits ==> !Allowed(drop, h)
    ensures low.Some? ==> (exists h :: h in hits && Allowed(drop, h) && h.index == low.value) &&
                          forall h :: h in hits && Allowed(drop, h) ==> low.value <= h.index
  {
    low := None;
    for k := 0 to |hits|
      invariant low.None? <==> forall h :: h in hits[..k] ==> !Allowed(drop, h)
      invariant low.Some? ==> (exists h :: h in hits[..k] && Allowed(drop, h) && h.index == low.value) &&
                              forall h :: h in hits[..k] && Allowed(drop, h) ==> low.value <= h.index
    {
      assert hits[..k + 1] == hits[..k] + [hits[k]];
      if Allowed(drop, hits[k]) && (low.None? || hits[k].index < low.value) {
        low := Some(hits[k].index);
      }
    }
    assert hits[..|hits|] == hits;
  }

  /** Which paragraphs of the window are hit, and by which detector: the
      embedder hits those near a reference, and the model, if it was asked, the
      one it names. */
  ghost predicate HitsAre<V>(hits: seq<Hit>, n: nat, vectors: seq<V>, refs: seq<(string, V)>, score: (V, V) -> real,
                             threshold: real, asked: bool, answer: Answer) {
    && (forall i: nat :: HitBy(hits, "embedding", i) <==> i < n && i < |vectors| && Resembles(vectors[i], refs, score, threshold))
    && (forall i: nat :: HitBy(hits, "llm", i) <==> i < n && asked && answer == DropFrom(i))
    && (forall h :: h in hits ==> h.detector in {"embedding", "llm"} && h.index < n)
  }

  ghost predicate HitBy(hits: seq<Hit>, detector: string, i: nat) {
    exists h :: h in hits && h.detector == detector && h.index == i
  }

  lemma HitsJoin<V>(near: seq<Hit>, named: seq<Hit>, n: nat, vectors: seq<V>, refs: seq<(string, V)>, score: (V, V) -> real,
                    threshold: real, asked: bool, answer: Answer)
    requires forall h :: h in near ==> h.detector == "embedding" && 0 <= h.index < n && h.index < |vectors|
    requires forall i :: 0 <= i < n && i < |vectors| ==>
               (Resembles(vectors[i], refs, score, threshold) <==> exists h :: h in near && h.index == i)
    requires forall h :: h in named ==> h.detector == "llm" && -1 <= h.index < n
    requires (exists h :: h in named && h.index >= 0) <==> asked && answer.DropFrom? && 0 <= answer.index < n
    requires forall h :: h in named && h.index >= 0 ==> answer == DropFrom(h.index)
    ensures HitsAre(near + named, n, vectors, refs, score, threshold, asked, answer)
  {
    var hits := near + named;
    assert forall h :: h in hits <==> h in near || h in named;
    hide Resembles;
    forall i: nat
      ensures HitBy(hits, "embedding", i) <==> i < n && i < |vectors| && Resembles(vectors[i], refs, score, threshold)
    {
      if i < n && i < |vectors| && Resembles(vectors[i], refs, score, threshold) {
        var h :| h in near && h.index == i;
        assert h in hits;
      }
    }
    forall i: nat ensures HitBy(hits, "llm", i) <==> i < n && asked && answer == DropFrom(i) {
      if i < n && asked && answer == DropFrom(i) {
        var h :| h in named && h.index >= 0;
        assert h in hits && h.index == i;
      }
    }
  }

  /** What the allowed hits leave of a text: all of it, or what stands before
      the earliest paragraph one of them names. */
  ghost predicate CutBy(g: Grammar, text: string, ps: seq<Para>, window: nat, drop: string, hits: seq<Hit>, kept: string) {
    && ((forall h :: h in hits ==> h.index < 0 || (drop != "both" && drop != h.detector)) ==> kept == text)
    && (forall h :: h in hits && 0 <= h.index && (drop == "both" || drop == h.detector) &&
                    (forall o :: o in hits && 0 <= o.index && (drop == "both" || drop == o.detector) ==> h.index <= o.index) ==>
          && window + h.index < |ps| && ps[window + h.index].off <= |text|
          && kept == RStrip(g, text[..ps[window + h.index].off]))
  }

  /** The texts the embedder is given. */
  function Texts(g: Grammar, ps: seq<Para>): (texts: seq<string>)
    ensures |texts| == |ps| && forall k :: 0 <= k < |ps| ==> texts[k] == Strip(g, ps[k].chunk)
  {
    seq(|ps|, k requires 0 <= k < |ps| => Strip(g, ps[k].chunk))
  }

  lemma LowestCuts(g: Grammar, text: string, ps: seq<Para>, window: nat, drop: string, hits: seq<Hit>, low: Option<nat>)
    requires window <= |ps| && forall h :: h in hits ==> h.index < |ps| - window
    requires low.None? <==> forall h :: h in hits ==> !Allowed(drop, h)
    requires low.Some? ==> (exists h :: h in hits && Allowed(drop, h) && h.index == low.value) &&
                           forall h :: h in hits && Allowed(drop, h) ==> low.value <= h.index
    requires low.Some? ==> window + low.value < |ps| && ps[window + low.value].off <= |text|
    ensures CutBy(g, text, ps, window, drop, hits, if low.None? then text else RStrip(g, text[..ps[window + low.value].off]))
  {
    hide RStrip;
  }

  class Harness<V(==)> {
    const drop: string
    const threshold: real
    const llm: LlmDetector?
    var refs: seq<(string, V)>

    constructor (drop: string, threshold: real, llm: LlmDetector?, refs: seq<(string, V)>)
      ensures this.drop == drop && this.threshold == threshold && this.llm == llm && this.refs == refs
    {
      this.drop, this.threshold, this.llm, this.refs := drop, threshold, llm, refs;
    }

    /** Both detectors, one after the other; without a reference the first is
        not asked, without a budget the second. */
    method Detect(n: nat, vectors: seq<V>, score: (V, V) -> real, answer: Answer) returns (hits: seq<Hit>, asked: bool)
      modifies if llm != null then {llm} else {}
      ensures asked <==> llm != null && old(llm.budget.None? || llm.budget.value > 0)
      ensures HitsAre(hits, n, vectors, refs, score, threshold, asked, answer)
    {
      var near, named := [], [];
      if refs != [] { near := EmbeddingDetect(n, vectors, refs, score, threshold); }
      asked := false;
      if llm != null { named, asked := llm.Detect(answer, n); }
      HitsJoin(near, named, n, vectors, refs, score, threshold, asked, answer);
      hits := near + named;
    }

    /** Whatever the embedder and the model return: a hit is a paragraph of the
        tail window near a reference or named by the model, the text is cut
        before the earliest one that an allowed detector hit, or not at all,
        and what is kept keeps the first paragraph. */
    method Analyse(g: Grammar, text: string, score: (V, V) -> real, embed: seq<string> -> seq<V>, answer: Answer)
      returns (kept: string, hits: seq<Hit>, asked: bool, ghost window: nat)
      requires Whitespace(g)
      modifies if llm != null then {llm} else {}
      ensures KeepsFirst(g, text, kept)
      ensures var ps := ParagraphsFrom(g, text, 0);
              && window <= |ps| && Tail(g, text) == ps[window..] && (ps != [] ==> 1 <= window)
              && HitsAre(hits, |ps| - window, embed(Texts(g, ps[window..])), refs, score, threshold, asked, answer)
              && (asked <==> window < |ps| && llm != null && old(llm.budget.None? || llm.budget.value > 0))
              && CutBy(g, text, ps, window, drop, hits, kept)
      ensures |text| < 400 ==> kept == text && hits == []
    {
      window := TailIsASuffix(g, text);
      hide KeepsFirst, ParagraphsFrom, RStrip, HitsAre, Strip, CutBy, Tail, Whitespace;
      var tail := Tail(g, text);
      var vectors := embed(Texts(g, tail));
      hide Texts;
      kept, hits, asked := text, [], false;
      if tail == [] {
        WholeKeepsFirst(g, text);
        NoHits(vectors, refs, score, threshold, answer);
        LowestCuts(g, text, ParagraphsFrom(g, text, 0), window, drop, hits, None);
        return;
      }
      hits, asked := Detect(|tail|, vectors, score, answer);
      HitsAreInside(hits, |tail|, vectors, refs, score, threshold, asked, answer);
      kept := Cut(g, text, tail, drop, hits, window);
    }
  }

  /** The text before the earliest paragraph of the window that an allowed hit names. */
  method Cut(g: Grammar, text: string, tail: seq<Para>, drop: string, hits: seq<Hit>, ghost window: nat) returns (kept: string)
    requires Whitespace(g) && 1 <= window <= |ParagraphsFrom(g, text, 0)| && tail == ParagraphsFrom(g, text, 0)[window..]
    requires forall h :: h in hits ==> h.index < |tail|
    ensures KeepsFirst(g, text, kept) && CutBy(g, text, ParagraphsFrom(g, text, 0), window, drop, hits, kept)
  {
    hide ParagraphsFrom, KeepsFirst, RStrip, CutBy;
    WholeKeepsFirst(g, text);
    ghost var ps := ParagraphsFrom(g, text, 0);
    var low := LowestAllowed(drop, hits);
    kept := text;
    if low.Some? {
      assert ps[window..][low.value] == ps[window + low.value];
      CutKeepsFirst(g, text, window + low.value);
      kept := RStrip(g, text[..tail[low.value].off]);
    }
    LowestCuts(g, text, ps, window, drop, hits, low);
  }

  lemma NoHits<V>(vectors: seq<V>, refs: seq<(string, V)>, score: (V, V) -> real, threshold: real, answer: Answer)
    ensures HitsAre([], 0, vectors, refs, score, threshold, false, answer)
  {
  }

  lemma HitsAreInside<V>(hits: seq<Hit>, n: nat, vectors: seq<V>, refs: seq<(string, V)>, score: (V, V) -> real,
                         threshold: real, asked: bool, answer: Answer)
    requires HitsAre(hits, n, vectors, refs, score, threshold, asked, answer)
    ensures forall h :: h in hits ==> h.index < n
  {
  }
}
