/**
 The audit log as text: one JSON object per line is what the writer appends, and
 what the verifier cuts the files into is what Python's splitlines() yields,
 which is more than the newlines the writer put there.
 */
module AuditText {
  import opened Mail
  import opened AuditChain

  /** How a record and its hash are written, and what one raw line, stripped,
      reads as; `None` is a blank line. */
  datatype Codec = Codec(render: (Rec, string) -> string, parse: string -> Option<Line>)

  /** What json.dumps and json.loads promise each other: a rendered record reads
      back, and no proper beginning of one is JSON. */
  ghost predicate Faithful(c: Codec) {
    && c.parse("") == None
    && (forall r, d :: c.parse(c.render(r, d)) == Some(Line(r, Some(d))))
    && (forall r, d :: c.render(r, d) != "" && !IsBreak(c.render(r, d)[0]))
    && (forall r, d, n :: 0 < n < |c.render(r, d)| ==> c.parse(c.render(r, d)[..n]) == Some(NotJson))
  }

  /** Where splitlines() ends a line.  JSON escapes those below a space; it
      writes U+0085, U+2028 and U+2029 as they are. */
  predicate IsBreak(c: char) {
    c in {'\n', '\r', '\U{000B}', '\U{000C}', '\U{001C}', '\U{001D}', '\U{001E}', '\U{0085}', '\U{2028}', '\U{2029}'}
  }

  /** By their codes: the newlines, the separators of ASCII, NEL, and the line
      and paragraph separators. */
  lemma BreaksExactly(c: char)
    ensures IsBreak(c) <==> 10 <= c as int <= 13 || 28 <= c as int <= 30 || c as int in {0x85, 0x2028, 0x2029}
  {
  }

  predicate OneLine(text: string) {
    forall k :: 0 <= k < |text| ==> !IsBreak(text[k])
  }

  /** The pieces between the breaks; the last one is what no break has ended. */
  function Pieces(text: string): (ps: seq<string>)
    ensures ps != []
  {
    if text == "" then [""] else Extended(Pieces(text[..|text| - 1]), text[|text| - 1])
  }

  function Extended(ps: seq<string>, c: char): (r: seq<string>)
    requires ps != []
    ensures r != []
  {
    if IsBreak(c) then ps + [""] else ps[..|ps| - 1] + [ps[|ps| - 1] + [c]]
  }

  function Parsed(c: Codec, pieces: seq<string>): seq<Line> {
    if pieces == [] then []
    else
      var front := Parsed(c, pieces[..|pieces| - 1]);
      match c.parse(pieces[|pieces| - 1])
      case None => front
      case Some(line) => front + [line]
  }

  function Read(c: Codec, text: string): seq<Line> {
    Parsed(c, Pieces(text))
  }

  /** Nothing written, or a last line that is complete. */
  predicate Closed(text: string) {
    text != "" ==> IsBreak(text[|text| - 1])
  }

  // -------------------------------------------------------------- reading back

  lemma {:induction false} ParsedJoin(c: Codec, a: seq<string>, b: seq<string>)
    ensures Parsed(c, a + b) == Parsed(c, a) + Parsed(c, b)
  {
    if b == [] {
      assert a + b == a;
    } else {
      assert (a + b)[..|a + b| - 1] == a + b[..|b| - 1];
      ParsedJoin(c, a, b[..|b| - 1]);
    }
  }

  lemma ExtendedBehind(front: seq<string>, ps: seq<string>, c: char)
    requires ps != []
    ensures Extended(front + ps, c) == front + Extended(ps, c)
  {
  }

  /** Text after a complete line is cut as if it stood alone. */
  lemma {:induction false} PiecesJoin(a: string, front: seq<string>, b: string)
    requires Pieces(a) == front + [""]
    ensures Pieces(a + b) == front + Pieces(b)
  {
    if b == "" {
      assert a + b == a;
    } else {
      var rest := b[..|b| - 1];
      PiecesJoin(a, front, rest);
      assert (a + b)[..|a + b| - 1] == a + rest;
      ExtendedBehind(front, Pieces(rest), b[|b| - 1]);
    }
  }

  lemma ClosedPieces(a: string) returns (front: seq<string>)
    requires Closed(a)
    ensures Pieces(a) == front + [""]
  {
    front := if a == "" then [] else Pieces(a[..|a| - 1]);
  }

  lemma ReadJoin(c: Codec, a: string, b: string)
    requires c.parse("") == None && Closed(a)
    ensures Read(c, a + b) == Read(c, a) + Read(c, b)
  {
    var front := ClosedPieces(a);
    PiecesJoin(a, front, b);
    ParsedJoin(c, front, Pieces(b));
    ParsedJoin(c, front, [""]);
    assert Parsed(c, [""]) == [];
  }

  lemma {:induction false} OneLineIsOnePiece(text: string)
    requires OneLine(text)
    ensures Pieces(text) == [text]
  {
    hide IsBreak;
    if text != "" {
      var rest := text[..|text| - 1];
      assert OneLine(rest) && !IsBreak(text[|rest|]);
      OneLineIsOnePiece(rest);
      assert Extended([rest], text[|rest|]) == [rest + [text[|rest|]]];
      assert rest + [text[|rest|]] == text;
    }
  }

  lemma EntryPieces(text: string)
    ensures Pieces(text + "\n") == Pieces(text) + [""]
  {
    assert (text + "\n")[..|text + "\n"| - 1] == text;
  }

  /** The first piece is what stands before the first break. */
  lemma {:induction false} FirstPiece(text: string, n: nat)
    requires n < |text| && IsBreak(text[n]) && OneLine(text[..n])
    ensures Pieces(text)[0] == text[..n] && |Pieces(text)| > 1
  {
    var rest := text[..|text| - 1];
    if n == |rest| {
      OneLineIsOnePiece(rest);
    } else {
      assert rest[..n] == text[..n];
      FirstPiece(rest, n);
    }
  }

  lemma {:induction false} FirstBreak(text: string) returns (n: nat)
    requires !OneLine(text)
    ensures n < |text| && IsBreak(text[n]) && OneLine(text[..n])
  {
    var rest := text[..|text| - 1];
    if OneLine(rest) {
      n := |rest|;
    } else {
      n := FirstBreak(rest);
      assert rest[..n] == text[..n];
    }
  }

  /** A record rendered on one line reads back as itself.  One whose rendering
      holds a break reads as no record first. */
  lemma EntryReads(c: Codec, r: Rec, d: string)
    requires Faithful(c)
    ensures var text := c.render(r, d);
            if OneLine(text) then Read(c, text + "\n") == [Line(r, Some(d))]
            else Read(c, text + "\n") != [] && Read(c, text + "\n")[0] == NotJson
  {
    var text := c.render(r, d);
    EntryPieces(text);
    ParsedJoin(c, Pieces(text), [""]);
    assert Parsed(c, [""]) == [];
    if OneLine(text) {
      OneLineIsOnePiece(text);
    } else {
      var n := FirstBreak(text);
      FirstPiece(text, n);
      assert n > 0;
      var ps := Pieces(text);
      assert ps == ps[..1] + ps[1..];
      ParsedJoin(c, ps[..1], ps[1..]);
    }
  }

  /** What is left of a rendered record when only its first characters were written. */
  lemma TornEntryReads(c: Codec, r: Rec, d: string, n: nat)
    requires Faithful(c) && OneLine(c.render(r, d)) && n <= |c.render(r, d)|
    ensures Read(c, c.render(r, d)[..n]) ==
              if n == 0 then [] else if n < |c.render(r, d)| then [NotJson] else [Line(r, Some(d))]
  {
    var text := c.render(r, d);
    var part := text[..n];
    OneLineIsOnePiece(part);
    ParsedNext(c, [part], 0);
    assert [part][..1] == [part] && Parsed(c, [part][..0]) == [];
    if n == |text| { assert part == text; }
  }

  // -------------------------------------------------------------- the verifier

  /** The day files in name order, which is date order. */
  datatype File = File(date: nat, text: string)

  function Lines(c: Codec, files: seq<File>): seq<Line> {
    if files == [] then [] else Lines(c, files[..|files| - 1]) + Read(c, files[|files| - 1].text)
  }

  lemma LinesNext(c: Codec, files: seq<File>, d: nat)
    requires d < |files|
    ensures Lines(c, files[..d + 1]) == Lines(c, files[..d]) + Read(c, files[d].text)
  {
    assert files[..d + 1][..d] == files[..d];
  }

  lemma ParsedNext(c: Codec, pieces: seq<string>, k: nat)
    requires k < |pieces|
    ensures Parsed(c, pieces[..k + 1]) ==
              Parsed(c, pieces[..k]) + match c.parse(pieces[k]) case None => [] case Some(line) => [line]
  {
    assert pieces[..k + 1][..k] == pieces[..k];
  }

  /** The lines of one file, after those of the files before it. */
  method VerifyFile(h: Digest, c: Codec, text: string, t: Tally, ghost before: seq<Line>) returns (t': Tally)
    requires t == Scan(h, before)
    ensures t' == Scan(h, before + Read(c, text))
  {
    hide Scan, Pieces, Parsed, Judged;
    var prev, checked, breaks, last := t.prev, t.checked, t.breaks, t.last;
    var pieces := Pieces(text);
    NothingParsed(c, before);
    assert pieces[..0] == [];
    for k := 0 to |pieces|
      invariant Scan(h, before + Parsed(c, pieces[..k])) == Tally(breaks, prev, checked, last)
    {
      ScanPiece(h, c, before, pieces, k);
      match c.parse(pieces[k]) {
        case None =>
        case Some(NotJson) =>
          JudgedAsBreak(h, Tally(breaks, prev, checked, last));
          breaks := breaks + 1;
        case Some(Line(rec, got)) =>
          JudgedAsRecord(h, Tally(breaks, prev, checked, last), rec, got);
          if rec.no == Some(1) { prev := GENESIS; }
          if got != Some(h(prev, rec)) { breaks := breaks + 1; }
          if rec.prev != Some(Short(prev)) { breaks := breaks + 1; }
          prev := if got.Some? then got.value else prev;
          checked, last := checked + 1, Some(rec);
      }
    }
    assert pieces[..|pieces|] == pieces;
    t' := Tally(breaks, prev, checked, last);
  }

  lemma JudgedAsBreak(h: Digest, t: Tally)
    ensures Judged(h, t, NotJson) == t.(breaks := t.breaks + 1)
  {
  }

  lemma JudgedAsRecord(h: Digest, t: Tally, rec: Rec, got: Option<string>)
    ensures var prev := if rec.no == Some(1) then GENESIS else t.prev;
            Judged(h, t, Line(rec, got)) ==
              Tally(t.breaks + (if got != Some(h(prev, rec)) then 1 else 0) + (if rec.prev != Some(Short(prev)) then 1 else 0),
                    if got.Some? then got.value else prev, t.checked + 1, Some(rec))
  {
  }

  /** Exit status 0, 1 or 2, with the number of breaks. */
  method Verify(h: Digest, c: Codec, files: seq<File>, head: Head) returns (status: nat, breaks: nat)
    ensures files == [] <==> status == 2
    ensures files != [] ==> breaks == Breaks(h, Lines(c, files), head) && (status == 0 <==> breaks == 0) && status < 2
  {
    if files == [] { return 2, 0; }
    NothingScanned(h);
    assert Lines(c, files[..0]) == [];
    hide Scan, Lines, Read;
    var t := Tally(0, GENESIS, 0, None);
    for d := 0 to |files|
      invariant t == Scan(h, Lines(c, files[..d]))
    {
      t := VerifyFile(h, c, files[d].text, t, Lines(c, files[..d]));
      LinesNext(c, files, d);
    }
    assert files[..|files|] == files;
    breaks := t.breaks;
    if !head.Absent? && t.last.Some? {
      if head.Unreadable? {
        breaks := breaks + 1;
      } else {
        if head.prev != Some(t.prev) { breaks := breaks + 1; }
        if head.no != t.last.value.no { breaks := breaks + 1; }
      }
    }
    status := if breaks == 0 then 0 else 1;
  }

  lemma NothingParsed(c: Codec, before: seq<Line>)
    ensures before + Parsed(c, []) == before
  {
  }

  /** One raw line more: a blank one is skipped, any other is judged. */
  lemma ScanPiece(h: Digest, c: Codec, before: seq<Line>, pieces: seq<string>, k: nat)
    requires k < |pieces|
    ensures Scan(h, before + Parsed(c, pieces[..k + 1])) ==
              match c.parse(pieces[k])
              case None => Scan(h, before + Parsed(c, pieces[..k]))
              case Some(line) => Judged(h, Scan(h, before + Parsed(c, pieces[..k])), line)
  {
    hide Scan, Judged;
    ParsedNext(c, pieces, k);
    var lines := Parsed(c, pieces[..k]);
    match c.parse(pieces[k])
    case None => assert lines + [] == lines;
    case Some(line) =>
      assert before + (lines + [line]) == before + lines + [line];
      ScanNext(h, before + lines, line);
  }
}
