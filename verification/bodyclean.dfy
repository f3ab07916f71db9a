/**
 Cutting the quoted history off a mail body.  The regular expressions are
 predicates on a normalised line; everything else, down to the characters a
 right-strip removes, is as the program does it.
 */
module BodyClean {
  import opened Mail

  /** The line grammars, and Python's notion of whitespace. */
  datatype Grammar = Grammar(space: char -> bool, original: string -> bool, sender: string -> bool,
                             paired: string -> bool, gmail: string -> bool, wrote: string -> bool)

  ghost predicate Spaces(g: Grammar) {
    g.space('\n') && g.space(' ')
  }

  // ------------------------------------------------------------ characters

  function RStrip(g: Grammar, s: string): (r: string)
    ensures r <= s
  {
    if s != [] && g.space(s[|s| - 1]) then RStrip(g, s[..|s| - 1]) else s
  }

  function LStrip(g: Grammar, s: string): string {
    if s != [] && g.space(s[0]) then LStrip(g, s[1..]) else s
  }

  function Strip(g: Grammar, s: string): string {
    LStrip(g, RStrip(g, s))
  }

  predicate Invisible(c: char) {
    c in ['\U{FEFF}', '\U{200B}', '\U{200C}', '\U{200D}', '\U{2060}']
  }

  function DropInvisible(s: string): string {
    if s == [] then [] else (if Invisible(s[0]) then [] else [if s[0] == '\U{00A0}' then ' ' else s[0]]) + DropInvisible(s[1..])
  }

  function UnixNewlines(s: string): string {
    if s == [] then []
    else if s[0] == '\r' then ['\n'] + UnixNewlines(if |s| > 1 && s[1] == '\n' then s[2..] else s[1..])
    else [s[0]] + UnixNewlines(s[1..])
  }

  function Normalized(text: string): string {
    UnixNewlines(DropInvisible(text))
  }

  predicate Plain(s: string) {
    forall i :: 0 <= i < |s| ==> !Invisible(s[i]) && s[i] != '\U{00A0}' && s[i] != '\r'
  }

  // ----------------------------------------------------------------- lines

  /** str.split("\n") and "\n".join. */
  function Split(s: string): (lines: seq<string>)
    ensures lines != []
  {
    if s == [] then [""]
    else
      var rest := Split(s[1..]);
      if s[0] == '\n' then [""] + rest else [[s[0]] + rest[0]] + rest[1..]
  }

  function Join(lines: seq<string>): string {
    if lines == [] then ""
    else if |lines| == 1 then lines[0]
    else Join(lines[..|lines| - 1]) + "\n" + lines[|lines| - 1]
  }

  predicate OneLine(s: string) {
    '\n' !in s
  }

  predicate Lines(lines: seq<string>) {
    forall i :: 0 <= i < |lines| ==> OneLine(lines[i])
  }

  /** One or more '>' each with at most one blank after it. */
  function DropQuotes(g: Grammar, s: string): string {
    if s != [] && s[0] == '>' then
      DropQuotes(g, if |s| > 1 && g.space(s[1]) then s[2..] else s[1..])
    else s
  }

  predicate IsQuoted(g: Grammar, line: string) {
    var s := Strip(g, line);
    s != [] && s[0] == '>'
  }

  function NormLine(g: Grammar, line: string): string {
    var s := Strip(g, line);
    if IsQuoted(g, line) then Strip(g, DropQuotes(g, s)) else s
  }

  predicate IsBlank(g: Grammar, line: string) {
    Strip(g, line) == []
  }

  // --------------------------------------------------------------- markers

  datatype Kind = QuoteRun | Original | OutlookEn | GmailEn | WroteRu

  const MIN_QUOTE_RUN := 3
  const LOOKAHEAD := 4

  predicate PairFollows(g: Grammar, lines: seq<string>, i: nat) {
    exists k :: i < k <= i + LOOKAHEAD && k < |lines| && g.paired(NormLine(g, lines[k]))
  }

  /** The marker one line makes by its own text, the first grammar that fits. */
  function LineKind(g: Grammar, lines: seq<string>, i: nat): Option<Kind>
    requires i < |lines|
  {
    var s := NormLine(g, lines[i]);
    if s == [] then None
    else if g.original(s) then Some(Original)
    else if g.sender(s) && PairFollows(g, lines, i) then Some(OutlookEn)
    else if g.gmail(s) then Some(GmailEn)
    else if g.wrote(s) then Some(WroteRu)
    else None
  }

  /** A run of quoted lines that starts here and is long enough. */
  predicate RunStarts(g: Grammar, lines: seq<string>, i: nat) {
    && i + MIN_QUOTE_RUN <= |lines|
    && (i > 0 ==> !IsQuoted(g, lines[i - 1]))
    && forall k :: i <= k < i + MIN_QUOTE_RUN ==> IsQuoted(g, lines[k])
  }

  predicate IsMarker(g: Grammar, lines: seq<string>, i: nat, kind: Kind) {
    i < |lines| && if kind == QuoteRun then RunStarts(g, lines, i) else LineKind(g, lines, i) == Some(kind)
  }

  /** The first non-empty line, which only an "Original Message" line may cut. */
  predicate IsProtected(g: Grammar, lines: seq<string>, i: nat) {
    i < |lines| && !IsBlank(g, lines[i]) && forall k :: 0 <= k < i ==> IsBlank(g, lines[k])
  }

  predicate CutsAt(g: Grammar, lines: seq<string>, i: nat) {
    exists kind :: IsMarker(g, lines, i, kind) && (IsProtected(g, lines, i) ==> kind == Original)
  }

  function FirstCut(g: Grammar, lines: seq<string>, from: nat): (cut: nat)
    requires from <= |lines|
    ensures from <= cut <= |lines| && (cut < |lines| ==> CutsAt(g, lines, cut))
    ensures forall i :: from <= i < cut ==> !CutsAt(g, lines, i)
    decreases |lines| - from
  {
    if from == |lines| || CutsAt(g, lines, from) then from else FirstCut(g, lines, from + 1)
  }

  /** The text that is kept. */
  function Kept(g: Grammar, text: string): string {
    var lines := Split(Normalized(text));
    RStrip(g, Join(lines[..FirstCut(g, lines, 0)]))
  }

  // ------------------------------------------------------ what stripping keeps

  lemma {:induction false} RStripTwice(g: Grammar, s: string)
    ensures RStrip(g, RStrip(g, s)) == RStrip(g, s)
  {
    if s != [] && g.space(s[|s| - 1]) { RStripTwice(g, s[..|s| - 1]); }
  }

  lemma StripAfterRStrip(g: Grammar, s: string)
    ensures Strip(g, RStrip(g, s)) == Strip(g, s)
  {
  }

  lemma {:induction false} RStripJoin(g: Grammar, a: string, b: string)
    ensures RStrip(g, a + b) == if RStrip(g, b) != [] then a + RStrip(g, b) else RStrip(g, a)
  {
    if b == [] {
      assert a + b == a;
    } else {
      assert (a + b)[..|a + b| - 1] == a + b[..|b| - 1];
      if g.space(b[|b| - 1]) { RStripJoin(g, a, b[..|b| - 1]); }
    }
  }

  /** The lines left after a right-strip: trailing blank ones go, the last is trimmed. */
  function Trimmed(g: Grammar, lines: seq<string>): (r: seq<string>)
    ensures |r| <= |lines|
  {
    if lines == [] then []
    else
      var last := RStrip(g, lines[|lines| - 1]);
      if last == [] then Trimmed(g, lines[..|lines| - 1]) else lines[..|lines| - 1] + [last]
  }

  lemma {:induction false} RStripIsTrimmed(g: Grammar, lines: seq<string>)
    requires Spaces(g)
    ensures RStrip(g, Join(lines)) == Join(Trimmed(g, lines))
  {
    if |lines| > 1 {
      var front, last := lines[..|lines| - 1], lines[|lines| - 1];
      RStripJoin(g, Join(front) + "\n", last);
      RStripJoin(g, Join(front), "\n");
      assert RStrip(g, "\n") == "";
      RStripIsTrimmed(g, front);
      var t := front + [RStrip(g, last)];
      assert t[..|t| - 1] == front;
    }
  }

  lemma {:induction false} TrimmedKeeps(g: Grammar, lines: seq<string>, i: nat)
    requires i < |Trimmed(g, lines)|
    ensures Strip(g, Trimmed(g, lines)[i]) == Strip(g, lines[i])
    ensures OneLine(lines[i]) ==> OneLine(Trimmed(g, lines)[i])
  {
    var last := RStrip(g, lines[|lines| - 1]);
    if last == [] {
      TrimmedKeeps(g, lines[..|lines| - 1], i);
    } else if i == |lines| - 1 {
      StripAfterRStrip(g, lines[i]);
    }
  }

  lemma {:induction false} SplitJoins(lines: seq<string>)
    requires lines != [] && Lines(lines)
    ensures Split(Join(lines)) == lines
  {
    if |lines| == 1 {
      SplitOneLine(lines[0]);
    } else {
      var front, last := lines[..|lines| - 1], lines[|lines| - 1];
      SplitJoins(front);
      SplitAppends(Join(front), last);
    }
  }

  lemma {:induction false} SplitOneLine(s: string)
    requires OneLine(s)
    ensures Split(s) == [s]
  {
    if s != [] {
      assert s[0] in s && forall c :: c in s[1..] ==> c in s;
      SplitOneLine(s[1..]);
      assert s == [s[0]] + s[1..];
    }
  }

  lemma {:induction false} SplitAppends(s: string, line: string)
    requires OneLine(line)
    ensures Split(s + "\n" + line) == Split(s) + [line]
  {
    if s == [] {
      SplitOneLine(line);
      assert ("\n" + line)[1..] == line && s + "\n" + line == "\n" + line;
    } else {
      SplitAppends(s[1..], line);
      assert (s + "\n" + line)[1..] == s[1..] + "\n" + line;
    }
  }

  lemma {:induction false} SplitGivesLines(s: string)
    ensures Lines(Split(s)) && Join(Split(s)) == s
  {
    if s != [] {
      SplitGivesLines(s[1..]);
      var rest := Split(s[1..]);
      if s[0] == '\n' { JoinWithFirst("", rest); } else { JoinGrows(s[0], rest); }
    }
  }

  lemma {:induction false} JoinWithFirst(first: string, rest: seq<string>)
    requires rest != []
    ensures Join([first] + rest) == first + "\n" + Join(rest)
  {
    if |rest| > 1 {
      JoinWithFirst(first, rest[..|rest| - 1]);
      assert ([first] + rest)[..|rest|] == [first] + rest[..|rest| - 1];
    } else {
      assert ([first] + rest)[..1] == [first];
    }
  }

  lemma {:induction false} JoinGrows(c: char, rest: seq<string>)
    requires rest != []
    ensures Join([[c] + rest[0]] + rest[1..]) == [c] + Join(rest)
  {
    if |rest| > 1 {
      JoinWithFirst(rest[0], rest[1..]);
      JoinWithFirst([c] + rest[0], rest[1..]);
      assert rest == [rest[0]] + rest[1..];
    }
  }

  lemma {:induction false} JoinPrefix(lines: seq<string>, n: nat)
    requires n <= |lines|
    ensures Join(lines[..n]) <= Join(lines)
    decreases |lines|
  {
    if n < |lines| && |lines| > 1 {
      JoinPrefix(lines[..|lines| - 1], n);
      assert lines[..|lines| - 1][..n] == lines[..n];
    } else if n == |lines| {
      assert lines[..n] == lines;
    }
  }

  lemma {:induction false} UnixIsPlain(s: string)
    requires forall i :: 0 <= i < |s| ==> !Invisible(s[i]) && s[i] != '\U{00A0}'
    ensures Plain(UnixNewlines(s))
  {
    if s != [] { UnixIsPlain(if s[0] == '\r' && |s| > 1 && s[1] == '\n' then s[2..] else s[1..]); }
  }

  lemma {:induction false} DropIsVisible(s: string)
    ensures forall i :: 0 <= i < |DropInvisible(s)| ==> !Invisible(DropInvisible(s)[i]) && DropInvisible(s)[i] != '\U{00A0}'
  {
    if s != [] { DropIsVisible(s[1..]); }
  }

  lemma NormalizedIsPlain(text: string)
    ensures Plain(Normalized(text))
  {
    DropIsVisible(text);
    UnixIsPlain(DropInvisible(text));
  }

  lemma {:induction false} PlainIsNormalized(s: string)
    requires Plain(s)
    ensures DropInvisible(s) == s && UnixNewlines(s) == s
  {
    if s != [] { PlainIsNormalized(s[1..]); }
  }

  // ----------------------------------------------------------- the main results

  /** The kept text is a prefix of the normalised one, right-stripped. */
  lemma KeptIsAPrefix(g: Grammar, text: string)
    ensures Kept(g, text) <= Normalized(text)
  {
    var lines := Split(Normalized(text));
    SplitGivesLines(Normalized(text));
    JoinPrefix(lines, FirstCut(g, lines, 0));
  }

  /** Lines that look alike as far as the shorter list goes: a marker of the
      shorter one is a marker of the longer one, whatever the lookahead and the
      quote runs lost with the tail. */
  lemma CuttingMakesNoMarker(g: Grammar, a: seq<string>, b: seq<string>, i: nat)
    requires |a| <= |b| && forall k :: 0 <= k < |a| ==> Strip(g, a[k]) == Strip(g, b[k])
    requires CutsAt(g, a, i)
    ensures CutsAt(g, b, i)
  {
    var kind :| IsMarker(g, a, i, kind) && (IsProtected(g, a, i) ==> kind == Original);
    forall k | 0 <= k < |a|
      ensures IsQuoted(g, a[k]) == IsQuoted(g, b[k]) && NormLine(g, a[k]) == NormLine(g, b[k]) && IsBlank(g, a[k]) == IsBlank(g, b[k])
    {
    }
    hide Strip, NormLine, IsQuoted, IsBlank;
    if PairFollows(g, a, i) {
      var k :| i < k <= i + LOOKAHEAD && k < |a| && g.paired(NormLine(g, a[k]));
      assert g.paired(NormLine(g, b[k]));
    }
    // with more lines in sight another grammar may come first, but some grammar fits
    var kind' := if kind == QuoteRun then QuoteRun else LineKind(g, b, i).value;
    assert IsMarker(g, b, i, kind');
    assert IsProtected(g, b, i) ==> IsProtected(g, a, i);
  }

  /** strip_quoted_history is stable: applied to what it kept, it cuts nothing
      and returns the very same text. */
  lemma StrippingIsStable(g: Grammar, text: string)
    requires Spaces(g)
    ensures Kept(g, Kept(g, text)) == Kept(g, text)
    ensures var lines := Split(Normalized(Kept(g, text))); FirstCut(g, lines, 0) == |lines|
  {
    var lines := Split(Normalized(text));
    var cut := FirstCut(g, lines, 0);
    var trimmed := Trimmed(g, lines[..cut]);
    KeptIsTrimmed(g, text);
    hide Kept, Normalized, Split, Join, Strip, CutsAt, Trimmed;
    var again := Split(Kept(g, text));
    if trimmed == [] {
      NothingKept();
      BlankLineCutsNothing(g);
    } else {
      SplitJoins(trimmed);
      forall i | 0 <= i < |again| ensures !CutsAt(g, again, i) {
        if CutsAt(g, again, i) { CuttingMakesNoMarker(g, again, lines, i); }
      }
    }
    assert FirstCut(g, again, 0) == |again|;
    KeptAll(g, Kept(g, text));
    RStripTwice(g, Join(lines[..cut]));
    assert Kept(g, text) == RStrip(g, Join(lines[..cut])) by { KeptIs(g, text); }
  }

  lemma KeptIs(g: Grammar, text: string)
    ensures Kept(g, text) == RStrip(g, Join(Split(Normalized(text))[..FirstCut(g, Split(Normalized(text)), 0)]))
  {
  }

  lemma NothingKept()
    ensures Join([]) == "" && Split("") == [""]
  {
  }

  /** When nothing is cut, the normalised text is kept, right-stripped. */
  lemma KeptAll(g: Grammar, text: string)
    requires FirstCut(g, Split(Normalized(text)), 0) == |Split(Normalized(text))|
    ensures Kept(g, text) == RStrip(g, Normalized(text))
  {
    var lines := Split(Normalized(text));
    SplitGivesLines(Normalized(text));
    assert lines[..|lines|] == lines;
  }

  /** The kept text line by line, and already normalised. */
  lemma KeptIsTrimmed(g: Grammar, text: string)
    requires Spaces(g)
    ensures var lines := Split(Normalized(text));
            var trimmed := Trimmed(g, lines[..FirstCut(g, lines, 0)]);
            && Kept(g, text) == Join(trimmed) && Lines(trimmed) && |trimmed| <= |lines|
            && (forall k :: 0 <= k < |trimmed| ==> Strip(g, trimmed[k]) == Strip(g, lines[k]))
            && Normalized(Kept(g, text)) == Kept(g, text)
  {
    var lines := Split(Normalized(text));
    var cut := FirstCut(g, lines, 0);
    KeptIsAPrefix(g, text);
    NormalizedIsPlain(text);
    PlainIsNormalized(Kept(g, text));
    SplitGivesLines(Normalized(text));
    RStripIsTrimmed(g, lines[..cut]);
    var trimmed := Trimmed(g, lines[..cut]);
    forall k | 0 <= k < |trimmed| ensures Strip(g, trimmed[k]) == Strip(g, lines[k]) && OneLine(trimmed[k]) {
      TrimmedKeeps(g, lines[..cut], k);
    }
  }

  lemma BlankLineCutsNothing(g: Grammar)
    ensures FirstCut(g, [""], 0) == 1
  {
  }

  // ------------------------------------------- what becomes of the characters

  lemma {:induction false} DropJoin(a: string, b: string)
    ensures DropInvisible(a + b) == DropInvisible(a) + DropInvisible(b)
  {
    if a == [] {
      assert a + b == b;
    } else {
      assert (a + b)[1..] == a[1..] + b;
      DropJoin(a[1..], b);
    }
  }

  /** How much of the text makes the next character. */
  function Taken(s: string): nat
    requires s != []
  {
    if s[0] == '\r' && |s| > 1 && s[1] == '\n' then 2 else 1
  }

  lemma UnixStep(s: string)
    ensures s == [] ==> UnixNewlines(s) == []
    ensures s != [] ==> UnixNewlines(s) == [if s[0] == '\r' then '\n' else s[0]] + UnixNewlines(s[Taken(s)..])
  {
  }

  /** Newlines can be rewritten piece by piece unless the cut splits a CRLF. */
  lemma {:induction false} UnixJoin(a: string, b: string)
    requires a != [] && a[|a| - 1] == '\r' ==> b == [] || b[0] != '\n'
    ensures UnixNewlines(a + b) == UnixNewlines(a) + UnixNewlines(b)
    decreases |a|
  {
    UnixStep(a);
    hide UnixNewlines;
    if a == [] {
      assert a + b == b;
    } else {
      var n := Taken(a);
      UnixJoin(a[n..], b);
      UnixStep(a + b);
      assert Taken(a + b) == n && (a + b)[n..] == a[n..] + b;
    }
  }

  lemma UnixLineEnd(b: string)
    ensures UnixNewlines("\r\n" + b) == "\n" + UnixNewlines(b)
    ensures UnixNewlines("\n" + b) == "\n" + UnixNewlines(b)
    ensures b == [] || b[0] != '\n' ==> UnixNewlines("\r" + b) == "\n" + UnixNewlines(b)
  {
    assert ("\r\n" + b)[2..] == b && ("\n" + b)[1..] == b && ("\r" + b)[1..] == b;
  }

  lemma UnixOther(c: char, b: string)
    requires c != '\r'
    ensures UnixNewlines([c] + b) == [c] + UnixNewlines(b)
  {
    assert ([c] + b)[1..] == b;
  }

  lemma DropOne(c: char)
    ensures DropInvisible([c]) == if Invisible(c) then [] else if c == '\U{00A0}' then " " else [c]
  {
    assert [c][1..] == [];
  }

  /** What any one character becomes, wherever it stands: five are dropped, a
      no-break space is a space, CRLF and CR are a newline, the rest stays. */
  lemma NormalizedExactly(a: string, c: char, b: string)
    requires c != '\n' && c != '\r'
    ensures Normalized("") == ""
    ensures Normalized(a + "\r\n" + b) == Normalized(a) + "\n" + Normalized(b)
    ensures b == [] || (b[0] != '\n' && !Invisible(b[0])) ==> Normalized(a + "\r" + b) == Normalized(a) + "\n" + Normalized(b)
    ensures a == [] || (a[|a| - 1] != '\r' && !Invisible(a[|a| - 1])) ==>
              Normalized(a + "\n" + b) == Normalized(a) + "\n" + Normalized(b)
    ensures Normalized(a + [c] + b) ==
              if c in {'\U{FEFF}', '\U{200B}', '\U{200C}', '\U{200D}', '\U{2060}'} then Normalized(a + b)
              else if c == '\U{00A0}' then Normalized(a) + " " + Normalized(b)
              else Normalized(a) + [c] + Normalized(b)
  {
    LineEndsExactly(a, b);
    if Invisible(c) { AnInvisibleGoes(a, c, b); } else { AVisibleStays(a, c, b); }
    hide DropInvisible, UnixNewlines;
  }

  lemma AnInvisibleGoes(a: string, c: char, b: string)
    requires Invisible(c)
    ensures Normalized(a + [c] + b) == Normalized(a + b)
  {
    assert a + [c] + b == a + ([c] + b);
    DropJoin(a, [c] + b);
    DropJoin([c], b);
    DropJoin(a, b);
    DropOne(c);
    hide DropInvisible, UnixNewlines;
    assert DropInvisible(a) + ([] + DropInvisible(b)) == DropInvisible(a) + DropInvisible(b);
  }

  lemma AVisibleStays(a: string, c: char, b: string)
    requires !Invisible(c) && c != '\n' && c != '\r'
    ensures Normalized(a + [c] + b) == Normalized(a) + [if c == '\U{00A0}' then ' ' else c] + Normalized(b)
  {
    assert a + [c] + b == a + ([c] + b);
    DropJoin(a, [c] + b);
    DropJoin([c], b);
    DropOne(c);
    var x, y, seen := DropInvisible(a), DropInvisible(b), if c == '\U{00A0}' then ' ' else c;
    hide DropInvisible;
    UnixJoin(x, [seen] + y);
    UnixOther(seen, y);
    hide UnixNewlines;
    assert UnixNewlines(x) + ([seen] + UnixNewlines(y)) == UnixNewlines(x) + [seen] + UnixNewlines(y);
  }

  lemma LineEndsExactly(a: string, b: string)
    ensures Normalized(a + "\r\n" + b) == Normalized(a) + "\n" + Normalized(b)
    ensures b == [] || (b[0] != '\n' && !Invisible(b[0])) ==> Normalized(a + "\r" + b) == Normalized(a) + "\n" + Normalized(b)
    ensures a == [] || (a[|a| - 1] != '\r' && !Invisible(a[|a| - 1])) ==>
              Normalized(a + "\n" + b) == Normalized(a) + "\n" + Normalized(b)
  {
    var x, y := DropInvisible(a), DropInvisible(b);
    EndsDrop(a, b);
    DropsAround(a, "\r\n", b);
    DropsAround(a, "\r", b);
    DropsAround(a, "\n", b);
    hide DropInvisible, Invisible, UnixNewlines;
    UnixAround(x, "\r\n", y);
    if y == [] || y[0] != '\n' { UnixAround(x, "\r", y); }
    if x == [] || x[|x| - 1] != '\r' { UnixAround(x, "\n", y); }
  }

  lemma UnixAround(x: string, sep: string, y: string)
    requires sep == "\r\n" || (sep == "\r" && (y == [] || y[0] != '\n')) || (sep == "\n" && (x == [] || x[|x| - 1] != '\r'))
    ensures UnixNewlines(x + (sep + y)) == UnixNewlines(x) + "\n" + UnixNewlines(y)
  {
    UnixLineEnd(y);
    hide UnixNewlines;
    UnixJoin(x, sep + y);
    assert UnixNewlines(x) + ("\n" + UnixNewlines(y)) == UnixNewlines(x) + "\n" + UnixNewlines(y);
  }

  lemma EndsDrop(a: string, b: string)
    ensures b == [] || (b[0] != '\n' && !Invisible(b[0])) ==> DropInvisible(b) == [] || DropInvisible(b)[0] != '\n'
    ensures a == [] || (a[|a| - 1] != '\r' && !Invisible(a[|a| - 1])) ==>
              DropInvisible(a) == [] || DropInvisible(a)[|DropInvisible(a)| - 1] != '\r'
  {
    if a != [] {
      DropJoin(a[..|a| - 1], [a[|a| - 1]]);
      assert a[..|a| - 1] + [a[|a| - 1]] == a;
    }
  }

  lemma DropsAround(a: string, sep: string, b: string)
    requires forall k :: 0 <= k < |sep| ==> sep[k] in {'\r', '\n'}
    ensures DropInvisible(a + sep + b) == DropInvisible(a) + (sep + DropInvisible(b))
  {
    assert a + sep + b == a + (sep + b);
    DropJoin(a, sep + b);
    DropJoin(sep, b);
    PlainEnough(sep);
  }

  lemma {:induction false} PlainEnough(s: string)
    requires forall k :: 0 <= k < |s| ==> s[k] in {'\r', '\n'}
    ensures DropInvisible(s) == s
  {
    if s != [] { PlainEnough(s[1..]); }
  }

  // ------------------------------------------------- what becomes of the lines

  /** A line between its surrounding blanks. */
  ghost predicate Core(g: Grammar, s: string, i: nat, j: nat) {
    && i <= j <= |s|
    && (forall k :: 0 <= k < i || j <= k < |s| ==> g.space(s[k]))
    && (i < j ==> !g.space(s[i]) && !g.space(s[j - 1]))
    && (i == j ==> forall k :: 0 <= k < |s| ==> g.space(s[k]))
  }

  lemma {:induction false} RStripExactly(g: Grammar, s: string)
    ensures forall k :: |RStrip(g, s)| <= k < |s| ==> g.space(s[k])
    ensures RStrip(g, s) != [] ==> !g.space(s[|RStrip(g, s)| - 1])
  {
    if s != [] && g.space(s[|s| - 1]) { RStripExactly(g, s[..|s| - 1]); }
  }

  lemma {:induction false} LStripExactly(g: Grammar, s: string) returns (i: nat)
    ensures i <= |s| && LStrip(g, s) == s[i..] && (forall k :: 0 <= k < i ==> g.space(s[k])) && (i < |s| ==> !g.space(s[i]))
  {
    if s != [] && g.space(s[0]) {
      i := LStripExactly(g, s[1..]);
      assert s[1..][i..] == s[i + 1..];
      forall k | 0 < k < i + 1 ensures g.space(s[k]) { assert s[k] == s[1..][k - 1]; }
      i := i + 1;
    } else {
      i := 0;
    }
  }

  lemma StripExactly(g: Grammar, s: string) returns (i: nat, j: nat)
    ensures Core(g, s, i, j) && Strip(g, s) == s[i..j]
  {
    var r := RStrip(g, s);
    RStripExactly(g, s);
    i := LStripExactly(g, r);
    j := |r|;
    assert r == s[..j];
    assert forall k :: 0 <= k < j ==> r[k] == s[k];
  }

  /** The longest run of '>' each with at most one blank behind it. */
  ghost predicate QuoteMarks(g: Grammar, s: string, n: nat) {
    && n <= |s|
    && (forall k :: 0 <= k < n ==> s[k] == '>' || (k > 0 && g.space(s[k]) && s[k - 1] == '>'))
    && (n < |s| ==> s[n] != '>' && (0 < n && g.space(s[n]) ==> s[n - 1] != '>'))
  }

  lemma {:induction false} QuotesDropExactly(g: Grammar, s: string) returns (n: nat)
    requires !g.space('>')
    ensures QuoteMarks(g, s, n) && DropQuotes(g, s) == s[n..]
    decreases |s|
  {
    if s != [] && s[0] == '>' {
      var first := if |s| > 1 && g.space(s[1]) then 2 else 1;
      var rest := s[first..];
      var m := QuotesDropExactly(g, rest);
      n := m + first;
      assert rest[m..] == s[n..];
      forall k | first <= k < n ensures s[k] == '>' || (g.space(s[k]) && s[k - 1] == '>') {
        assert s[k] == rest[k - first] && (k > first ==> s[k - 1] == rest[k - first - 1]);
      }
      if n < |s| { assert s[n] == rest[m] && (m > 0 ==> s[n - 1] == rest[m - 1]); }
    } else {
      n := 0;
    }
  }

  /** A line is quoted when the first thing on it is a '>'; then that mark and
      those behind it go, and the blanks around what is left. */
  lemma NormLineExactly(g: Grammar, line: string) returns (i: nat, j: nat, n: nat, a: nat, b: nat)
    requires !g.space('>')
    ensures Core(g, line, i, j) && QuoteMarks(g, line[i..j], n) && Core(g, line[i..j][n..], a, b)
    ensures IsQuoted(g, line) <==> i < j && line[i] == '>'
    ensures IsBlank(g, line) <==> forall k :: 0 <= k < |line| ==> g.space(line[k])
    ensures NormLine(g, line) == line[i..j][n..][a..b]
  {
    i, j := StripExactly(g, line);
    var s := line[i..j];
    n := QuotesDropExactly(g, s);
    a, b := StripExactly(g, s[n..]);
    if !IsQuoted(g, line) {
      assert n == 0 && s[n..] == s;
      assert a == 0 && b == |s| by {
        if s != [] { assert !g.space(s[0]) && !g.space(s[|s| - 1]); }
      }
      assert s[a..b] == s;
    }
  }

  /** Which marker a line makes: the first grammar that fits, where a sender line
      counts only with its pair on one of the next four lines. */
  lemma LineKindExactly(g: Grammar, lines: seq<string>, i: nat)
    requires i < |lines|
    ensures var s, kind := NormLine(g, lines[i]), LineKind(g, lines, i);
            var header := g.sender(s) && exists k :: i + 1 <= k <= i + 4 && k < |lines| && g.paired(NormLine(g, lines[k]));
            && (kind == Some(Original) <==> s != [] && g.original(s))
            && (kind == Some(OutlookEn) <==> s != [] && !g.original(s) && header)
            && (kind == Some(GmailEn) <==> s != [] && !g.original(s) && !header && g.gmail(s))
            && (kind == Some(WroteRu) <==> s != [] && !g.original(s) && !header && !g.gmail(s) && g.wrote(s))
            && kind != Some(QuoteRun)
  {
    hide NormLine;
  }

  /** Where the text is cut: at the first line of three quoted ones, or at a
      header or attribution line, but on the first line that is not blank only
      at an "Original Message" line. */
  lemma CutsExactly(g: Grammar, lines: seq<string>, i: nat)
    requires i < |lines|
    ensures var s := NormLine(g, lines[i]);
            var free := IsBlank(g, lines[i]) || exists k :: 0 <= k < i && !IsBlank(g, lines[k]);
            var run := i + 3 <= |lines| && (i == 0 || !IsQuoted(g, lines[i - 1])) &&
                       IsQuoted(g, lines[i]) && IsQuoted(g, lines[i + 1]) && IsQuoted(g, lines[i + 2]);
            var header := s != [] && g.sender(s) && exists k :: i + 1 <= k <= i + 4 && k < |lines| && g.paired(NormLine(g, lines[k]));
            var attribution := s != [] && (g.gmail(s) || g.wrote(s));
            CutsAt(g, lines, i) <==> (s != [] && g.original(s)) || (free && (run || header || attribution))
  {
    hide NormLine, IsBlank, IsQuoted;
    var s := NormLine(g, lines[i]);
    var kind := LineKind(g, lines, i);
    if kind.Some? { assert IsMarker(g, lines, i, kind.value); }
    if RunStarts(g, lines, i) { assert IsMarker(g, lines, i, QuoteRun); }
  }

  // ------------------------------------------------------------------ the count

  /** Inside a long quote run that begins in the removed tail. */
  predicate InRun(g: Grammar, lines: seq<string>, cut: nat, i: nat)
    requires i < |lines|
  {
    exists a :: cut <= a <= i && RunStarts(g, lines, a) && forall k :: a <= k <= i ==> IsQuoted(g, lines[k])
  }

  function Kinds(): set<Kind> { {QuoteRun, Original, OutlookEn, GmailEn, WroteRu} }

  /** The blocks of the removed tail: its markers, those inside a run absorbed by it. */
  function Blocks(g: Grammar, lines: seq<string>, cut: nat): set<(nat, Kind)> {
    set i, kind | 0 <= i < |lines| && kind in Kinds() && cut <= i && IsMarker(g, lines, i, kind) &&
                  (kind == QuoteRun || !InRun(g, lines, cut, i)) :: (i, kind)
  }

  /** A cut is always reported: the program's floor of one is never what counts. */
  lemma CutIsCounted(g: Grammar, lines: seq<string>, cut: nat)
    requires cut < |lines| && CutsAt(g, lines, cut)
    ensures |Blocks(g, lines, cut)| >= 1
  {
    var kind :| IsMarker(g, lines, cut, kind);
    if kind != QuoteRun && InRun(g, lines, cut, cut) {
      assert (cut, QuoteRun) in Blocks(g, lines, cut);
    } else {
      assert (cut, kind) in Blocks(g, lines, cut);
    }
  }

  // ------------------------------------------------------------- the program

  /** A stable sort by line number of two lists that are sorted already. */
  function Merged(a: seq<(nat, Kind)>, b: seq<(nat, Kind)>): seq<(nat, Kind)> {
    if a == [] then b
    else if b == [] then a
    else if a[0].0 <= b[0].0 then [a[0]] + Merged(a[1..], b)
    else [b[0]] + Merged(a, b[1..])
  }

  predicate Sorted(s: seq<(nat, Kind)>) {
    forall i, j :: 0 <= i < j < |s| ==> s[i].0 <= s[j].0
  }

  predicate Distinct(s: seq<(nat, Kind)>) {
    forall i, j :: 0 <= i < j < |s| ==> s[i] != s[j]
  }

  lemma {:induction false} MergedIsSorted(a: seq<(nat, Kind)>, b: seq<(nat, Kind)>)
    requires Sorted(a) && Sorted(b) && Distinct(a) && Distinct(b) && forall m :: m in a ==> m !in b
    ensures Sorted(Merged(a, b)) && Distinct(Merged(a, b))
    ensures forall m :: m in Merged(a, b) <==> m in a || m in b
  {
    if a != [] && b != [] {
      assert forall m :: m in a <==> m == a[0] || m in a[1..];
      assert forall m :: m in b <==> m == b[0] || m in b[1..];
      if a[0].0 <= b[0].0 {
        MergedIsSorted(a[1..], b);
        HeadFirst(a[0], Merged(a[1..], b));
      } else {
        MergedIsSorted(a, b[1..]);
        HeadFirst(b[0], Merged(a, b[1..]));
      }
    }
  }

  lemma HeadFirst(m: (nat, Kind), rest: seq<(nat, Kind)>)
    requires Sorted(rest) && Distinct(rest) && m !in rest && forall x :: x in rest ==> m.0 <= x.0
    ensures Sorted([m] + rest) && Distinct([m] + rest)
  {
  }

  /** The end of the quoted run that starts here. */
  method RunEnd(g: Grammar, lines: seq<string>, i: nat) returns (j: nat)
    requires i < |lines| && IsQuoted(g, lines[i])
    ensures i < j <= |lines| && (forall k :: i <= k < j ==> IsQuoted(g, lines[k]))
    ensures j < |lines| ==> !IsQuoted(g, lines[j])
  {
    j := i;
    while j < |lines| && IsQuoted(g, lines[j])
      invariant i <= j <= |lines| && forall k :: i <= k < j ==> IsQuoted(g, lines[k])
    {
      j := j + 1;
    }
  }

  /** A maximal run of quoted lines, long enough, with both ends included. */
  predicate RunSpan(g: Grammar, lines: seq<string>, a: nat, b: nat) {
    && RunStarts(g, lines, a) && a <= b < |lines|
    && (forall k :: a <= k <= b ==> IsQuoted(g, lines[k]))
    && (b + 1 < |lines| ==> !IsQuoted(g, lines[b + 1]))
  }

  predicate Ascending(runs: seq<(nat, nat)>) {
    forall a, b :: 0 <= a < b < |runs| ==> runs[a].0 < runs[b].0
  }

  /** The runs that start before line `i`. */
  ghost predicate RunsBefore(g: Grammar, lines: seq<string>, runs: seq<(nat, nat)>, i: nat) {
    && Ascending(runs) && (forall r :: r in runs ==> r.0 < i && RunSpan(g, lines, r.0, r.1))
    && forall k: nat :: k < i && k < |lines| && RunStarts(g, lines, k) ==> exists r :: r in runs && r.0 == k
  }

  lemma NoRunStartsIn(g: Grammar, lines: seq<string>, runs: seq<(nat, nat)>, i: nat, j: nat)
    requires RunsBefore(g, lines, runs, i) && i < j && forall k :: i <= k < j ==> !RunStarts(g, lines, k)
    ensures RunsBefore(g, lines, runs, j)
  {
    hide RunSpan, RunStarts, Ascending;
  }

  lemma OneMoreRun(g: Grammar, lines: seq<string>, runs: seq<(nat, nat)>, i: nat, j: nat)
    requires RunsBefore(g, lines, runs, i) && i < j && RunSpan(g, lines, i, j - 1)
    ensures RunsBefore(g, lines, runs + [(i, j - 1)], j)
  {
    var more := runs + [(i, j - 1)];
    assert forall r :: r in runs ==> r in more;
    assert forall x :: 0 <= x < |runs| ==> runs[x] in runs;
    assert (i, j - 1) in more;
    forall k | i < k < j ensures !RunStarts(g, lines, k) { assert IsQuoted(g, lines[k - 1]); }
  }

  lemma ShortRunCounts(g: Grammar, lines: seq<string>, i: nat, j: nat)
    requires i < j <= |lines| && j - i < MIN_QUOTE_RUN && (forall k :: i <= k < j ==> IsQuoted(g, lines[k]))
    requires j < |lines| ==> !IsQuoted(g, lines[j])
    ensures forall k :: i <= k < j ==> !RunStarts(g, lines, k)
  {
    forall k | i < k < j ensures !RunStarts(g, lines, k) { assert IsQuoted(g, lines[k - 1]); }
  }

  method FindRuns(g: Grammar, lines: seq<string>) returns (runs: seq<(nat, nat)>)
    ensures Ascending(runs) && forall r :: r in runs ==> RunSpan(g, lines, r.0, r.1)
    ensures forall k: nat :: k < |lines| && RunStarts(g, lines, k) ==> exists r :: r in runs && r.0 == k
  {
    var i := 0;
    runs := [];
    assert RunsBefore(g, lines, runs, 0);
    hide RunsBefore;
    while i < |lines|
      invariant i <= |lines| && RunsBefore(g, lines, runs, i)
      invariant 0 < i < |lines| && IsQuoted(g, lines[i]) ==> !IsQuoted(g, lines[i - 1])
    {
      if IsQuoted(g, lines[i]) {
        var j := RunEnd(g, lines, i);
        if j - i >= MIN_QUOTE_RUN {
          OneMoreRun(g, lines, runs, i, j);
          runs := runs + [(i, j - 1)];
        } else {
          ShortRunCounts(g, lines, i, j);
          NoRunStartsIn(g, lines, runs, i, j);
        }
        i := j;
      } else {
        NoRunStartsIn(g, lines, runs, i, i + 1);
        i := i + 1;
      }
    }
  }

  method LineMarkers(g: Grammar, lines: seq<string>) returns (markers: seq<(nat, Kind)>)
    ensures Sorted(markers) && Distinct(markers)
    ensures forall i: nat, kind :: (i, kind) in markers <==> i < |lines| && LineKind(g, lines, i) == Some(kind)
  {
    hide LineKind;
    markers := [];
    for i := 0 to |lines|
      invariant Sorted(markers) && Distinct(markers)
      invariant forall k: nat, kind :: (k, kind) in markers <==> k < i && LineKind(g, lines, k) == Some(kind)
    {
      var kind := LineKind(g, lines, i);
      if kind.Some? {
        assert forall k :: 0 <= k < |markers| ==> (markers[k].0, markers[k].1) in markers;
        markers := markers + [(i, kind.value)];
      }
    }
  }

  lemma RunMarkersAre(g: Grammar, lines: seq<string>, runs: seq<(nat, nat)>, ofRuns: seq<(nat, Kind)>)
    requires Ascending(runs) && |ofRuns| == |runs| && forall k :: 0 <= k < |runs| ==> ofRuns[k] == (runs[k].0, QuoteRun)
    requires forall r :: r in runs ==> RunSpan(g, lines, r.0, r.1)
    requires forall k: nat :: k < |lines| && RunStarts(g, lines, k) ==> exists r :: r in runs && r.0 == k
    ensures Sorted(ofRuns) && Distinct(ofRuns)
    ensures forall i: nat, kind :: (i, kind) in ofRuns <==> kind == QuoteRun && i < |lines| && RunStarts(g, lines, i)
  {
  }

  lemma NoLineMakesARun(g: Grammar, lines: seq<string>, i: nat)
    requires i < |lines|
    ensures LineKind(g, lines, i) != Some(QuoteRun)
  {
  }

  /** Every marker once, in line order. */
  method FindMarkers(g: Grammar, lines: seq<string>) returns (markers: seq<(nat, Kind)>, runs: seq<(nat, nat)>)
    ensures Sorted(markers) && Distinct(markers)
    ensures forall i: nat, kind :: (i, kind) in markers <==> IsMarker(g, lines, i, kind)
    ensures forall r :: r in runs ==> RunSpan(g, lines, r.0, r.1)
    ensures forall k: nat :: k < |lines| && RunStarts(g, lines, k) ==> exists r :: r in runs && r.0 == k
  {
    hide LineKind, RunStarts, RunSpan, Sorted, Distinct;
    runs := FindRuns(g, lines);
    var ofRuns := seq(|runs|, k requires 0 <= k < |runs| => (runs[k].0, QuoteRun));
    var ofLines := LineMarkers(g, lines);
    RunMarkersAre(g, lines, runs, ofRuns);
    forall m | m in ofLines ensures m.1 != QuoteRun {
      assert (m.0, m.1) in ofLines;
      NoLineMakesARun(g, lines, m.0);
    }
    forall m | m in ofRuns ensures m !in ofLines { assert (m.0, m.1) in ofRuns; }
    markers := Merged(ofRuns, ofLines);
    MergedIsSorted(ofRuns, ofLines);
    forall i: nat | i < |lines| { NoLineMakesARun(g, lines, i); }
  }

  /** The first marker that may cut, or the end. */
  method FindCut(g: Grammar, lines: seq<string>, markers: seq<(nat, Kind)>) returns (cut: nat)
    requires Sorted(markers) && forall i: nat, kind :: (i, kind) in markers <==> IsMarker(g, lines, i, kind)
    ensures cut == FirstCut(g, lines, 0)
  {
    hide IsMarker, IsProtected;
    for m := 0 to |markers|
      invariant forall k :: 0 <= k < m ==> IsProtected(g, lines, markers[k].0) && markers[k].1 != Original
    {
      var (i, kind) := markers[m];
      assert (i, kind) in markers;
      if IsProtected(g, lines, i) && kind != Original { continue; }
      MarkerIsALine(g, lines, i, kind);
      assert CutsAt(g, lines, i);
      forall j: nat | j < i ensures !CutsAt(g, lines, j) {
        forall other | IsMarker(g, lines, j, other) ensures IsProtected(g, lines, j) && other != Original {
          assert (j, other) in markers;
          var k :| 0 <= k < |markers| && markers[k] == (j, other);
        }
      }
      return i;
    }
    forall j: nat | j < |lines| ensures !CutsAt(g, lines, j) {
      forall other | IsMarker(g, lines, j, other) ensures IsProtected(g, lines, j) && other != Original {
        assert (j, other) in markers;
      }
    }
    cut := |lines|;
  }

  method CountBlocks(g: Grammar, lines: seq<string>, markers: seq<(nat, Kind)>, runs: seq<(nat, nat)>, cut: nat)
    returns (count: nat)
    requires Distinct(markers) && forall i: nat, kind :: (i, kind) in markers <==> IsMarker(g, lines, i, kind)
    requires forall r :: r in runs ==> RunSpan(g, lines, r.0, r.1)
    requires forall k: nat :: k < |lines| && RunStarts(g, lines, k) ==> exists r :: r in runs && r.0 == k
    ensures count == |Blocks(g, lines, cut)|
  {
    hide IsMarker, RunSpan, RunStarts, InRun;
    count := 0;
    ghost var seen: set<(nat, Kind)> := {};
    for m := 0 to |markers|
      invariant count == |seen|
      invariant forall b :: b in seen <==> b in markers[..m] && b in Blocks(g, lines, cut)
    {
      var (i, kind) := markers[m];
      assert (i, kind) in markers && markers[m] !in markers[..m];
      assert markers[..m + 1] == markers[..m] + [markers[m]];
      MarkerIsALine(g, lines, i, kind);
      if i >= cut {
        var absorbed := exists r :: r in runs && cut <= r.0 && r.0 <= i <= r.1;
        AbsorbedExactly(g, lines, runs, cut, i);
        if kind == QuoteRun || !absorbed {
          count, seen := count + 1, seen + {(i, kind)};
        }
      }
    }
    assert markers[..|markers|] == markers;
    assert seen == Blocks(g, lines, cut) by {
      forall b | b in Blocks(g, lines, cut) ensures b in markers { assert (b.0, b.1) in markers; }
    }
  }

  lemma MarkerIsALine(g: Grammar, lines: seq<string>, i: nat, kind: Kind)
    requires IsMarker(g, lines, i, kind)
    ensures i < |lines|
  {
  }

  lemma AbsorbedExactly(g: Grammar, lines: seq<string>, runs: seq<(nat, nat)>, cut: nat, i: nat)
    requires i < |lines|
    requires forall r :: r in runs ==> RunSpan(g, lines, r.0, r.1)
    requires forall k: nat :: k < |lines| && RunStarts(g, lines, k) ==> exists r :: r in runs && r.0 == k
    ensures (exists r :: r in runs && cut <= r.0 && r.0 <= i <= r.1) <==> InRun(g, lines, cut, i)
  {
  }

  /** The whole function: the text before the first cut, and how many blocks went. */
  method StripQuotedHistory(g: Grammar, text: string) returns (out: string, count: nat)
    ensures out == Kept(g, text)
    ensures var lines := Split(Normalized(text)); var cut := FirstCut(g, lines, 0);
            && count == (if cut == |lines| then 0 else |Blocks(g, lines, cut)|)
            && (count == 0 <==> cut == |lines|)
  {
    if text == "" {
      NothingKept();
      BlankLineCutsNothing(g);
      assert [""][..1] == [""];
      return "", 0;
    }
    var lines := Split(Normalized(text));
    var markers, runs := FindMarkers(g, lines);
    var cut := FindCut(g, lines, markers);
    if cut == |lines| {
      KeptAll(g, text);
      return RStrip(g, Normalized(text)), 0;
    }
    var counted := CountBlocks(g, lines, markers, runs, cut);
    CutIsCounted(g, lines, cut);
    out, count := RStrip(g, Join(lines[..cut])), if counted > 1 then counted else 1;
  }
}
