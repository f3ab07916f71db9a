/**
 A codec and a hash of the kind the audit log assumes, written out: records as
 JSON objects with json.dumps' escaping, raw characters included.  With it, one
 successful call whose subject holds a line separator is a log that breaks.
 */
module AuditSample {
  import opened Mail
  import opened AuditChain
  import opened AuditText
  import opened AuditTrail

  const HEX := "0123456789abcdef"

  /** One character of a JSON string, as json.dumps(ensure_ascii=False) writes it. */
  function Escape(c: char): (e: string)
    ensures e != "" && e[0] != '"' && (e[0] == '\\' ==> |e| > 1)
  {
    if c == '"' then "\\\"" else if c == '\\' then "\\\\"
    else if c == '\n' then "\\n" else if c == '\r' then "\\r" else if c == '\t' then "\\t"
    else if c == '\U{0008}' then "\\b" else if c == '\U{000C}' then "\\f"
    else if c < ' ' then "\\u00" + [HEX[c as int / 16], HEX[c as int % 16]]
    else [c]
  }

  /** A JSON string from behind its opening quote. */
  function Quoted(s: string): string {
    if s == "" then "\"" else Escape(s[0]) + Quoted(s[1..])
  }

  function Digits(n: nat): string {
    (if n < 10 then "" else Digits(n / 10)) + [HEX[n % 10]]
  }

  function Text(o: Option<string>): string {
    if o.Some? then "\"" + Quoted(o.value) else "null"
  }

  function Number(o: Option<int>): string {
    match o
    case None => "null}"
    case Some(i) => (if i < 0 then "-" + Digits(-i) else Digits(i)) + "}"
  }

  /** The keys in order, and the hash among them. */
  function Render(r: Rec, d: string): string {
    "{\"body\": \"" + (Quoted(r.body) + (", \"h\": \"" + (Quoted(d) + (", \"prev\": " + (Text(r.prev) + (", \"seq\": " + Number(r.no)))))))
  }

  // ------------------------------------------------------- it reads back

  function HexValue(c: char): nat {
    if '0' <= c <= '9' then (c as int) - ('0' as int) else if 'a' <= c then (c as int) - ('a' as int) + 10 else 0
  }

  /** The character a JSON string begins with. */
  function Unescaped(s: string): char
    requires |s| > 0
  {
    if s[0] != '\\' || |s| < 2 then s[0]
    else if s[1] == 'n' then '\n' else if s[1] == 'r' then '\r' else if s[1] == 't' then '\t'
    else if s[1] == 'b' then '\U{0008}' else if s[1] == 'f' then '\U{000C}'
    else if s[1] == 'u' && |s| >= 6 && HexValue(s[4]) * 16 + HexValue(s[5]) < 32 then (HexValue(s[4]) * 16 + HexValue(s[5])) as char
    else s[1]
  }

  lemma EscapeDecodes(c: char, rest: string)
    ensures Unescaped(Escape(c) + rest) == c
  {
    var s := Escape(c) + rest;
    if c < ' ' && c !in {'\n', '\r', '\t', '\U{0008}', '\U{000C}'} {
      assert s[4] == HEX[c as int / 16] && s[5] == HEX[c as int % 16];
    }
  }

  lemma Cancel(p: string, x: string, y: string)
    requires p + x == p + y
    ensures x == y
  {
    assert (p + x)[|p|..] == x && (p + y)[|p|..] == y;
  }

  /** Only the end of a string begins with a quote. */
  lemma QuotedBegins(s: string, x: string)
    ensures s == "" ==> Quoted(s) + x == "\"" + x
    ensures s != "" ==> Quoted(s) + x == Escape(s[0]) + (Quoted(s[1..]) + x)
    ensures (Quoted(s) + x)[0] == '"' <==> s == ""
  {
    hide Escape;
  }

  lemma {:induction false} QuotedDecodes(s: string, t: string, x: string, y: string)
    requires Quoted(s) + x == Quoted(t) + y
    ensures s == t && x == y
  {
    hide Quoted, Escape, Unescaped;
    QuotedBegins(s, x);
    QuotedBegins(t, y);
    if s != "" && t != "" {
      EscapeDecodes(s[0], Quoted(s[1..]) + x);
      EscapeDecodes(t[0], Quoted(t[1..]) + y);
      Cancel(Escape(s[0]), Quoted(s[1..]) + x, Quoted(t[1..]) + y);
      QuotedDecodes(s[1..], t[1..], x, y);
      assert s == [s[0]] + s[1..] && t == [t[0]] + t[1..];
    } else {
      Cancel("\"", x, y);
    }
  }

  lemma TextBegins(o: Option<string>, x: string)
    ensures o.None? ==> Text(o) + x == "null" + x && (Text(o) + x)[0] == 'n'
    ensures o.Some? ==> Text(o) + x == "\"" + (Quoted(o.value) + x) && (Text(o) + x)[0] == '"'
  {
    hide Quoted;
  }

  lemma TextDecodes(s: Option<string>, t: Option<string>, x: string, y: string)
    requires Text(s) + x == Text(t) + y
    ensures s == t && x == y
  {
    hide Text, Quoted;
    TextBegins(s, x);
    TextBegins(t, y);
    if s.None? {
      Cancel("null", x, y);
    } else {
      Cancel("\"", Quoted(s.value) + x, Quoted(t.value) + y);
      QuotedDecodes(s.value, t.value, x, y);
    }
  }

  lemma {:induction false} DigitsAre(n: nat)
    ensures Digits(n) != "" && forall k :: 0 <= k < |Digits(n)| ==> '0' <= Digits(n)[k] <= '9'
  {
    if n >= 10 { DigitsAre(n / 10); }
  }

  lemma DigitsEnd(n: nat)
    ensures Digits(n) != "" && Digits(n)[|Digits(n)| - 1] == HEX[n % 10]
    ensures Digits(n)[..|Digits(n)| - 1] == (if n < 10 then "" else Digits(n / 10))
  {
  }

  lemma {:induction false} DigitsDecode(m: nat, n: nat)
    requires Digits(m) == Digits(n)
    ensures m == n
  {
    hide Digits;
    DigitsEnd(m);
    DigitsEnd(n);
    DigitsAre(m / 10);
    DigitsAre(n / 10);
    assert m % 10 == n % 10;
    if m >= 10 && n >= 10 { DigitsDecode(m / 10, n / 10); }
  }

  /** Two runs of digits that a brace ends are one number. */
  lemma BraceEnds(a: string, b: string, x: string, y: string)
    requires a + "}" + x == b + "}" + y
    requires forall k :: 0 <= k < |a| ==> a[k] != '}'
    requires forall k :: 0 <= k < |b| ==> b[k] != '}'
    ensures a == b && x == y
  {
    var u, v := a + "}" + x, b + "}" + y;
    assert u[|a|] == '}' && v[|b|] == '}';
    assert forall k :: 0 <= k < |a| ==> u[k] == a[k];
    assert forall k :: 0 <= k < |b| ==> v[k] == b[k];
    assert u[..|a|] == a && v[..|b|] == b;
    Cancel(a + "}", x, y);
  }

  function Bare(o: Option<int>): string {
    match o
    case None => "null"
    case Some(i) => if i < 0 then "-" + Digits(-i) else Digits(i)
  }

  lemma BareHasNoBrace(o: Option<int>)
    ensures Number(o) == Bare(o) + "}"
    ensures Bare(o) != "" && forall k :: 0 <= k < |Bare(o)| ==> Bare(o)[k] != '}'
    ensures o.Some? && o.value >= 0 <==> '0' <= Bare(o)[0] <= '9'
    ensures o.None? <==> Bare(o)[0] == 'n'
  {
    if o.Some? { DigitsAre(if o.value < 0 then -o.value else o.value); }
  }

  lemma NumberDecodes(m: Option<int>, n: Option<int>, x: string, y: string)
    requires Number(m) + x == Number(n) + y
    ensures m == n && x == y
  {
    BareHasNoBrace(m);
    BareHasNoBrace(n);
    BraceEnds(Bare(m), Bare(n), x, y);
    if m.Some? && n.Some? {
      if m.value < 0 {
        assert Digits(-m.value) == Bare(m)[1..] && Digits(-n.value) == Bare(n)[1..];
        DigitsDecode(-m.value, -n.value);
      } else {
        DigitsDecode(m.value, n.value);
      }
    }
  }

  /** A rendering determines its record and hash, and is no beginning of another. */
  lemma RenderDecodes(r: Rec, d: string, r': Rec, d': string, x: string, y: string)
    requires Render(r, d) + x == Render(r', d') + y
    ensures r == r' && d == d' && x == y
  {
    hide Quoted, Text, Number;
    var a1 := ", \"seq\": " + Number(r.no) + x;
    var b1 := ", \"seq\": " + Number(r'.no) + y;
    var a2 := ", \"prev\": " + (Text(r.prev) + a1);
    var b2 := ", \"prev\": " + (Text(r'.prev) + b1);
    var a3 := ", \"h\": \"" + (Quoted(d) + a2);
    var b3 := ", \"h\": \"" + (Quoted(d') + b2);
    assert Render(r, d) + x == "{\"body\": \"" + (Quoted(r.body) + a3);
    assert Render(r', d') + y == "{\"body\": \"" + (Quoted(r'.body) + b3);
    Cancel("{\"body\": \"", Quoted(r.body) + a3, Quoted(r'.body) + b3);
    QuotedDecodes(r.body, r'.body, a3, b3);
    Cancel(", \"h\": \"", Quoted(d) + a2, Quoted(d') + b2);
    QuotedDecodes(d, d', a2, b2);
    Cancel(", \"prev\": ", Text(r.prev) + a1, Text(r'.prev) + b1);
    TextDecodes(r.prev, r'.prev, a1, b1);
    assert a1 == ", \"seq\": " + (Number(r.no) + x) && b1 == ", \"seq\": " + (Number(r'.no) + y);
    Cancel(", \"seq\": ", Number(r.no) + x, Number(r'.no) + y);
    NumberDecodes(r.no, r'.no, x, y);
  }

  ghost function Parse(s: string): Option<Line> {
    if s == "" then None
    else if exists r, d :: s == Render(r, d) then
      var r, d :| s == Render(r, d);
      Some(Line(r, Some(d)))
    else Some(NotJson)
  }

  ghost function SampleCodec(): Codec { Codec(Render, Parse) }

  ghost function SampleHash(): Digest { (p: string, r: Rec) => Render(r, p) }

  lemma SampleIsFaithful()
    ensures Faithful(SampleCodec())
  {
    hide Quoted, Text, Number, IsBreak;
    var c := SampleCodec();
    forall r, d ensures c.parse(c.render(r, d)) == Some(Line(r, Some(d))) && c.render(r, d) != "" && c.render(r, d)[0] == '{' {
      forall r', d' | Render(r, d) == Render(r', d') ensures r == r' && d == d' {
        RenderDecodes(r, d, r', d', "", "");
      }
    }
    forall r, d, n | 0 < n < |c.render(r, d)| ensures c.parse(c.render(r, d)[..n]) == Some(NotJson) {
      var s := Render(r, d)[..n];
      if r', d' :| s == Render(r', d') {
        assert Render(r', d') + Render(r, d)[n..] == Render(r, d) + "";
        RenderDecodes(r', d', r, d, Render(r, d)[n..], "");
        assert false;
      }
    }
    BraceIsNoBreak();
  }

  lemma BraceIsNoBreak()
    ensures !IsBreak('{')
  {
  }

  lemma SampleIsIdeal()
    ensures Ideal(SampleHash())
  {
    hide Quoted, Text, Number;
    forall p, r, p', r' | SampleHash()(p, r) == SampleHash()(p', r') ensures p == p' && r == r' {
      RenderDecodes(r, p, r', p', "", "");
    }
    forall p, r ensures SampleHash()(p, r) != GENESIS {
      assert Render(r, p)[0] == '{' && GENESIS[0] == 'G';
    }
  }

  const SUBJECT := "\U{2028}"

  lemma SeparatorIsRaw()
    ensures Quoted(SUBJECT) == ['\U{2028}', '"']
  {
    assert SUBJECT[1..] == "";
  }

  lemma SubjectBreaksTheLine(r: Rec, d: string)
    requires r.body == SUBJECT
    ensures !OneLine(Render(r, d))
  {
    SeparatorIsRaw();
    hide Quoted, Text, Number, IsBreak;
    assert Render(r, d)[|"{\"body\": \""|] == '\U{2028}';
    SeparatorIsABreak();
  }

  lemma SeparatorIsABreak()
    ensures IsBreak('\U{2028}')
  {
  }

  lemma SubjectIsNotPlain(h: Digest)
    ensures !Plain(h, SampleCodec(), [SUBJECT])
  {
    hide Render, OneLine;
    var rec := RecordAfter(1, GENESIS, SUBJECT);
    SubjectBreaksTheLine(rec, h(GENESIS, rec));
    assert [SUBJECT][..0] == [];
    assert Rendered(h, SampleCodec(), [SUBJECT], 0) == Render(rec, h(GENESIS, rec));
  }

  /** One successful call on an empty directory, its subject a line separator:
      the log does not verify. */
  lemma SeparatorBreaksTheLog()
    ensures Ideal(SampleHash()) && Faithful(SampleCodec())
    ensures Found(SampleHash(), SampleCodec(), After(SampleHash(), SampleCodec(), FRESH, [Call(1, SUBJECT, NoFault)])) > 0
  {
    SampleIsIdeal();
    SampleIsFaithful();
    hide Faithful, Ideal, Found, InStep, After, SampleHash, SampleCodec, Plain;
    var calls := [Call(1, SUBJECT, NoFault)];
    LogVerifiesExactly(SampleHash(), SampleCodec(), calls, 1);
    assert calls[..0] == [];
    assert Bodies(calls) == [SUBJECT];
    SubjectIsNotPlain(SampleHash());
  }
}
