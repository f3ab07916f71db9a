/**
 The writer of the audit log: it may fail at any point of a call, resumes its
 head across restarts, and appends text to the file of the day.
 */
module AuditTrail {
  import opened Mail
  import opened AuditChain
  import opened AuditText

  /** Where a call to `record` may fail; the failure is swallowed.  A failed
      append may have left the first `written` characters of its line, and a
      torn save has truncated chain.state before it failed. */
  datatype Fault = NoFault | EncodeFails | AppendFails(written: nat) | StateFails(torn: bool)

  /** The writer's head in memory, and the directory. */
  datatype Log = Log(prev: string, no: int, files: seq<File>, head: Head)

  /** Appending to a day's file, which may have to be created. */
  function Append(files: seq<File>, date: nat, text: string): seq<File> {
    if files == [] then [File(date, text)]
    else
      var front, last := files[..|files| - 1], files[|files| - 1];
      if last.date < date then files + [File(date, text)]
      else if last.date == date then front + [last.(text := last.text + text)]
      else Append(front, date, text) + [last]
  }

  predicate DatesAscend(files: seq<File>) {
    forall j, k :: 0 <= j < k < |files| ==> files[j].date < files[k].date
  }

  /** The text goes to the end of the file of that very day, the only one
      touched, or to a new file in its place among the dates. */
  ghost predicate AddedOn(files: seq<File>, files': seq<File>, k: nat, date: nat, text: string) {
    && k < |files'| && files'[k].date == date && DatesAscend(files')
    && if |files'| == |files| then
         files[k].date == date && files' == files[k := File(date, files[k].text + text)]
       else
         && k <= |files| && files' == files[..k] + [File(date, text)] + files[k..]
         && forall j :: 0 <= j < |files| ==> files[j].date != date
  }

  lemma {:induction false} AppendsToItsDay(files: seq<File>, date: nat, text: string) returns (k: nat)
    requires DatesAscend(files)
    ensures AddedOn(files, Append(files, date, text), k, date, text)
  {
    if files == [] || files[|files| - 1].date < date {
      k := |files|;
    } else if files[|files| - 1].date == date {
      k := |files| - 1;
    } else {
      var front, last := files[..|files| - 1], files[|files| - 1];
      k := AppendsToItsDay(front, date, text);
      hide Append;
      assert files == front + [last];
      AddedBefore(front, last, Append(front, date, text), k, date, text);
    }
  }

  lemma AddedBefore(files: seq<File>, last: File, files': seq<File>, k: nat, date: nat, text: string)
    requires DatesAscend(files + [last]) && date < last.date && AddedOn(files, files', k, date, text)
    ensures AddedOn(files + [last], files' + [last], k, date, text)
  {
    var all := files + [last];
    assert all[|files|] == last;
    forall j | 0 <= j < |files'| ensures files'[j].date < last.date {
      if j != k {
        var was := if |files'| == |files| || j < k then j else j - 1;
        assert files'[j].date == files[was].date && all[was] == files[was];
      }
    }
    DatesGrow(files', last);
    if |files'| != |files| { assert all[k..] == files[k..] + [last]; }
  }

  lemma DatesGrow(files: seq<File>, last: File)
    requires DatesAscend(files) && forall j :: 0 <= j < |files| ==> files[j].date < last.date
    ensures DatesAscend(files + [last])
  {
  }

  function Upto(text: string, n: nat): string {
    if n < |text| then text[..n] else text
  }

  function Recorded(h: Digest, c: Codec, l: Log, date: nat, body: string, fault: Fault): Log {
    var no := l.no + 1;
    var rec := RecordAfter(no, l.prev, body);
    if fault.EncodeFails? then l.(no := no)
    else
      var digest := h(l.prev, rec);
      var entry := c.render(rec, digest) + "\n";
      if fault.AppendFails? then Log(digest, no, Append(l.files, date, Upto(entry, fault.written)), l.head)
      else
        var files := Append(l.files, date, entry);
        if fault.StateFails? then Log(digest, no, files, if fault.torn then Unreadable else l.head)
        else Log(digest, no, files, Saved(Some(digest), Some(no)))
  }

  /** A restart: `prev` is taken over before the number is even looked at. */
  function Resumed(l: Log): Log {
    match l.head
    case Saved(Some(p), Some(n)) => l.(prev := p, no := n)
    case Saved(Some(p), None) => l.(prev := p, no := 0)
    case _ => l.(prev := GENESIS, no := 0)
  }

  /** A restart forgets what was in memory: the hash is the saved one or the
      anchor, the number the saved one if both could be read, else zero. */
  lemma ResumesExactly(l: Log)
    ensures var l' := Resumed(l);
            && l'.files == l.files && l'.head == l.head
            && (l.head.Saved? && l.head.prev.Some? ==> l'.prev == l.head.prev.value)
            && (l.head.Saved? && l.head.prev.Some? && l.head.no.Some? ==> l'.no == l.head.no.value)
            && (!l.head.Saved? || l.head.prev.None? ==> l'.prev == "GENESIS")
            && (!l.head.Saved? || l.head.prev.None? || l.head.no.None? ==> l'.no == 0)
  {
  }

  /** What the verifier counts in this directory. */
  function Found(h: Digest, c: Codec, l: Log): nat {
    Breaks(h, Lines(c, l.files), l.head)
  }

  predicate NoLaterDay(files: seq<File>, date: nat) {
    forall d :: 0 <= d < |files| ==> files[d].date <= date
  }

  predicate AllClosed(files: seq<File>) {
    forall d :: 0 <= d < |files| ==> Closed(files[d].text)
  }

  lemma AppendsAtTheEnd(c: Codec, files: seq<File>, date: nat, text: string)
    requires c.parse("") == None && NoLaterDay(files, date) && AllClosed(files)
    ensures Lines(c, Append(files, date, text)) == Lines(c, files) + Read(c, text)
    ensures NoLaterDay(Append(files, date, text), date)
  {
    hide Read;
    if files == [] {
      assert Append(files, date, text)[..0] == [];
    } else {
      var last := files[|files| - 1];
      if last.date == date {
        ReadJoin(c, last.text, text);
      } else {
        assert (files + [File(date, text)])[..|files|] == files;
      }
    }
  }

  lemma StaysClosed(files: seq<File>, date: nat, text: string)
    requires NoLaterDay(files, date) && AllClosed(files) && Closed(text)
    ensures AllClosed(Append(files, date, text))
  {
    hide IsBreak;
  }

  /** The text a call writes when the head in memory is (`no`, `prev`). */
  function Entry(h: Digest, c: Codec, no: int, prev: string, body: string): string {
    c.render(RecordAfter(no + 1, prev, body), h(prev, RecordAfter(no + 1, prev, body)))
  }

  lemma EntryIsClosed(text: string)
    ensures Closed(text + "\n")
  {
  }

  lemma BlankIsSkipped(c: Codec)
    requires Faithful(c)
    ensures c.parse("") == None
  {
  }

  lemma RecordedIs(h: Digest, c: Codec, l: Log, date: nat, body: string)
    ensures var digest := h(l.prev, RecordAfter(l.no + 1, l.prev, body));
            Recorded(h, c, l, date, body, NoFault) ==
              Log(digest, l.no + 1, Append(l.files, date, Entry(h, c, l.no, l.prev, body) + "\n"),
                  Saved(Some(digest), Some(l.no + 1)))
  {
    hide Append;
  }

  /** What a call that goes through adds to the lines. */
  lemma RecordAdds(h: Digest, c: Codec, l: Log, date: nat, body: string)
    requires Faithful(c) && NoLaterDay(l.files, date) && AllClosed(l.files)
    ensures var l' := Recorded(h, c, l, date, body, NoFault); var rec := RecordAfter(l.no + 1, l.prev, body);
            && NoLaterDay(l'.files, date) && AllClosed(l'.files)
            && Lines(c, l'.files) == Lines(c, l.files) + Read(c, Entry(h, c, l.no, l.prev, body) + "\n")
            && l'.prev == h(l.prev, rec) && l'.no == l.no + 1 && l'.head == Saved(Some(l'.prev), Some(l'.no))
  {
    hide Recorded, Append, Lines, Read, Closed, AllClosed, NoLaterDay, Entry, Faithful;
    var text := Entry(h, c, l.no, l.prev, body) + "\n";
    BlankIsSkipped(c);
    EntryIsClosed(Entry(h, c, l.no, l.prev, body));
    AppendsAtTheEnd(c, l.files, date, text);
    StaysClosed(l.files, date, text);
    RecordedIs(h, c, l, date, body);
  }

  /** What one call writes and where: the next number, the first twelve
      characters of the hash before, the body, and the hash of these, as one line
      at the end of the file of that day. */
  lemma RecordGoesToItsDay(h: Digest, c: Codec, l: Log, date: nat, body: string) returns (k: nat)
    requires DatesAscend(l.files)
    ensures var rec := Rec(Some(l.no + 1), Some(if |l.prev| <= 12 then l.prev else l.prev[..12]), body);
            AddedOn(l.files, Recorded(h, c, l, date, body, NoFault).files, k, date, c.render(rec, h(l.prev, rec)) + "\n")
  {
    k := AppendsToItsDay(l.files, date, Entry(h, c, l.no, l.prev, body) + "\n");
    hide Append, AddedOn;
  }

  /** A call that goes through keeps the log verifying exactly when the writer's
      head in memory is the head of the files, and the record is rendered on
      one line: an earlier failed append, or a restart from a head that was
      never saved, or a line separator in a subject, is what breaks it. */
  lemma RecordKeepsTheChainExactly(h: Digest, c: Codec, l: Log, date: nat, body: string)
    requires Ideal(h) && Faithful(c) && NoLaterDay(l.files, date) && AllClosed(l.files)
    requires Scan(h, Lines(c, l.files)).breaks == 0
    ensures Found(h, c, Recorded(h, c, l, date, body, NoFault)) == 0 <==>
              && OneLine(Entry(h, c, l.no, l.prev, body))
              && l.prev == (if l.no == 0 then GENESIS else Scan(h, Lines(c, l.files)).prev)
  {
    hide Recorded, Ideal, Scan, Judged, Read, Lines, Faithful, OneLine, NoLaterDay, AllClosed, StateBreaks, Short;
    var rec := RecordAfter(l.no + 1, l.prev, body);
    var line := Line(rec, Some(h(l.prev, rec)));
    var lines, more := Lines(c, l.files), Read(c, Entry(h, c, l.no, l.prev, body) + "\n");
    RecordAdds(h, c, l, date, body);
    EntryReads(c, rec, h(l.prev, rec));
    if OneLine(Entry(h, c, l.no, l.prev, body)) {
      assert more == [line];
      ScanNext(h, lines, line);
      LineIsAccepted(h, Scan(h, lines), l.no + 1, l.prev, body);
    } else {
      assert (lines + more)[|lines|] == NotJson;
      NoRecordBreaks(h, lines + more, |lines|);
    }
  }

  // -------------------------------------------------------------- whole runs

  datatype Call = Call(date: nat, body: string, fault: Fault) | Restart

  function After(h: Digest, c: Codec, l: Log, calls: seq<Call>): Log {
    if calls == [] then l
    else
      var before := After(h, c, l, calls[..|calls| - 1]);
      match calls[|calls| - 1]
      case Call(date, body, fault) => Recorded(h, c, before, date, body, fault)
      case Restart => Resumed(before)
  }

  function Bodies(calls: seq<Call>): seq<string> {
    if calls == [] then []
    else
      var last := calls[|calls| - 1];
      Bodies(calls[..|calls| - 1]) + if last.Call? then [last.body] else []
  }

  predicate Orderly(calls: seq<Call>) {
    && (forall k :: 0 <= k < |calls| && calls[k].Call? ==> calls[k].fault == NoFault)
    && (forall j, k :: 0 <= j < k < |calls| && calls[j].Call? && calls[k].Call? ==> calls[j].date <= calls[k].date)
  }

  const FRESH := Log(GENESIS, 0, [], Absent)

  /** The n-th record of a chain, as written. */
  function Rendered(h: Digest, c: Codec, bodies: seq<string>, n: nat): string
    requires n < |bodies|
  {
    Entry(h, c, n, Tip(h, bodies[..n]), bodies[n])
  }

  /** No rendered record of the chain holds a line break. */
  ghost predicate Plain(h: Digest, c: Codec, bodies: seq<string>) {
    forall n :: 0 <= n < |bodies| ==> OneLine(Rendered(h, c, bodies, n))
  }

  /** Memory and the saved head agree on one chain, and so do the files, if its
      records are each on one line. */
  ghost predicate InStep(h: Digest, c: Codec, l: Log, bodies: seq<string>) {
    && l.prev == Tip(h, bodies) && l.no == |bodies| && l.head == HeadOf(h, bodies)
    && AllClosed(l.files)
    && (Plain(h, c, bodies) ==> Lines(c, l.files) == Written(h, bodies))
    && (!Plain(h, c, bodies) ==> exists k :: 0 <= k < |Lines(c, l.files)| && Lines(c, l.files)[k].NotJson?)
  }

  /** A log in step verifies exactly when every record is on one line. */
  lemma InStepVerifiesExactly(h: Digest, c: Codec, l: Log, bodies: seq<string>)
    requires InStep(h, c, l, bodies)
    ensures Found(h, c, l) == 0 <==> Plain(h, c, bodies)
  {
    hide Plain, Lines, AllClosed;
    if Plain(h, c, bodies) {
      if bodies != [] {
        ChainScans(h, [], bodies);
        assert [] + Written(h, bodies) == Written(h, bodies);
      }
    } else {
      var k :| 0 <= k < |Lines(c, l.files)| && Lines(c, l.files)[k].NotJson?;
      NoRecordBreaks(h, Lines(c, l.files), k);
    }
  }

  lemma PlainNext(h: Digest, c: Codec, bodies: seq<string>, body: string)
    ensures Plain(h, c, bodies + [body]) <==>
              Plain(h, c, bodies) && OneLine(Entry(h, c, |bodies|, Tip(h, bodies), body))
  {
    hide OneLine;
    var more := bodies + [body];
    forall n | 0 <= n < |bodies| ensures Rendered(h, c, more, n) == Rendered(h, c, bodies, n) {
      assert more[..n] == bodies[..n];
    }
    assert more[..|bodies|] == bodies;
    assert Rendered(h, c, more, |bodies|) == Entry(h, c, |bodies|, Tip(h, bodies), body);
  }

  lemma WrittenNext(h: Digest, bodies: seq<string>, body: string)
    ensures var rec := RecordAfter(|bodies| + 1, Tip(h, bodies), body);
            && Tip(h, bodies + [body]) == h(Tip(h, bodies), rec)
            && Written(h, bodies + [body]) == Written(h, bodies) + [Line(rec, Some(Tip(h, bodies + [body])))]
  {
    assert (bodies + [body])[..|bodies|] == bodies;
  }

  lemma WriteStaysInStep(h: Digest, c: Codec, l: Log, bodies: seq<string>, date: nat, body: string)
    requires Faithful(c) && InStep(h, c, l, bodies) && NoLaterDay(l.files, date)
    ensures InStep(h, c, Recorded(h, c, l, date, body, NoFault), bodies + [body])
    ensures NoLaterDay(Recorded(h, c, l, date, body, NoFault).files, date)
  {
    var rec := RecordAfter(|bodies| + 1, Tip(h, bodies), body);
    var l' := Recorded(h, c, l, date, body, NoFault);
    RecordAdds(h, c, l, date, body);
    EntryReads(c, rec, h(l.prev, rec));
    PlainNext(h, c, bodies, body);
    WrittenNext(h, bodies, body);
    hide Recorded, Read, Lines, Plain, Faithful, OneLine, NoLaterDay, AllClosed, Written, Tip;
    var had, has := Lines(c, l.files), Lines(c, l'.files);
    if !Plain(h, c, bodies) {
      var k :| 0 <= k < |had| && had[k].NotJson?;
      assert has[k].NotJson?;
    } else if !Plain(h, c, bodies + [body]) {
      assert has[|had|].NotJson?;
    }
  }

  lemma RestartStaysInStep(h: Digest, c: Codec, l: Log, bodies: seq<string>)
    requires InStep(h, c, l, bodies)
    ensures Resumed(l) == l
  {
    hide Lines, Plain, AllClosed;
  }

  lemma FreshIsInStep(h: Digest, c: Codec)
    ensures InStep(h, c, FRESH, [])
  {
  }

  /** Forward: successful calls on days that never go back, across any restarts,
      leave a log that verifies with no break exactly when no record was
      rendered with a line break in it; and then its lines are one chain. */
  lemma {:induction false} LogVerifiesExactly(h: Digest, c: Codec, calls: seq<Call>, latest: nat)
    requires Faithful(c)
    requires Orderly(calls) && forall k :: 0 <= k < |calls| && calls[k].Call? ==> calls[k].date <= latest
    ensures InStep(h, c, After(h, c, FRESH, calls), Bodies(calls))
    ensures NoLaterDay(After(h, c, FRESH, calls).files, latest)
    ensures Found(h, c, After(h, c, FRESH, calls)) == 0 <==> Plain(h, c, Bodies(calls))
  {
    hide Found, InStep, Plain, Faithful;
    if calls != [] {
      var before, last := calls[..|calls| - 1], calls[|calls| - 1];
      assert forall k :: 0 <= k < |before| ==> calls[k] == before[k];
      if last.Call? {
        LogVerifiesExactly(h, c, before, last.date);
        WriteStaysInStep(h, c, After(h, c, FRESH, before), Bodies(before), last.date, last.body);
      } else {
        LogVerifiesExactly(h, c, before, latest);
        RestartStaysInStep(h, c, After(h, c, FRESH, before), Bodies(before));
        assert Bodies(calls) == Bodies(before);
      }
    } else {
      FreshIsInStep(h, c);
    }
    InStepVerifiesExactly(h, c, After(h, c, FRESH, calls), Bodies(calls));
  }

  // -------------------------------------------------------------- faults

  /** A log in step whose next record, on one line, reached the file; its head
      may not have been saved. */
  lemma WrittenButUnsaved(h: Digest, c: Codec, l: Log, bodies: seq<string>, lost: Call, torn: bool)
    requires Ideal(h) && Faithful(c) && InStep(h, c, l, bodies)
    requires lost.Call? && Plain(h, c, bodies + [lost.body]) && NoLaterDay(l.files, lost.date)
    ensures var l' := Recorded(h, c, l, lost.date, lost.body, StateFails(torn));
            && Lines(c, l'.files) == Written(h, bodies + [lost.body]) && AllClosed(l'.files) && NoLaterDay(l'.files, lost.date)
            && l'.head == (if torn then Unreadable else HeadOf(h, bodies))
            && Scan(h, Lines(c, l'.files)).breaks == 0 && Scan(h, Lines(c, l'.files)).prev == Tip(h, bodies + [lost.body])
            && Scan(h, Lines(c, l'.files)).last.Some?
  {
    WriteStaysInStep(h, c, l, bodies, lost.date, lost.body);
    assert Recorded(h, c, l, lost.date, lost.body, StateFails(torn)).files ==
           Recorded(h, c, l, lost.date, lost.body, NoFault).files by { hide Append; }
    hide Written, Lines, Plain, NoLaterDay, AllClosed, Append;
    ChainScans(h, [], bodies + [lost.body]);
    assert [] + Written(h, bodies + [lost.body]) == Written(h, bodies + [lost.body]);
  }

  /** A process that dies between the append and the save forks the chain: the
      first record after the restart does not verify.  The first call ever is
      the exception, because a record numbered 1 starts afresh. */
  lemma UnsavedHeadForks(h: Digest, c: Codec, l: Log, bodies: seq<string>, lost: Call, next: Call)
    requires Ideal(h) && Faithful(c) && InStep(h, c, l, bodies)
    requires lost.Call? && next.Call? && Plain(h, c, bodies + [lost.body]) && NoLaterDay(l.files, lost.date) && lost.date <= next.date
    ensures var died := Resumed(Recorded(h, c, l, lost.date, lost.body, StateFails(false)));
            Found(h, c, Recorded(h, c, died, next.date, next.body, NoFault)) == 0 <==>
              bodies == [] && OneLine(Entry(h, c, died.no, died.prev, next.body))
  {
    hide Recorded, Ideal, Lines, Plain, Faithful, OneLine, AllClosed, Found, Scan;
    var left := Recorded(h, c, l, lost.date, lost.body, StateFails(false));
    WrittenButUnsaved(h, c, l, bodies, lost, false);
    RecordKeepsTheChainExactly(h, c, Resumed(left), next.date, next.body);
    TipsDiffer(h, bodies, bodies + [lost.body]);
  }

  /** A save that fails after truncating chain.state hides itself: the unreadable
      head is one break until the next start, which counts from 1 again, and the
      first record after that makes the log verify with no break.  From then on
      the saved head vouches for that record alone, so everything before it can
      be removed unnoticed. */
  lemma TornSaveUnchains(h: Digest, c: Codec, l: Log, bodies: seq<string>, lost: Call, next: Call)
    requires Ideal(h) && Faithful(c) && InStep(h, c, l, bodies)
    requires lost.Call? && next.Call? && Plain(h, c, bodies + [lost.body]) && NoLaterDay(l.files, lost.date) && lost.date <= next.date
    ensures var left := Recorded(h, c, l, lost.date, lost.body, StateFails(true));
            var l' := Recorded(h, c, Resumed(left), next.date, next.body, NoFault);
            && Found(h, c, left) == 1
            && (Found(h, c, l') == 0 <==> OneLine(Entry(h, c, 0, GENESIS, next.body)))
            && Breaks(h, Written(h, [next.body]), l'.head) == 0
  {
    hide Recorded, Ideal, Lines, Plain, Faithful, OneLine, AllClosed, Scan, Written;
    var left := Recorded(h, c, l, lost.date, lost.body, StateFails(true));
    WrittenButUnsaved(h, c, l, bodies, lost, true);
    RecordKeepsTheChainExactly(h, c, Resumed(left), next.date, next.body);
    RecordAdds(h, c, Resumed(left), next.date, next.body);
    OneRecord(h, next.body);
  }

  lemma OneRecord(h: Digest, body: string)
    ensures Breaks(h, Written(h, [body]), Saved(Some(h(GENESIS, RecordAfter(1, GENESIS, body))), Some(1))) == 0
  {
    WrittenNext(h, [], body);
    assert [] + [body] == [body];
    ChainScans(h, [], [body]);
    assert [] + Written(h, [body]) == Written(h, [body]);
  }

  /** An append that broke off after `written` characters shows at once, unless
      nothing was written, or the whole of the first record ever was. */
  lemma TornAppendShowsExactly(h: Digest, c: Codec, l: Log, bodies: seq<string>, lost: Call, written: nat)
    requires Ideal(h) && Faithful(c) && InStep(h, c, l, bodies)
    requires lost.Call? && Plain(h, c, bodies + [lost.body]) && NoLaterDay(l.files, lost.date)
    ensures Found(h, c, Recorded(h, c, l, lost.date, lost.body, AppendFails(written))) == 0 <==>
              written == 0 || (bodies == [] && |Entry(h, c, 0, GENESIS, lost.body)| <= written)
  {
    hide Ideal, Lines, Plain, Faithful, OneLine, AllClosed, NoLaterDay, Scan, Written, Append, Read;
    var text := Entry(h, c, l.no, l.prev, lost.body);
    PlainNext(h, c, bodies, lost.body);
    WrittenNext(h, bodies, lost.body);
    BlankIsSkipped(c);
    AppendsAtTheEnd(c, l.files, lost.date, Upto(text + "\n", written));
    UptoReads(c, RecordAfter(l.no + 1, l.prev, lost.body), Tip(h, bodies + [lost.body]), written);
    var rec := RecordAfter(|bodies| + 1, Tip(h, bodies), lost.body);
    var line := Line(rec, Some(Tip(h, bodies + [lost.body])));
    if written == 0 {
      assert Written(h, bodies) + [] == Written(h, bodies);
      InStepVerifiesExactly(h, c, l, bodies);
    } else if written < |text| {
      assert (Written(h, bodies) + [NotJson])[|bodies|] == NotJson;
      NoRecordBreaks(h, Written(h, bodies) + [NotJson], |bodies|);
    } else {
      ChainScans(h, [], bodies + [lost.body]);
      assert [] + Written(h, bodies + [lost.body]) == Written(h, bodies + [lost.body]);
      NothingScanned(h);
      TipsDiffer(h, bodies, bodies + [lost.body]);
    }
  }

  lemma UptoReads(c: Codec, r: Rec, d: string, n: nat)
    requires Faithful(c) && OneLine(c.render(r, d))
    ensures var text := c.render(r, d);
            Read(c, Upto(text + "\n", n)) == if n == 0 then [] else if n < |text| then [NotJson] else [Line(r, Some(d))]
  {
    hide Read, OneLine, Faithful;
    var text := c.render(r, d);
    TornEntryReads(c, r, d, if n <= |text| then n else |text|);
    EntryReads(c, r, d);
    if n < |text| {
      assert Upto(text + "\n", n) == text[..n];
    } else if n == |text| {
      assert Upto(text + "\n", n) == text == text[..n];
    }
    SomethingIsRendered(c, r, d);
  }

  lemma SomethingIsRendered(c: Codec, r: Rec, d: string)
    requires Faithful(c)
    ensures c.render(r, d) != ""
  {
  }

  // ------------------------------------------------------------- the program

  class AuditLog {
    const h: Digest
    const c: Codec
    var prev: string
    var no: int
    var files: seq<File>
    var head: Head

    function Contents(): Log
      reads this
    {
      Log(prev, no, files, head)
    }

    /** Opening the log over a directory: resume the saved head, if it reads. */
    constructor (h: Digest, c: Codec, files: seq<File>, head: Head)
      ensures this.h == h && this.c == c && Contents() == Resumed(Log(GENESIS, 0, files, head))
    {
      this.h, this.c, this.files, this.head := h, c, files, head;
      prev, no := GENESIS, 0;
      new;
      if head.Saved? && head.prev.Some? {
        prev := head.prev.value;
        if head.no.Some? { no := head.no.value; }
      }
    }

    /** One call: number, link, hash, append, save the head; any of the last
        four may fail, and what was already changed in memory stays changed. */
    method Record(date: nat, body: string, fault: Fault)
      modifies this
      ensures Contents() == Recorded(h, c, old(Contents()), date, body, fault)
    {
      no := no + 1;
      var rec := Rec(Some(no), Some(Short(prev)), body);
      if fault.EncodeFails? { return; }
      var digest := h(prev, rec);
      prev := digest;
      var entry := c.render(rec, digest) + "\n";
      if fault.AppendFails? { files := Append(files, date, Upto(entry, fault.written)); return; }
      files := Append(files, date, entry);
      if fault.StateFails? {
        if fault.torn { head := Unreadable; }
        return;
      }
      head := Saved(Some(digest), Some(no));
    }
  }
}
