/**
 Indexing for semantic search.  Messages are cut into chunks and embedded many
 at a time; against it stands the plain reading, which embeds one message alone.
 */
module Embedding {
  import opened Mail

  const MAX_BATCH := 100

  // ------------------------------------------------------------------ chunks

  /** Consecutive slices of a width, as a range with a step takes them. */
  function Pieces<T>(text: seq<T>, size: nat): seq<seq<T>>
    requires 0 < size
    decreases |text|
  {
    if text == [] then []
    else if |text| <= size then [text]
    else [text[..size]] + Pieces(text[size..], size)
  }

  function Concat<T>(parts: seq<seq<T>>): seq<T> {
    if parts == [] then [] else Concat(parts[..|parts| - 1]) + parts[|parts| - 1]
  }

  lemma {:induction false} ConcatFirst<T>(first: seq<T>, rest: seq<seq<T>>)
    ensures Concat([first] + rest) == first + Concat(rest)
  {
    if rest == [] {
      assert [first] + rest == [first] && [first][..0] == [];
    } else {
      assert ([first] + rest)[..|rest|] == [first] + rest[..|rest| - 1];
      ConcatFirst(first, rest[..|rest| - 1]);
    }
  }

  /** Chunking loses nothing: the pieces in order are the text, each of full
      width but the last, and none empty. */
  lemma {:induction false} PiecesAreTheText<T>(text: seq<T>, size: nat)
    requires 0 < size
    ensures Concat(Pieces(text, size)) == text
    ensures forall k :: 0 <= k < |Pieces(text, size)| ==> 0 < |Pieces(text, size)[k]| <= size
    ensures forall k :: 0 <= k < |Pieces(text, size)| - 1 ==> |Pieces(text, size)[k]| == size
    decreases |text|
  {
    if text != [] && |text| > size {
      PiecesAreTheText(text[size..], size);
      ConcatFirst(text[..size], Pieces(text[size..], size));
    } else if text != [] {
      assert [text][..0] == [];
    }
  }

  function LStrip(s: string, drop: char -> bool): string {
    if s != "" && drop(s[0]) then LStrip(s[1..], drop) else s
  }

  function RStrip(s: string, drop: char -> bool): string {
    if s != "" && drop(s[|s| - 1]) then RStrip(s[..|s| - 1], drop) else s
  }

  function Strip(s: string, drop: char -> bool): string {
    RStrip(LStrip(s, drop), drop)
  }

  predicate Blank(s: string, space: char -> bool) {
    forall k :: 0 <= k < |s| ==> space(s[k])
  }

  /** Subject and body on a line each, or the one there is without newlines at
      its ends, and the thread's context below. */
  function Composed(subject: string, body: string, context: string, space: char -> bool): string {
    var head := Strip(subject, space);
    var text := if head != "" && body != "" then head + "\n" + body
                else Strip(if head != "" then head else body, c => c == '\n');
    if context != "" then text + "\n\n" + context else text
  }

  /** A text between what is dropped from its two ends. */
  ghost predicate Core(s: string, drop: char -> bool, i: nat, j: nat) {
    && i <= j <= |s|
    && (forall k :: 0 <= k < i || j <= k < |s| ==> drop(s[k]))
    && (i < j ==> !drop(s[i]) && !drop(s[j - 1]))
    && (i == j ==> forall k :: 0 <= k < |s| ==> drop(s[k]))
  }

  lemma {:induction false} LStripExactly(s: string, drop: char -> bool) returns (i: nat)
    ensures i <= |s| && LStrip(s, drop) == s[i..] && (forall k :: 0 <= k < i ==> drop(s[k])) && (i < |s| ==> !drop(s[i]))
  {
    if s != "" && drop(s[0]) {
      i := LStripExactly(s[1..], drop);
      assert s[1..][i..] == s[i + 1..];
      forall k | 0 < k < i + 1 ensures drop(s[k]) { assert s[k] == s[1..][k - 1]; }
      i := i + 1;
    } else {
      i := 0;
    }
  }

  lemma {:induction false} RStripExactly(s: string, drop: char -> bool) returns (j: nat)
    ensures j <= |s| && RStrip(s, drop) == s[..j] && (forall k :: j <= k < |s| ==> drop(s[k])) && (0 < j ==> !drop(s[j - 1]))
  {
    if s != "" && drop(s[|s| - 1]) {
      j := RStripExactly(s[..|s| - 1], drop);
      assert s[..|s| - 1][..j] == s[..j];
    } else {
      j := |s|;
    }
  }

  lemma StripExactly(s: string, drop: char -> bool) returns (i: nat, j: nat)
    ensures Core(s, drop, i, j) && Strip(s, drop) == s[i..j]
  {
    i := LStripExactly(s, drop);
    var m := RStripExactly(s[i..], drop);
    j := i + m;
    assert s[i..][..m] == s[i..j];
    forall k | j <= k < |s| ensures drop(s[k]) { assert s[k] == s[i..][k - i]; }
    if m > 0 { assert s[j - 1] == s[i..][m - 1]; }
  }

  /** The text of a message, exactly: the subject without its blanks and the body
      as it is, on a line each; where one is missing, the other, and a body
      alone without the newlines at its ends; then a blank line and the context. */
  lemma ComposedExactly(subject: string, body: string, context: string, space: char -> bool)
    returns (i: nat, j: nat, a: nat, b: nat)
    requires space('\n')
    ensures Core(subject, space, i, j) && Core(body, c => c == '\n', a, b)
    ensures var head := subject[i..j];
            Composed(subject, body, context, space) ==
              (if head == "" then body[a..b] else if body == "" then head else head + "\n" + body) +
              (if context == "" then "" else "\n\n" + context)
  {
    i, j := StripExactly(subject, space);
    a, b := StripExactly(body, c => c == '\n');
    var head := subject[i..j];
    if head != "" && body == "" {
      var x, y := StripExactly(head, c => c == '\n');
      assert head[0] == subject[i] && head[|head| - 1] == subject[j - 1];
      assert x == 0 && y == |head| && head[x..y] == head;
    }
    hide LStrip, RStrip;
  }

  lemma {:induction false} LStripBlank(s: string, drop: char -> bool, space: char -> bool)
    requires forall c :: drop(c) ==> space(c)
    ensures Blank(LStrip(s, drop), space) <==> Blank(s, space)
    ensures LStrip(s, drop) == "" <==> Blank(s, drop)
  {
    if s != "" && drop(s[0]) {
      LStripBlank(s[1..], drop, space);
      assert s == [s[0]] + s[1..];
    }
  }

  lemma {:induction false} RStripBlank(s: string, drop: char -> bool, space: char -> bool)
    requires forall c :: drop(c) ==> space(c)
    ensures Blank(RStrip(s, drop), space) <==> Blank(s, space)
    ensures RStrip(s, drop) == "" <==> Blank(s, drop)
  {
    if s != "" && drop(s[|s| - 1]) {
      RStripBlank(s[..|s| - 1], drop, space);
      assert s == s[..|s| - 1] + [s[|s| - 1]];
    }
  }

  lemma StripBlank(s: string, drop: char -> bool, space: char -> bool)
    requires forall c :: drop(c) ==> space(c)
    ensures Blank(Strip(s, drop), space) <==> Blank(s, space)
    ensures Strip(s, drop) == "" <==> Blank(s, drop)
  {
    LStripBlank(s, drop, space);
    RStripBlank(LStrip(s, drop), drop, space);
    LStripBlank(s, drop, drop);
    RStripBlank(LStrip(s, drop), drop, drop);
  }

  lemma BlankJoin(a: string, b: string, space: char -> bool)
    ensures Blank(a + b, space) <==> Blank(a, space) && Blank(b, space)
  {
    if Blank(a + b, space) {
      assert forall k :: 0 <= k < |a| ==> a[k] == (a + b)[k];
      assert forall k :: 0 <= k < |b| ==> b[k] == (a + b)[|a| + k];
    }
  }

  /** A message has nothing to embed exactly when subject, body and context are
      all blank. */
  lemma NothingToEmbedExactly(subject: string, body: string, context: string, space: char -> bool)
    requires space('\n')
    ensures Blank(Composed(subject, body, context, space), space) <==>
              Blank(subject, space) && Blank(body, space) && Blank(context, space)
  {
    hide Blank, Strip;
    var head := Strip(subject, space);
    StripBlank(subject, space, space);
    EmptyIsBlank(space);
    var text := if head != "" && body != "" then head + "\n" + body
                else Strip(if head != "" then head else body, c => c == '\n');
    if head != "" && body != "" {
      BlankJoin(head + "\n", body, space);
      BlankJoin(head, "\n", space);
    } else {
      StripBlank(if head != "" then head else body, c => c == '\n', space);
    }
    if context != "" {
      BlankJoin(text + "\n\n", context, space);
      BlankJoin(text, "\n\n", space);
    }
  }

  lemma EmptyIsBlank(space: char -> bool)
    requires space('\n')
    ensures Blank("", space) && Blank("\n", space) && Blank("\n\n", space)
  {
  }

  /** A message's chunks; one with nothing but blanks has none. */
  method ChunkText(subject: string, body: string, context: string, space: char -> bool, chunkChars: int)
    returns (chunks: seq<string>)
    requires space('\n')
    ensures chunks == [] <==> Blank(subject, space) && Blank(body, space) && Blank(context, space)
    ensures chunks != [] ==> chunks == Pieces(Composed(subject, body, context, space), if chunkChars < 1 then 1 else chunkChars)
  {
    NothingToEmbedExactly(subject, body, context, space);
    var text := Composed(subject, body, context, space);
    if Blank(text, space) { return []; }
    chunks := Slices(text, if chunkChars < 1 then 1 else chunkChars);
  }

  method Slices(text: string, size: nat) returns (chunks: seq<string>)
    requires 0 < size
    ensures chunks == Pieces(text, size)
  {
    chunks := [];
    var i := 0;
    while i < |text|
      invariant 0 <= i
      invariant i < |text| ==> chunks + Pieces(text[i..], size) == Pieces(text, size)
      invariant i >= |text| ==> chunks == Pieces(text, size)
    {
      ghost var before := chunks;
      if i + size < |text| {
        chunks := chunks + [text[i..i + size]];
        assert text[i..][..size] == text[i..i + size] && text[i..][size..] == text[i + size..];
        assert before + ([text[i..i + size]] + Pieces(text[i + size..], size)) == chunks + Pieces(text[i + size..], size);
      } else {
        chunks := chunks + [text[i..]];
      }
      i := i + size;
    }
  }

  // ---------------------------------------------------------------- embedder

  function MapAll<V>(e: string -> V, texts: seq<string>): (r: seq<V>)
    ensures |r| == |texts|
  {
    seq(|texts|, k requires 0 <= k < |texts| => e(texts[k]))
  }

  /** An embedder that answers, answers with one vector per text, in order. */
  ghost predicate Pointwise<V(!new)>(call: seq<string> -> Option<seq<V>>, e: string -> V) {
    forall texts :: call(texts).Some? ==> call(texts).value == MapAll(e, texts)
  }

  lemma MapAllJoins<V>(e: string -> V, a: seq<string>, b: seq<string>)
    ensures MapAll(e, a + b) == MapAll(e, a) + MapAll(e, b)
  {
  }

  /** The API client: one request per slice of at most `batch` texts, the
      answers joined.  It answers when every request does, and the answer is
      what one request for everything would have been. */
  method EmbedInBatches<V(!new)>(call: seq<string> -> Option<seq<V>>, ghost e: string -> V, texts: seq<string>, batch: nat)
    returns (out: Option<seq<V>>)
    requires 0 < batch && Pointwise(call, e)
    ensures out.Some? <==> forall k :: 0 <= k < |Pieces(texts, batch)| ==> call(Pieces(texts, batch)[k]).Some?
    ensures out.Some? ==> out.value == MapAll(e, texts)
  {
    var vectors: seq<V> := [];
    ghost var sent: seq<seq<string>> := [];
    var start := 0;
    while start < |texts|
      invariant 0 <= start <= |texts| && vectors == MapAll(e, texts[..start])
      invariant sent + Pieces(texts[start..], batch) == Pieces(texts, batch)
      invariant forall k :: 0 <= k < |sent| ==> call(sent[k]).Some?
    {
      var end := if start + batch < |texts| then start + batch else |texts|;
      var part := texts[start..end];
      NextPiece(texts, batch, start, end);
      var answer := call(part);
      if answer.None? {
        assert (sent + Pieces(texts[start..], batch))[|sent|] == part;
        return None;
      }
      sent := sent + [part];
      MapAllJoins(e, texts[..start], part);
      assert texts[..end] == texts[..start] + part;
      vectors, start := vectors + answer.value, end;
    }
    assert texts[..start] == texts && texts[start..] == [];
    out := Some(vectors);
  }

  lemma NextPiece<T>(texts: seq<T>, batch: nat, start: nat, end: nat)
    requires 0 < batch && start < |texts| && end == if start + batch < |texts| then start + batch else |texts|
    ensures Pieces(texts[start..], batch) == [texts[start..end]] + Pieces(texts[end..], batch)
  {
    if end < |texts| {
      assert texts[start..][..batch] == texts[start..end] && texts[start..][batch..] == texts[end..];
    } else {
      assert texts[start..] == texts[start..end] && texts[end..] == [];
    }
  }

  // ------------------------------------------------------------------- index

  type Plan = seq<(ItemId, seq<string>)>

  ghost predicate DistinctIds(plan: Plan) {
    forall i, j :: 0 <= i < j < |plan| ==> plan[i].0 != plan[j].0
  }

  function Texts(plan: Plan): seq<string> {
    if plan == [] then [] else Texts(plan[..|plan| - 1]) + plan[|plan| - 1].1
  }

  /** What embedding this message alone would store: each chunk with its vector. */
  function Alone<V>(e: string -> V, chunks: seq<string>): seq<(string, V)> {
    seq(|chunks|, k requires 0 <= k < |chunks| => (chunks[k], e(chunks[k])))
  }

  function Zip<V>(texts: seq<string>, vectors: seq<V>): seq<(string, V)>
    requires |texts| == |vectors|
  {
    seq(|texts|, k requires 0 <= k < |texts| => (texts[k], vectors[k]))
  }

  function Ids(plan: Plan): seq<ItemId> {
    seq(|plan|, k requires 0 <= k < |plan| => plan[k].0)
  }

  /** The messages that have something to embed. */
  function Wordy(plan: Plan): Plan {
    if plan == [] then []
    else
      var last := plan[|plan| - 1];
      if last.1 == [] then Wordy(plan[..|plan| - 1]) else Wordy(plan[..|plan| - 1]) + [last]
  }

  type Index<V> = map<ItemId, seq<(string, V)>>

  /** One message stands as embedding it alone would have left it. */
  ghost predicate Indexed<V>(index: Index<V>, e: string -> V, id: ItemId, chunks: seq<string>) {
    id in index && index[id] == Alone(e, chunks)
  }

  ghost predicate Untouched<V>(was: Index<V>, index: Index<V>, id: ItemId) {
    (id in index <==> id in was) && (id in was ==> index[id] == was[id])
  }

  /** What one request to the embedder carried: whole messages, no more texts
      than a batch unless a single message is longer than that. */
  predicate FairRequest(group: Plan, batch: nat) {
    group != [] && (|Texts(group)| <= batch || |group| == 1)
  }

  class SemanticIndex<V(!new)> {
    const call: seq<string> -> Option<seq<V>>
    ghost const e: string -> V
    const batch: nat
    var index: Index<V>
    var writes: seq<ItemId>
    var requests: seq<Plan>

    ghost predicate Valid()
      reads this
    {
      Pointwise(call, e) && 0 < batch <= MAX_BATCH
    }

    constructor (call: seq<string> -> Option<seq<V>>, ghost e: string -> V, batch: int)
      requires Pointwise(call, e)
      ensures Valid() && index == map[] && writes == [] && requests == []
      ensures this.batch == if batch < 1 then 1 else if 100 < batch then 100 else batch
    {
      this.call, this.e := call, e;
      this.batch := if batch < 1 then 1 else if MAX_BATCH < batch then MAX_BATCH else batch;
      index, writes, requests := map[], [], [];
    }

    /** A full rewrite of one message's chunks; it may fail, and then nothing changed. */
    method ReplaceChunks(id: ItemId, chunks: seq<(string, V)>) returns (raised: bool)
      modifies `index, `writes
      ensures raised ==> index == old(index) && writes == old(writes)
      ensures !raised ==> index == old(index)[id := chunks] && writes == old(writes) + [id]
    {
      if * { return true; }
      index, writes, raised := index[id := chunks], writes + [id], false;
    }

    /** The rewrites for one answer, message by message. */
    method WriteAll(pending: Plan, vectors: seq<V>) returns (raised: bool)
      requires DistinctIds(pending) && vectors == MapAll(e, Texts(pending))
      modifies `index, `writes
      ensures forall k :: 0 <= k < |pending| ==> Untouched(old(index), index, pending[k].0) || Indexed(index, e, pending[k].0, pending[k].1)
      ensures forall id :: id !in Ids(pending) ==> Untouched(old(index), index, id)
      ensures !raised ==> (forall k :: 0 <= k < |pending| ==> Indexed(index, e, pending[k].0, pending[k].1)) && writes == old(writes) + Ids(pending)
    {
      hide Texts, MapAll, Alone;
      var cursor := 0;
      ghost var ids := Ids(pending);
      NoTexts(pending);
      for k := 0 to |pending|
        invariant cursor == |Texts(pending[..k])|
        invariant writes == old(writes) + ids[..k]
        invariant forall j :: 0 <= j < k ==> Indexed(index, e, pending[j].0, pending[j].1)
        invariant forall id :: id !in ids[..k] ==> Untouched(old(index), index, id)
      {
        var (id, chunks) := pending[k];
        TextsAt(pending, k);
        WindowIsAlone(e, pending, k);
        var window := vectors[cursor..cursor + |chunks|];
        cursor := cursor + |chunks|;
        assert ids[..k + 1] == ids[..k] + [id] && id !in ids[..k];
        var failed := ReplaceChunks(id, Zip(chunks, window));
        if failed {
          assert forall i :: i !in ids ==> i !in ids[..k];
          forall j | 0 <= j < |pending| ensures j < k || pending[j].0 !in ids[..k] { assert ids[j] == pending[j].0; }
          return true;
        }
      }
      assert ids[..|pending|] == ids;
      raised := false;
    }

    /** One request for several messages, and their rewrites. */
    method Flush(pending: Plan) returns (raised: bool)
      requires Valid() && DistinctIds(pending)
      modifies this
      ensures requests == old(requests) + [pending]
      ensures forall k :: 0 <= k < |pending| ==> Untouched(old(index), index, pending[k].0) || Indexed(index, e, pending[k].0, pending[k].1)
      ensures forall id :: id !in Ids(pending) ==> Untouched(old(index), index, id)
      ensures !raised ==> (forall k :: 0 <= k < |pending| ==> Indexed(index, e, pending[k].0, pending[k].1)) && writes == old(writes) + Ids(pending)
    {
      requests := requests + [pending];
      var texts := Texts(pending);
      var vectors := call(texts);
      if vectors.None? { return true; }
      if |vectors.value| != |texts| { return true; }
      raised := WriteAll(pending, vectors.value);
    }

    /** A page of messages, batched by message.  Each one ends up exactly as
        embedding it alone would leave it, and is rewritten once; a failure on
        the way leaves every message either finished or as it was. */
    method IndexMessages(planned: Plan) returns (raised: bool, done: nat)
      requires Valid() && DistinctIds(planned)
      modifies this
      ensures !raised ==>
                && done == |planned|
                && (forall k :: 0 <= k < |planned| ==> Indexed(index, e, planned[k].0, planned[k].1))
                && multiset(writes) == multiset(old(writes)) + multiset(Ids(planned))
      ensures Finished(old(index), index, e, planned)
      ensures old(requests) <= requests && forall k :: |old(requests)| <= k < |requests| ==> FairRequest(requests[k], batch)
      ensures !raised ==> Concat(requests[|old(requests)|..]) == Wordy(planned)
    {
      hide Indexed, Untouched, Texts, Wordy, Concat, Pointwise, Settled, Finished, Queued, Rewritten, Sent, Ids, FairRequest, DistinctIds, Alone;
      raised := false;
      var pending: Plan, size := [], 0;
      done := 0;
      Nothing(index, e, planned, requests, batch);
      for k := 0 to |planned|
        invariant Valid() && done == k - |pending|
        invariant Queued(planned[..k], pending) && size == |Texts(pending)| && (size <= batch || |pending| == 1)
        invariant Settled(old(index), index, e, planned, k, pending)
        invariant Rewritten(old(writes), writes, planned, k, pending)
        invariant Sent(old(requests), requests, batch, planned, k, pending)
      {
        var (id, chunks) := planned[k];
        if chunks == [] {
          WroteEmpty(old(index), index, e, planned, k, pending);
          SettledIsPart(old(index), index, e, planned, k, pending);
          SentNothing(old(requests), requests, batch, planned, k, pending);
          raised := ReplaceChunks(id, []);
          if raised { return; }
          RewroteOne(old(writes), writes[..|writes| - 1], planned, k, pending);
          QueuedGrows(planned, k, pending);
          done := done + 1;
        } else {
          if pending != [] && size + |chunks| > batch {
            raised := FlushQueue(old(index), old(writes), old(requests), planned, k, pending);
            if raised { return; }
            done, pending, size := done + |pending|, [], 0;
          }
          QueueOne(old(index), index, e, planned, k, pending);
          RewriteLater(old(writes), writes, planned, k, pending);
          SentLater(old(requests), requests, batch, planned, k, pending);
          pending, size := pending + [(id, chunks)], size + |chunks|;
        }
      }
      assert planned[..|planned|] == planned;
      if pending != [] {
        raised := FlushQueue(old(index), old(writes), old(requests), planned, |planned|, pending);
        if raised { return; }
        done, pending := done + |pending|, [];
      }
      AllSettled(old(index), index, e, planned);
      AllRewritten(old(writes), writes, planned);
      AllSent(old(requests), requests, batch, planned);
    }

    /** A flush in the middle of a page, after which nothing is waiting. */
    method FlushQueue(ghost was: Index<V>, ghost written: seq<ItemId>, ghost sent: seq<Plan>,
                      ghost plan: Plan, ghost k: nat, pending: Plan) returns (raised: bool)
      requires Valid() && DistinctIds(plan) && k <= |plan| && Queued(plan[..k], pending) && pending != []
      requires Settled(was, index, e, plan, k, pending) && Rewritten(written, writes, plan, k, pending)
      requires Sent(sent, requests, batch, plan, k, pending) && (|Texts(pending)| <= batch || |pending| == 1)
      modifies this
      ensures Finished(was, index, e, plan)
      ensures sent <= requests && forall r :: |sent| <= r < |requests| ==> FairRequest(requests[r], batch)
      ensures !raised ==>
                && Settled(was, index, e, plan, k, []) && Rewritten(written, writes, plan, k, [])
                && Sent(sent, requests, batch, plan, k, []) && Queued(plan[..k], [])
    {
      ghost var index0, writes0, requests0 := index, writes, requests;
      raised := Flush(pending);
      FlushedPart(was, index0, index, e, plan, k, pending);
      SentQueue(sent, requests0, batch, plan, k, pending);
      if !raised {
        FlushedAll(was, index0, index, e, plan, k, pending);
        RewroteQueue(written, writes0, plan, k, pending);
      }
    }
  }

  /** The requests made so far carried exactly the wordy messages before `k`
      that are not waiting, each request a fair one. */
  ghost predicate Sent(was: seq<Plan>, requests: seq<Plan>, batch: nat, plan: Plan, k: nat, pending: Plan)
    requires k <= |plan|
  {
    && was <= requests && Concat(requests[|was|..]) + pending == Wordy(plan[..k])
    && forall r :: |was| <= r < |requests| ==> FairRequest(requests[r], batch)
  }

  lemma SentNothing(was: seq<Plan>, requests: seq<Plan>, batch: nat, plan: Plan, k: nat, pending: Plan)
    requires k < |plan| && plan[k].1 == [] && Sent(was, requests, batch, plan, k, pending)
    ensures Sent(was, requests, batch, plan, k + 1, pending)
    ensures was <= requests && forall r :: |was| <= r < |requests| ==> FairRequest(requests[r], batch)
  {
    WordyNext(plan, k);
  }

  lemma SentLater(was: seq<Plan>, requests: seq<Plan>, batch: nat, plan: Plan, k: nat, pending: Plan)
    requires k < |plan| && plan[k].1 != [] && Sent(was, requests, batch, plan, k, pending)
    ensures Sent(was, requests, batch, plan, k + 1, pending + [plan[k]])
  {
    WordyNext(plan, k);
  }

  lemma SentQueue(was: seq<Plan>, requests: seq<Plan>, batch: nat, plan: Plan, k: nat, pending: Plan)
    requires k <= |plan| && Sent(was, requests, batch, plan, k, pending) && FairRequest(pending, batch)
    ensures Sent(was, requests + [pending], batch, plan, k, [])
    ensures was <= requests + [pending] && forall r :: |was| <= r < |requests + [pending]| ==> FairRequest((requests + [pending])[r], batch)
  {
    assert (requests + [pending])[|was|..] == requests[|was|..] + [pending];
    JoinRequests(requests[|was|..], pending);
  }

  lemma AllSent(was: seq<Plan>, requests: seq<Plan>, batch: nat, plan: Plan)
    requires Sent(was, requests, batch, plan, |plan|, [])
    ensures was <= requests && Concat(requests[|was|..]) == Wordy(plan)
    ensures forall r :: |was| <= r < |requests| ==> FairRequest(requests[r], batch)
  {
    assert plan[..|plan|] == plan;
  }

  /** The messages waiting for the next request, all from this plan. */
  ghost predicate Queued(plan: Plan, pending: Plan) {
    DistinctIds(pending) && forall p :: p in pending ==> p in plan && p.1 != []
  }

  /** Before message `k`, everything not waiting is done; the rest is as it was. */
  ghost predicate Settled<V>(was: Index<V>, index: Index<V>, e: string -> V, plan: Plan, k: nat, pending: Plan)
    requires k <= |plan|
  {
    && (forall j :: 0 <= j < k && plan[j].0 !in Ids(pending) ==> Indexed(index, e, plan[j].0, plan[j].1))
    && (forall id :: id in Ids(pending) || id !in Ids(plan)[..k] ==> Untouched(was, index, id))
  }

  /** No message is half done, and no other message is touched. */
  ghost predicate Finished<V>(was: Index<V>, index: Index<V>, e: string -> V, plan: Plan) {
    && (forall k :: 0 <= k < |plan| ==> Untouched(was, index, plan[k].0) || Indexed(index, e, plan[k].0, plan[k].1))
    && (forall id :: id !in Ids(plan) ==> Untouched(was, index, id))
  }

  lemma Nothing<V>(index: Index<V>, e: string -> V, plan: Plan, requests: seq<Plan>, batch: nat)
    ensures Queued([], []) && Texts([]) == [] && Wordy([]) == [] && Ids([]) == []
    ensures Sent(requests, requests, batch, plan, 0, []) && plan[..0] == []
    ensures Settled(index, index, e, plan, 0, [])
    ensures forall ws :: Rewritten(ws, ws, plan, 0, [])
  {
  }

  lemma IdsHold(plan: Plan, k: nat, pending: Plan)
    requires DistinctIds(plan) && k <= |plan| && Queued(plan[..k], pending)
    ensures forall id :: id in Ids(pending) ==> id in Ids(plan)[..k] && id in Ids(plan)
    ensures k < |plan| ==> plan[k].0 !in Ids(pending) && plan[k].0 !in Ids(plan)[..k]
    ensures forall j, p :: 0 <= j < |plan| && p in pending && plan[j].0 == p.0 ==> plan[j] == p
  {
    forall id | id in Ids(pending) ensures id in Ids(plan)[..k] {
      var m :| 0 <= m < |pending| && Ids(pending)[m] == id;
      assert pending[m] in pending && pending[m] in plan[..k];
      var j :| 0 <= j < k && plan[..k][j] == pending[m];
      assert Ids(plan)[..k][j] == id;
    }
    forall j, p | 0 <= j < |plan| && p in pending && plan[j].0 == p.0 ensures plan[j] == p {
      var i :| 0 <= i < k && plan[..k][i] == p;
    }
  }

  lemma WroteEmpty<V>(was: Index<V>, index: Index<V>, e: string -> V, plan: Plan, k: nat, pending: Plan)
    requires DistinctIds(plan) && k < |plan| && plan[k].1 == [] && Queued(plan[..k], pending) && Settled(was, index, e, plan, k, pending)
    ensures Settled(was, index[plan[k].0 := []], e, plan, k + 1, pending)
    ensures Finished(was, index[plan[k].0 := []], e, plan)
  {
    IdsHold(plan, k, pending);
    var index' := index[plan[k].0 := []];
    assert Ids(plan)[..k + 1] == Ids(plan)[..k] + [plan[k].0];
    assert Alone(e, plan[k].1) == [];
    SettledIsPart(was, index', e, plan, k + 1, pending);
  }

  lemma QueuedGrows(plan: Plan, k: nat, pending: Plan)
    requires k < |plan| && Queued(plan[..k], pending)
    ensures Queued(plan[..k + 1], pending)
  {
  }

  lemma QueueOne<V>(was: Index<V>, index: Index<V>, e: string -> V, plan: Plan, k: nat, pending: Plan)
    requires DistinctIds(plan) && k < |plan| && plan[k].1 != [] && Queued(plan[..k], pending) && Settled(was, index, e, plan, k, pending)
    ensures Queued(plan[..k + 1], pending + [plan[k]]) && Settled(was, index, e, plan, k + 1, pending + [plan[k]])
    ensures Ids(pending + [plan[k]]) == Ids(pending) + [plan[k].0]
    ensures Texts(pending + [plan[k]]) == Texts(pending) + plan[k].1
  {
    IdsHold(plan, k, pending);
    QueuedGrows(plan, k, pending);
    assert Ids(plan)[..k + 1] == Ids(plan)[..k] + [plan[k].0];
    assert (pending + [plan[k]])[..|pending|] == pending;
    assert Ids(pending + [plan[k]]) == Ids(pending) + [plan[k].0];
    forall m | 0 <= m < |pending| ensures pending[m].0 != plan[k].0 { assert Ids(pending)[m] == pending[m].0; }
    assert plan[k] in plan[..k + 1];
  }

  lemma SettledIsPart<V>(was: Index<V>, index: Index<V>, e: string -> V, plan: Plan, k: nat, pending: Plan)
    requires k <= |plan| && Settled(was, index, e, plan, k, pending) && DistinctIds(plan)
    ensures Finished(was, index, e, plan)
  {
  }

  lemma FlushedPart<V>(was: Index<V>, index: Index<V>, index': Index<V>, e: string -> V, plan: Plan, k: nat, pending: Plan)
    requires DistinctIds(plan) && k <= |plan| && Queued(plan[..k], pending) && Settled(was, index, e, plan, k, pending)
    requires forall m :: 0 <= m < |pending| ==> Untouched(index, index', pending[m].0) || Indexed(index', e, pending[m].0, pending[m].1)
    requires forall id :: id !in Ids(pending) ==> Untouched(index, index', id)
    ensures Finished(was, index', e, plan)
  {
    IdsHold(plan, k, pending);
    SettledIsPart(was, index, e, plan, k, pending);
    forall j | 0 <= j < |plan| ensures Untouched(was, index', plan[j].0) || Indexed(index', e, plan[j].0, plan[j].1) {
      if plan[j].0 in Ids(pending) {
        var m :| 0 <= m < |pending| && Ids(pending)[m] == plan[j].0;
        assert pending[m] in pending;
      }
    }
  }

  lemma FlushedAll<V>(was: Index<V>, index: Index<V>, index': Index<V>, e: string -> V, plan: Plan, k: nat, pending: Plan)
    requires DistinctIds(plan) && k <= |plan| && Queued(plan[..k], pending) && Settled(was, index, e, plan, k, pending)
    requires forall m :: 0 <= m < |pending| ==> Indexed(index', e, pending[m].0, pending[m].1)
    requires forall id :: id !in Ids(pending) ==> Untouched(index, index', id)
    ensures Settled(was, index', e, plan, k, [])
  {
    IdsHold(plan, k, pending);
    forall j | 0 <= j < k ensures Indexed(index', e, plan[j].0, plan[j].1) {
      if plan[j].0 in Ids(pending) {
        var m :| 0 <= m < |pending| && Ids(pending)[m] == plan[j].0;
        assert pending[m] in pending;
      }
    }
    assert Ids([]) == [];
  }

  /** Each message before `k` that is not waiting has been rewritten once. */
  ghost predicate Rewritten(was: seq<ItemId>, writes: seq<ItemId>, plan: Plan, k: nat, pending: Plan)
    requires k <= |plan|
  {
    multiset(writes) + multiset(Ids(pending)) == multiset(was) + multiset(Ids(plan[..k]))
  }

  lemma Balance(a: multiset<ItemId>, b: multiset<ItemId>, c: multiset<ItemId>, d: multiset<ItemId>, x: multiset<ItemId>)
    requires a + b == c + d
    ensures (a + x) + b == c + (d + x) && a + (b + x) == c + (d + x)
  {
    forall i: ItemId ensures ((a + x) + b)[i] == (c + (d + x))[i] && (a + (b + x))[i] == (c + (d + x))[i] {
      assert (a + b)[i] == (c + d)[i];
    }
  }

  lemma RewroteOne(was: seq<ItemId>, writes: seq<ItemId>, plan: Plan, k: nat, pending: Plan)
    requires k < |plan| && Rewritten(was, writes, plan, k, pending)
    ensures Rewritten(was, writes + [plan[k].0], plan, k + 1, pending)
  {
    IdsNext(plan, k);
    assert multiset(Ids(plan[..k]) + [plan[k].0]) == multiset(Ids(plan[..k])) + multiset{plan[k].0};
    assert multiset(writes + [plan[k].0]) == multiset(writes) + multiset{plan[k].0};
    Balance(multiset(writes), multiset(Ids(pending)), multiset(was), multiset(Ids(plan[..k])), multiset{plan[k].0});
  }

  lemma RewroteQueue(was: seq<ItemId>, writes: seq<ItemId>, plan: Plan, k: nat, pending: Plan)
    requires k <= |plan| && Rewritten(was, writes, plan, k, pending)
    ensures Rewritten(was, writes + Ids(pending), plan, k, [])
  {
  }

  lemma RewriteLater(was: seq<ItemId>, writes: seq<ItemId>, plan: Plan, k: nat, pending: Plan)
    requires k < |plan| && Rewritten(was, writes, plan, k, pending)
    ensures Rewritten(was, writes, plan, k + 1, pending + [plan[k]])
  {
    IdsNext(plan, k);
    assert Ids(pending + [plan[k]]) == Ids(pending) + [plan[k].0];
    assert multiset(Ids(plan[..k]) + [plan[k].0]) == multiset(Ids(plan[..k])) + multiset{plan[k].0};
    assert multiset(Ids(pending) + [plan[k].0]) == multiset(Ids(pending)) + multiset{plan[k].0};
    Balance(multiset(writes), multiset(Ids(pending)), multiset(was), multiset(Ids(plan[..k])), multiset{plan[k].0});
  }

  lemma AllRewritten(was: seq<ItemId>, writes: seq<ItemId>, plan: Plan)
    requires Rewritten(was, writes, plan, |plan|, [])
    ensures multiset(writes) == multiset(was) + multiset(Ids(plan))
  {
    assert Ids([]) == [] && plan[..|plan|] == plan;
  }

  lemma AllSettled<V>(was: Index<V>, index: Index<V>, e: string -> V, plan: Plan)
    requires DistinctIds(plan) && Settled(was, index, e, plan, |plan|, [])
    ensures forall k :: 0 <= k < |plan| ==> Indexed(index, e, plan[k].0, plan[k].1)
    ensures Finished(was, index, e, plan)
  {
  }

  lemma JoinRequests(requests: seq<Plan>, pending: Plan)
    ensures Concat(requests + [pending]) == Concat(requests) + pending
  {
  }

  lemma WordyNext(plan: Plan, k: nat)
    requires k < |plan|
    ensures Wordy(plan[..k + 1]) == if plan[k].1 == [] then Wordy(plan[..k]) else Wordy(plan[..k]) + [plan[k]]
  {
    assert plan[..k + 1][..k] == plan[..k];
  }

  lemma TextsAt(plan: Plan, k: nat)
    requires k < |plan|
    ensures Texts(plan[..k + 1]) == Texts(plan[..k]) + plan[k].1
    ensures |Texts(plan[..k])| + |plan[k].1| <= |Texts(plan)|
    ensures Texts(plan)[|Texts(plan[..k])|..|Texts(plan[..k])| + |plan[k].1|] == plan[k].1
  {
    assert plan[..k + 1][..k] == plan[..k];
    TextsPrefix(plan, k + 1);
  }

  lemma NoTexts(plan: Plan)
    ensures Texts(plan[..0]) == []
  {
  }

  /** A message's window of the joined answer is its own answer. */
  lemma WindowIsAlone<V>(e: string -> V, plan: Plan, k: nat)
    requires k < |plan|
    ensures |Texts(plan[..k])| + |plan[k].1| <= |Texts(plan)|
    ensures var from := |Texts(plan[..k])|;
            Zip(plan[k].1, MapAll(e, Texts(plan))[from..from + |plan[k].1|]) == Alone(e, plan[k].1)
  {
    TextsAt(plan, k);
    var from, texts, chunks := |Texts(plan[..k])|, Texts(plan), plan[k].1;
    hide Texts;
    forall j | 0 <= j < |chunks| ensures MapAll(e, texts)[from..from + |chunks|][j] == e(chunks[j]) {
      assert texts[from..from + |chunks|][j] == texts[from + j];
    }
  }

  lemma {:induction false} TextsPrefix(plan: Plan, n: nat)
    requires n <= |plan|
    ensures Texts(plan[..n]) <= Texts(plan)
    decreases |plan|
  {
    if n < |plan| {
      TextsPrefix(plan[..|plan| - 1], n);
      assert plan[..|plan| - 1][..n] == plan[..n];
    } else {
      assert plan[..n] == plan;
    }
  }

  lemma IdsNext(plan: Plan, k: nat)
    requires k < |plan|
    ensures Ids(plan[..k + 1]) == Ids(plan[..k]) + [plan[k].0]
    ensures DistinctIds(plan) ==> plan[k].0 !in Ids(plan[..k])
    ensures plan[k].0 in Ids(plan)
  {
    assert Ids(plan)[k] == plan[k].0;
    assert forall j :: 0 <= j < k ==> Ids(plan[..k])[j] == plan[j].0;
  }
}
