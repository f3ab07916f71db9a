/**
 Confirmed execution: a preview mints a token bound to what it showed, and the
 call that echoes the token is let through once.  And the sliding cap on sends.
 */
module Confirm {
  import opened Mail

  /** What a token is bound to, and the whole second it expires at. */
  datatype Payload = Payload(mailbox: string, action: string, target: string, content: string, expires: int)

  /** A token as received.  The signature is ideal: an authentic one was minted. */
  datatype Token = Signed(payload: Payload) | Unsigned

  datatype Call = Call(mailbox: string, action: string, target: string, content: string)

  predicate Binds(p: Payload, c: Call) {
    p.mailbox == c.mailbox && p.action == c.action && p.target == c.target && p.content == c.content
  }

  // ------------------------------------------------------------------- state

  /** One call a token let through, and when the token was spent. */
  datatype Pass = Pass(call: Call, token: Payload, at: int)

  /** `consumed` is the in-process record, signature to expiry; a signature
      stands for its payload. */
  datatype Gate = Gate(minted: set<Payload>, consumed: map<Payload, int>, clock: int, passes: seq<Pass>)

  /** `verifiedAt` and `spentAt` are two readings of the clock. */
  datatype Step =
    | Preview(call: Call, ttl: int, now: int)
    | Confirm(call: Call, token: Token, verifiedAt: int, spentAt: int)

  predicate Enabled(g: Gate, step: Step) {
    match step
    case Preview(_, _, now) => g.clock <= now
    case Confirm(_, token, verifiedAt, spentAt) =>
      g.clock <= verifiedAt <= spentAt && (token.Signed? ==> token.payload in g.minted)
  }

  /** verify_token: the signature, then the whole-second expiry, then the binding. */
  predicate Accepted(c: Call, token: Token, now: int) {
    token.Signed? && TruncSeconds(now) <= token.payload.expires && Binds(token.payload, c)
  }

  /** consume_token prunes what has expired by the exact clock first. */
  function Pruned(consumed: map<Payload, int>, now: int): map<Payload, int> {
    map p | p in consumed && now <= consumed[p] * SECOND :: consumed[p]
  }

  predicate Passes(g: Gate, c: Call, token: Token, verifiedAt: int, spentAt: int) {
    Accepted(c, token, verifiedAt) && token.payload !in Pruned(g.consumed, spentAt)
  }

  function Apply(g: Gate, step: Step): Gate {
    match step
    case Preview(c, ttl, now) =>
      g.(minted := g.minted + {Payload(c.mailbox, c.action, c.target, c.content, TruncSeconds(now) + ttl)}, clock := now)
    case Confirm(c, token, verifiedAt, spentAt) =>
      if !Accepted(c, token, verifiedAt) then g.(clock := spentAt)
      else
        var kept := Pruned(g.consumed, spentAt);
        if token.payload in kept then g.(consumed := kept, clock := spentAt)
        else g.(consumed := kept[token.payload := token.payload.expires], clock := spentAt,
                passes := g.passes + [Pass(c, token.payload, spentAt)])
  }

  // --------------------------------------------------------------- invariant

  ghost predicate Inv(g: Gate) {
    && (forall k :: 0 <= k < |g.passes| ==>
          && g.passes[k].token in g.minted && Binds(g.passes[k].token, g.passes[k].call) && g.passes[k].at <= g.clock
          // a spent token is on record until the clock is past its expiry
          && (g.passes[k].token in g.consumed || g.passes[k].token.expires * SECOND < g.clock))
    && (forall p :: p in g.consumed ==> g.consumed[p] == p.expires)
    && OnlySpentOnRecord(g)
    && (forall j, k :: 0 <= j < k < |g.passes| && g.passes[j].token == g.passes[k].token ==>
          g.passes[k].token.expires * SECOND < g.passes[k].at)
  }

  ghost predicate OnlySpentOnRecord(g: Gate) {
    forall p :: p in g.consumed ==> exists k :: 0 <= k < |g.passes| && g.passes[k].token == p
  }

  lemma RecordKeeps(g: Gate, step: Step)
    requires OnlySpentOnRecord(g)
    ensures OnlySpentOnRecord(Apply(g, step))
  {
    var g' := Apply(g, step);
    forall p | p in g'.consumed ensures exists k :: 0 <= k < |g'.passes| && g'.passes[k].token == p {
      if p in g.consumed {
        var k :| 0 <= k < |g.passes| && g.passes[k].token == p;
        assert g'.passes[k].token == p;
      } else {
        assert g'.passes[|g.passes|].token == p;
      }
    }
  }

  lemma StepKeeps(g: Gate, step: Step)
    requires Inv(g) && Enabled(g, step)
    ensures Inv(Apply(g, step))
  {
    RecordKeeps(g, step);
    hide OnlySpentOnRecord;
  }

  ghost predicate History(gs: seq<Gate>, steps: seq<Step>) {
    && |gs| == |steps| + 1
    && gs[0].minted == {} && gs[0].consumed == map[] && gs[0].passes == []
    && forall k :: 0 <= k < |steps| ==> Enabled(gs[k], steps[k]) && gs[k + 1] == Apply(gs[k], steps[k])
  }

  lemma {:induction false} HistoryKeeps(gs: seq<Gate>, steps: seq<Step>, k: nat)
    requires History(gs, steps) && k < |gs|
    ensures Inv(gs[k])
  {
    if k > 0 {
      HistoryKeeps(gs, steps, k - 1);
      StepKeeps(gs[k - 1], steps[k - 1]);
    }
  }

  lemma {:induction false} MintedByPreview(gs: seq<Gate>, steps: seq<Step>, k: nat, p: Payload)
    requires History(gs, steps) && k < |gs| && p in gs[k].minted
    ensures exists j :: 0 <= j < k && steps[j].Preview? && Binds(p, steps[j].call) &&
                        p.expires == TruncSeconds(steps[j].now) + steps[j].ttl
  {
    if p in gs[k - 1].minted {
      MintedByPreview(gs, steps, k - 1, p);
    } else {
      assert steps[k - 1].Preview?;
    }
  }

  /** Every call let through was previewed: an earlier call without a token
      showed the same mailbox, action, target and content, and minted the token
      used. */
  lemma EveryPassWasPreviewed(gs: seq<Gate>, steps: seq<Step>, k: nat, r: nat)
    requires History(gs, steps) && k < |gs| && r < |gs[k].passes|
    ensures exists j :: 0 <= j < k && steps[j].Preview? && steps[j].call == gs[k].passes[r].call &&
                        gs[k].passes[r].token.expires == TruncSeconds(steps[j].now) + steps[j].ttl
  {
    HistoryKeeps(gs, steps, k);
    MintedByPreview(gs, steps, k, gs[k].passes[r].token);
  }

  /** Up to its expiry a token lets at most one call through, under any
      interleaving of previews, edits, replays and pruning. */
  lemma OnceUpToExpiry(gs: seq<Gate>, steps: seq<Step>, k: nat, i: nat, j: nat)
    requires History(gs, steps) && k < |gs| && i < |gs[k].passes| && j < |gs[k].passes|
    requires gs[k].passes[i].token == gs[k].passes[j].token
    requires gs[k].passes[i].at <= gs[k].passes[i].token.expires * SECOND
    requires gs[k].passes[j].at <= gs[k].passes[j].token.expires * SECOND
    ensures i == j
  {
    HistoryKeeps(gs, steps, k);
  }

  /** After that it is not single use.  A token that was spent passes again
      exactly when the call still binds, the whole second of its expiry has not
      ended when it is verified, and the exact expiry lies behind when it is
      spent: in that last second it can be replayed any number of times. */
  lemma ReplayPassesExactly(g: Gate, r: nat, c: Call, verifiedAt: int, spentAt: int)
    requires Inv(g) && r < |g.passes|
    requires Enabled(g, Confirm(c, Signed(g.passes[r].token), verifiedAt, spentAt))
    ensures var p := g.passes[r].token;
            Passes(g, c, Signed(p), verifiedAt, spentAt) <==>
              Binds(p, c) && TruncSeconds(verifiedAt) <= p.expires && p.expires * SECOND < spentAt
  {
  }

  /** Which tokens pass at all: one that was minted for this call and has not
      expired by the whole second, and that was never spent, or whose exact
      expiry is past. */
  lemma PassesExactly(g: Gate, p: Payload, c: Call, verifiedAt: int, spentAt: int)
    requires Inv(g) && Enabled(g, Confirm(c, Signed(p), verifiedAt, spentAt))
    ensures Passes(g, c, Signed(p), verifiedAt, spentAt) <==>
              && p.mailbox == c.mailbox && p.action == c.action && p.target == c.target && p.content == c.content
              && TruncSeconds(verifiedAt) <= p.expires
              && (p.expires * SECOND < spentAt || forall k :: 0 <= k < |g.passes| ==> g.passes[k].token != p)
    ensures !Passes(g, c, Unsigned, verifiedAt, spentAt)
  {
  }

  const CALL := Call("me", "send", "-", "hello")

  ghost predicate Reachable(g: Gate) {
    exists gs: seq<Gate>, steps: seq<Step> :: History(gs, steps) && gs[|steps|] == g
  }

  lemma Continue(g: Gate, step: Step, g': Gate)
    requires Reachable(g) && Enabled(g, step) && g' == Apply(g, step)
    ensures Reachable(g')
  {
    hide Enabled, Apply;
    var gs: seq<Gate>, steps: seq<Step> :| History(gs, steps) && gs[|steps|] == g;
    assert History(gs + [g'], steps + [step]);
  }

  lemma FreshIsReachable(g: Gate)
    requires g.minted == {} && g.consumed == map[] && g.passes == []
    ensures Reachable(g)
  {
    var none: seq<Step> := [];
    assert History([g], none) && [g][|none|] == g;
  }

  /** A token spent before its expiry is spent again half a second after it. */
  lemma ASpentTokenPassesAgain()
    ensures exists g: Gate :: Reachable(g) && |g.passes| == 2 &&
              g.passes[0].token == g.passes[1].token && g.passes[0].at < g.passes[1].at
  {
    var p := Payload("me", "send", "-", "hello", 1);
    var late := SECOND + SECOND / 2;
    var g0 := Gate({}, map[], 0, []);
    var g1 := Gate({p}, map[], 0, []);
    var g2 := Gate({p}, map[p := 1], 0, [Pass(CALL, p, 0)]);
    var g3 := Gate({p}, map[p := 1], late, [Pass(CALL, p, 0), Pass(CALL, p, late)]);
    SampleSteps(p, late, g0, g1, g2, g3);
    FreshIsReachable(g0);
    hide Apply, Enabled, Reachable;
    Continue(g0, Preview(CALL, 1, 0), g1);
    Continue(g1, Confirm(CALL, Signed(p), 0, 0), g2);
    Continue(g2, Confirm(CALL, Signed(p), late, late), g3);
  }

  lemma SampleSteps(p: Payload, late: int, g0: Gate, g1: Gate, g2: Gate, g3: Gate)
    requires p == Payload("me", "send", "-", "hello", 1) && late == SECOND + SECOND / 2
    requires g0 == Gate({}, map[], 0, []) && g1 == Gate({p}, map[], 0, [])
    requires g2 == Gate({p}, map[p := 1], 0, [Pass(CALL, p, 0)])
    requires g3 == Gate({p}, map[p := 1], late, [Pass(CALL, p, 0), Pass(CALL, p, late)])
    ensures var s := Preview(CALL, 1, 0); Enabled(g0, s) && Apply(g0, s) == g1
    ensures var s := Confirm(CALL, Signed(p), 0, 0); Enabled(g1, s) && Apply(g1, s) == g2
    ensures var s := Confirm(CALL, Signed(p), late, late); Enabled(g2, s) && Apply(g2, s) == g3
  {
    assert Pruned(map[], 0) == map[];
    assert Pruned(g2.consumed, late) == map[];
  }

  // ------------------------------------------------------------- the gate

  datatype Outcome = Previewed(token: Payload) | Rejected | Proceed

  class ConfirmGate {
    var consumed: map<Payload, int>
    var passes: seq<Pass>
    ghost var minted: set<Payload>
    ghost var clock: int

    ghost function Contents(): Gate
      reads this
    {
      Gate(minted, consumed, clock, passes)
    }

    constructor (now: int)
      ensures Contents() == Gate({}, map[], now, []) && Inv(Contents())
    {
      consumed, passes, minted, clock := map[], [], {}, now;
    }

    /** Prune what has expired, then record the signature unless it is there. */
    method ConsumeToken(p: Payload, now: int) returns (first: bool)
      modifies `consumed
      ensures first <==> p !in Pruned(old(consumed), now)
      ensures consumed == if first then Pruned(old(consumed), now)[p := p.expires] else Pruned(old(consumed), now)
    {
      consumed := map q | q in consumed && !(consumed[q] * SECOND < now) :: consumed[q];
      if p in consumed { return false; }
      consumed, first := consumed[p := p.expires], true;
    }

    /** A call that needs confirming: without a token it only previews; with
        one it may proceed exactly when the token passes, and that spends it. */
    method Check(call: Call, token: Option<Token>, ttl: int, now: int, spentAt: int) returns (outcome: Outcome)
      requires Inv(Contents()) && clock <= now <= spentAt
      requires token.Some? && token.value.Signed? ==> token.value.payload in minted
      modifies this
      ensures Inv(Contents())
      ensures token.None? ==>
                && Contents() == Apply(old(Contents()), Preview(call, ttl, now)) && passes == old(passes)
                && outcome == Previewed(Payload(call.mailbox, call.action, call.target, call.content, TruncSeconds(now) + ttl))
      ensures token.Some? ==>
                && Contents() == Apply(old(Contents()), Confirm(call, token.value, now, spentAt))
                && (outcome.Proceed? <==> old(Passes(Contents(), call, token.value, now, spentAt)))
                && (outcome.Proceed? <==> passes != old(passes)) && !outcome.Previewed?
    {
      hide Inv;
      if token.None? {
        StepKeeps(Contents(), Preview(call, ttl, now));
        var p := Payload(call.mailbox, call.action, call.target, call.content, TruncSeconds(now) + ttl);
        minted, clock := minted + {p}, now;
        return Previewed(p);
      }
      StepKeeps(Contents(), Confirm(call, token.value, now, spentAt));
      clock := spentAt;
      if !Accepted(call, token.value, now) { return Rejected; }
      var first := ConsumeToken(token.value.payload, spentAt);
      if !first { return Rejected; }
      passes := passes + [Pass(call, token.value.payload, spentAt)];
      outcome := Proceed;
    }
  }

  // ----------------------------------------------------------- the send cap

  const HOUR_WINDOW := 3600 * SECOND

  /** What is still in the deque is the newest part of the history, and
      everything dropped from it is more than an hour old. */
  ghost predicate Remembers(times: seq<int>, history: seq<int>, last: int) {
    && |times| <= |history| && times == history[|history| - |times|..]
    && Ascending(history, last)
    && (forall k :: 0 <= k < |history| - |times| ==> last - history[k] > HOUR_WINDOW)
  }

  ghost predicate Ascending(history: seq<int>, last: int) {
    && (forall j, k :: 0 <= j < k < |history| ==> history[j] <= history[k])
    && (history != [] ==> history[|history| - 1] <= last)
  }

  lemma TimePasses(times: seq<int>, history: seq<int>, last: int, now: int)
    requires Remembers(times, history, last) && last <= now
    ensures Remembers(times, history, now)
  {
  }

  lemma OldestDrops(times: seq<int>, history: seq<int>, now: int)
    requires Remembers(times, history, now) && times != [] && now - times[0] > HOUR_WINDOW
    ensures Remembers(times[1..], history, now)
  {
  }

  /** How many are in the deque decides how old the one `cap` back is. */
  lemma DequeDecides(times: seq<int>, history: seq<int>, now: int, cap: int)
    requires 0 < cap && Remembers(times, history, now) && (times != [] ==> now - times[0] <= HOUR_WINDOW)
    ensures |times| < cap <==> |history| < cap || now - history[|history| - cap] > HOUR_WINDOW
  {
  }

  lemma OneIsRemembered(times: seq<int>, history: seq<int>, now: int)
    requires Remembers(times, history, now)
    ensures Remembers(times + [now], history + [now], now)
  {
  }

  /** The deque of recent sends; `history` is every call that ever passed. */
  class SendCap {
    const cap: int
    var times: seq<int>
    ghost var history: seq<int>
    ghost var last: int

    ghost predicate Valid()
      reads this
    {
      Remembers(times, history, last) && (cap > 0 ==> Spaced(history, cap))
    }

    constructor (cap: int, now: int)
      ensures Valid() && this.cap == cap && history == [] && last == now
    {
      this.cap, times, history, last := cap, [], [], now;
    }

    /** The guard refuses exactly when the last `cap` passes all fell in the
        hour before now; otherwise the call passes and is remembered. */
    method Guard(now: int) returns (passed: bool)
      requires Valid() && last <= now
      modifies this
      ensures Valid() && last == now
      ensures passed <==> cap <= 0 || |old(history)| < cap || now - old(history)[|old(history)| - cap] > HOUR_WINDOW
      ensures history == if passed && cap > 0 then old(history) + [now] else old(history)
    {
      hide Remembers, Spaced;
      TimePasses(times, history, last, now);
      last := now;
      if cap <= 0 { return true; }
      while times != [] && now - times[0] > HOUR_WINDOW
        invariant Remembers(times, history, now) && history == old(history) && last == now
        decreases |times|
      {
        OldestDrops(times, history, now);
        times := times[1..];
      }
      DequeDecides(times, history, now, cap);
      if |times| >= cap { return false; }
      SpacedGrows(history, cap, now);
      OneIsRemembered(times, history, now);
      times := times + [now];
      history := history + [now];
      passed := true;
    }
  }

  /** Any `cap` passes and the one after them span more than an hour. */
  ghost predicate Spaced(history: seq<int>, cap: int)
    requires cap > 0
  {
    forall k :: 0 <= k && k + cap < |history| ==> history[k + cap] - history[k] > HOUR_WINDOW
  }

  lemma SpacedGrows(history: seq<int>, cap: int, now: int)
    requires cap > 0 && Spaced(history, cap)
    requires |history| >= cap ==> now - history[|history| - cap] > HOUR_WINDOW
    ensures Spaced(history + [now], cap)
  {
  }

  /** The passes inside a window, counted over the whole history. */
  function InWindow(history: seq<int>, from: int): nat {
    if history == [] then 0
    else
      var last := history[|history| - 1];
      InWindow(history[..|history| - 1], from) + if from <= last <= from + HOUR_WINDOW then 1 else 0
  }

  /** The cap holds of every hour there is, not only of the current one. */
  lemma EveryHourIsCapped(history: seq<int>, cap: int, from: int)
    requires cap > 0 && Spaced(history, cap)
    requires forall j, k :: 0 <= j <= k < |history| ==> history[j] <= history[k]
    ensures InWindow(history, from) <= cap
    ensures |set k | 0 <= k < |history| && from <= history[k] <= from + 3600 * SECOND| <= cap
  {
    InWindowCounts(history, from);
    var a := WindowIsARun(history, from);
    assert a + cap < |history| ==> history[a + cap] - history[a] > HOUR_WINDOW;
  }

  lemma {:induction false} InWindowCounts(history: seq<int>, from: int)
    ensures InWindow(history, from) == |set k | 0 <= k < |history| && from <= history[k] <= from + 3600 * SECOND|
  {
    var all := set k | 0 <= k < |history| && from <= history[k] <= from + 3600 * SECOND;
    if history == [] {
      assert all == {};
    } else {
      var front, n := history[..|history| - 1], |history| - 1;
      InWindowCounts(front, from);
      var some := set k | 0 <= k < |front| && from <= front[k] <= from + 3600 * SECOND;
      assert all == if from <= history[n] <= from + 3600 * SECOND then some + {n} else some;
    }
  }

  lemma {:induction false} NothingInWindow(history: seq<int>, from: int)
    requires forall k :: 0 <= k < |history| ==> history[k] < from
    ensures InWindow(history, from) == 0
  {
    if history != [] { NothingInWindow(history[..|history| - 1], from); }
  }

  lemma {:induction false} WindowIsARun(history: seq<int>, from: int) returns (a: nat)
    requires forall j, k :: 0 <= j <= k < |history| ==> history[j] <= history[k]
    ensures a + InWindow(history, from) <= |history|
    ensures forall k :: a <= k < a + InWindow(history, from) ==> from <= history[k] <= from + HOUR_WINDOW
    ensures forall k :: 0 <= k < a ==> history[k] < from
    ensures forall k :: a + InWindow(history, from) <= k < |history| ==> from + HOUR_WINDOW < history[k]
  {
    if history == [] {
      a := 0;
    } else {
      var front, last := history[..|history| - 1], history[|history| - 1];
      a := WindowIsARun(front, from);
      if last < from {
        assert forall k :: 0 <= k < |history| ==> history[k] <= history[|front|];
        NothingInWindow(history, from);
        a := |history|;
      }
    }
  }
}
