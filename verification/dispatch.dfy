/**
 The order of the gates in front of a tool's handler: the standing rails, the
 confirm gate, the send cap, and the translation of aliases.  A token or a place
 under the cap is spent where its gate stands, whatever the later gates say.
 */
module Dispatch {
  import opened Mail
  import opened Confirm

  /** What the rails answer for one call, before anything is spent.  `drafted`
      is whether the preview could be fetched and its recipients pass. */
  datatype Rails = Rails(sendEnabled: bool, tierAllows: bool, circuitOpen: bool, warm: bool, recipientsPass: bool,
                         drafted: bool)

  /** One call of a tool; `resolves` is whether every alias in it is known. */
  datatype Request = Request(call: Call, sends: bool, needsToken: bool, token: Option<Token>, ttl: int, rails: Rails,
                             resolves: bool)

  /** Readings of the clock: verifying the token, spending it, the send guard. */
  datatype Times = Times(verified: int, spent: int, guarded: int)

  datatype Refusal = KillSwitch | TierBlocked | CircuitOpen | StillWarming | RecipientBlocked | NotPreviewed |
                     TokenRejected | RateCapped | UnknownAlias

  datatype Reply = Shown(token: Payload) | Refused(why: Refusal) | Ran

  /** One run of the handler: which pass of the confirm gate and which place
      under the send cap paid for it. */
  datatype Handled = Handled(request: Request, pass: Option<nat>, slot: Option<nat>)

  datatype Desk = Desk(gate: Gate, cap: int, sent: seq<int>, clock: int, runs: seq<Handled>)

  /** The gates that cost nothing, in order. */
  function FrontDoor(r: Request): Option<Refusal> {
    if r.sends && !r.rails.sendEnabled then Some(KillSwitch)
    else if !r.rails.tierAllows then Some(TierBlocked)
    else if r.rails.circuitOpen then Some(CircuitOpen)
    else if !r.rails.warm then Some(StillWarming)
    else if !r.rails.recipientsPass then Some(RecipientBlocked)
    else if r.needsToken && !r.rails.drafted then Some(NotPreviewed)
    else None
  }

  predicate HasRoom(sent: seq<int>, cap: int, now: int) {
    cap <= 0 || |sent| < cap || now - sent[|sent| - cap] > HOUR_WINDOW
  }

  predicate TokenPasses(d: Desk, r: Request, at: Times) {
    r.needsToken ==> r.token.Some? && Passes(d.gate, r.call, r.token.value, at.verified, at.spent)
  }

  /** The desk after the confirm gate. */
  function Gated(d: Desk, r: Request, at: Times): Desk {
    if !r.needsToken then d
    else if r.token.None? then d.(gate := Apply(d.gate, Confirm.Preview(r.call, r.ttl, at.verified)))
    else d.(gate := Apply(d.gate, Confirm.Confirm(r.call, r.token.value, at.verified, at.spent)))
  }

  function Counted(d: Desk, r: Request): bool {
    r.sends && d.cap > 0
  }

  /** The desk after the send guard, for a call that reached it. */
  function Guarded(d: Desk, r: Request, at: Times): Desk {
    if Counted(d, r) && HasRoom(d.sent, d.cap, at.guarded) then d.(sent := d.sent + [at.guarded]) else d
  }

  function Verdict(d: Desk, r: Request, at: Times): Reply {
    if FrontDoor(r).Some? then Refused(FrontDoor(r).value)
    else if r.needsToken && r.token.None? then
      Shown(Payload(r.call.mailbox, r.call.action, r.call.target, r.call.content, TruncSeconds(at.verified) + r.ttl))
    else if !TokenPasses(d, r, at) then Refused(TokenRejected)
    else if Counted(d, r) && !HasRoom(d.sent, d.cap, at.guarded) then Refused(RateCapped)
    else if !r.resolves then Refused(UnknownAlias)
    else Ran
  }

  function Dispatched(d: Desk, r: Request, at: Times): Desk {
    if FrontDoor(r).Some? then d.(clock := at.guarded)
    else
      var gated := Gated(d, r, at).(clock := at.guarded);
      if (r.needsToken && r.token.None?) || !TokenPasses(d, r, at) then gated
      else
        var guarded := Guarded(gated, r, at);
        if Verdict(d, r, at) != Ran then guarded
        else guarded.(runs := d.runs + [Handled(r, if r.needsToken then Some(|d.gate.passes|) else None,
                                                   if Counted(d, r) then Some(|d.sent|) else None)])
  }

  predicate Possible(d: Desk, r: Request, at: Times) {
    && d.clock <= at.verified <= at.spent <= at.guarded
    && (r.token.Some? && r.token.value.Signed? ==> r.token.value.payload in d.gate.minted)
  }

  // --------------------------------------------------------------- invariant

  /** Every run is paid for, and no two by the same pass or the same place. */
  ghost predicate PaidFor(d: Desk) {
    && (forall k :: 0 <= k < |d.runs| ==>
          && (d.runs[k].request.needsToken ==> d.runs[k].pass.Some?)
          && (d.runs[k].request.sends && d.cap > 0 ==> d.runs[k].slot.Some?)
          && (d.runs[k].pass.Some? ==>
                && d.runs[k].pass.value < |d.gate.passes|
                && d.gate.passes[d.runs[k].pass.value].call == d.runs[k].request.call)
          && (d.runs[k].slot.Some? ==> d.runs[k].slot.value < |d.sent|))
    && (forall j, k :: 0 <= j < k < |d.runs| && d.runs[j].pass.Some? && d.runs[k].pass.Some? ==>
          d.runs[j].pass.value < d.runs[k].pass.value)
    && (forall j, k :: 0 <= j < k < |d.runs| && d.runs[j].slot.Some? && d.runs[k].slot.Some? ==>
          d.runs[j].slot.value < d.runs[k].slot.value)
  }

  ghost predicate CapKept(d: Desk) {
    Ascending(d.sent, d.clock) && (d.cap > 0 ==> Spaced(d.sent, d.cap))
  }

  ghost predicate DeskInv(d: Desk) {
    Inv(d.gate) && d.gate.clock <= d.clock && CapKept(d) && PaidFor(d)
  }

  lemma GatedKeeps(d: Desk, r: Request, at: Times)
    requires Inv(d.gate) && d.gate.clock <= d.clock && Possible(d, r, at)
    ensures Inv(Gated(d, r, at).gate) && Gated(d, r, at).gate.clock <= at.guarded
    ensures var ps, ps' := d.gate.passes, Gated(d, r, at).gate.passes;
            if r.needsToken && TokenPasses(d, r, at) then ps' == ps + [Pass(r.call, r.token.value.payload, at.spent)]
            else ps' == ps
  {
    if r.needsToken {
      if r.token.None? {
        Confirm.StepKeeps(d.gate, Confirm.Preview(r.call, r.ttl, at.verified));
      } else {
        Confirm.StepKeeps(d.gate, Confirm.Confirm(r.call, r.token.value, at.verified, at.spent));
      }
    }
    hide Inv;
  }

  lemma GuardedKeeps(d: Desk, r: Request, at: Times)
    requires CapKept(d) && d.clock <= at.guarded
    ensures CapKept(Guarded(d, r, at).(clock := at.guarded))
  {
    if d.cap > 0 && HasRoom(d.sent, d.cap, at.guarded) { SpacedGrows(d.sent, d.cap, at.guarded); }
    hide Spaced;
  }

  lemma TimePassesAtTheDesk(d: Desk, now: int)
    requires CapKept(d) && d.clock <= now
    ensures CapKept(d.(clock := now))
  {
    hide Spaced;
  }

  lemma DispatchKeeps(d: Desk, r: Request, at: Times)
    requires DeskInv(d) && Possible(d, r, at)
    ensures DeskInv(Dispatched(d, r, at))
  {
    GatedKeeps(d, r, at);
    GuardedKeeps(d, r, at);
    TimePassesAtTheDesk(d, at.guarded);
    PaymentsKept(d, r, at);
    hide Inv, CapKept, PaidFor, Passes, HasRoom, Confirm.Apply;
  }

  lemma PaymentsKept(d: Desk, r: Request, at: Times)
    requires DeskInv(d) && Possible(d, r, at)
    ensures PaidFor(Dispatched(d, r, at))
  {
    GatedKeeps(d, r, at);
    hide Inv, CapKept, TokenPasses, FrontDoor, HasRoom, Confirm.Apply, Gated, PaidFor;
    var d' := Dispatched(d, r, at);
    var before := d'.(runs := d.runs);
    MorePayments(d, before);
    if d'.runs != d.runs {
      OneMoreRun(d, before, Handled(r, if r.needsToken then Some(|d.gate.passes|) else None,
                                    if Counted(d, r) then Some(|d.sent|) else None));
    }
  }

  lemma MorePayments(d: Desk, d': Desk)
    requires PaidFor(d) && d.gate.passes <= d'.gate.passes && d.sent <= d'.sent && d'.runs == d.runs && d'.cap == d.cap
    ensures PaidFor(d')
  {
  }

  /** A run paid for by a pass and a place that are new. */
  lemma OneMoreRun(d: Desk, d': Desk, h: Handled)
    requires PaidFor(d) && PaidFor(d') && d'.runs == d.runs && d'.cap == d.cap
    requires h.pass.Some? <==> h.request.needsToken
    requires h.pass.Some? ==> h.pass.value == |d.gate.passes| < |d'.gate.passes| &&
                              d'.gate.passes[h.pass.value].call == h.request.call
    requires h.slot.Some? <==> Counted(d, h.request)
    requires h.slot.Some? ==> h.slot.value == |d.sent| < |d'.sent|
    ensures PaidFor(d'.(runs := d.runs + [h]))
  {
  }

  // --------------------------------------------------------------- whole runs

  ghost predicate Served(ds: seq<Desk>, rs: seq<(Request, Times)>) {
    && |ds| == |rs| + 1
    && ds[0].gate.minted == {} && ds[0].gate.consumed == map[] && ds[0].gate.passes == [] && ds[0].gate.clock <= ds[0].clock
    && ds[0].sent == [] && ds[0].runs == []
    && forall k :: 0 <= k < |rs| ==> Possible(ds[k], rs[k].0, rs[k].1) && ds[k + 1] == Dispatched(ds[k], rs[k].0, rs[k].1)
  }

  lemma {:induction false} ServedKeeps(ds: seq<Desk>, rs: seq<(Request, Times)>, k: nat)
    requires Served(ds, rs) && k < |ds|
    ensures DeskInv(ds[k])
  {
    if k > 0 {
      ServedKeeps(ds, rs, k - 1);
      DispatchKeeps(ds[k - 1], rs[k - 1].0, rs[k - 1].1);
    }
  }

  /** A call that was answered with a preview, and the token it minted. */
  ghost predicate PreviewedBy(r: Request, at: Times, p: Payload) {
    && FrontDoor(r).None? && r.needsToken && r.token.None? && Binds(p, r.call)
    && p.expires == TruncSeconds(at.verified) + r.ttl
  }

  lemma {:induction false} MintedByRequest(ds: seq<Desk>, rs: seq<(Request, Times)>, k: nat, p: Payload)
    requires Served(ds, rs) && k < |ds| && p in ds[k].gate.minted
    ensures exists j :: 0 <= j < k && PreviewedBy(rs[j].0, rs[j].1, p)
  {
    if p in ds[k - 1].gate.minted {
      MintedByRequest(ds, rs, k - 1, p);
    } else {
      assert PreviewedBy(rs[k - 1].0, rs[k - 1].1, p);
    }
  }

  /** Every run of a handler that needs confirming goes back to an earlier call,
      answered with a preview of the same mailbox, action, target and content,
      whose token it spent; and every run of a send took a place under the cap.
      No two runs share a pass or a place. */
  lemma EveryRunIsPaidFor(ds: seq<Desk>, rs: seq<(Request, Times)>, k: nat, i: nat)
    requires Served(ds, rs) && k < |ds| && i < |ds[k].runs|
    ensures var d := ds[k]; var run := d.runs[i];
            && (run.request.needsToken ==>
                  && run.pass.Some? && run.pass.value < |d.gate.passes|
                  && d.gate.passes[run.pass.value].call == run.request.call
                  && exists j :: 0 <= j < k && PreviewedBy(rs[j].0, rs[j].1, d.gate.passes[run.pass.value].token)
                                 && rs[j].0.call == run.request.call)
            && (run.request.sends && d.cap > 0 ==> run.slot.Some? && run.slot.value < |d.sent|)
            && (forall j :: 0 <= j < |d.runs| && j != i ==>
                  && (run.pass.Some? ==> d.runs[j].pass != run.pass)
                  && (run.slot.Some? ==> d.runs[j].slot != run.slot))
  {
    ServedKeeps(ds, rs, k);
    var d := ds[k];
    if d.runs[i].request.needsToken {
      MintedByRequest(ds, rs, k, d.gate.passes[d.runs[i].pass.value].token);
    }
  }

  /** Up to its expiry a token gets the handler run at most once. */
  lemma OneRunPerToken(ds: seq<Desk>, rs: seq<(Request, Times)>, k: nat, i: nat, j: nat)
    requires Served(ds, rs) && k < |ds| && i < |ds[k].runs| && j < |ds[k].runs|
    requires ds[k].runs[i].request.needsToken && ds[k].runs[j].request.needsToken
    requires var ps := ds[k].gate.passes;
             && ds[k].runs[i].pass.Some? && ds[k].runs[i].pass.value < |ps|
             && ds[k].runs[j].pass.Some? && ds[k].runs[j].pass.value < |ps|
             && var a, b := ps[ds[k].runs[i].pass.value], ps[ds[k].runs[j].pass.value];
             a.token == b.token && a.at <= a.token.expires * SECOND && b.at <= b.token.expires * SECOND
    ensures i == j
  {
    ServedKeeps(ds, rs, k);
  }

  /** The sends among the handler runs, inside an hour's window. */
  function SendsRun(d: Desk, n: nat, from: int): nat
    requires n <= |d.runs| && forall k :: 0 <= k < n && d.runs[k].slot.Some? ==> d.runs[k].slot.value < |d.sent|
  {
    if n == 0 then 0
    else
      var slot := d.runs[n - 1].slot;
      SendsRun(d, n - 1, from) + if slot.Some? && from <= d.sent[slot.value] <= from + HOUR_WINDOW then 1 else 0
  }

  /** However calls are refused on the way, no hour sees more than `cap` sends run. */
  lemma SendsAreCapped(ds: seq<Desk>, rs: seq<(Request, Times)>, k: nat, from: int)
    requires Served(ds, rs) && k < |ds| && ds[k].cap > 0
    ensures forall i :: 0 <= i < |ds[k].runs| && ds[k].runs[i].slot.Some? ==> ds[k].runs[i].slot.value < |ds[k].sent|
    ensures var d := ds[k];
            |set i | 0 <= i < |d.runs| && d.runs[i].slot.Some? && from <= d.sent[d.runs[i].slot.value] <= from + 3600 * SECOND| <= d.cap
  {
    ServedKeeps(ds, rs, k);
    var d := ds[k];
    SlotsIncrease(d);
    SendsAreCounted(d, |d.runs|, from);
    assert (set i | 0 <= i < |d.runs| && d.runs[i].slot.Some? && from <= d.sent[d.runs[i].slot.value] <= from + 3600 * SECOND) ==
           set i | 0 <= i < |d.runs| && SentIn(d, i, from);
    RunsAreSlots(d, |d.runs|, |d.sent|, from);
    assert d.sent[..|d.sent|] == d.sent;
    EveryHourIsCapped(d.sent, d.cap, from);
  }

  /** One run of a send in the hour from `from` on. */
  predicate SentIn(d: Desk, k: nat, from: int) {
    && k < |d.runs| && d.runs[k].slot.Some? && d.runs[k].slot.value < |d.sent|
    && from <= d.sent[d.runs[k].slot.value] <= from + 3600 * SECOND
  }

  lemma {:induction false} SendsAreCounted(d: Desk, n: nat, from: int)
    requires n <= |d.runs| && forall k :: 0 <= k < n && d.runs[k].slot.Some? ==> d.runs[k].slot.value < |d.sent|
    ensures SendsRun(d, n, from) == |set k | 0 <= k < n && SentIn(d, k, from)|
  {
    if n > 0 {
      SendsAreCounted(d, n - 1, from);
      var one := SentIn(d, n - 1, from);
      assert SendsRun(d, n, from) == SendsRun(d, n - 1, from) + if one then 1 else 0;
      hide SentIn, SendsRun;
      var some, all := (set k | 0 <= k < n - 1 && SentIn(d, k, from)), set k | 0 <= k < n && SentIn(d, k, from);
      assert all == if one then some + {n - 1} else some;
    }
  }

  lemma SlotsIncrease(d: Desk)
    requires PaidFor(d)
    ensures forall k :: 0 <= k < |d.runs| && d.runs[k].slot.Some? ==> d.runs[k].slot.value < |d.sent|
    ensures forall j, k :: 0 <= j < k < |d.runs| && d.runs[j].slot.Some? && d.runs[k].slot.Some? ==>
              d.runs[j].slot.value < d.runs[k].slot.value
  {
  }

  lemma {:induction false} RunsAreSlots(d: Desk, n: nat, m: nat, from: int)
    requires PaidFor(d) && n <= |d.runs| && m <= |d.sent|
    requires forall k :: 0 <= k < n && d.runs[k].slot.Some? ==> d.runs[k].slot.value < m
    ensures SendsRun(d, n, from) <= InWindow(d.sent[..m], from)
  {
    hide PaidFor;
    SlotsIncrease(d);
    if n > 0 {
      var slot := d.runs[n - 1].slot;
      if slot.Some? {
        RunsAreSlots(d, n - 1, slot.value, from);
        assert d.sent[..slot.value + 1][..slot.value] == d.sent[..slot.value];
        WindowGrows(d.sent, slot.value + 1, m, from);
      } else {
        RunsAreSlots(d, n - 1, m, from);
      }
    }
  }

  lemma {:induction false} WindowGrows(history: seq<int>, a: nat, b: nat, from: int)
    requires a <= b <= |history|
    ensures InWindow(history[..a], from) <= InWindow(history[..b], from)
  {
    if a < b {
      WindowGrows(history, a, b - 1, from);
      assert history[..b][..b - 1] == history[..b - 1];
    }
  }

  // --------------------------------------------------- what a refusal costs

  /** When exactly the handler runs, down to the rails, the payload and the clock. */
  lemma RunsExactly(d: Desk, r: Request, at: Times)
    requires Inv(d.gate) && d.gate.clock <= d.clock && Possible(d, r, at)
    ensures Verdict(d, r, at) == Ran <==>
              && (r.sends ==> r.rails.sendEnabled) && r.rails.tierAllows && !r.rails.circuitOpen && r.rails.warm
              && r.rails.recipientsPass && r.resolves
              && (r.needsToken ==>
                    && r.rails.drafted && r.token.Some? && r.token.value.Signed?
                    && var p := r.token.value.payload;
                       && p.mailbox == r.call.mailbox && p.action == r.call.action
                       && p.target == r.call.target && p.content == r.call.content
                       && TruncSeconds(at.verified) <= p.expires
                       && (p.expires * SECOND < at.spent ||
                           forall k :: 0 <= k < |d.gate.passes| ==> d.gate.passes[k].token != p))
              && (r.sends && 0 < d.cap <= |d.sent| ==> at.guarded - d.sent[|d.sent| - d.cap] > 3600 * SECOND)
    ensures Dispatched(d, r, at).runs == if Verdict(d, r, at) == Ran then
                                           d.runs + [Handled(r, if r.needsToken then Some(|d.gate.passes|) else None,
                                                             if r.sends && d.cap > 0 then Some(|d.sent|) else None)]
                                         else d.runs
  {
    hide Passes, Inv;
    if r.token.Some? && r.token.value.Signed? {
      PassesExactly(d.gate, r.token.value.payload, r.call, at.verified, at.spent);
    } else {
      assert r.token.Some? ==> !Passes(d.gate, r.call, r.token.value, at.verified, at.spent) by { UnsignedFails(d.gate, r.call, at); }
    }
  }

  lemma UnsignedFails(g: Gate, c: Call, at: Times)
    ensures !Passes(g, c, Unsigned, at.verified, at.spent)
  {
  }

  /** Which rail refuses: the first closed one, in this order, and none while
      all stand open; the switch and the preview matter only to calls that send
      or need a token. */
  lemma RailsRefuseExactly(d: Desk, r: Request, at: Times)
    ensures var v, rails := Verdict(d, r, at), r.rails;
            && (v == Refused(KillSwitch) <==> r.sends && !rails.sendEnabled)
            && (v == Refused(TierBlocked) <==> (r.sends ==> rails.sendEnabled) && !rails.tierAllows)
            && (v == Refused(CircuitOpen) <==> (r.sends ==> rails.sendEnabled) && rails.tierAllows && rails.circuitOpen)
            && (v == Refused(StillWarming) <==>
                  (r.sends ==> rails.sendEnabled) && rails.tierAllows && !rails.circuitOpen && !rails.warm)
            && (v == Refused(RecipientBlocked) <==>
                  && (r.sends ==> rails.sendEnabled) && rails.tierAllows && !rails.circuitOpen && rails.warm
                  && !rails.recipientsPass)
            && (v == Refused(NotPreviewed) <==>
                  && (r.sends ==> rails.sendEnabled) && rails.tierAllows && !rails.circuitOpen && rails.warm
                  && rails.recipientsPass && r.needsToken && !rails.drafted)
  {
    hide TokenPasses, HasRoom;
  }

  /** A token that passes is spent when the confirm gate is reached.  It is spent
      without a run exactly when the send cap refuses, or an alias is unknown;
      the place under the cap is gone too in the second case. */
  lemma BurnedExactly(d: Desk, r: Request, at: Times)
    requires FrontDoor(r).None? && r.needsToken && TokenPasses(d, r, at)
    ensures var d' := Dispatched(d, r, at); var full := r.sends && 0 < d.cap <= |d.sent| && at.guarded - d.sent[|d.sent| - d.cap] <= 3600 * SECOND;
            && r.token.value.payload in d'.gate.consumed && |d'.gate.passes| == |d.gate.passes| + 1
            && (d'.runs == d.runs <==> full || !r.resolves)
            && d'.sent == (if r.sends && d.cap > 0 && !full then d.sent + [at.guarded] else d.sent)
            && Verdict(d, r, at) == (if full then Refused(RateCapped) else if !r.resolves then Refused(UnknownAlias) else Ran)
  {
  }

  /** A refusal by the standing rails spends nothing: neither a token nor a
      place under the cap, and it mints nothing. */
  lemma RailsCostNothing(d: Desk, r: Request, at: Times)
    requires || (r.sends && !r.rails.sendEnabled) || !r.rails.tierAllows || r.rails.circuitOpen || !r.rails.warm
             || !r.rails.recipientsPass || (r.needsToken && !r.rails.drafted)
    ensures Dispatched(d, r, at) == d.(clock := at.guarded) && Verdict(d, r, at).Refused?
    ensures Verdict(d, r, at).why in {KillSwitch, TierBlocked, CircuitOpen, StillWarming, RecipientBlocked, NotPreviewed}
  {
  }

  // ------------------------------------------------------------- the program

  class Dispatcher {
    const gate: ConfirmGate
    const cap: SendCap
    ghost var runs: seq<Handled>
    ghost var clock: int

    ghost function Contents(): Desk
      reads this, gate, cap
    {
      Desk(gate.Contents(), cap.cap, cap.history, clock, runs)
    }

    ghost predicate Valid()
      reads this, gate, cap
    {
      DeskInv(Contents()) && cap.Valid() && cap.last <= clock
    }

    constructor (gate: ConfirmGate, cap: SendCap, now: int)
      requires gate.Contents() == Gate({}, map[], now, []) && cap.Valid() && cap.history == [] && cap.last <= now
      ensures this.gate == gate && this.cap == cap && Valid()
      ensures Contents() == Desk(Gate({}, map[], now, []), cap.cap, [], now, [])
    {
      this.gate, this.cap, runs, clock := gate, cap, [], now;
    }

    /** One call, through every gate in order. */
    method Serve(r: Request, at: Times) returns (reply: Reply)
      requires Valid() && Possible(Contents(), r, at)
      modifies this, gate, cap
      ensures Valid()
      ensures Contents() == old(Dispatched(Contents(), r, at)) && reply == old(Verdict(Contents(), r, at))
    {
      hide Inv, CapKept, PaidFor, Confirm.Apply, Confirm.Passes, Remembers, Spaced;
      DispatchKeeps(Contents(), r, at);
      ghost var was := Contents();
      clock := at.guarded;
      if r.sends && !r.rails.sendEnabled { return Refused(KillSwitch); }
      if !r.rails.tierAllows { return Refused(TierBlocked); }
      if r.rails.circuitOpen { return Refused(CircuitOpen); }
      if !r.rails.warm { return Refused(StillWarming); }
      if !r.rails.recipientsPass { return Refused(RecipientBlocked); }
      ghost var pass, slot := None, None;
      if r.needsToken {
        if !r.rails.drafted { return Refused(NotPreviewed); }
        pass := Some(|gate.passes|);
        var outcome := gate.Check(r.call, r.token, r.ttl, at.verified, at.spent);
        if outcome.Previewed? { return Shown(outcome.token); }
        if outcome.Rejected? { return Refused(TokenRejected); }
      }
      if r.sends {
        slot := if cap.cap > 0 then Some(|cap.history|) else None;
        var room := cap.Guard(at.guarded);
        if !room { return Refused(RateCapped); }
      }
      if !r.resolves { return Refused(UnknownAlias); }
      runs := runs + [Handled(r, pass, slot)];
      reply := Ran;
    }
  }
}
