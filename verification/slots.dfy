/** Free/busy slot synthesis on a 30-minute wall-clock grid.  Instants are
    microseconds of local time, midnight of day 0 being zero. */
module Slots {
  import opened Mail

  const MINUTE := 60 * SECOND
  const STEP := 30 * MINUTE
  const MAX_DURATION := 1440

  datatype Span = Span(start: int, end: int)

  type Busy = map<string, seq<Span>>

  function TimeOfDay(t: int): int { t % DAY }

  function CeilToGrid(t: int): int {
    var floored := t - t % STEP;
    if floored >= t then floored else floored + STEP
  }

  /** Touching end points do not overlap. */
  predicate Overlaps(b: Span, t: int, end: int) {
    b.start < end && b.end > t
  }

  predicate AllFree(busy: Busy, t: int, end: int) {
    forall who :: who in busy ==> forall k :: 0 <= k < |busy[who]| ==> !Overlaps(busy[who][k], t, end)
  }

  /** The chained comparison on times of day. */
  predicate InHours(hours: Option<(int, int)>, t: int, end: int) {
    hours.Some? ==> hours.value.0 <= TimeOfDay(t) < TimeOfDay(end) <= hours.value.1
  }

  /** A slot that may be offered. */
  predicate Offered(busy: Busy, from: int, until: int, duration: int, hours: Option<(int, int)>, t: int) {
    var dur := duration * MINUTE;
    && 0 < duration && t % STEP == 0 && from <= t && t + dur <= until
    && InHours(hours, t, t + dur) && AllFree(busy, t, t + dur)
  }

  /** A start may be offered exactly when it lies on a half hour, the meeting
      fits between the bounds, its two clock times stand in order inside the
      working hours, and everyone's busy spans end by its start or start no
      sooner than its end. */
  lemma OfferedExactly(busy: Busy, from: int, until: int, duration: int, hours: Option<(int, int)>, t: int)
    ensures Offered(busy, from, until, duration, hours, t) <==>
              var end := t + duration * 60 * SECOND;
              && 0 < duration && t % (30 * 60 * SECOND) == 0 && from <= t && end <= until
              && (hours.Some? ==> hours.value.0 <= t % (86_400 * SECOND) < end % (86_400 * SECOND) <= hours.value.1)
              && (forall who, k :: who in busy && 0 <= k < |busy[who]| ==> busy[who][k].end <= t || end <= busy[who][k].start)
  {
    hide InHours;
    assert InHours(hours, t, t + duration * MINUTE) <==>
           (hours.Some? ==> hours.value.0 <= t % (86_400 * SECOND) < (t + duration * 60 * SECOND) % (86_400 * SECOND) <= hours.value.1) by {
      HoursAre(hours, t, t + duration * 60 * SECOND);
    }
  }

  lemma HoursAre(hours: Option<(int, int)>, t: int, end: int)
    ensures InHours(hours, t, end) <==>
              (hours.Some? ==> hours.value.0 <= t % (86_400 * SECOND) < end % (86_400 * SECOND) <= hours.value.1)
  {
  }

  lemma CeilIsNext(t: int)
    ensures CeilToGrid(t) % STEP == 0 && t <= CeilToGrid(t) < t + STEP
  {
  }

  lemma GridHasNoGap(t: int, u: int)
    requires t % STEP == 0 && u % STEP == 0 && t <= u < t + STEP
    ensures u == t
  {
  }

  predicate Starts(slots: seq<Span>, t: int) {
    exists k :: 0 <= k < |slots| && slots[k].start == t
  }

  /** Sound and complete: the starts returned are, in increasing order, exactly
      the grid starts that may be offered. */
  method FindSlots(busy: Busy, from: int, until: int, duration: int, hours: Option<(int, int)>)
    returns (slots: seq<Span>)
    ensures forall k :: 0 <= k < |slots| ==> slots[k].end == slots[k].start + duration * 60 * SECOND
    ensures forall j, k :: 0 <= j < k < |slots| ==> slots[j].start < slots[k].start
    ensures forall t :: Offered(busy, from, until, duration, hours, t) <==> Starts(slots, t)
  {
    hide AllFree, InHours;
    slots := [];
    var dur := duration * MINUTE;
    if dur <= 0 || until <= from { return; }
    var t := CeilToGrid(from);
    CeilIsNext(from);
    forall u | u < t ensures !Offered(busy, from, until, duration, hours, u) {
      if u % STEP == 0 && from <= u { GridHasNoGap(t - STEP, u); }
    }
    while t + dur <= until
      invariant t % STEP == 0 && from <= t
      invariant forall k :: 0 <= k < |slots| ==> slots[k].end == slots[k].start + dur && slots[k].start < t
      invariant forall j, k :: 0 <= j < k < |slots| ==> slots[j].start < slots[k].start
      invariant forall u :: u < t ==> (Offered(busy, from, until, duration, hours, u) <==> Starts(slots, u))
      decreases until - t
    {
      ghost var before := slots;
      if InHours(hours, t, t + dur) && AllFree(busy, t, t + dur) {
        slots := slots + [Span(t, t + dur)];
      }
      forall u | t <= u < t + STEP
        ensures Offered(busy, from, until, duration, hours, u) <==> Starts(slots, u)
      {
        if u % STEP == 0 { GridHasNoGap(t, u); }
        if u == t && slots != before { assert slots[|before|].start == t; }
      }
      forall u | u < t
        ensures Offered(busy, from, until, duration, hours, u) <==> Starts(slots, u)
      {
        assert forall k :: 0 <= k < |before| ==> slots[k] == before[k];
        if Starts(before, u) {
          var k :| 0 <= k < |before| && before[k].start == u;
          assert slots[k].start == u;
        }
      }
      t := t + STEP;
    }
  }

  // ----------------------------------------------------------- working hours

  /** Inside the working hours of one day. */
  ghost predicate InsideOneDay(hours: (int, int), t: int, end: int) {
    exists d :: StartsAfter(hours, d, t) && end <= d * DAY + hours.1
  }

  predicate StartsAfter(hours: (int, int), d: int, t: int) {
    d * DAY + hours.0 <= t
  }

  predicate ClockTimes(hours: (int, int)) {
    0 <= hours.0 < DAY && 0 <= hours.1 < DAY
  }

  ghost predicate Agrees(hours: (int, int), t: int, dur: int) {
    ClockTimes(hours) ==> (InHours(Some(hours), t, t + dur) <==> InsideOneDay(hours, t, t + dur))
  }

  /** The comparison of clock times says what it means to say up to a day, which
      is the longest duration the tool accepts.  Beyond that a slot that wraps
      around midnight can pass it, unless it is a whole number of days long and
      no slot passes at all. */
  lemma HoursMeanOneDayExactly(duration: int)
    requires 0 < duration
    ensures (forall hours, t :: Agrees(hours, t, duration * MINUTE)) <==>
              duration <= MAX_DURATION || duration % MAX_DURATION == 0
  {
    var dur := duration * MINUTE;
    if duration <= MAX_DURATION || duration % MAX_DURATION == 0 {
      forall hours, t ensures Agrees(hours, t, dur) {
        if ClockTimes(hours) {
          if duration <= MAX_DURATION { ShortSlot(hours, t, dur); } else { WholeDays(hours, t, duration / MAX_DURATION); }
        }
      }
    } else {
      // from midnight, to the same clock time some days later
      var hours := (0, dur % DAY);
      assert dur > DAY && dur % DAY != 0;
      assert InHours(Some(hours), 0, dur);
      assert forall d :: StartsAfter(hours, d, 0) ==> d <= 0;
      assert !Agrees(hours, 0, dur);
    }
  }

  lemma WholeDays(hours: (int, int), t: int, n: int)
    requires ClockTimes(hours) && 0 < n
    ensures !InHours(Some(hours), t, t + n * DAY) && !InsideOneDay(hours, t, t + n * DAY)
  {
  }

  lemma ShortSlot(hours: (int, int), t: int, dur: int)
    requires ClockTimes(hours) && 0 < dur <= DAY
    ensures InHours(Some(hours), t, t + dur) <==> InsideOneDay(hours, t, t + dur)
  {
    var d, x := t / DAY, t % DAY;
    if InHours(Some(hours), t, t + dur) {
      assert StartsAfter(hours, d, t);
    }
    if InsideOneDay(hours, t, t + dur) {
      var e :| StartsAfter(hours, e, t) && t + dur <= e * DAY + hours.1;
      assert e == d && (t + dur) / DAY == d;
    }
  }
}
