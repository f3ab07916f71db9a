/** What may be archived, and when: the cutoffs and the backup rail. */
module ArchivePolicy {
  import opened Mail

  /** The settings a policy is built from; `before` is an explicit override. */
  datatype Settings = Settings(afterDays: int, graceDays: int, deleteEnabled: bool, maxDelete: nat,
                               captureAfterDays: Option<int>, backupStamp: string,
                               backupMaxAgeHours: int, backupHoldMaxDays: int)

  datatype Policy = Policy(afterDays: int, graceDays: int, deleteEnabled: bool, maxDelete: nat,
                           beforeTs: Option<int>, captureAfterDays: Option<int>, backupStamp: string,
                           backupMaxAgeHours: int, backupHoldMaxDays: int)

  function Max(a: int, b: int): int { if a < b then b else a }

  function Min(a: int, b: int): int { if a < b then a else b }

  /** The grace period is floored at one day whatever the settings say. */
  function FromSettings(s: Settings, before: Option<int>): Policy {
    Policy(s.afterDays, Max(1, s.graceDays), s.deleteEnabled, s.maxDelete, before, s.captureAfterDays,
           s.backupStamp, s.backupMaxAgeHours, s.backupHoldMaxDays)
  }

  function AgeCutoff(p: Policy, days: int, now: int): int {
    if p.beforeTs.Some? then p.beforeTs.value else TruncSeconds(now - days * DAY)
  }

  function CaptureCutoff(p: Policy, now: int): int {
    AgeCutoff(p, if p.captureAfterDays.None? then p.afterDays
                 else Min(Max(0, p.captureAfterDays.value), p.afterDays), now)
  }

  function DeleteCutoff(p: Policy, now: int): int {
    AgeCutoff(p, p.afterDays, now) - p.graceDays * (DAY / SECOND)
  }

  function GraceInstant(p: Policy, now: int): int {
    TruncSeconds(now - p.graceDays * DAY)
  }

  datatype Backup = Off | Fresh | Stale | Expired | Missing

  /** `stamped` is the modification time of the backup marker, if it is there. */
  function BackupState(p: Policy, stamped: Option<int>, now: int): Backup {
    if p.backupStamp == "" then Off
    else if stamped.None? then Missing
    else
      var age := now - stamped.value;
      if age <= p.backupMaxAgeHours * HOUR then Fresh
      else if age <= p.backupHoldMaxDays * 24 * HOUR then Stale
      else Expired
  }

  predicate Holds(b: Backup) {
    b == Stale || b == Missing
  }

  /** The verification half of rail 3 means what it says: a row it lets through
      was verified at least `graceDays` whole days ago, and that is never less
      than one.  Truncation toward zero could only ever shorten the wait for an
      instant at or before the epoch, which no clock reading is. */
  lemma GraceIsAFullWait(s: Settings, before: Option<int>, now: int, verifiedAt: int)
    requires 0 < verifiedAt
    requires verifiedAt <= GraceInstant(FromSettings(s, before), now) * SECOND
    ensures verifiedAt + Max(1, s.graceDays) * DAY <= now
    ensures verifiedAt + DAY <= now
  {
  }

  /** Mail old enough to be deleted is old enough to have been captured, under
      every combination of settings and overrides: capture never starts later
      than deletion could. */
  lemma DeletableIsCapturable(s: Settings, before: Option<int>, now: int, dateTs: int)
    requires dateTs <= DeleteCutoff(FromSettings(s, before), now)
    ensures dateTs < CaptureCutoff(FromSettings(s, before), now)
  {
  }

  /** The age half of rail 3, in days on the clock.  Without an override a date
      passes the delete query exactly when the mail was sent `afterDays` plus
      the grace period before now, the latter never less than a day.  Only when
      that reaches back before the epoch does truncation toward zero let a date
      pass up to a second early. */
  lemma OldEnoughExactly(s: Settings, now: int, dateTs: int)
    ensures dateTs <= DeleteCutoff(FromSettings(s, None), now) <==>
              var due := dateTs + (s.afterDays + Max(1, s.graceDays)) * 86_400;
              if s.afterDays * DAY <= now then due * SECOND <= now else due * SECOND < now + SECOND
  {
  }

  /** With an override a date passes exactly when it lies the grace period before it. */
  lemma OldEnoughByOverrideExactly(s: Settings, before: int, now: int, dateTs: int)
    ensures dateTs <= DeleteCutoff(FromSettings(s, Some(before)), now) <==>
              dateTs + Max(1, s.graceDays) * 86_400 <= before
  {
  }

  /** How old mail must be to leave: by its age in days, or by an explicit date. */
  predicate Aged(s: Settings, before: Option<int>, now: int, dateTs: int) {
    var grace := Max(1, s.graceDays) * 86_400;
    match before
    case Some(b) => dateTs + grace <= b
    case None =>
      var due := (dateTs + s.afterDays * 86_400 + grace) * SECOND;
      if s.afterDays * DAY <= now then due <= now else due < now + SECOND
  }

  lemma AgedExactly(s: Settings, before: Option<int>, now: int, dateTs: int)
    ensures dateTs <= DeleteCutoff(FromSettings(s, before), now) <==> Aged(s, before, now, dateTs)
  {
    if before.Some? { OldEnoughByOverrideExactly(s, before.value, now, dateTs); } else { OldEnoughExactly(s, now, dateTs); }
  }

  /** The age at which mail is captured: the capture age if one is set, between
      none and `afterDays`; otherwise `afterDays`. */
  lemma CapturedFromAgeExactly(s: Settings, now: int, dateTs: int, days: int)
    requires s.captureAfterDays == None ==> days == s.afterDays
    requires s.captureAfterDays.Some? && s.afterDays < s.captureAfterDays.value ==> days == s.afterDays
    requires s.captureAfterDays.Some? && s.captureAfterDays.value <= s.afterDays ==>
               days == if s.captureAfterDays.value < 0 then Min(0, s.afterDays) else s.captureAfterDays.value
    ensures dateTs <= CaptureCutoff(FromSettings(s, None), now) <==>
              if days * DAY <= now then (dateTs + days * 86_400) * SECOND <= now
              else (dateTs + days * 86_400) * SECOND < now + SECOND
    ensures forall before :: dateTs <= CaptureCutoff(FromSettings(s, Some(before)), now) <==> dateTs <= before
  {
  }

  /** The verification half of rail 3, both ways: what lets a row through is that
      the first whole second at or after its verification lies the grace period
      back.  So no wait is longer than the period and a second. */
  lemma GraceIsNoLongerExactly(s: Settings, before: Option<int>, now: int, verifiedAt: int)
    requires 0 < verifiedAt
    ensures verifiedAt <= GraceInstant(FromSettings(s, before), now) * SECOND <==>
              (verifiedAt + SECOND - 1) / SECOND * SECOND + Max(1, s.graceDays) * DAY <= now
    ensures verifiedAt + Max(1, s.graceDays) * DAY + SECOND <= now ==>
              verifiedAt <= GraceInstant(FromSettings(s, before), now) * SECOND
  {
  }

  /** Each state of the backup rail, from the marker's age alone. */
  lemma BackupStateExactly(p: Policy, stamped: Option<int>, now: int)
    ensures var b := BackupState(p, stamped, now);
            && (b == Off <==> p.backupStamp == "")
            && (b == Missing <==> p.backupStamp != "" && stamped.None?)
            && (b == Fresh <==> p.backupStamp != "" && stamped.Some? && now - stamped.value <= p.backupMaxAgeHours * HOUR)
            && (b == Expired <==> p.backupStamp != "" && stamped.Some? && p.backupMaxAgeHours * HOUR < now - stamped.value
                                  && p.backupHoldMaxDays * DAY < now - stamped.value)
  {
  }

  /** Rail 4 as a statement about ages: deletion is held exactly when a marker
      is configured and is either absent or older than the fresh limit but not
      yet older than the hold. */
  lemma BackupHoldsExactly(p: Policy, stamped: Option<int>, now: int)
    ensures Holds(BackupState(p, stamped, now)) <==>
              p.backupStamp != "" &&
              (stamped.None? ||
               (p.backupMaxAgeHours * HOUR < now - stamped.value <= p.backupHoldMaxDays * 24 * HOUR))
  {
  }
}
