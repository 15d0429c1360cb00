/** When an Anthropic rate limit resets: the error text's wall-clock time turned into an instant.

    Instants are milliseconds. A zone gives its offset from UTC at each instant; the civil calendar is
    the day index, so `Date.UTC(y, m, d, h, min)` is a day, an hour and a minute added up. */
module RateLimitClock {
  import opened Values

  const MINUTE: int := 60_000
  const HOUR: int := 3_600_000
  const DAY: int := 86_400_000

  type Zone = int -> int

  /** What the reset pattern extracts: `resets H:MM am|pm (zone)`. */
  datatype ResetText = ResetText(hour12: nat, minute: nat, pm: bool, zone: string)

  function Hour24(hour12: int, pm: bool): int {
    if pm then (if hour12 == 12 then 12 else hour12 + 12) else (if hour12 == 12 then 0 else hour12)
  }

  /** The zone's offset as formatted wall parts give it: they carry no milliseconds. */
  function TzOffsetMs(zone: Zone, t: int): int { (t + zone(t)) / 1000 * 1000 - t }

  function WallDay(zone: Zone, t: int): int { (t + zone(t)) / DAY }

  /** The offset `wallClockToUtc` settles on: that of its first guess. */
  function RefinedOffset(zone: Zone, naive: int): int {
    var firstPass := naive - TzOffsetMs(zone, naive);
    TzOffsetMs(zone, firstPass)
  }

  function WallClockToUtc(zone: Zone, day: int, hour: int, minute: int): int {
    var naive := day * DAY + hour * HOUR + minute * MINUTE;
    naive - RefinedOffset(zone, naive)
  }

  function ParseRateLimitResume(text: Option<ResetText>, zones: string -> Option<Zone>, now: int): Option<int> {
    if text.None? then None
    else
      var r := text.value;
      if r.hour12 < 1 || r.hour12 > 12 || r.minute > 59 then None
      else
        match zones(r.zone)
        case None => None
        case Some(zone) => ResumeIn(zone, Hour24(r.hour12, r.pm), r.minute, now)
  }

  function ResumeIn(zone: Zone, hour24: int, minute: int, now: int): Option<int> {
    var today := WallClockToUtc(zone, WallDay(zone, now), hour24, minute);
    var candidate := if today <= now then WallClockToUtc(zone, WallDay(zone, today + DAY), hour24, minute) else today;
    if candidate - now > DAY || candidate <= now then None else Some(candidate)
  }

  datatype Kind = StreamIdle | RateLimit(resumeAt: int)

  /** `limited` is whether the text matches the rate-limit pattern. */
  function ClassifyApiError(limited: bool, text: Option<ResetText>, zones: string -> Option<Zone>, now: int): Kind {
    if !limited then StreamIdle
    else
      match ParseRateLimitResume(text, zones, now)
      case None => StreamIdle
      case Some(resumeAt) => RateLimit(resumeAt)
  }

  // ----- What it means -----

  /** A twelve-hour clock on the wall in `zone` reads exactly this time at t, to the millisecond. */
  predicate Reads(zone: Zone, t: int, hour12: int, minute: int, pm: bool) {
    var local := (t + zone(t)) % DAY;
    && local % MINUTE == 0
    && local / MINUTE % 60 == minute
    && (local / HOUR + 11) % 12 + 1 == hour12
    && pm == (local / HOUR >= 12)
  }

  predicate ValidTime(hour12: int, minute: int) { 1 <= hour12 <= 12 && 0 <= minute <= 59 }

  lemma ReadsIsTimeOfDay(zone: Zone, t: int, hour12: int, minute: int, pm: bool)
    requires ValidTime(hour12, minute)
    ensures Reads(zone, t, hour12, minute, pm) <==> (t + zone(t)) % DAY == Hour24(hour12, pm) * HOUR + minute * MINUTE
  {
    var local := (t + zone(t)) % DAY;
    Digits(local);
    if local == Hour24(hour12, pm) * HOUR + minute * MINUTE { DigitsOf(Hour24(hour12, pm), minute); }
  }

  lemma Digits(local: int)
    requires 0 <= local < DAY
    ensures local == local / HOUR * HOUR + local / MINUTE % 60 * MINUTE + local % MINUTE && 0 <= local / HOUR <= 23
  {
    var minutes := local / MINUTE;
    assert local == minutes * MINUTE + local % MINUTE;
    assert minutes == minutes / 60 * 60 + minutes % 60;
    assert minutes / 60 == local / HOUR;
  }

  lemma DigitsOf(hour: int, minute: int)
    requires 0 <= hour <= 23 && 0 <= minute <= 59
    ensures var local := hour * HOUR + minute * MINUTE;
      local / HOUR == hour && local / MINUTE % 60 == minute && local % MINUTE == 0
  {
    assert (hour * HOUR + minute * MINUTE) / MINUTE == hour * 60 + minute;
  }

  lemma WholeDays(days: int, x: int)
    ensures (days * DAY + x) % DAY == x % DAY && (days * DAY + x) / DAY == days + x / DAY
  {
  }

  lemma TimeOfDayShift(timeOfDay: int, drift: int)
    requires 0 <= timeOfDay < DAY
    ensures (timeOfDay + drift) % DAY == timeOfDay <==> drift % DAY == 0
  {
  }

  /** The conversion lands on the wall time asked for exactly when the refined offset is, up to whole days, the one in force there. */
  lemma WallClockToUtcReads(zone: Zone, day: int, hour12: int, minute: int, pm: bool)
    requires ValidTime(hour12, minute)
    ensures var naive := day * DAY + Hour24(hour12, pm) * HOUR + minute * MINUTE;
      var t := WallClockToUtc(zone, day, Hour24(hour12, pm), minute);
      Reads(zone, t, hour12, minute, pm) <==> (zone(t) - RefinedOffset(zone, naive)) % DAY == 0
  {
    var timeOfDay := Hour24(hour12, pm) * HOUR + minute * MINUTE;
    var naive := day * DAY + Hour24(hour12, pm) * HOUR + minute * MINUTE;
    var refined := RefinedOffset(zone, naive);
    var t := naive - refined;
    ReadsIsTimeOfDay(zone, t, hour12, minute, pm);
    ShiftedTimeOfDay(day, timeOfDay, refined, t, zone(t));
  }

  lemma ShiftedTimeOfDay(day: int, timeOfDay: int, refined: int, t: int, offset: int)
    requires 0 <= timeOfDay < DAY && t == day * DAY + timeOfDay - refined
    ensures (t + offset) % DAY == timeOfDay <==> (offset - refined) % DAY == 0
  {
    WholeDays(day, timeOfDay + (offset - refined));
    assert t + offset == day * DAY + (timeOfDay + (offset - refined));
    TimeOfDayShift(timeOfDay, offset - refined);
  }

  // ----- When a text is accepted, and what it is resumed at -----

  /** How far ahead of the wall's time of day at now the requested one is; negative when it has passed. */
  function Ahead(zone: Zone, timeOfDay: int, now: int): int {
    timeOfDay - (now + zone(now)) % DAY
  }

  /** The offset that today's conversion uses. */
  function TodayOffset(zone: Zone, timeOfDay: int, now: int): int {
    RefinedOffset(zone, WallDay(zone, now) * DAY + timeOfDay)
  }

  /** Today's conversion lies after now: the gain or loss of offset does not undo the wall's distance. */
  predicate StillToday(zone: Zone, timeOfDay: int, now: int) {
    Ahead(zone, timeOfDay, now) + (zone(now) - TodayOffset(zone, timeOfDay, now)) > 0
  }

  /** How many wall days the roll-over advances: one, unless the offset a day after today's conversion has moved
      the requested time across midnight. */
  function RolledDays(zone: Zone, timeOfDay: int, now: int): int {
    var today := now + Ahead(zone, timeOfDay, now) + (zone(now) - TodayOffset(zone, timeOfDay, now));
    1 + (timeOfDay + (zone(today + DAY) - TodayOffset(zone, timeOfDay, now))) / DAY
  }

  /** The wall day that is converted in the end, and the offset its conversion uses. */
  function UsedDay(zone: Zone, timeOfDay: int, now: int): int {
    WallDay(zone, now) + if StillToday(zone, timeOfDay, now) then 0 else RolledDays(zone, timeOfDay, now)
  }

  function UsedOffset(zone: Zone, timeOfDay: int, now: int): int {
    RefinedOffset(zone, UsedDay(zone, timeOfDay, now) * DAY + timeOfDay)
  }

  /** How long the wait is, by the offsets alone. */
  function WaitMs(zone: Zone, timeOfDay: int, now: int): int {
    (if StillToday(zone, timeOfDay, now) then 0 else RolledDays(zone, timeOfDay, now) * DAY)
    + Ahead(zone, timeOfDay, now) + (zone(now) - UsedOffset(zone, timeOfDay, now))
  }

  lemma ResumeInIs(zone: Zone, hour24: int, minute: int, now: int)
    ensures var wait := WaitMs(zone, hour24 * HOUR + minute * MINUTE, now);
      ResumeIn(zone, hour24, minute, now) == if 0 < wait <= DAY then Some(now + wait) else None
  {
    hide RefinedOffset;
    var timeOfDay := hour24 * HOUR + minute * MINUTE;
    var local := now + zone(now);
    var offset := TodayOffset(zone, timeOfDay, now);
    var today := WallClockToUtc(zone, WallDay(zone, now), hour24, minute);
    assert local == local / DAY * DAY + local % DAY;
    assert today == now + Ahead(zone, timeOfDay, now) + (zone(now) - offset);
    if today <= now {
      var next := today + DAY;
      WholeDays(WallDay(zone, now) + 1, timeOfDay + (zone(next) - offset));
      assert next + zone(next) == (WallDay(zone, now) + 1) * DAY + (timeOfDay + (zone(next) - offset));
      assert WallDay(zone, next) == WallDay(zone, now) + RolledDays(zone, timeOfDay, now);
    }
  }

  /** In any zone, a text gives an instant exactly when its time is valid, its zone known and the offsets at now, of
      today's conversion and of the rolled-over one leave a wait of at most a day. */
  lemma AcceptedIff(text: Option<ResetText>, zones: string -> Option<Zone>, now: int)
    ensures ParseRateLimitResume(text, zones, now).Some? <==>
      && text.Some? && ValidTime(text.value.hour12, text.value.minute) && zones(text.value.zone).Some?
      && 0 < WaitMs(zones(text.value.zone).value, Hour24(text.value.hour12, text.value.pm) * HOUR + text.value.minute * MINUTE, now) <= DAY
  {
    hide WaitMs, ResumeIn;
    if text.Some? && zones(text.value.zone).Some? {
      ResumeInIs(zones(text.value.zone).value, Hour24(text.value.hour12, text.value.pm), text.value.minute, now);
    }
  }

  /** So a refusal of a valid text in a known zone always has an offset change behind it: between now, today's
      conversion, the instant a day after it and the rolled-over conversion. */
  lemma RefusalNeedsOffsetChange(text: ResetText, zones: string -> Option<Zone>, now: int)
    requires ValidTime(text.hour12, text.minute) && zones(text.zone).Some?
    requires ParseRateLimitResume(Some(text), zones, now).None?
    ensures var zone := zones(text.zone).value;
      var timeOfDay := Hour24(text.hour12, text.pm) * HOUR + text.minute * MINUTE;
      var today := now + Ahead(zone, timeOfDay, now) + (zone(now) - TodayOffset(zone, timeOfDay, now));
      || zone(now) != TodayOffset(zone, timeOfDay, now)
      || zone(today + DAY) != zone(now)
      || UsedOffset(zone, timeOfDay, now) != zone(now)
  {
    hide ParseRateLimitResume, RefinedOffset;
    AcceptedIff(Some(text), zones, now);
  }

  lemma WaitReachesTheUsedDay(zone: Zone, hour24: int, minute: int, now: int)
    ensures now + WaitMs(zone, hour24 * HOUR + minute * MINUTE, now)
         == WallClockToUtc(zone, UsedDay(zone, hour24 * HOUR + minute * MINUTE, now), hour24, minute)
  {
    hide RefinedOffset, StillToday, RolledDays;
    var local := now + zone(now);
    assert local == local / DAY * DAY + local % DAY;
  }

  /** In any zone, the instant is after now and at most 24 hours on, and the wall reads the requested time then
      exactly when the offset used is, up to whole days, the one in force there. */
  lemma ResumeIsWithinADay(text: ResetText, zones: string -> Option<Zone>, now: int)
    requires ParseRateLimitResume(Some(text), zones, now).Some?
    ensures var t := ParseRateLimitResume(Some(text), zones, now).value;
      var zone := zones(text.zone).value;
      && now < t <= now + DAY
      && (Reads(zone, t, text.hour12, text.minute, text.pm) <==>
          (zone(t) - UsedOffset(zone, Hour24(text.hour12, text.pm) * HOUR + text.minute * MINUTE, now)) % DAY == 0)
  {
    hide WaitMs, ResumeIn, UsedDay, RefinedOffset, Reads, WallClockToUtc, Hour24;
    var zone := zones(text.zone).value;
    var hour24 := Hour24(text.hour12, text.pm);
    ResumeInIs(zone, hour24, text.minute, now);
    WaitReachesTheUsedDay(zone, hour24, text.minute, now);
    WallClockToUtcReads(zone, UsedDay(zone, hour24 * HOUR + text.minute * MINUTE, now), text.hour12, text.minute, text.pm);
  }

  lemma ClassifiedResumeIsWithinADay(limited: bool, text: Option<ResetText>, zones: string -> Option<Zone>, now: int)
    ensures ClassifyApiError(limited, text, zones, now).RateLimit? ==>
      limited && now < ClassifyApiError(limited, text, zones, now).resumeAt <= now + DAY
  {
    if limited && ParseRateLimitResume(text, zones, now).Some? { ResumeIsWithinADay(text.value, zones, now); }
  }

  /** An error is a rate limit exactly when it matches and its text names an acceptable reset, which is then what it is
      resumed at; anything else is a stream that went idle. */
  lemma ClassifiedIff(limited: bool, text: Option<ResetText>, zones: string -> Option<Zone>, now: int)
    ensures var kind := ClassifyApiError(limited, text, zones, now);
      && (kind.RateLimit? <==>
            && limited && text.Some? && ValidTime(text.value.hour12, text.value.minute) && zones(text.value.zone).Some?
            && 0 < WaitMs(zones(text.value.zone).value, Hour24(text.value.hour12, text.value.pm) * HOUR + text.value.minute * MINUTE, now) <= DAY)
      && (kind.RateLimit? ==>
            kind.resumeAt == now + WaitMs(zones(text.value.zone).value, Hour24(text.value.hour12, text.value.pm) * HOUR + text.value.minute * MINUTE, now))
  {
    hide WaitMs, ResumeIn;
    AcceptedIff(text, zones, now);
    if text.Some? && zones(text.value.zone).Some? {
      ResumeInIs(zones(text.value.zone).value, Hour24(text.value.hour12, text.value.pm), text.value.minute, now);
    }
  }

  // ----- Zones with no offset change nearby -----

  /** The offset stays the same for a day, and the length of the offset itself, to either side of now. */
  ghost predicate Steady(zone: Zone, offset: int, now: int) {
    forall t | now - DAY - Distance(offset) <= t <= now + DAY + Distance(offset) :: zone(t) == offset
  }

  function Distance(offset: int): int { if offset < 0 then -offset else offset }

  /** Where the offset does not change around now, a valid text always gives the first instant after now at which
      the wall reads it. */
  lemma SteadyOffsetResume(text: ResetText, zones: string -> Option<Zone>, offset: int, now: int)
    requires ValidTime(text.hour12, text.minute) && offset % 1000 == 0
    requires zones(text.zone).Some? && Steady(zones(text.zone).value, offset, now)
    ensures var zone := zones(text.zone).value;
      var result := ParseRateLimitResume(Some(text), zones, now);
      && result.Some? && result.value > now
      && Reads(zone, result.value, text.hour12, text.minute, text.pm)
      && forall t | now < t < result.value :: !Reads(zone, t, text.hour12, text.minute, text.pm)
  {
    hide ResumeIn, Reads, NextAt, Steady;
    var hour24 := Hour24(text.hour12, text.pm);
    SteadyResume(zones(text.zone).value, offset, hour24, text.minute, now);
    FirstReading(zones(text.zone).value, offset, text.hour12, text.minute, text.pm, now);
  }

  lemma FirstReading(zone: Zone, offset: int, hour12: int, minute: int, pm: bool, now: int)
    requires ValidTime(hour12, minute) && Steady(zone, offset, now)
    ensures var first := NextAt(now + offset, Hour24(hour12, pm) * HOUR + minute * MINUTE) - offset;
      && now < first && Reads(zone, first, hour12, minute, pm)
      && forall t | now < t < first :: !Reads(zone, t, hour12, minute, pm)
  {
    hide Reads, NextAt;
    var timeOfDay := Hour24(hour12, pm) * HOUR + minute * MINUTE;
    var first := NextAt(now + offset, timeOfDay) - offset;
    NextAtIsLeast(now + offset, timeOfDay);
    ReadsIsTimeOfDay(zone, first, hour12, minute, pm);
    assert zone(first) == offset;
    forall t | now < t < first ensures !Reads(zone, t, hour12, minute, pm) {
      ReadsIsTimeOfDay(zone, t, hour12, minute, pm);
      assert zone(t) == offset && now + offset < t + offset < first + offset;
    }
  }

  /** The next local instant after `local` at a time of day. */
  function NextAt(local: int, timeOfDay: int): int {
    var today := local / DAY * DAY + timeOfDay;
    if today <= local then today + DAY else today
  }

  lemma NextAtIsLeast(local: int, timeOfDay: int)
    requires 0 <= timeOfDay < DAY
    ensures local < NextAt(local, timeOfDay) <= local + DAY
    ensures NextAt(local, timeOfDay) % DAY == timeOfDay
    ensures forall x | local < x < NextAt(local, timeOfDay) :: x % DAY != timeOfDay
  {
    WholeDays(local / DAY, timeOfDay);
    WholeDays(local / DAY + 1, timeOfDay);
  }

  lemma SteadyResume(zone: Zone, offset: int, hour24: int, minute: int, now: int)
    requires offset % 1000 == 0 && Steady(zone, offset, now)
    requires 0 <= hour24 <= 23 && 0 <= minute <= 59
    ensures ResumeIn(zone, hour24, minute, now) == Some(NextAt(now + offset, hour24 * HOUR + minute * MINUTE) - offset)
  {
    hide WallClockToUtc;
    var timeOfDay := hour24 * HOUR + minute * MINUTE;
    var day := (now + offset) / DAY;
    var today := day * DAY + timeOfDay - offset;
    assert zone(now) == offset;
    SteadyConversion(zone, offset, day, hour24, minute, now);
    NextAtIsLeast(now + offset, timeOfDay);
    if today <= now {
      SteadyRollOver(zone, offset, day, timeOfDay, now);
      SteadyConversion(zone, offset, day + 1, hour24, minute, now);
    }
  }

  lemma SteadyRollOver(zone: Zone, offset: int, day: int, timeOfDay: int, now: int)
    requires Steady(zone, offset, now) && 0 <= timeOfDay < DAY
    requires now - DAY <= day * DAY + timeOfDay - offset <= now
    ensures WallDay(zone, day * DAY + timeOfDay - offset + DAY) == day + 1
  {
    var next := day * DAY + timeOfDay - offset + DAY;
    assert zone(next) == offset;
    WholeDays(day + 1, timeOfDay);
    assert next + offset == (day + 1) * DAY + timeOfDay;
  }

  lemma WholeSeconds(zone: Zone, offset: int, t: int)
    requires zone(t) == offset && offset % 1000 == 0 && t % 1000 == 0
    ensures TzOffsetMs(zone, t) == offset
  {
  }

  lemma SteadyConversion(zone: Zone, offset: int, day: int, hour: int, minute: int, now: int)
    requires offset % 1000 == 0 && Steady(zone, offset, now)
    requires now - DAY <= day * DAY + hour * HOUR + minute * MINUTE - offset <= now + DAY
    ensures WallClockToUtc(zone, day, hour, minute) == day * DAY + hour * HOUR + minute * MINUTE - offset
  {
    var naive := day * DAY + hour * HOUR + minute * MINUTE;
    assert naive == (day * 86_400 + hour * 3_600 + minute * 60) * 1000;
    WholeSeconds(zone, offset, naive);
    WholeSeconds(zone, offset, naive - offset);
  }

  // ----- The refusals -----

  /** A clock that is put back by an hour at noon. */
  function FallBack(t: int): int {
    if t < 12 * HOUR then 0 else -HOUR
  }

  /** Rolled over, and 24 hours and 59 minutes off: 7:20 am, a millisecond after it. */
  lemma LateResetIsRefused(zones: string -> Option<Zone>, name: string)
    requires zones(name) == Some(FallBack)
    ensures var now := 7 * HOUR + 20 * MINUTE + 1;
      && !StillToday(FallBack, now - 1, now) && WaitMs(FallBack, now - 1, now) > DAY
      && ParseRateLimitResume(Some(ResetText(7, 20, false, name)), zones, now).None?
  {
    hide ParseRateLimitResume;
    AcceptedIff(Some(ResetText(7, 20, false, name)), zones, 7 * HOUR + 20 * MINUTE + 1);
  }

  /** Rolled over, but to the same wall day, and so not after now: 12:20 am, asked at 9 pm, though the wall reads it
      4 hours and 20 minutes later. */
  lemma NearResetIsRefused(zones: string -> Option<Zone>, name: string)
    requires zones(name) == Some(FallBack)
    ensures var now := 21 * HOUR;
      && !StillToday(FallBack, 20 * MINUTE, now) && WaitMs(FallBack, 20 * MINUTE, now) <= 0
      && Reads(FallBack, now + 4 * HOUR + 20 * MINUTE, 12, 20, false)
      && ParseRateLimitResume(Some(ResetText(12, 20, false, name)), zones, now).None?
  {
    hide ParseRateLimitResume, Reads, StillToday, WaitMs;
    NearWait();
    AcceptedIff(Some(ResetText(12, 20, false, name)), zones, 21 * HOUR);
    ReadsIsTimeOfDay(FallBack, 25 * HOUR + 20 * MINUTE, 12, 20, false);
  }

  lemma NearWait()
    ensures !StillToday(FallBack, 20 * MINUTE, 21 * HOUR)
    ensures WaitMs(FallBack, 20 * MINUTE, 21 * HOUR) == -20 * HOUR - 40 * MINUTE
  {
    hide RefinedOffset;
    assert WallDay(FallBack, 21 * HOUR) == 0 && Ahead(FallBack, 20 * MINUTE, 21 * HOUR) == 20 * MINUTE - 20 * HOUR;
    assert RefinedOffset(FallBack, 20 * MINUTE) == 0 by { NearOffset(); }
    assert RolledDays(FallBack, 20 * MINUTE, 21 * HOUR) == 0;
  }

  lemma NearOffset()
    ensures RefinedOffset(FallBack, 20 * MINUTE) == 0
  {
  }

  /** Later today, and 24 hours and 59 minutes off: 11:59 pm, asked at midnight. */
  lemma FarResetIsRefused(zones: string -> Option<Zone>, name: string)
    requires zones(name) == Some(FallBack)
    ensures var timeOfDay := 23 * HOUR + 59 * MINUTE;
      && StillToday(FallBack, timeOfDay, 0) && WaitMs(FallBack, timeOfDay, 0) > DAY
      && ParseRateLimitResume(Some(ResetText(11, 59, true, name)), zones, 0).None?
  {
    hide ParseRateLimitResume;
    AcceptedIff(Some(ResetText(11, 59, true, name)), zones, 0);
  }
}
