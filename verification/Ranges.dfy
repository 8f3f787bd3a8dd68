/** The date range of a sync request: defaults, parsing, and the length check
    whose day count goes through a saturating 64-bit duration. */
module Ranges {
  import opened Text
  import opened Calendar
  import opened Timestamps

  const DAY: int := 86400 * 1_000_000_000
  const DEFAULT_MAX_DAYS: int := 366
  /** The whole days a 64-bit nanosecond duration can hold. */
  const LONGEST: int := 106751

  datatype Range =
    | Accepted(start: int, end: int)
    | BadEndDate
    | BadStartDate
    | Inverted
    | InFuture
    | TooLong

  datatype Limits = Limits(lag: int, maxDays: int, lookback: int)

  /** time.Time.Sub between two midnights: saturates at the int64 bounds. */
  function Sub(end: int, start: int): int {
    var d := (end - start) * DAY;
    if d > MAX_INT then MAX_INT else if d < -MAX_INT - 1 then -MAX_INT - 1 else d
  }

  /** int(end.Sub(start).Hours()/24) + 1 for end not before start. */
  function CountedDays(start: int, end: int): int {
    Sub(end, start) / DAY + 1
  }

  function EffectiveMax(limits: Limits): int {
    if limits.maxDays <= 0 then DEFAULT_MAX_DAYS else limits.maxDays
  }

  function Today(now: nat): int {
    now / SECOND / DAY_SECONDS
  }

  function DefaultEnd(now: nat, limits: Limits): int {
    Today(now) - (if limits.lag > 1 then limits.lag else 1)
  }

  /** A given date must parse; a blank one takes the default. */
  function DateOr(raw: string, fallback: int): Option<int> {
    if IsBlank(raw) then Some(fallback) else ParseDate(raw)
  }

  function Check(now: nat, limits: Limits, start: int, end: int): Range {
    if end < start then Inverted
    else if end > Today(now) then InFuture
    else if CountedDays(start, end) > EffectiveMax(limits) then TooLong
    else Accepted(start, end)
  }

  function Resolve(now: nat, startRaw: string, endRaw: string, limits: Limits): Range {
    match DateOr(endRaw, DefaultEnd(now, limits))
    case None => BadEndDate
    case Some(end) =>
      match DateOr(startRaw, end - (limits.lookback - 1))
      case None => BadStartDate
      case Some(start) => Check(now, limits, start, end)
  }

  /** The day a date field stands for: its default, or the day it spells. */
  predicate Dated(raw: string, fallback: int, day: int) {
    if IsBlank(raw) then day == fallback
    else 0 <= day && StorableDay(day) && raw == FormatDate(day)
  }

  predicate Asks(now: nat, startRaw: string, endRaw: string, limits: Limits, start: int, end: int) {
    Dated(endRaw, DefaultEnd(now, limits), end) && Dated(startRaw, end - limits.lookback + 1, start)
  }

  /** What the check is for: an ordered range, not in the future, of at most
      the allowed number of days counted exactly. */
  predicate WithinLimits(now: nat, limits: Limits, start: int, end: int) {
    start <= end <= Today(now) && end - start + 1 <= EffectiveMax(limits)
  }

  lemma CountSaturates(start: int, end: int)
    requires start <= end
    ensures CountedDays(start, end) == (if end - start <= LONGEST then end - start else LONGEST) + 1
  {
    var n := end - start;
    if n <= LONGEST {
      assert n * DAY / DAY == n;
    }
  }

  lemma DateOrReadsTheDate(raw: string, fallback: int, day: int)
    ensures DateOr(raw, fallback) == Some(day) <==> Dated(raw, fallback, day)
  {
    if Dated(raw, fallback, day) && !IsBlank(raw) { DateTextRoundTrip(day); }
    if DateOr(raw, fallback) == Some(day) && !IsBlank(raw) { ParsedDateIsItsText(raw); }
  }

  /** Which error a resolved range gets: the order of its ends first, then the
      future, then the length. */
  lemma CheckDecides(now: nat, limits: Limits, start: int, end: int)
    ensures var most := if limits.maxDays <= 0 then 366 else limits.maxDays;
            var long := most < end - start + 1 && most <= 106751;
            Check(now, limits, start, end) ==
              if end < start then Inverted else if Today(now) < end then InFuture else if long then TooLong else Accepted(start, end)
  {
    if start <= end { CountSaturates(start, end); }
  }

  /** Exactly which ranges are accepted, saturation included: the dates given, or
      for a missing end the day before today or the freshness lag, and for a
      missing start the look-back from the end. */
  lemma AcceptedRanges(now: nat, startRaw: string, endRaw: string, limits: Limits, start: int, end: int)
    ensures var lastDay := Today(now) - (if limits.lag > 1 then limits.lag else 1);
            var most := if limits.maxDays <= 0 then 366 else limits.maxDays;
            Resolve(now, startRaw, endRaw, limits) == Accepted(start, end) <==>
            && Dated(endRaw, lastDay, end) && Dated(startRaw, end - limits.lookback + 1, start)
            && start <= end <= Today(now)
            && (end - start + 1 <= most || 106751 < most)
  {
    DateOrReadsTheDate(endRaw, DefaultEnd(now, limits), end);
    DateOrReadsTheDate(startRaw, end - limits.lookback + 1, start);
    CheckDecides(now, limits, start, end);
  }

  /** The text of some day of the years 0000 to 9999. */
  ghost predicate IsDate(raw: string) {
    exists day: nat :: StorableDay(day) && raw == FormatDate(day)
  }

  lemma ReadableIffDate(raw: string, fallback: int)
    ensures DateOr(raw, fallback).Some? <==> IsBlank(raw) || IsDate(raw)
  {
    if ParseDate(raw).Some? { ParsedDateIsItsText(raw); }
    if IsDate(raw) {
      var day: nat :| StorableDay(day) && raw == FormatDate(day);
      DateTextRoundTrip(day);
    }
  }

  lemma UnreadableIff(now: nat, startRaw: string, endRaw: string, limits: Limits)
    ensures var r := Resolve(now, startRaw, endRaw, limits);
            var endDate := DateOr(endRaw, DefaultEnd(now, limits));
            && (r.BadEndDate? <==> endDate.None?)
            && (r.BadStartDate? <==> endDate.Some? && DateOr(startRaw, endDate.value - limits.lookback + 1).None?)
  {
  }

  /** A date that is given and is none is refused, the end before the start. */
  lemma UnreadableDates(now: nat, startRaw: string, endRaw: string, limits: Limits)
    ensures var r := Resolve(now, startRaw, endRaw, limits);
            var badEnd, badStart := !IsBlank(endRaw) && !IsDate(endRaw), !IsBlank(startRaw) && !IsDate(startRaw);
            (r.BadEndDate? <==> badEnd) && (r.BadStartDate? <==> !badEnd && badStart)
  {
    UnreadableIff(now, startRaw, endRaw, limits);
    var endDate := DateOr(endRaw, DefaultEnd(now, limits));
    ReadableIffDate(endRaw, DefaultEnd(now, limits));
    if endDate.Some? { ReadableIffDate(startRaw, endDate.value - limits.lookback + 1); }
  }

  /** Today is the date the clock shows. */
  lemma TodayIsTheDateShown(now: nat)
    ensures Today(now) >= 0 && |Format(now)| >= 10 && Format(now)[..10] == FormatDate(Today(now))
  {
    DatePart(now);
  }

  ghost predicate ExactOn(now: nat, limits: Limits, startRaw: string, endRaw: string) {
    forall start, end :: Resolve(now, startRaw, endRaw, limits) == Accepted(start, end) <==>
      Asks(now, startRaw, endRaw, limits, start, end) && WithinLimits(now, limits, start, end)
  }

  /** The limit fits in a duration, or no request can reach past the limit. */
  predicate LimitIsEnforceable(now: nat, limits: Limits) {
    var most := EffectiveMax(limits);
    most <= LONGEST || (Today(now) < most && limits.lookback <= most)
  }

  lemma LimitsAgree(now: nat, limits: Limits, startRaw: string, endRaw: string, start: int, end: int)
    requires LimitIsEnforceable(now, limits) && Asks(now, startRaw, endRaw, limits, start, end) && start <= end <= Today(now)
    ensures end - start + 1 <= EffectiveMax(limits) || LONGEST < EffectiveMax(limits) <==> end - start + 1 <= EffectiveMax(limits)
  {
  }

  lemma ExactForRange(now: nat, limits: Limits, startRaw: string, endRaw: string, start: int, end: int)
    requires LimitIsEnforceable(now, limits)
    ensures Resolve(now, startRaw, endRaw, limits) == Accepted(start, end) <==>
            Asks(now, startRaw, endRaw, limits, start, end) && WithinLimits(now, limits, start, end)
  {
    AcceptedRanges(now, startRaw, endRaw, limits, start, end);
    if Asks(now, startRaw, endRaw, limits, start, end) && start <= end <= Today(now) {
      LimitsAgree(now, limits, startRaw, endRaw, start, end);
    }
  }

  lemma EnforceableIsExact(now: nat, limits: Limits, startRaw: string, endRaw: string)
    requires LimitIsEnforceable(now, limits)
    ensures ExactOn(now, limits, startRaw, endRaw)
  {
    forall start, end
      ensures Resolve(now, startRaw, endRaw, limits) == Accepted(start, end) <==>
        Asks(now, startRaw, endRaw, limits, start, end) && WithinLimits(now, limits, start, end)
    {
      ExactForRange(now, limits, startRaw, endRaw, start, end);
    }
  }

  lemma OneDayTooLong(now: nat, limits: Limits, startRaw: string, endRaw: string, start: int, end: int)
    requires Asks(now, startRaw, endRaw, limits, start, end)
    requires start <= end <= Today(now) && LONGEST < EffectiveMax(limits) < end - start + 1
    ensures !ExactOn(now, limits, startRaw, endRaw)
  {
    AcceptedRanges(now, startRaw, endRaw, limits, start, end);
    assert !WithinLimits(now, limits, start, end);
  }

  lemma SpelledDate(day: nat, fallback: int)
    requires StorableDay(day)
    ensures Dated(FormatDate(day), fallback, day)
  {
    var s := FormatDate(day);
    assert s[0] == Pad(DateOf(day).year, YEAR_WIDTH)[0];
    assert IsDigit(s[0]);
  }

  lemma SpelledRangeTooLong(now: nat, limits: Limits, start: nat, end: nat)
    requires Storable(now) && start <= end <= Today(now)
    requires LONGEST < EffectiveMax(limits) < end - start + 1
    ensures !ExactOn(now, limits, FormatDate(start), FormatDate(end))
  {
    SpelledDate(start, end - limits.lookback + 1);
    SpelledDate(end, DefaultEnd(now, limits));
    OneDayTooLong(now, limits, FormatDate(start), FormatDate(end), start, end);
  }

  /** Past a duration's reach, one more day than the limit is accepted. */
  lemma TooLongSlipsThrough(now: nat, limits: Limits) returns (startRaw: string, endRaw: string)
    requires Storable(now) && !LimitIsEnforceable(now, limits)
    ensures !ExactOn(now, limits, startRaw, endRaw)
  {
    var most, end := EffectiveMax(limits), DefaultEnd(now, limits);
    if most <= Today(now) {
      var first := Today(now) - most;
      SpelledRangeTooLong(now, limits, first, Today(now));
      startRaw, endRaw := FormatDate(first), FormatDate(Today(now));
    } else {
      startRaw, endRaw := "", "";
      OneDayTooLong(now, limits, "", "", end - limits.lookback + 1, end);
    }
  }

  /** The length check means what it says for every request exactly when the
      limit is enforceable. */
  lemma LengthCheckIsExact(now: nat, limits: Limits)
    requires Storable(now)
    ensures (forall startRaw, endRaw :: ExactOn(now, limits, startRaw, endRaw))
            <==> LimitIsEnforceable(now, limits)
  {
    if LimitIsEnforceable(now, limits) {
      forall startRaw, endRaw ensures ExactOn(now, limits, startRaw, endRaw) {
        EnforceableIsExact(now, limits, startRaw, endRaw);
      }
    } else {
      var startRaw, endRaw := TooLongSlipsThrough(now, limits);
    }
  }

  /** A request without dates passes iff the look-back window fits. */
  lemma DefaultRange(now: nat, limits: Limits)
    requires limits.lookback > 0
    ensures var r := Resolve(now, "", "", limits);
            var most := if limits.maxDays <= 0 then 366 else limits.maxDays;
            && (r.Accepted? <==> limits.lookback <= most || 106751 < most)
            && (r.Accepted? ==> r.end == Today(now) - (if limits.lag > 1 then limits.lag else 1) && r.end - r.start + 1 == limits.lookback)
  {
    var end := DefaultEnd(now, limits);
    AcceptedRanges(now, "", "", limits, end - limits.lookback + 1, end);
  }
}
