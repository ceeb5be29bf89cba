/**
 * The three helpers of the schedule controller: the same-date overlap test,
 * working-hours containment and weekday availability.
 */
module ScheduleHelpers {
  import opened Wrappers
  import opened JsString
  import opened ScheduleModel

  /**
   * The fields of a Driver or Professional document the handlers read.
   * `activeDays` is None when the document's value is missing or is not an array.
   */
  datatype Resource = Resource(startTime: string, endTime: string, activeDays: Option<seq<string>>)

  /** isOverlap(existing, {date, startTime, endTime}). */
  predicate IsOverlap(existing: Schedule, date: Date, startTime: string, endTime: string)
  {
    && existing.date == date
    && Less(existing.startTime, endTime)
    && Less(startTime, existing.endTime)   // existing.endTime > startTime
  }

  /** isWithinTimeRange(start, end, targetStart, targetEnd). */
  predicate IsWithinTimeRange(start: string, end: string, targetStart: string, targetEnd: string)
  {
    AtMost(start, targetStart) && AtMost(targetEnd, end)   // start <= targetStart && end >= targetEnd
  }

  /** isActiveOnDay(entity, day). */
  predicate IsActiveOnDay(entity: Resource, day: string)
  {
    entity.activeDays.Some? && day in entity.activeDays.value
  }

  /** Two stored schedules overlap when either one, taken as the candidate, overlaps the other. */
  predicate Overlaps(a: Schedule, b: Schedule)
  {
    IsOverlap(a, b.date, b.startTime, b.endTime)
  }

  lemma OverlapsSymmetric(a: Schedule, b: Schedule)
    ensures Overlaps(a, b) <==> Overlaps(b, a)
  {
  }

  /** Back-to-back slots, in either order, do not overlap. */
  lemma BackToBackDoNotOverlap(existing: Schedule, date: Date, startTime: string, endTime: string)
    requires startTime == existing.endTime || endTime == existing.startTime
    ensures !IsOverlap(existing, date, startTime, endTime)
  {
    LessIrreflexive(existing.endTime);
    LessIrreflexive(existing.startTime);
  }

  /** `lo <= m < hi`: the minute m lies in the half-open window [lo, hi). */
  predicate Covers(lo: int, hi: int, m: int)
  {
    lo <= m < hi
  }

  /**
   * On well-formed "HH:mm" times and non-empty windows, isOverlap is the
   * half-open interval test: the dates are equal and some minute lies in both
   * windows. (Nothing in the handlers checks startTime < endTime; for an
   * inverted window the two tests differ.)
   */
  lemma OverlapIsSharedMinute(existing: Schedule, date: Date, startTime: string, endTime: string)
    requires IsClock(existing.startTime) && IsClock(existing.endTime)
    requires IsClock(startTime) && IsClock(endTime)
    requires Minutes(existing.startTime) < Minutes(existing.endTime)
    requires Minutes(startTime) < Minutes(endTime)
    ensures IsOverlap(existing, date, startTime, endTime) <==>
            existing.date == date &&
            exists m :: Covers(Minutes(existing.startTime), Minutes(existing.endTime), m) &&
                        Covers(Minutes(startTime), Minutes(endTime), m)
  {
    ClockOrder(existing.startTime, endTime);
    ClockOrder(startTime, existing.endTime);
    var lo := if Minutes(existing.startTime) < Minutes(startTime) then Minutes(startTime)
              else Minutes(existing.startTime);
    if IsOverlap(existing, date, startTime, endTime) {
      assert Covers(Minutes(existing.startTime), Minutes(existing.endTime), lo);
      assert Covers(Minutes(startTime), Minutes(endTime), lo);
    }
  }

  /** isWithinTimeRange is inclusive at both ends. */
  lemma WithinIsInclusive(start: string, end: string, targetStart: string, targetEnd: string)
    ensures IsWithinTimeRange(start, end, targetStart, targetEnd) <==>
            (Less(start, targetStart) || start == targetStart) &&
            (Less(targetEnd, end) || targetEnd == end)
  {
    AtMostIsLessOrEqual(start, targetStart);
    AtMostIsLessOrEqual(targetEnd, end);
  }

  /** A booking window equal to the working hours is within them. */
  lemma WholeWindowIsWithin(start: string, end: string)
    ensures IsWithinTimeRange(start, end, start, end)
  {
    LessIrreflexive(start);
    LessIrreflexive(end);
  }

  /** On well-formed "HH:mm" times, isWithinTimeRange is containment of the minute windows. */
  lemma WithinIsMinuteContainment(start: string, end: string, targetStart: string, targetEnd: string)
    requires IsClock(start) && IsClock(end) && IsClock(targetStart) && IsClock(targetEnd)
    ensures IsWithinTimeRange(start, end, targetStart, targetEnd) <==>
            Minutes(start) <= Minutes(targetStart) && Minutes(targetEnd) <= Minutes(end)
  {
    ClockOrder(targetStart, start);
    ClockOrder(end, targetEnd);
  }

  /** A resource whose activeDays is missing, not an array, or empty is active on no day. */
  lemma NoActiveDaysMeansNeverActive(entity: Resource, day: string)
    requires entity.activeDays.None? || entity.activeDays.value == []
    ensures !IsActiveOnDay(entity, day)
  {
  }

  /**
   * When every entry of a resource's activeDays is one of the schedule's
   * weekday names, the resource is active only on such names, and being active
   * on a day is the same as the weekday that name reads as being listed.
   */
  lemma ActiveDayIsWeekday(entity: Resource, day: string)
    requires entity.activeDays.Some? ==> forall d | d in entity.activeDays.value :: d in WeekdayNames
    ensures IsActiveOnDay(entity, day) ==> day in WeekdayNames
    ensures IsActiveOnDay(entity, day) <==>
              exists w :: ParseWeekday(day) == Some(w) && entity.activeDays.Some? && WeekdayName(w) in entity.activeDays.value
  {
    if IsActiveOnDay(entity, day) {
      var w := ParseWeekday(day).value;
      assert WeekdayName(w) == day;
    }
  }
}
