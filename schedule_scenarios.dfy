/**
 * Worked cases of the booking rules, stated on the functions the handlers are
 * proved against.
 */
module ScheduleScenarios {
  import opened Wrappers
  import opened JsString
  import opened ScheduleModel
  import opened ScheduleHelpers
  import opened Booking

  const Week := ["Monday", "Tuesday", "Wednesday", "Thursday", "Friday"]

  /** Working hours 09:00-17:00 admit 16:59-17:00 and turn away 17:00-17:01. */
  lemma WorkingHoursBoundary()
    ensures IsWithinTimeRange("09:00", "17:00", "16:59", "17:00")
    ensures !IsWithinTimeRange("09:00", "17:00", "17:00", "17:01")
  {
    ClockOrder("16:59", "09:00");
    ClockOrder("17:00", "17:00");
    ClockOrder("17:00", "09:00");
    ClockOrder("17:00", "17:01");
  }

  function Booked(id: nat, driver: Id, professional: Id, start: string, end: string, status: Status): Schedule
  {
    Schedule(id, professional, driver, "Ana", "Monday", 0, start, end, None, None, None, status)
  }

  /** A driver booked 10:00-11:00 can take 11:00-12:00 on the same date with another professional. */
  lemma BackToBackIsFree()
    ensures Conflict([Booked(1, "d", "p", "10:00", "11:00", Pending)],
                     Candidate("q", "d", "Bea", "Monday", 0, "11:00", "12:00", None), None).None?
  {
    var s := Booked(1, "d", "p", "10:00", "11:00", Pending);
    var c := Candidate("q", "d", "Bea", "Monday", 0, "11:00", "12:00", None);
    assert !IsIdentical(s, c) by { assert "q" != "p"; }
    BackToBackDoNotOverlap(s, c.date, c.startTime, c.endTime);
    assert !DriverBooked([s], c, None);
    assert !ProfessionalBooked([s], c, None) by { assert "q" != "p"; }
  }

  /** A driver booked 10:00-11:00 cannot take 10:30-10:45 on the same date. */
  lemma InnerWindowIsDriverBusy()
    ensures Conflict([Booked(1, "d", "p", "10:00", "11:00", Pending)],
                     Candidate("q", "d", "Bea", "Monday", 0, "10:30", "10:45", None), None) == Some(DriverBusy)
  {
    var s := Booked(1, "d", "p", "10:00", "11:00", Pending);
    var c := Candidate("q", "d", "Bea", "Monday", 0, "10:30", "10:45", None);
    assert !IsIdentical(s, c) by { assert "q" != "p"; }
    ClockOrder("10:00", "10:45");
    ClockOrder("10:30", "11:00");
    assert IsOverlap(s, c.date, c.startTime, c.endTime);
    assert DriverBooked([s], c, None) by { assert s in [s]; }
  }

  /**
   * The resource checks read the weekday the caller sent; the date plays no
   * part in them.
   */
  lemma DayCheckIgnoresDate(w: World, c: Candidate, date: Date)
    ensures Admit(w, c.(date := date)) == Admit(w, c)
  {
  }

  /**
   * Nothing stops a booking whose professional id and driver id are the same
   * string, when both directories hold a resource under that id.
   */
  lemma SameIdForBothRolesIsAdmitted()
    ensures Admit(World([], map["x" := Resource("08:00", "18:00", Some(Week))],
                            map["x" := Resource("08:00", "18:00", Some(Week))]),
                  Candidate("x", "x", "Ana", "Monday", 0, "09:00", "10:00", None)).None?
  {
    ClockOrder("09:00", "08:00");
    ClockOrder("18:00", "10:00");
    assert "Monday" in Week;
  }

  /** A lower-case weekday passes no resource whose days are spelt with capitals. */
  lemma WeekdayCaseMatters()
    ensures !IsActiveOnDay(Resource("08:00", "18:00", Some(Week)), "monday")
  {
    assert forall d | d in Week :: d[0] != 'm';
  }
}
