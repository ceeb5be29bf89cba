/**
 * Properties of the handlers' decisions: the order of their checks, the
 * record each one writes, and the no-double-booking invariant.
 */
module BookingProperties {
  import opened Wrappers
  import opened JsString
  import opened ScheduleModel
  import opened ScheduleHelpers
  import opened Booking

  // ---------------------------------------------------------------------------
  // First failure wins

  /** FirstFailure reports a rejection exactly when some test fails, and then that of the first one. */
  lemma {:induction false} FirstFailureIsFirst(cs: seq<Check>, w: World, b: Body, parse: string -> Option<Date>,
                                               target: Option<nat>, newId: nat)
    ensures FirstFailure(cs, w, b, parse, target, newId).None? <==>
            forall i | 0 <= i < |cs| :: !Fails(cs[i], w, b, parse, target, newId)
    ensures FirstFailure(cs, w, b, parse, target, newId).Some? ==> exists i | 0 <= i < |cs| ::
      && FirstFailure(cs, w, b, parse, target, newId) == Some(Reason(cs[i]))
      && Fails(cs[i], w, b, parse, target, newId)
      && forall j | 0 <= j < i :: !Fails(cs[j], w, b, parse, target, newId)
  {
    if cs != [] && !Fails(cs[0], w, b, parse, target, newId) {
      FirstFailureIsFirst(cs[1..], w, b, parse, target, newId);
      var r := FirstFailure(cs[1..], w, b, parse, target, newId);
      if r.Some? {
        var i :| 0 <= i < |cs| - 1 && r == Some(Reason(cs[1..][i])) && Fails(cs[1..][i], w, b, parse, target, newId)
                 && forall j | 0 <= j < i :: !Fails(cs[1..][j], w, b, parse, target, newId);
        assert forall j | 0 <= j < i + 1 :: !Fails(cs[j], w, b, parse, target, newId) by {
          forall j | 0 <= j < i + 1 ensures !Fails(cs[j], w, b, parse, target, newId) {
            if j > 0 {
              assert cs[j] == cs[1..][j - 1];
            }
          }
        }
      } else {
        forall i | 0 <= i < |cs| ensures !Fails(cs[i], w, b, parse, target, newId) {
          if i > 0 {
            assert cs[i] == cs[1..][i - 1];
          }
        }
      }
    }
  }

  /** Running two lists one after the other: the first list's failure if it has one, else the second's. */
  lemma {:induction false} FirstFailureAppend(xs: seq<Check>, ys: seq<Check>, w: World, b: Body,
                                              parse: string -> Option<Date>, target: Option<nat>, newId: nat)
    ensures FirstFailure(xs + ys, w, b, parse, target, newId) ==
            var f := FirstFailure(xs, w, b, parse, target, newId);
            if f.Some? then f else FirstFailure(ys, w, b, parse, target, newId)
  {
    if xs == [] {
      assert xs + ys == ys;
    } else {
      assert (xs + ys)[0] == xs[0];
      assert (xs + ys)[1..] == xs[1..] + ys;
      FirstFailureAppend(xs[1..], ys, w, b, parse, target, newId);
    }
  }

  /** A list of one test fails exactly when that test does. */
  lemma FirstFailureSingle(ch: Check, w: World, b: Body, parse: string -> Option<Date>,
                           target: Option<nat>, newId: nat)
    ensures FirstFailure([ch], w, b, parse, target, newId) ==
            if Fails(ch, w, b, parse, target, newId) then Some(Reason(ch)) else None
  {
    assert [ch][1..] == [];
  }

  /** The five resource tests, run in order, decide as the resource stage Admit does. */
  lemma ResourceChecksAreAdmit(w: World, b: Body, parse: string -> Option<Date>, target: Option<nat>, newId: nat)
    requires Ready(b, parse)
    ensures FirstFailure(ResourceChecks, w, b, parse, target, newId) == Admit(w, CandidateOf(b, parse))
  {
    assert ResourceChecks == [Resources, DriverDay] + [ProfessionalDay, DriverHours] + [ProfessionalHours];
    FirstFailureAppend([Resources, DriverDay] + [ProfessionalDay, DriverHours], [ProfessionalHours],
                       w, b, parse, target, newId);
    FirstFailureAppend([Resources, DriverDay], [ProfessionalDay, DriverHours], w, b, parse, target, newId);
    FirstFailureAppend([Resources], [DriverDay], w, b, parse, target, newId);
    FirstFailureAppend([ProfessionalDay], [DriverHours], w, b, parse, target, newId);
    assert [Resources] + [DriverDay] == [Resources, DriverDay];
    assert [ProfessionalDay] + [DriverHours] == [ProfessionalDay, DriverHours];
    FirstFailureSingle(Resources, w, b, parse, target, newId);
    FirstFailureSingle(DriverDay, w, b, parse, target, newId);
    FirstFailureSingle(ProfessionalDay, w, b, parse, target, newId);
    FirstFailureSingle(DriverHours, w, b, parse, target, newId);
    FirstFailureSingle(ProfessionalHours, w, b, parse, target, newId);
  }

  /** The three scans, run in order, decide as the scan stage Conflict does. */
  lemma ScanChecksAreConflict(w: World, b: Body, parse: string -> Option<Date>, target: Option<nat>, newId: nat)
    requires Ready(b, parse)
    ensures FirstFailure(ScanChecks, w, b, parse, target, newId) == Conflict(w.schedules, CandidateOf(b, parse), target)
  {
    assert ScanChecks == [Identical] + [DriverOverlap] + [ProfessionalOverlap];
    FirstFailureAppend([Identical] + [DriverOverlap], [ProfessionalOverlap], w, b, parse, target, newId);
    FirstFailureAppend([Identical], [DriverOverlap], w, b, parse, target, newId);
    FirstFailureSingle(Identical, w, b, parse, target, newId);
    FirstFailureSingle(DriverOverlap, w, b, parse, target, newId);
    FirstFailureSingle(ProfessionalOverlap, w, b, parse, target, newId);
  }

  /**
   * postSchedule rejects exactly when one of its eleven tests fails, and then
   * with the reason of the first failing test in the order of PostChecks.
   */
  lemma PostFollowsCheckList(w: World, b: Body, parse: string -> Option<Date>, newId: nat)
    ensures PostOutcome(w, b, parse, newId).Err? <==> FirstFailure(PostChecks, w, b, parse, None, newId).Some?
    ensures PostOutcome(w, b, parse, newId).Err? ==>
            PostOutcome(w, b, parse, newId).error == FirstFailure(PostChecks, w, b, parse, None, newId).value
  {
    var front := [Presence, DateParse];
    FirstFailureAppend(front + ResourceChecks + ScanChecks, [SchemaDay], w, b, parse, None, newId);
    FirstFailureAppend(front + ResourceChecks, ScanChecks, w, b, parse, None, newId);
    FirstFailureAppend(front, ResourceChecks, w, b, parse, None, newId);
    FirstFailureAppend([Presence], [DateParse], w, b, parse, None, newId);
    assert [Presence] + [DateParse] == front;
    FirstFailureSingle(Presence, w, b, parse, None, newId);
    FirstFailureSingle(DateParse, w, b, parse, None, newId);
    FirstFailureSingle(SchemaDay, w, b, parse, None, newId);
    if AllGiven(b) && parse(b.date.value).Some? {
      ResourceChecksAreAdmit(w, b, parse, None, newId);
      ScanChecksAreConflict(w, b, parse, None, newId);
    }
  }

  /**
   * updateSchedule rejects exactly when one of its ten tests fails, and then
   * with the reason of the first failing test in the order of UpdateChecks;
   * in particular an unknown id is reported only once all validation passed.
   */
  lemma UpdateFollowsCheckList(w: World, id: nat, b: Body, parse: string -> Option<Date>)
    ensures UpdateOutcome(w, id, b, parse).Err? <==> FirstFailure(UpdateChecks, w, b, parse, Some(id), 0).Some?
    ensures UpdateOutcome(w, id, b, parse).Err? ==>
            UpdateOutcome(w, id, b, parse).error == FirstFailure(UpdateChecks, w, b, parse, Some(id), 0).value
  {
    var front := [PresenceAndDate];
    FirstFailureAppend(front + ResourceChecks + ScanChecks, [RecordExists], w, b, parse, Some(id), 0);
    FirstFailureAppend(front + ResourceChecks, ScanChecks, w, b, parse, Some(id), 0);
    FirstFailureAppend(front, ResourceChecks, w, b, parse, Some(id), 0);
    FirstFailureSingle(PresenceAndDate, w, b, parse, Some(id), 0);
    FirstFailureSingle(RecordExists, w, b, parse, Some(id), 0);
    if Ready(b, parse) {
      ResourceChecksAreAdmit(w, b, parse, Some(id), 0);
      ScanChecksAreConflict(w, b, parse, Some(id), 0);
    }
  }

  // ---------------------------------------------------------------------------
  // Response statuses

  /**
   * postSchedule answers 400 when the body lacks a field, its date does not
   * parse or an id names no resource, and 409 when the request is well formed
   * but clashes with a resource's days or hours or with a stored schedule. The
   * one refusal it does not answer itself is save()'s schema error, thrown
   * only once every other check has passed.
   */
  lemma PostCodes(w: World, b: Body, parse: string -> Option<Date>, newId: nat)
    requires PostOutcome(w, b, parse, newId).Err?
    ensures var e := PostOutcome(w, b, parse, newId).error;
      && (Thrown(e) <==> AllGiven(b) && parse(b.date.value).Some? && Admit(w, CandidateOf(b, parse)).None?
                         && Conflict(w.schedules, CandidateOf(b, parse), None).None?)
      && (!Thrown(e) ==> Code(e) == 400 || Code(e) == 409)
      && (!Thrown(e) ==> (Code(e) == 400 <==>
            !AllGiven(b) || parse(b.date.value).None?
            || b.professional.value !in w.professionals || b.driver.value !in w.drivers))
  {
  }

  /**
   * updateSchedule answers every refusal itself: 400 for a malformed body or
   * an unknown resource id, 404 only when every check passed and no record
   * has the id, and 409 for a clash with a resource or another schedule.
   */
  lemma UpdateCodes(w: World, id: nat, b: Body, parse: string -> Option<Date>)
    requires UpdateOutcome(w, id, b, parse).Err?
    ensures var e := UpdateOutcome(w, id, b, parse).error;
      && !Thrown(e)
      && (Code(e) == 400 || Code(e) == 404 || Code(e) == 409)
      && (Code(e) == 400 <==> !Ready(b, parse) || b.professional.value !in w.professionals || b.driver.value !in w.drivers)
      && (Code(e) == 404 <==> Ready(b, parse) && Admit(w, CandidateOf(b, parse)).None?
                              && Conflict(w.schedules, CandidateOf(b, parse), Some(id)).None?)
      && (Code(e) == 404 ==> forall s | s in w.schedules :: s.id != id)
  {
  }

  /** deleteSchedule's only refusal is 404. */
  lemma DeleteCode(ss: seq<Schedule>, id: nat)
    requires DeleteOutcome(ss, id).Err?
    ensures !Thrown(DeleteOutcome(ss, id).error) && Code(DeleteOutcome(ss, id).error) == 404
    ensures forall s | s in ss :: s.id != id
  {
  }

  // ---------------------------------------------------------------------------
  // What an accepted create writes

  /**
   * An accepted postSchedule builds one document from the request: its
   * fields equal the body's, its date is the parsed date, its status is the
   * default Pending and description and service are absent. The booking lies
   * within both resources' working hours on a day both are active, the
   * document passes schema validation, and no stored record is identical to
   * it or overlaps it on its date for its driver or its professional.
   */
  lemma PostAcceptedRecord(w: World, b: Body, parse: string -> Option<Date>, newId: nat)
    requires PostOutcome(w, b, parse, newId).Ok?
    ensures var rec := PostOutcome(w, b, parse, newId).value;
      && AllGiven(b)
      && parse(b.date.value) == Some(rec.date)
      && rec.id == newId
      && Some(rec.professional) == b.professional && Some(rec.driver) == b.driver
      && Some(rec.clientName) == b.clientName && Some(rec.day) == b.day
      && Some(rec.startTime) == b.startTime && Some(rec.endTime) == b.endTime
      && rec.destination == b.destination
      && rec.description.None? && rec.service.None?
      && rec.status == Pending
      && Conforms(rec)
      && rec.driver in w.drivers && rec.professional in w.professionals
      && IsActiveOnDay(w.drivers[rec.driver], rec.day)
      && IsActiveOnDay(w.professionals[rec.professional], rec.day)
      && IsWithinTimeRange(w.drivers[rec.driver].startTime, w.drivers[rec.driver].endTime, rec.startTime, rec.endTime)
      && IsWithinTimeRange(w.professionals[rec.professional].startTime, w.professionals[rec.professional].endTime,
                           rec.startTime, rec.endTime)
      && forall s | s in w.schedules ::
           && !IsIdentical(s, CandidateOf(b, parse))
           && (s.driver == rec.driver ==> !Overlaps(s, rec))
           && (s.professional == rec.professional ==> !Overlaps(s, rec))
  {
  }

  /**
   * Once the resource checks pass, save()'s schema validation can fail only
   * on the day enumeration: the required fields are already known non-empty.
   */
  lemma SchemaCheckIsDayEnum(w: World, b: Body, parse: string -> Option<Date>, newId: nat)
    requires Ready(b, parse)
    ensures Conforms(NewRecord(newId, CandidateOf(b, parse))) <==> b.day.value in WeekdayNames
  {
  }

  /**
   * An exact duplicate is reported as an identical schedule, even where it
   * also overlaps: the identical-schedule test runs before the overlap scans.
   */
  lemma DuplicateReportedAsIdentical(w: World, b: Body, parse: string -> Option<Date>, newId: nat, s: Schedule)
    requires AllGiven(b) && parse(b.date.value).Some?
    requires Admit(w, CandidateOf(b, parse)).None?
    requires s in w.schedules && IsIdentical(s, CandidateOf(b, parse))
    ensures PostOutcome(w, b, parse, newId) == Err(IdenticalSchedule)
    ensures Less(s.startTime, s.endTime) ==> s.driver == b.driver.value && Overlaps(s, NewRecord(newId, CandidateOf(b, parse)))
  {
  }

  /** Submitting the same create again after it was accepted is refused as an identical schedule. */
  lemma RepostIsIdentical(w: World, b: Body, parse: string -> Option<Date>, newId: nat, laterId: nat)
    requires PostOutcome(w, b, parse, newId).Ok?
    ensures PostOutcome(w.(schedules := w.schedules + [PostOutcome(w, b, parse, newId).value]), b, parse, laterId)
            == Err(IdenticalSchedule)
  {
    var rec := PostOutcome(w, b, parse, newId).value;
    var w' := w.(schedules := w.schedules + [rec]);
    assert rec in w'.schedules && IsIdentical(rec, CandidateOf(b, parse));
  }

  /**
   * Cancelled records still block: the overlap scans do not look at status,
   * so a cancelled booking of the driver that overlaps the candidate makes
   * postSchedule answer that the driver is busy.
   */
  lemma CancelledStillBlocks(w: World, b: Body, parse: string -> Option<Date>, newId: nat, s: Schedule)
    requires AllGiven(b) && parse(b.date.value).Some?
    requires Admit(w, CandidateOf(b, parse)).None?
    requires !HasIdentical(w.schedules, CandidateOf(b, parse), None)
    requires s in w.schedules && s.status == Cancelled && s.driver == b.driver.value
    requires IsOverlap(s, parse(b.date.value).value, b.startTime.value, b.endTime.value)
    ensures PostOutcome(w, b, parse, newId) == Err(DriverBusy)
  {
  }

  /** A create that is accepted keeps the store free of double bookings. */
  lemma PostKeepsNoDoubleBooking(w: World, b: Body, parse: string -> Option<Date>, newId: nat)
    requires NoDoubleBooking(w.schedules)
    requires PostOutcome(w, b, parse, newId).Ok?
    ensures NoDoubleBooking(w.schedules + [PostOutcome(w, b, parse, newId).value])
  {
    var rec := PostOutcome(w, b, parse, newId).value;
    var ss := w.schedules + [rec];
    PostAcceptedRecord(w, b, parse, newId);
    forall x, y | x in ss && y in ss && x.id != y.id && (x.driver == y.driver || x.professional == y.professional)
      ensures !Overlaps(x, y)
    {
      if x == rec && y != rec {
        OverlapsSymmetric(y, x);
      }
    }
  }

  // ---------------------------------------------------------------------------
  // What an accepted update writes

  /**
   * An accepted updateSchedule rewrites the record that had the id: the
   * body's fields and the parsed date replace the old ones, the id, status,
   * description and service stay, and the destination changes only when the
   * body has one. No other stored record is identical to it or overlaps it
   * for its driver or professional.
   */
  lemma UpdateAcceptedRecord(w: World, id: nat, b: Body, parse: string -> Option<Date>)
    requires UpdateOutcome(w, id, b, parse).Ok?
    ensures var rec := UpdateOutcome(w, id, b, parse).value;
      exists prior | prior in w.schedules ::
      && prior.id == id && rec.id == id
      && Ready(b, parse) && DateOf(b.date, parse) == Some(rec.date)
      && Some(rec.professional) == b.professional && Some(rec.driver) == b.driver
      && Some(rec.clientName) == b.clientName && Some(rec.day) == b.day
      && Some(rec.startTime) == b.startTime && Some(rec.endTime) == b.endTime
      && rec.destination == (if b.destination.Some? then b.destination else prior.destination)
      && rec.status == prior.status && rec.description == prior.description && rec.service == prior.service
      && rec.driver in w.drivers && rec.professional in w.professionals
      && IsActiveOnDay(w.drivers[rec.driver], rec.day)
      && IsActiveOnDay(w.professionals[rec.professional], rec.day)
      && IsWithinTimeRange(w.drivers[rec.driver].startTime, w.drivers[rec.driver].endTime, rec.startTime, rec.endTime)
      && IsWithinTimeRange(w.professionals[rec.professional].startTime, w.professionals[rec.professional].endTime,
                           rec.startTime, rec.endTime)
      && forall s | s in w.schedules && s.id != id ::
           && !IsIdentical(s, CandidateOf(b, parse))
           && (s.driver == rec.driver ==> !Overlaps(s, rec))
           && (s.professional == rec.professional ==> !Overlaps(s, rec))
  {
    var prior := Lookup(w.schedules, id).value;
    assert prior in w.schedules;
  }

  lemma ReplacedMembers(ss: seq<Schedule>, rec: Schedule)
    ensures forall x | x in Replaced(ss, rec) :: x == rec || (x in ss && x.id != rec.id)
    ensures forall x | x in ss && x.id != rec.id :: x in Replaced(ss, rec)
  {
    var r := Replaced(ss, rec);
    forall x | x in ss && x.id != rec.id ensures x in r {
      var i :| 0 <= i < |ss| && ss[i] == x;
      assert r[i] == x;
    }
  }

  /** An update that is accepted keeps the store free of double bookings. */
  lemma UpdateKeepsNoDoubleBooking(w: World, id: nat, b: Body, parse: string -> Option<Date>)
    requires NoDoubleBooking(w.schedules)
    requires UpdateOutcome(w, id, b, parse).Ok?
    ensures NoDoubleBooking(Replaced(w.schedules, UpdateOutcome(w, id, b, parse).value))
  {
    var rec := UpdateOutcome(w, id, b, parse).value;
    var ss := Replaced(w.schedules, rec);
    UpdateAcceptedRecord(w, id, b, parse);
    ReplacedMembers(w.schedules, rec);
    forall x, y | x in ss && y in ss && x.id != y.id && (x.driver == y.driver || x.professional == y.professional)
      ensures !Overlaps(x, y)
    {
      if x == rec {
        OverlapsSymmetric(y, x);
      }
    }
  }

  /**
   * A record never conflicts with itself: sending the same update again, to
   * the store the first one produced, is accepted and writes the same record.
   */
  lemma UpdateAgainSucceeds(w: World, id: nat, b: Body, parse: string -> Option<Date>)
    requires UpdateOutcome(w, id, b, parse).Ok?
    ensures var rec := UpdateOutcome(w, id, b, parse).value;
      UpdateOutcome(w.(schedules := Replaced(w.schedules, rec)), id, b, parse) == Ok(rec)
  {
    var rec := UpdateOutcome(w, id, b, parse).value;
    var c := CandidateOf(b, parse);
    var w' := w.(schedules := Replaced(w.schedules, rec));
    UpdateAcceptedRecord(w, id, b, parse);
    assert Conflict(w.schedules, c, Some(id)).None?;
    VisibleUnchanged(w.schedules, rec, c);
    assert Conflict(w'.schedules, c, Some(id)).None?;
    var prior :| prior in w.schedules && prior.id == id;
    var k :| 0 <= k < |w.schedules| && w.schedules[k] == prior;
    assert w'.schedules[k] == rec;
    ReplacedMembers(w.schedules, rec);
    assert Lookup(w'.schedules, id) == Some(rec);
    assert Revised(rec, c) == rec;
  }

  /** The scans that skip rec's id see the same records before and after rec replaced that record. */
  lemma VisibleUnchanged(ss: seq<Schedule>, rec: Schedule, c: Candidate)
    ensures Conflict(Replaced(ss, rec), c, Some(rec.id)) == Conflict(ss, c, Some(rec.id))
  {
    ReplacedMembers(ss, rec);
    var ss' := Replaced(ss, rec);
    assert HasIdentical(ss', c, Some(rec.id)) == HasIdentical(ss, c, Some(rec.id));
    assert DriverBooked(ss', c, Some(rec.id)) == DriverBooked(ss, c, Some(rec.id));
    assert ProfessionalBooked(ss', c, Some(rec.id)) == ProfessionalBooked(ss, c, Some(rec.id));
  }

  // ---------------------------------------------------------------------------
  // Delete

  /**
   * deleteSchedule returns the record with the id when there is one and
   * leaves every other record in place; when the ids are distinct exactly
   * one record goes. An absent id gives NotFound.
   */
  lemma DeleteRemovesRecord(ss: seq<Schedule>, id: nat)
    requires DistinctIds(ss)
    ensures DeleteOutcome(ss, id).Err? <==> forall s | s in ss :: s.id != id
    ensures DeleteOutcome(ss, id).Err? ==> DeleteOutcome(ss, id).error == NotFound && Without(ss, id) == ss
    ensures DeleteOutcome(ss, id).Ok? ==>
            && DeleteOutcome(ss, id).value in ss && DeleteOutcome(ss, id).value.id == id
            && |Without(ss, id)| == |ss| - 1
            && forall s | s in ss :: s in Without(ss, id) <==> s != DeleteOutcome(ss, id).value
  {
    if Lookup(ss, id).Some? {
      var gone := Lookup(ss, id).value;
      WithoutOneFewer(ss, id);
      forall s | s in ss && s.id == id ensures s == gone {
        var i :| 0 <= i < |ss| && ss[i] == s;
        var j :| 0 <= j < |ss| && ss[j] == gone;
        assert i == j;
      }
    } else {
      WithoutAbsent(ss, id);
    }
  }

  lemma {:induction false} WithoutAbsent(ss: seq<Schedule>, id: nat)
    requires forall s | s in ss :: s.id != id
    ensures Without(ss, id) == ss
  {
    if ss != [] {
      WithoutAbsent(ss[1..], id);
      assert ss == [ss[0]] + ss[1..];
    }
  }

  lemma {:induction false} WithoutOneFewer(ss: seq<Schedule>, id: nat)
    requires DistinctIds(ss)
    requires exists s | s in ss :: s.id == id
    ensures |Without(ss, id)| == |ss| - 1
  {
    if ss[0].id == id {
      forall s | s in ss[1..] ensures s.id != id {
        var i :| 0 <= i < |ss[1..]| && ss[1..][i] == s;
        assert ss[i + 1] == s;
      }
      WithoutAbsent(ss[1..], id);
    } else {
      assert DistinctIds(ss[1..]) by {
        forall i, j | 0 <= i < j < |ss[1..]| ensures ss[1..][i].id != ss[1..][j].id {
          assert ss[1..][i] == ss[i + 1] && ss[1..][j] == ss[j + 1];
        }
      }
      var s :| s in ss && s.id == id;
      assert s in ss[1..];
      WithoutOneFewer(ss[1..], id);
    }
  }

  /** Deleting keeps the store free of double bookings. */
  lemma DeleteKeepsNoDoubleBooking(ss: seq<Schedule>, id: nat)
    requires NoDoubleBooking(ss)
    ensures NoDoubleBooking(Without(ss, id))
  {
  }
}
