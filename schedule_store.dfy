/**
 * The schedule collection and the three handlers that change it. The store
 * keeps the schedules in insertion order next to the Driver and Professional
 * directories it reads; `nextId` hands out fresh `_id`s.
 */
module ScheduleStore {
  import opened Wrappers
  import opened ScheduleModel
  import opened ScheduleHelpers
  import opened Booking
  import opened BookingProperties

  /** Array.prototype.find, by position: the first element of xs that satisfies p. */
  method FindIndex<T>(xs: seq<T>, p: T -> bool) returns (r: Option<nat>)
    ensures r.None? <==> forall i | 0 <= i < |xs| :: !p(xs[i])
    ensures r.Some? ==> r.value < |xs| && p(xs[r.value]) && forall j | 0 <= j < r.value :: !p(xs[j])
  {
    var i := 0;
    while i < |xs|
      invariant 0 <= i <= |xs|
      invariant forall j | 0 <= j < i :: !p(xs[j])
    {
      if p(xs[i]) {
        return Some(i);
      }
      i := i + 1;
    }
    return None;
  }

  /** The query `Schedule.find({date})`, or `{_id: {$ne: id}, date}` when a record is excluded. */
  function SameDate(ss: seq<Schedule>, date: Date, exclude: Option<nat>): (r: seq<Schedule>)
    ensures forall s :: s in r <==> s in ss && s.date == date && Visible(s, exclude)
  {
    if ss == [] then []
    else
      var rest := SameDate(ss[1..], date, exclude);
      if ss[0].date == date && Visible(ss[0], exclude) then [ss[0]] + rest else rest
  }

  lemma {:induction false} LookupFirst(ss: seq<Schedule>, id: nat, k: nat)
    requires k < |ss| && ss[k].id == id
    requires forall j | 0 <= j < k :: ss[j].id != id
    ensures Lookup(ss, id) == Some(ss[k])
  {
    if k > 0 {
      LookupFirst(ss[1..], id, k - 1);
    }
  }

  /** Cutting out position k > 0 keeps the head in front of the tail with position k - 1 cut out. */
  lemma SpliceBehindHead(ss: seq<Schedule>, k: nat)
    requires 0 < k < |ss|
    ensures ss[..k] + ss[k + 1..] == [ss[0]] + (ss[1..][..k - 1] + ss[1..][k..])
  {
    assert ss[..k] == [ss[0]] + ss[1..][..k - 1];
    assert ss[k + 1..] == ss[1..][k..];
  }

  /** Removal by an id the head does not have keeps the head. */
  lemma WithoutKeepsHead(ss: seq<Schedule>, id: nat)
    requires |ss| > 0 && ss[0].id != id
    ensures Without(ss, id) == [ss[0]] + Without(ss[1..], id)
  {
  }

  /** Cutting out the head whose id no later record has is removal by that id. */
  lemma RemoveHeadIsWithout(ss: seq<Schedule>)
    requires |ss| > 0
    requires forall j | 0 < j < |ss| :: ss[j].id != ss[0].id
    ensures ss[..0] + ss[1..] == Without(ss, ss[0].id)
  {
    var tail := ss[1..];
    forall s | s in tail ensures s.id != ss[0].id {
      var i :| 0 <= i < |tail| && tail[i] == s;
      assert ss[i + 1] == s;
    }
    WithoutAbsent(tail, ss[0].id);
    assert ss[..0] + ss[1..] == tail;
  }

  /** Position k's id is unique in ss, and k > 0: then position k - 1's id is unique in the tail. */
  lemma UniqueInTail(ss: seq<Schedule>, k: nat)
    requires 0 < k < |ss|
    requires forall j | 0 <= j < |ss| && j != k :: ss[j].id != ss[k].id
    ensures forall j | 0 <= j < |ss[1..]| && j != k - 1 :: ss[1..][j].id != ss[1..][k - 1].id
    ensures ss[0].id != ss[k].id
  {
    var tail := ss[1..];
    forall j | 0 <= j < |tail| && j != k - 1 ensures tail[j].id != tail[k - 1].id {
      assert tail[j] == ss[j + 1] && tail[k - 1] == ss[k];
    }
  }

  /** Splicing out position k removes exactly the records with that record's id, when no other record has it. */
  lemma {:induction false} RemoveAtIsWithout(ss: seq<Schedule>, k: nat)
    requires k < |ss|
    requires forall j | 0 <= j < |ss| && j != k :: ss[j].id != ss[k].id
    ensures ss[..k] + ss[k + 1..] == Without(ss, ss[k].id)
  {
    if k == 0 {
      RemoveHeadIsWithout(ss);
    } else {
      UniqueInTail(ss, k);
      RemoveAtIsWithout(ss[1..], k - 1);
      SpliceBehindHead(ss, k);
      WithoutKeepsHead(ss, ss[k].id);
      assert ss[1..][k - 1] == ss[k];
    }
  }

  /** With distinct ids, the id at position k appears at no other position. */
  lemma UniqueAt(ss: seq<Schedule>, k: nat)
    requires k < |ss| && DistinctIds(ss)
    ensures forall j | 0 <= j < |ss| && j != k :: ss[j].id != ss[k].id
  {
    forall j | 0 <= j < |ss| && j != k ensures ss[j].id != ss[k].id {
      if j < k {
        assert ss[j].id != ss[k].id;
      } else {
        assert ss[k].id != ss[j].id;
      }
    }
  }

  /** Cutting out a position keeps ids distinct. */
  lemma SpliceKeepsDistinct(ss: seq<Schedule>, k: nat)
    requires k < |ss| && DistinctIds(ss)
    ensures DistinctIds(ss[..k] + ss[k + 1..])
  {
    var r := ss[..k] + ss[k + 1..];
    assert |r| == |ss| - 1;
    forall i, j | 0 <= i < j < |r| ensures r[i].id != r[j].id {
      var i' := if i < k then i else i + 1;
      var j' := if j < k then j else j + 1;
      assert r[i] == ss[i'] && r[j] == ss[j'];
    }
  }

  /** Cutting out position k of a collection with distinct ids below bound is removal by its id, and keeps both properties. */
  lemma SpliceOut(ss: seq<Schedule>, k: nat, bound: nat)
    requires k < |ss| && DistinctIds(ss)
    requires forall s | s in ss :: s.id < bound
    ensures ss[..k] + ss[k + 1..] == Without(ss, ss[k].id)
    ensures DistinctIds(Without(ss, ss[k].id))
    ensures forall s | s in Without(ss, ss[k].id) :: s.id < bound
  {
    UniqueAt(ss, k);
    RemoveAtIsWithout(ss, k);
    SpliceKeepsDistinct(ss, k);
  }

  /** Writing rec at the position of its id is Replaced, when ids are distinct; the ids stay distinct. */
  lemma ReplaceAt(ss: seq<Schedule>, k: nat, rec: Schedule, bound: nat)
    requires k < |ss| && DistinctIds(ss) && ss[k].id == rec.id
    requires forall s | s in ss :: s.id < bound
    ensures ss[k := rec] == Replaced(ss, rec)
    ensures DistinctIds(ss[k := rec])
    ensures forall s | s in ss[k := rec] :: s.id < bound
  {
    var r := ss[k := rec];
    forall i | 0 <= i < |ss| ensures r[i] == Replaced(ss, rec)[i] {
      if i != k {
        assert ss[i].id != ss[k].id;
      }
    }
    forall i, j | 0 <= i < j < |r| ensures r[i].id != r[j].id {
      assert r[i].id == ss[i].id && r[j].id == ss[j].id;
    }
    forall s | s in r ensures s.id < bound {
      var i :| 0 <= i < |r| && r[i] == s;
      assert s.id == ss[i].id && ss[i] in ss;
    }
  }

  class Store {
    var schedules: seq<Schedule>
    var drivers: map<Id, Resource>
    var professionals: map<Id, Resource>
    var nextId: nat

    /** Every document has its own `_id`, and all of them were handed out before nextId. */
    ghost predicate Valid()
      reads this
    {
      DistinctIds(schedules) && forall s | s in schedules :: s.id < nextId
    }

    /** The snapshot of the store a handler reads. */
    function State(): World
      reads this
    {
      World(schedules, drivers, professionals)
    }

    constructor(drivers: map<Id, Resource>, professionals: map<Id, Resource>)
      ensures Valid()
      ensures schedules == [] && this.drivers == drivers && this.professionals == professionals
    {
      schedules := [];
      this.drivers := drivers;
      this.professionals := professionals;
      nextId := 0;
    }

    /** postSchedule's three scans: findOne for an identical record, then `.find` over the same-date records. */
    method ScanForPost(c: Candidate) returns (r: Option<Rejection>)
      ensures r == Conflict(schedules, c, None)
    {
      var exact := FindIndex(schedules, (s: Schedule) => IsIdentical(s, c));
      if exact.Some? {
        return Some(IdenticalSchedule);
      }
      var sameDay := SameDate(schedules, c.date, None);
      var overlapDriver := FindIndex(sameDay, (s: Schedule) => s.driver == c.driver && IsOverlap(s, c.date, c.startTime, c.endTime));
      if overlapDriver.Some? {
        assert sameDay[overlapDriver.value] in sameDay;
        return Some(DriverBusy);
      }
      var overlapPro := FindIndex(sameDay, (s: Schedule) => s.professional == c.professional && IsOverlap(s, c.date, c.startTime, c.endTime));
      if overlapPro.Some? {
        assert sameDay[overlapPro.value] in sameDay;
        return Some(ProfessionalBusy);
      }
      return None;
    }

    /** updateSchedule's three scans, all by `.find` over the same-date records other than `id`. */
    method ScanForUpdate(c: Candidate, id: nat) returns (r: Option<Rejection>)
      ensures r == Conflict(schedules, c, Some(id))
    {
      var sameDay := SameDate(schedules, c.date, Some(id));
      var duplicate := FindIndex(sameDay, (s: Schedule) =>
        s.professional == c.professional && s.driver == c.driver &&
        s.startTime == c.startTime && s.endTime == c.endTime);
      if duplicate.Some? {
        assert sameDay[duplicate.value] in sameDay;
        return Some(IdenticalSchedule);
      }
      var overlapDriver := FindIndex(sameDay, (s: Schedule) => s.driver == c.driver && IsOverlap(s, c.date, c.startTime, c.endTime));
      if overlapDriver.Some? {
        assert sameDay[overlapDriver.value] in sameDay;
        return Some(DriverBusy);
      }
      var overlapPro := FindIndex(sameDay, (s: Schedule) => s.professional == c.professional && IsOverlap(s, c.date, c.startTime, c.endTime));
      if overlapPro.Some? {
        assert sameDay[overlapPro.value] in sameDay;
        return Some(ProfessionalBusy);
      }
      return None;
    }

    /**
     * postSchedule: on acceptance exactly one document, built from the body,
     * is appended; on any rejection nothing is written.
     */
    method Post(body: Body, parse: string -> Option<Date>) returns (r: Result<Schedule, Rejection>)
      requires Valid()
      modifies this`schedules, this`nextId
      ensures Valid()
      ensures r == PostOutcome(old(State()), body, parse, old(nextId))
      ensures schedules == if r.Ok? then old(schedules) + [r.value] else old(schedules)
      ensures nextId == if r.Ok? then old(nextId) + 1 else old(nextId)
      ensures NoDoubleBooking(old(schedules)) ==> NoDoubleBooking(schedules)
    {
      if !Given(body.professional) || !Given(body.driver) || !Given(body.clientName) || !Given(body.day)
         || !Given(body.date) || !Given(body.startTime) || !Given(body.endTime) {
        return Err(MissingFields);
      }
      var parsedDate := parse(body.date.value);
      if parsedDate.None? {
        return Err(InvalidDate);
      }
      var c := CandidateOf(body, parse);
      var refused := Admit(State(), c);
      if refused.Some? {
        return Err(refused.value);
      }
      var conflict := ScanForPost(c);
      if conflict.Some? {
        return Err(conflict.value);
      }
      var schedule := NewRecord(nextId, c);
      if !Conforms(schedule) {
        return Err(SchemaViolation);
      }
      ghost var before := State();
      if NoDoubleBooking(schedules) {
        PostKeepsNoDoubleBooking(before, body, parse, nextId);
      }
      schedules := schedules + [schedule];
      nextId := nextId + 1;
      return Ok(schedule);
    }

    /**
     * updateSchedule: on acceptance the record with that id is replaced by
     * the revised document and no other record changes; on any rejection,
     * NotFound included, nothing is written.
     */
    method Update(id: nat, body: Body, parse: string -> Option<Date>) returns (r: Result<Schedule, Rejection>)
      requires Valid()
      modifies this`schedules
      ensures Valid()
      ensures r == UpdateOutcome(old(State()), id, body, parse)
      ensures schedules == if r.Ok? then Replaced(old(schedules), r.value) else old(schedules)
      ensures NoDoubleBooking(old(schedules)) ==> NoDoubleBooking(schedules)
    {
      var parsedDate := DateOf(body.date, parse);
      if !Given(body.professional) || !Given(body.driver) || !Given(body.clientName) || !Given(body.day)
         || parsedDate.None? || !Given(body.startTime) || !Given(body.endTime) {
        return Err(MissingOrInvalidFields);
      }
      var c := CandidateOf(body, parse);
      var refused := Admit(State(), c);
      if refused.Some? {
        return Err(refused.value);
      }
      var conflict := ScanForUpdate(c, id);
      if conflict.Some? {
        return Err(conflict.value);
      }
      var k := FindIndex(schedules, (s: Schedule) => s.id == id);
      if k.None? {
        return Err(NotFound);
      }
      ghost var before := State();
      LookupFirst(schedules, id, k.value);
      var updated := Revised(schedules[k.value], c);
      if NoDoubleBooking(schedules) {
        UpdateKeepsNoDoubleBooking(before, id, body, parse);
      }
      ReplaceAt(schedules, k.value, updated, nextId);
      schedules := schedules[k.value := updated];
      return Ok(updated);
    }

    /** deleteSchedule: removes the record with that id and returns it, or answers NotFound and writes nothing. */
    method Delete(id: nat) returns (r: Result<Schedule, Rejection>)
      requires Valid()
      modifies this`schedules
      ensures Valid()
      ensures r == DeleteOutcome(old(schedules), id)
      ensures schedules == if r.Ok? then Without(old(schedules), id) else old(schedules)
      ensures NoDoubleBooking(old(schedules)) ==> NoDoubleBooking(schedules)
    {
      var k := FindIndex(schedules, (s: Schedule) => s.id == id);
      if k.None? {
        return Err(NotFound);
      }
      var deleted := schedules[k.value];
      LookupFirst(schedules, id, k.value);
      SpliceOut(schedules, k.value, nextId);
      if NoDoubleBooking(schedules) {
        DeleteKeepsNoDoubleBooking(schedules, id);
      }
      schedules := schedules[..k.value] + schedules[k.value + 1..];
      return Ok(deleted);
    }
  }
}
