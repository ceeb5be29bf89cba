/**
 * What postSchedule, updateSchedule and deleteSchedule decide, as functions of
 * the request and of the snapshot of the store the handler reads; the ordered
 * list of checks those early-return chains amount to; and the properties of
 * the decisions: which record is written, and that no two bookings of one
 * driver or one professional overlap on a date.
 */
module Booking {
  import opened Wrappers
  import opened JsString
  import opened ScheduleModel
  import opened ScheduleHelpers

  /** The request-body fields the handlers read; None is a key the body lacks. */
  datatype Body = Body(
    professional: Option<string>,
    driver: Option<string>,
    clientName: Option<string>,
    day: Option<string>,
    date: Option<string>,
    startTime: Option<string>,
    endTime: Option<string>,
    destination: Option<string>)

  /** JavaScript truthiness of a string field: present and not empty. */
  predicate Given(f: Option<string>)
  {
    f.Some? && f.value != ""
  }

  /** Every required field except `date` is truthy. */
  predicate OthersGiven(b: Body)
  {
    && Given(b.professional) && Given(b.driver) && Given(b.clientName)
    && Given(b.day) && Given(b.startTime) && Given(b.endTime)
  }

  /** The presence test of postSchedule: every required field is truthy. */
  predicate AllGiven(b: Body)
  {
    OthersGiven(b) && Given(b.date)
  }

  /** `new Date(date)` through the runtime's parser; `new Date(undefined)` is invalid. */
  function DateOf(date: Option<string>, parse: string -> Option<Date>): Option<Date>
  {
    match date
    case None => None
    case Some(text) => parse(text)
  }

  /** The fields are truthy and the date is valid: the point both handlers reach before any lookup. */
  predicate Ready(b: Body, parse: string -> Option<Date>)
  {
    OthersGiven(b) && DateOf(b.date, parse).Some?
  }

  /** The proposed booking, once its fields are known to be there. */
  datatype Candidate = Candidate(
    professional: Id,
    driver: Id,
    clientName: string,
    day: string,
    date: Date,
    startTime: string,
    endTime: string,
    destination: Option<string>)

  function CandidateOf(b: Body, parse: string -> Option<Date>): Candidate
    requires Ready(b, parse)
  {
    Candidate(b.professional.value, b.driver.value, b.clientName.value, b.day.value,
              DateOf(b.date, parse).value, b.startTime.value, b.endTime.value, b.destination)
  }

  /** The state a handler reads: the schedules and the two resource directories. */
  datatype World = World(
    schedules: seq<Schedule>,
    drivers: map<Id, Resource>,
    professionals: map<Id, Resource>)

  /** Why a request is turned down. */
  datatype Rejection =
    | MissingFields             // postSchedule: a required field is falsy
    | InvalidDate               // postSchedule: `new Date(date)` is invalid
    | MissingOrInvalidFields    // updateSchedule: a required field is falsy or the date invalid
    | UnknownResource           // no Professional or no Driver with that id
    | DriverInactive
    | ProfessionalInactive
    | OutsideDriverHours
    | OutsideProfessionalHours
    | IdenticalSchedule
    | DriverBusy
    | ProfessionalBusy
    | SchemaViolation           // save() refused the new document
    | NotFound                  // no schedule with that id

  /** A rejection that is an exception thrown by save(), not a response the handler sends. */
  predicate Thrown(r: Rejection)
  {
    r.SchemaViolation?
  }

  /** The HTTP status of the response the handler sends for a rejection. */
  function Code(r: Rejection): nat
    requires !Thrown(r)
  {
    match r
    case MissingFields => 400
    case InvalidDate => 400
    case MissingOrInvalidFields => 400
    case UnknownResource => 400
    case NotFound => 404
    case _ => 409
  }

  /** A record the scans see: all of them for a create, all but the record itself for an update. */
  predicate Visible(s: Schedule, exclude: Option<nat>)
  {
    exclude.None? || s.id != exclude.value
  }

  predicate IsIdentical(s: Schedule, c: Candidate)
  {
    && s.professional == c.professional && s.driver == c.driver && s.date == c.date
    && s.startTime == c.startTime && s.endTime == c.endTime
  }

  /** Some visible record has the same professional, driver, date, start and end. */
  predicate HasIdentical(ss: seq<Schedule>, c: Candidate, exclude: Option<nat>)
  {
    exists s | s in ss :: Visible(s, exclude) && IsIdentical(s, c)
  }

  /** Some visible same-date record of the candidate's driver overlaps the candidate. */
  predicate DriverBooked(ss: seq<Schedule>, c: Candidate, exclude: Option<nat>)
  {
    exists s | s in ss ::
      Visible(s, exclude) && s.date == c.date && s.driver == c.driver &&
      IsOverlap(s, c.date, c.startTime, c.endTime)
  }

  /** Some visible same-date record of the candidate's professional overlaps the candidate. */
  predicate ProfessionalBooked(ss: seq<Schedule>, c: Candidate, exclude: Option<nat>)
  {
    exists s | s in ss ::
      Visible(s, exclude) && s.date == c.date && s.professional == c.professional &&
      IsOverlap(s, c.date, c.startTime, c.endTime)
  }

  /** The checks against the two resources, in the handlers' order. */
  function Admit(w: World, c: Candidate): Option<Rejection>
  {
    if c.professional !in w.professionals || c.driver !in w.drivers then Some(UnknownResource)
    else
      var pro, drv := w.professionals[c.professional], w.drivers[c.driver];
      if !IsActiveOnDay(drv, c.day) then Some(DriverInactive)
      else if !IsActiveOnDay(pro, c.day) then Some(ProfessionalInactive)
      else if !IsWithinTimeRange(drv.startTime, drv.endTime, c.startTime, c.endTime) then Some(OutsideDriverHours)
      else if !IsWithinTimeRange(pro.startTime, pro.endTime, c.startTime, c.endTime) then Some(OutsideProfessionalHours)
      else None
  }

  /** The checks against the stored schedules, in the handlers' order. */
  function Conflict(ss: seq<Schedule>, c: Candidate, exclude: Option<nat>): Option<Rejection>
  {
    if HasIdentical(ss, c, exclude) then Some(IdenticalSchedule)
    else if DriverBooked(ss, c, exclude) then Some(DriverBusy)
    else if ProfessionalBooked(ss, c, exclude) then Some(ProfessionalBusy)
    else None
  }

  /** The document postSchedule builds. */
  function NewRecord(id: nat, c: Candidate): Schedule
  {
    NewSchedule(id, c.professional, c.driver, c.clientName, c.day, c.date,
                c.startTime, c.endTime, c.destination)
  }

  /** The outcome of postSchedule; newId is the `_id` the new document receives. */
  function PostOutcome(w: World, b: Body, parse: string -> Option<Date>, newId: nat): Result<Schedule, Rejection>
  {
    if !AllGiven(b) then Err(MissingFields)
    else if parse(b.date.value).None? then Err(InvalidDate)
    else
      var c := CandidateOf(b, parse);
      if Admit(w, c).Some? then Err(Admit(w, c).value)
      else if Conflict(w.schedules, c, None).Some? then Err(Conflict(w.schedules, c, None).value)
      else if !Conforms(NewRecord(newId, c)) then Err(SchemaViolation)
      else Ok(NewRecord(newId, c))
  }

  /** findById: the first record with that `_id`. */
  function Lookup(ss: seq<Schedule>, id: nat): (r: Option<Schedule>)
    ensures r.Some? <==> exists s | s in ss :: s.id == id
    ensures r.Some? ==> r.value in ss && r.value.id == id
  {
    if ss == [] then None
    else if ss[0].id == id then Some(ss[0])
    else Lookup(ss[1..], id)
  }

  /**
   * The document findByIdAndUpdate returns: the candidate's fields written
   * over the old ones. A destination the body lacks is not part of the update
   * and keeps its old value; description, service and status are never touched.
   */
  function Revised(prior: Schedule, c: Candidate): Schedule
  {
    prior.(professional := c.professional, driver := c.driver, clientName := c.clientName,
         day := c.day, date := c.date, startTime := c.startTime, endTime := c.endTime,
         destination := if c.destination.Some? then c.destination else prior.destination)
  }

  /** The outcome of updateSchedule for the record `id`. */
  function UpdateOutcome(w: World, id: nat, b: Body, parse: string -> Option<Date>): Result<Schedule, Rejection>
  {
    if !Ready(b, parse) then Err(MissingOrInvalidFields)
    else
      var c := CandidateOf(b, parse);
      if Admit(w, c).Some? then Err(Admit(w, c).value)
      else if Conflict(w.schedules, c, Some(id)).Some? then Err(Conflict(w.schedules, c, Some(id)).value)
      else
        match Lookup(w.schedules, id)
        case None => Err(NotFound)
        case Some(s) => Ok(Revised(s, c))
  }

  /** The outcome of deleteSchedule: the record removed, or NotFound. */
  function DeleteOutcome(ss: seq<Schedule>, id: nat): Result<Schedule, Rejection>
  {
    match Lookup(ss, id)
    case None => Err(NotFound)
    case Some(s) => Ok(s)
  }

  /** The collection after findByIdAndUpdate stored rec in place of the record with its id. */
  function Replaced(ss: seq<Schedule>, rec: Schedule): seq<Schedule>
  {
    seq(|ss|, i requires 0 <= i < |ss| => if ss[i].id == rec.id then rec else ss[i])
  }

  /** The collection without the records of that id. */
  function Without(ss: seq<Schedule>, id: nat): (r: seq<Schedule>)
    ensures forall s :: s in r <==> s in ss && s.id != id
    ensures |r| <= |ss|
  {
    if ss == [] then []
    else if ss[0].id == id then Without(ss[1..], id)
    else [ss[0]] + Without(ss[1..], id)
  }

  ghost predicate DistinctIds(ss: seq<Schedule>)
  {
    forall i, j | 0 <= i < j < |ss| :: ss[i].id != ss[j].id
  }

  /**
   * No two stored schedules of the same driver, or of the same professional,
   * overlap on a date.
   */
  ghost predicate NoDoubleBooking(ss: seq<Schedule>)
  {
    forall a, b | a in ss && b in ss && a.id != b.id && (a.driver == b.driver || a.professional == b.professional) ::
      !Overlaps(a, b)
  }

  // ---------------------------------------------------------------------------
  // The checks as an ordered list

  /** One test of a handler's chain. */
  datatype Check =
    | Presence | DateParse | PresenceAndDate
    | Resources | DriverDay | ProfessionalDay | DriverHours | ProfessionalHours
    | Identical | DriverOverlap | ProfessionalOverlap
    | SchemaDay | RecordExists

  /** The tests against the two fetched resources, in the order both handlers run them. */
  const ResourceChecks: seq<Check> := [Resources, DriverDay, ProfessionalDay, DriverHours, ProfessionalHours]

  /** The tests against the stored schedules, in the order both handlers run them. */
  const ScanChecks: seq<Check> := [Identical, DriverOverlap, ProfessionalOverlap]

  /** The tests of postSchedule, in the order it runs them. */
  const PostChecks: seq<Check> := [Presence, DateParse] + ResourceChecks + ScanChecks + [SchemaDay]

  /** The tests of updateSchedule, in the order it runs them. */
  const UpdateChecks: seq<Check> := [PresenceAndDate] + ResourceChecks + ScanChecks + [RecordExists]

  function Reason(ch: Check): Rejection
  {
    match ch
    case Presence => MissingFields
    case DateParse => InvalidDate
    case PresenceAndDate => MissingOrInvalidFields
    case Resources => UnknownResource
    case DriverDay => DriverInactive
    case ProfessionalDay => ProfessionalInactive
    case DriverHours => OutsideDriverHours
    case ProfessionalHours => OutsideProfessionalHours
    case Identical => IdenticalSchedule
    case DriverOverlap => DriverBusy
    case ProfessionalOverlap => ProfessionalBusy
    case SchemaDay => SchemaViolation
    case RecordExists => NotFound
  }

  /**
   * The test `ch` fails, judged on its own: whenever the values it reads are
   * defined, in terms of the request and the state alone. `target` is the
   * record being updated (None for a create), `newId` the `_id` a created
   * document receives.
   */
  predicate Fails(ch: Check, w: World, b: Body, parse: string -> Option<Date>, target: Option<nat>, newId: nat)
  {
    match ch
    case Presence => !AllGiven(b)
    case DateParse => AllGiven(b) && parse(b.date.value).None?
    case PresenceAndDate => !Ready(b, parse)
    case _ => Ready(b, parse) && StageFails(ch, w, CandidateOf(b, parse), target, newId)
  }

  predicate StageFails(ch: Check, w: World, c: Candidate, target: Option<nat>, newId: nat)
  {
    match ch
    case Resources => c.professional !in w.professionals || c.driver !in w.drivers
    case DriverDay => c.driver in w.drivers && !IsActiveOnDay(w.drivers[c.driver], c.day)
    case ProfessionalDay =>
      c.professional in w.professionals && !IsActiveOnDay(w.professionals[c.professional], c.day)
    case DriverHours =>
      c.driver in w.drivers &&
      !IsWithinTimeRange(w.drivers[c.driver].startTime, w.drivers[c.driver].endTime, c.startTime, c.endTime)
    case ProfessionalHours =>
      c.professional in w.professionals &&
      !IsWithinTimeRange(w.professionals[c.professional].startTime, w.professionals[c.professional].endTime,
                         c.startTime, c.endTime)
    case Identical => HasIdentical(w.schedules, c, target)
    case DriverOverlap => DriverBooked(w.schedules, c, target)
    case ProfessionalOverlap => ProfessionalBooked(w.schedules, c, target)
    case SchemaDay => !Conforms(NewRecord(newId, c))
    case RecordExists => target.Some? && Lookup(w.schedules, target.value).None?
    case _ => false
  }

  /** The reason of the first test in `cs` that fails, if any does. */
  function FirstFailure(cs: seq<Check>, w: World, b: Body, parse: string -> Option<Date>,
                        target: Option<nat>, newId: nat): Option<Rejection>
  {
    if cs == [] then None
    else if Fails(cs[0], w, b, parse, target, newId) then Some(Reason(cs[0]))
    else FirstFailure(cs[1..], w, b, parse, target, newId)
  }
}
