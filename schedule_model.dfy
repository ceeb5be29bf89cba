/**
 * The Schedule document: its fields, the weekday and status enumerations and
 * the schema validation Mongoose runs when a new document is saved.
 */
module ScheduleModel {
  import opened Wrappers

  /** The text of a reference to a Driver or Professional document. */
  type Id = string

  /**
   * The time value of a valid JavaScript Date. Two valid dates print the same
   * toISOString() text exactly when their time values are equal.
   */
  type Date = int

  datatype Weekday = Monday | Tuesday | Wednesday | Thursday | Friday | Saturday | Sunday

  /** The values the schema's `day` enumeration admits, in its order. */
  const WeekdayNames: seq<string> :=
    ["Monday", "Tuesday", "Wednesday", "Thursday", "Friday", "Saturday", "Sunday"]

  function WeekdayName(d: Weekday): (name: string)
    ensures name in WeekdayNames
  {
    match d
    case Monday => "Monday"
    case Tuesday => "Tuesday"
    case Wednesday => "Wednesday"
    case Thursday => "Thursday"
    case Friday => "Friday"
    case Saturday => "Saturday"
    case Sunday => "Sunday"
  }

  /** The enumeration check on `day`: exact, case-sensitive match of one of the seven names. */
  function ParseWeekday(name: string): (d: Option<Weekday>)
    ensures d.Some? <==> name in WeekdayNames
    ensures d.Some? ==> WeekdayName(d.value) == name
  {
    if name == "Monday" then Some(Monday)
    else if name == "Tuesday" then Some(Tuesday)
    else if name == "Wednesday" then Some(Wednesday)
    else if name == "Thursday" then Some(Thursday)
    else if name == "Friday" then Some(Friday)
    else if name == "Saturday" then Some(Saturday)
    else if name == "Sunday" then Some(Sunday)
    else None
  }

  lemma WeekdayRoundTrip(d: Weekday)
    ensures ParseWeekday(WeekdayName(d)) == Some(d)
  {
  }

  /** The status enumeration; a document that does not set it gets DefaultStatus. */
  datatype Status = Pending | Completed | Cancelled

  const DefaultStatus: Status := Pending

  /**
   * A stored Schedule document. `id` is its `_id`; `day` holds whatever text
   * the handler wrote (see Conforms for when the schema checks it).
   */
  datatype Schedule = Schedule(
    id: nat,
    professional: Id,
    driver: Id,
    clientName: string,
    day: string,
    date: Date,
    startTime: string,
    endTime: string,
    destination: Option<string>,
    description: Option<string>,
    service: Option<string>,
    status: Status)

  /**
   * Schema validation of a document: the required strings and references are
   * non-empty and `day` is one of the enumeration's names. `date` and
   * `status` hold by their types; destination, description and service are
   * optional.
   */
  predicate Conforms(s: Schedule)
  {
    && s.professional != ""
    && s.driver != ""
    && s.clientName != ""
    && ParseWeekday(s.day).Some?
    && s.startTime != ""
    && s.endTime != ""
  }

  /** `new Schedule({...})` with the given fields: description and service absent, status defaulted. */
  function NewSchedule(id: nat, professional: Id, driver: Id, clientName: string, day: string,
                       date: Date, startTime: string, endTime: string,
                       destination: Option<string>): Schedule
  {
    Schedule(id, professional, driver, clientName, day, date, startTime, endTime,
             destination, None, None, DefaultStatus)
  }
}
