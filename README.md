# Schedule booking core, modelled in Dafny

This project models the booking core of a transport-scheduling back end. A
*schedule* books one driver and one professional (the service provider) for a
client, on a calendar date, between a start time and an end time written as
`HH:mm` strings. The three handlers that write schedules are modelled:

- `postSchedule` creates a schedule;
- `updateSchedule` rewrites one by id;
- `deleteSchedule` removes one by id.

Before it writes, a handler checks these, in a fixed order:

1. the body has the required fields and a date that parses;
2. both resources exist;
3. both resources are active on the requested weekday;
4. the window lies inside both resources' working hours;
5. no identical schedule exists;
6. no same-date schedule of the driver, then of the professional, overlaps the window.

The first failing check decides the answer. The role gate in front of the
routes is modelled too.

Modules, one per source concern:

- `JsString` (`js_string.dfy`): JavaScript's `<` and `<=` on strings, which
  compare character by character. Lemma `ClockOrder` shows that on `HH:mm`
  clocks this order agrees with minutes since midnight.
- `ScheduleModel` (`schedule_model.dfy`): the Schedule document of the
  Mongoose schema. It covers the weekday and status enumerations, the
  `Pending` default, and what `save()` validates (`Conforms`).
- `ScheduleHelpers` (`schedule_helpers.dfy`): `isOverlap`,
  `isWithinTimeRange` and `isActiveOnDay`, with lemmas that give them their
  intended meaning:
  - half-open windows that share a minute;
  - inclusive containment;
  - no active days means never active.
- `Booking` (`booking.dfy`): the handlers as pure functions of the store
  snapshot (`PostOutcome`, `UpdateOutcome`, `DeleteOutcome`). It also holds
  the checks as an explicit ordered list (`PostChecks`, `UpdateChecks`)
  evaluated first-failure-wins (`FirstFailure`), and the store invariant
  `NoDoubleBooking`.
- `BookingProperties` (`booking_properties.dfy`): lemmas about those
  functions. They cover:
  - both handlers are their check lists;
  - what an accepted record contains;
  - every write keeps the store free of double bookings;
  - reposting is refused as identical;
  - re-applying an accepted update is accepted again;
  - deletion removes exactly the record.
- `ScheduleStore` (`schedule_store.dfy`): class `Store`, holding the
  schedule collection, the two resource directories and the id counter. Its
  methods `Post`, `Update` and `Delete` run the handlers step by step, with
  the queries (`findOne`, `find`, `Array.prototype.find`) as loops. Each
  method is proved equal to the corresponding outcome function. Each one
  keeps the store's invariant `Valid` (distinct ids, all below the counter)
  and keeps `NoDoubleBooking`.
- `RoleGate` (`check_role.dfy`): the `checkrole(...roles)` middleware.
- `ScheduleRoutes` (`schedule_routes.dfy`): the POST, PUT and DELETE
  schedule routes: the gate, then the handler.
- `ScheduleScenarios` (`schedule_scenarios.dfy`): worked cases of the rules.

Representation choices:

- A date is its JavaScript time value (`int`). Two dates are the same calendar
  instant exactly when their time values are equal, which is what comparing
  `toISOString()` decides.
- `new Date(text)` is a parameter `parse: string -> Option<Date>`, where
  `None` is an invalid date.
- Resource ids are strings.
- Schedule ids are naturals, handed out by the store's counter in creation
  order.
- A request body field is `Option<string>`. `Given` is JavaScript truthiness
  for it: present and non-empty.

## Behaviour as written

The model follows the code, including these points a reader might not expect:

- Cancelled schedules still block: the duplicate and overlap scans read every
  stored schedule whatever its status (`CancelledStillBlocks`).
- The weekday checked against the resources' active days is the `day` the
  caller sends. It is never derived from `date` (`DayCheckIgnoresDate`).
- Nothing checks that the times are well-formed `HH:mm`, or that start comes
  before end. Nothing checks that the professional and the driver are different
  resources (`SameIdForBothRolesIsAdmitted`). No date is refused for lying in
  the past. No length limit applies to the client name, description or service.
- `postSchedule` checks presence and then the date, as two separate answers.
  `updateSchedule` folds both into one answer (`MissingOrInvalidFields`), and an
  absent date counts as an invalid one.
- `postSchedule` looks for an identical schedule across the whole collection.
  `updateSchedule` looks only among the same-date schedules other than the one
  being updated. Both come to the scan `Conflict`, because an identical
  record has the same date anyway.
- `save()` validates the weekday against the enumeration, so an unknown `day`
  is rejected on create, but only after all the other checks
  (`SchemaCheckIsDayEnum`). `findByIdAndUpdate` runs no validators, so an
  update can store any non-empty `day` string.
- An update whose body has no `destination` keeps the stored one
  (`Revised`). This assumes that Mongoose drops keys whose value is
  `undefined` from an update, as Mongoose 6 and later do; the repository pins
  no version, and older versions write `null` instead. An update never touches
  status, description or service (`UpdateAcceptedRecord`).
- The record lookup of `updateSchedule` happens last. An update of a missing id
  therefore answers with the first failing check, and only answers "not found"
  when every check passes.

## Model

| member | source | states |
|---|---|---|
| JsString.Less | app/controllers/schedule.controllers.js:12-13 | definition of JavaScript's `<` on strings: character by character, a proper prefix is below; its meaning is given by LessTrichotomy, LessTransitive and ClockOrder |
| JsString.AtMost | app/controllers/schedule.controllers.js:19 | definition of JavaScript's `<=` on strings as not `b < a`; its meaning is given by AtMostIsLessOrEqual |
| JsString.LessTrichotomy | app/controllers/schedule.controllers.js:12-13 | any two different strings are ordered one way or the other by JavaScript's `<` |
| JsString.LessTransitive | app/controllers/schedule.controllers.js:12-13 | JavaScript's string `<` is transitive |
| JsString.LessIrreflexive | app/controllers/schedule.controllers.js:12-13 | no string is below itself |
| JsString.LessAsymmetric | app/controllers/schedule.controllers.js:12-13 | two strings are never each below the other |
| JsString.AtMostIsLessOrEqual | app/controllers/schedule.controllers.js:19 | `a <= b`, which JavaScript evaluates as not `b < a`, holds exactly when a is below b or equal to it |
| JsString.Minutes | app/models/Schedule.models.js:30-31 | an `HH:mm` clock denotes a minute of the day below 1440 |
| JsString.IsClock | app/models/Schedule.models.js:30-31 | definition of a well-formed `HH:mm` clock: two digits, a colon, two digits, hours below 24 and minutes below 60; Minutes and ClockOrder state what it means |
| JsString.ClockOrder | app/controllers/schedule.controllers.js:9-20 | on well-formed `HH:mm` clocks, string order is exactly the order of minutes since midnight |
| ScheduleModel.Conforms | app/models/Schedule.models.js:5-31 | definition of what `save()` validates: the required strings are non-empty and the day is one of the enumerated names; its meaning on created records is given by SchemaCheckIsDayEnum |
| ScheduleModel.NewSchedule | app/models/Schedule.models.js:5-39 | definition of a new document: the given fields, no description or service, status Pending by default; PostAcceptedRecord states what it holds |
| ScheduleModel.WeekdayName | app/models/Schedule.models.js:16-28 | every weekday's name is one of the seven enumerated names |
| ScheduleModel.ParseWeekday | app/models/Schedule.models.js:16-28 | a string is accepted as a weekday exactly when it is one of the seven names, compared case-sensitively, and then it names that weekday |
| ScheduleModel.WeekdayRoundTrip | app/models/Schedule.models.js:16-28 | reading back a weekday's name gives the same weekday |
| ScheduleHelpers.IsOverlap | app/controllers/schedule.controllers.js:9-15 | definition of `isOverlap`: same date, the stored start below the new end and the new start below the stored end; its meaning is given by OverlapIsSharedMinute and BackToBackDoNotOverlap |
| ScheduleHelpers.IsWithinTimeRange | app/controllers/schedule.controllers.js:18-20 | definition of `isWithinTimeRange`; its meaning is given by WithinIsInclusive and WithinIsMinuteContainment |
| ScheduleHelpers.IsActiveOnDay | app/controllers/schedule.controllers.js:23-25 | definition of `isActiveOnDay`: the activeDays array is present and includes the day; its meaning is given by NoActiveDaysMeansNeverActive and WeekdayCaseMatters |
| ScheduleHelpers.OverlapsSymmetric | app/controllers/schedule.controllers.js:9-15 | whether one schedule overlaps another does not depend on which is taken as the existing one |
| ScheduleHelpers.BackToBackDoNotOverlap | app/controllers/schedule.controllers.js:9-15 | a window starting exactly when another ends, or ending exactly when it starts, does not overlap it |
| ScheduleHelpers.OverlapIsSharedMinute | app/controllers/schedule.controllers.js:9-15 | for clocks with start before end, two windows overlap exactly when they fall on the same date and some minute lies in both half-open windows |
| ScheduleHelpers.WithinIsInclusive | app/controllers/schedule.controllers.js:18-20 | a window is within the hours exactly when the resource's start is below or equal to the window's start and the window's end is below or equal to the resource's end, so both boundaries are admitted |
| ScheduleHelpers.WholeWindowIsWithin | app/controllers/schedule.controllers.js:18-20 | the resource's whole working window is within its own hours |
| ScheduleHelpers.WithinIsMinuteContainment | app/controllers/schedule.controllers.js:18-20 | on clocks, being within hours is exactly minute-wise containment in the closed working window |
| ScheduleHelpers.NoActiveDaysMeansNeverActive | app/controllers/schedule.controllers.js:23-25 | a resource whose activeDays is missing, not an array, or empty is active on no day |
| ScheduleHelpers.ActiveDayIsWeekday | app/controllers/schedule.controllers.js:23-25 | when a resource lists only the schedule's weekday names, it is active only on such a name, and it is active on a day exactly when that day reads as a weekday whose name it lists |
| ScheduleHelpers.Overlaps | app/controllers/schedule.controllers.js:9-15 | definition of two stored schedules overlapping, taking one as the candidate; OverlapsSymmetric states that the choice does not matter |
| Booking.Admit | app/controllers/schedule.controllers.js:56-74 | definition of the resource stage, the same for both handlers (lines 138-156); ResourceChecksAreAdmit ties it to the check list |
| Booking.Conflict | app/controllers/schedule.controllers.js:76-101 | definition of the scan stage, with the updated record excluded for an update (lines 158-183); ScanChecksAreConflict, ScanForPost and ScanForUpdate tie it to the check list and to the queries |
| Booking.PostOutcome | app/controllers/schedule.controllers.js:35-117 | definition of the create outcome; PostFollowsCheckList, PostAcceptedRecord, PostCodes and PostKeepsNoDoubleBooking state its meaning |
| Booking.Revised | app/controllers/schedule.controllers.js:185-198 | definition of the document findByIdAndUpdate returns; UpdateAcceptedRecord states what it holds |
| Booking.UpdateOutcome | app/controllers/schedule.controllers.js:120-206 | definition of the update outcome; UpdateFollowsCheckList, UpdateAcceptedRecord, UpdateCodes and UpdateKeepsNoDoubleBooking state its meaning |
| Booking.DeleteOutcome | app/controllers/schedule.controllers.js:209-216 | definition of the delete outcome; DeleteRemovesRecord and DeleteCode state its meaning |
| Booking.Code | app/controllers/schedule.controllers.js:47-213 | definition of the status each refusal is answered with; PostCodes, UpdateCodes and DeleteCode state what it means for each handler |
| Booking.Lookup | app/controllers/schedule.controllers.js:185-202 | finds a record exactly when one with that id is stored, and the record found is stored and has that id |
| Booking.Without | app/controllers/schedule.controllers.js:210 | what is left holds exactly the stored records of other ids, and is no longer than the collection |
| Booking.Given | app/controllers/schedule.controllers.js:47 | definition of JavaScript truthiness of a string field: present and not empty; PostCodes and UpdateCodes state its role in the 400 answers |
| Booking.OthersGiven | app/controllers/schedule.controllers.js:134 | definition of the presence test shared by both handlers, every required field but `date`; Ready and AllGiven build on it |
| Booking.AllGiven | app/controllers/schedule.controllers.js:47 | definition of postSchedule's presence test, every required field including `date`; PostCodes states that its failure answers 400 |
| Booking.DateOf | app/controllers/schedule.controllers.js:51-52 | definition of `new Date(date)` through the runtime's parser, with `new Date(undefined)` invalid, as updateSchedule meets it at line 133; UpdateCodes states that an invalid date answers 400 |
| Booking.Ready | app/controllers/schedule.controllers.js:133-136 | definition of updateSchedule's combined test: the other fields are truthy and the date parses; UpdateCodes states that its failure answers 400 |
| Booking.CandidateOf | app/controllers/schedule.controllers.js:36-45 | definition of the booking a body proposes, with the parsed date; PostAcceptedRecord and UpdateAcceptedRecord state which fields reach the record |
| Booking.Visible | app/controllers/schedule.controllers.js:158 | definition of the records the scans see: all of them for a create, all but the record itself (`_id: {$ne: id}`) for an update; VisibleUnchanged states that replacing that record does not change what the scans find |
| Booking.IsIdentical | app/controllers/schedule.controllers.js:76-82 | definition of the `findOne` filter: same professional, driver, date, start and end; DuplicateReportedAsIdentical and RepostIsIdentical state its use |
| Booking.HasIdentical | app/controllers/schedule.controllers.js:76-85 | definition of the identical-schedule test over the visible records (lines 160-168 for an update); ScanChecksAreConflict ties it to the check list and ScanForPost to the query |
| Booking.DriverBooked | app/controllers/schedule.controllers.js:87-94 | definition of the driver test: some visible same-date record of the driver overlaps the window (lines 170-176 for an update); CancelledStillBlocks and InnerWindowIsDriverBusy state its use |
| Booking.ProfessionalBooked | app/controllers/schedule.controllers.js:96-101 | definition of the professional test on the same terms (lines 177-183 for an update); ScanChecksAreConflict ties it to the check list |
| Booking.NewRecord | app/controllers/schedule.controllers.js:103-112 | definition of the document postSchedule builds from the candidate and the new id; PostAcceptedRecord and SchemaCheckIsDayEnum state what it holds |
| Booking.Replaced | app/controllers/schedule.controllers.js:185-198 | definition of the collection after findByIdAndUpdate; ReplacedMembers and ReplaceAt state its meaning |
| Booking.Thrown | app/controllers/schedule.controllers.js:114 | definition of the one refusal that is an exception from `save()` rather than a response; PostCodes states when it happens and UpdateCodes that an update never throws |
| Booking.NoDoubleBooking | app/controllers/schedule.controllers.js:87-101 | definition of the store invariant the scans protect: no two records of the same driver or of the same professional overlap; PostKeepsNoDoubleBooking, UpdateKeepsNoDoubleBooking and DeleteKeepsNoDoubleBooking state that each handler keeps it |
| Booking.DistinctIds | app/controllers/schedule.controllers.js:103-114 | definition of every record having its own `_id`; Store.Valid holds it and SpliceOut and ReplaceAt state that the writes keep it |
| Booking.ResourceChecks | app/controllers/schedule.controllers.js:56-74 | definition of the five resource tests in the handlers' order; ResourceChecksAreAdmit states that they give the resource stage's answer |
| Booking.ScanChecks | app/controllers/schedule.controllers.js:76-101 | definition of the three scan tests in the handlers' order; ScanChecksAreConflict states that they give the scan stage's answer |
| Booking.PostChecks | app/controllers/schedule.controllers.js:47-114 | definition of the order of postSchedule's early returns: presence, date, the resource tests, the scan tests, then the schema; PostFollowsCheckList states that the create outcome follows it |
| Booking.UpdateChecks | app/controllers/schedule.controllers.js:134-202 | definition of the order of updateSchedule's early returns: presence and date together, the resource tests, the scan tests, then the lookup; UpdateFollowsCheckList states that the update outcome follows it |
| Booking.Reason | app/controllers/schedule.controllers.js:47-213 | definition of the refusal each test answers with; PostCodes and UpdateCodes state the status each gets |
| Booking.Fails | app/controllers/schedule.controllers.js:47-202 | definition of a test failing, judged on the request and the state alone; FirstFailureIsFirst states how the list uses it |
| Booking.StageFails | app/controllers/schedule.controllers.js:56-202 | definition of a resource, scan, schema or lookup test failing on the candidate; ResourceChecksAreAdmit and ScanChecksAreConflict tie it to the two stages |
| Booking.FirstFailure | app/controllers/schedule.controllers.js:47-202 | definition of running tests in order, the first failure winning, as the early returns do; FirstFailureIsFirst, FirstFailureAppend and FirstFailureSingle state its meaning |
| BookingProperties.FirstFailureIsFirst | app/controllers/schedule.controllers.js:47-101 | evaluating the check list answers none exactly when no check fails; otherwise it answers the reason of one failing check, and every check before it passes |
| BookingProperties.FirstFailureAppend | app/controllers/schedule.controllers.js:47-101 | running one list of checks after another answers the first list's failure if it has one, and otherwise the second list's |
| BookingProperties.FirstFailureSingle | app/controllers/schedule.controllers.js:47-101 | a list of one check fails, with that check's reason, exactly when the check does |
| BookingProperties.ResourceChecksAreAdmit | app/controllers/schedule.controllers.js:56-74 | the five resource checks, in the handlers' order, give the same answer as the resource stage |
| BookingProperties.ScanChecksAreConflict | app/controllers/schedule.controllers.js:76-101 | the identical, driver-overlap and professional-overlap checks, in order, give the same answer as the scan stage |
| BookingProperties.PostFollowsCheckList | app/controllers/schedule.controllers.js:35-117 | postSchedule rejects exactly when one of its eleven ordered checks fails, and the rejection is the first failing check's reason |
| BookingProperties.UpdateFollowsCheckList | app/controllers/schedule.controllers.js:120-206 | updateSchedule rejects exactly when one of its ten ordered checks fails, and the rejection is the first failing check's reason |
| BookingProperties.PostAcceptedRecord | app/controllers/schedule.controllers.js:103-116 | an accepted record carries the body's fields, the parsed date and status Pending. It passes schema validation. Both resources are active that day and hold it within their hours. No stored record is identical to it or overlaps it for the same driver or professional |
| BookingProperties.SchemaCheckIsDayEnum | app/models/Schedule.models.js:5-31 | the only way a body that passes the handler's own checks fails `save()` is a day outside the enumeration |
| BookingProperties.DuplicateReportedAsIdentical | app/controllers/schedule.controllers.js:76-85 | when a stored record is identical, creation answers "identical schedule", although that record, when its window is non-empty, also overlaps the driver's window |
| BookingProperties.RepostIsIdentical | app/controllers/schedule.controllers.js:76-85 | posting the same body again after it was accepted is refused as an identical schedule, so no second record appears |
| BookingProperties.CancelledStillBlocks | app/controllers/schedule.controllers.js:87-94 | a cancelled record of the same driver that overlaps the window still makes creation answer "driver busy" |
| BookingProperties.PostKeepsNoDoubleBooking | app/controllers/schedule.controllers.js:87-116 | appending an accepted record to a store with no double bookings leaves it with none |
| BookingProperties.PostCodes | app/controllers/schedule.controllers.js:47-114 | a refused create answers 400 exactly when a field is missing, the date does not parse or an id names no resource, and 409 otherwise; only the schema error, reached after every other check passes, is thrown instead |
| BookingProperties.UpdateCodes | app/controllers/schedule.controllers.js:134-202 | a refused update answers 400 exactly for a malformed body or an unknown resource id, 404 exactly when every check passed, and then no record has the id, and 409 otherwise |
| BookingProperties.DeleteCode | app/controllers/schedule.controllers.js:210-213 | a refused delete answers 404, and then no record has the id |
| BookingProperties.UpdateAcceptedRecord | app/controllers/schedule.controllers.js:185-198 | an accepted update keeps the record's id, status, description and service, takes the body's other fields and the parsed date, and keeps the destination unless the body gives one. Both resources exist, are active on the record's day and hold it within their hours; no other stored record is identical to it or overlaps it for its driver or professional |
| BookingProperties.ReplacedMembers | app/controllers/schedule.controllers.js:185-198 | after the replacement, every record is the new one or an unchanged record of another id, and every record of another id is still there |
| BookingProperties.UpdateKeepsNoDoubleBooking | app/controllers/schedule.controllers.js:158-198 | replacing a record by an accepted update keeps a store with no double bookings free of them |
| BookingProperties.VisibleUnchanged | app/controllers/schedule.controllers.js:158 | the update's scans, which skip the record being updated, give the same answer before and after that record is replaced |
| BookingProperties.UpdateAgainSucceeds | app/controllers/schedule.controllers.js:158-198 | sending the same update again after it was accepted is accepted and leaves the record as it is |
| BookingProperties.DeleteRemovesRecord | app/controllers/schedule.controllers.js:209-216 | deletion answers "not found" exactly when no record has the id, and then nothing changes; otherwise it returns the stored record and leaves one record fewer |
| BookingProperties.WithoutAbsent | app/controllers/schedule.controllers.js:210-213 | removing an id nobody has leaves the collection as it was |
| BookingProperties.WithoutOneFewer | app/controllers/schedule.controllers.js:210 | with distinct ids, removing a stored id removes exactly one record |
| BookingProperties.DeleteKeepsNoDoubleBooking | app/controllers/schedule.controllers.js:209-216 | deletion keeps a store with no double bookings free of them |
| ScheduleStore.FindIndex | app/controllers/schedule.controllers.js:89-91 | answers the position of the first element satisfying the predicate, or none exactly when no element does |
| ScheduleStore.SameDate | app/controllers/schedule.controllers.js:87 | the query result holds exactly the stored records on that date, other than the excluded one |
| ScheduleStore.LookupFirst | app/controllers/schedule.controllers.js:185 | the lookup by id finds the first stored record with that id |
| ScheduleStore.SpliceBehindHead | app/controllers/schedule.controllers.js:210 | cutting out a later position keeps the first record in front of the rest with that position cut out |
| ScheduleStore.WithoutKeepsHead | app/controllers/schedule.controllers.js:210 | removing an id the first record lacks keeps that record in front |
| ScheduleStore.RemoveHeadIsWithout | app/controllers/schedule.controllers.js:210 | cutting out the first record, when no later record has its id, is removal by that id |
| ScheduleStore.UniqueInTail | app/controllers/schedule.controllers.js:210 | an id found at only one later position is found at only one position of the records after the first, and the first record does not have it |
| ScheduleStore.RemoveAtIsWithout | app/controllers/schedule.controllers.js:210 | when no other record has the id at a position, cutting out that record is the same as removing every record with its id |
| ScheduleStore.UniqueAt | app/controllers/schedule.controllers.js:210 | with distinct ids, the id at a position appears at no other position |
| ScheduleStore.SpliceKeepsDistinct | app/controllers/schedule.controllers.js:210 | cutting out a position keeps ids distinct |
| ScheduleStore.SpliceOut | app/controllers/schedule.controllers.js:210 | with distinct ids below a bound, cutting out a position is removal by its id, and what is left still has distinct ids below the bound |
| ScheduleStore.ReplaceAt | app/controllers/schedule.controllers.js:185-198 | with distinct ids below a bound, overwriting the record at a position with a record of the same id is the replacement by id, and keeps the ids distinct and below the bound |
| ScheduleStore.Store.Valid | app/controllers/schedule.controllers.js:103-114 | definition of the store invariant: distinct ids, all below the next id to hand out; Post, Update, Delete and Dispatch state that it is kept |
| ScheduleStore.Store.State | app/controllers/schedule.controllers.js:56-87 | definition of the snapshot the handlers read: the schedules and the two resource collections; Post, Update and Delete state their answers on it |
| ScheduleStore.Store.ScanForPost | app/controllers/schedule.controllers.js:76-101 | `findOne` over the collection, then `.find` over the same-date records, detect an identical, driver-overlapping or professional-overlapping record in that order |
| ScheduleStore.Store.ScanForUpdate | app/controllers/schedule.controllers.js:158-183 | the same three scans over the same-date records other than the one updated |
| ScheduleStore.Store.Post | app/controllers/schedule.controllers.js:35-117 | answers the create outcome. On acceptance it appends exactly the new record with a fresh id and advances the counter; otherwise it changes neither the collection nor the counter. It keeps ids distinct and keeps the store free of double bookings |
| ScheduleStore.Store.Update | app/controllers/schedule.controllers.js:120-206 | answers the update outcome. On acceptance it replaces exactly the record with that id; otherwise it writes nothing. It keeps ids distinct and keeps the store free of double bookings |
| ScheduleStore.Store.Delete | app/controllers/schedule.controllers.js:209-216 | answers the delete outcome. On success it removes exactly the record with that id; otherwise it writes nothing. It keeps the store free of double bookings |
| RoleGate.Includes | app/middlewares/checkRole.js:3 | `includes` holds exactly when the role is in the list |
| RoleGate.CheckRole | app/middlewares/checkRole.js:1-15 | the request goes on exactly when a user with a role is present and the role is allowed; otherwise the answer is 403 with the fixed message |
| RoleGate.AnonymousIsForbidden | app/middlewares/checkRole.js:3-7 | a request without a user is refused with 403 and the fixed message, whatever roles are allowed |
| RoleGate.EmptyListForbidsEveryone | app/middlewares/checkRole.js:1-8 | a gate allowing no roles refuses every request |
| RoleGate.WiderListAdmitsMore | app/middlewares/checkRole.js:3 | allowing more roles never refuses a request that was let through |
| RoleGate.OnlyTheSetMatters | app/middlewares/checkRole.js:3 | the order and repetition of the allowed roles make no difference |
| RoleGate.ScheduleRoutesGate | app/routes/schedule.routes.js:14-27 | the schedule routes let through exactly the roles `admin` and `superAdmin` |
| RoleGate.CapitalisedRoleIsForbidden | app/routes/schedule.routes.js:14-27 | role names are compared case-sensitively: `Admin` is refused |
| ScheduleRoutes.HandlerOutcome | app/routes/schedule.routes.js:17-27 | definition of which handler a request reaches once past the gate; Dispatch states that a request let through gets it |
| ScheduleRoutes.Dispatch | app/routes/schedule.routes.js:14-27 | a refused request answers 403 and leaves the store unchanged; any other gets the handler's outcome, and the collection is then what that handler leaves: the old one plus the new record, the old one with the record replaced, or the old one without the id, and unchanged after a refusal. The store stays valid and free of double bookings |
| ScheduleScenarios.WorkingHoursBoundary | app/controllers/schedule.controllers.js:69-74 | with hours 09:00-17:00, the window 16:59-17:00 is within them and 17:00-17:01 is not |
| ScheduleScenarios.BackToBackIsFree | app/controllers/schedule.controllers.js:87-101 | a driver booked 10:00-11:00 is free at 11:00-12:00 on the same date |
| ScheduleScenarios.InnerWindowIsDriverBusy | app/controllers/schedule.controllers.js:87-94 | a driver booked 10:00-11:00 is busy for 10:30-10:45 on the same date |
| ScheduleScenarios.DayCheckIgnoresDate | app/controllers/schedule.controllers.js:56-74 | the resource checks do not depend on the date, only on the caller's weekday |
| ScheduleScenarios.SameIdForBothRolesIsAdmitted | app/controllers/schedule.controllers.js:56-74 | the same id used as professional and driver passes the resource checks |
| ScheduleScenarios.WeekdayCaseMatters | app/controllers/schedule.controllers.js:23-25 | `monday` does not match a resource active on `Monday` |

## Left out

- Calendar parsing of the date string is not modelled: `new Date(text)` is a
  parameter of the handlers.
- Body values other than strings are not modelled. `express.json()` also
  admits JSON `null`, numbers, booleans, arrays and objects, and the model
  cannot express them. For example, a PUT with `destination: null` makes
  `findByIdAndUpdate` store `null`. In the model a field is either a string
  or absent, and an absent destination keeps the stored one.
- Mongoose persistence is not modelled: casting, `CastError` on a malformed id,
  `populate`, and the `createdAt`/`updatedAt` timestamps.
- Storage failures are not modelled, and the status of a thrown error is not
  modelled beyond the gate's 403. The error middleware is registered at
  app/app.js:19, before the route mounts at app/app.js:23-25, so an error
  thrown in a schedule route never reaches it. Express's own final handler
  answers instead: with the status already set on the response when that is
  an error status, and with 500 otherwise. The gate sets 403 before it throws
  (app/middlewares/checkRole.js:4-5), so its refusal answers 403. A `save()`
  that fails schema validation (`Thrown`) sets nothing, so it answers 500.
- The not-found middleware registered at app/app.js:20 also comes before the
  routes. Its source is not part of this model, and the model assumes that it
  passes requests on to the routes.
- Console logging and the JSON response bodies are not modelled. Only the
  outcome and, for `Code`, its HTTP status are kept.
- `getSchedules` is not modelled: it is read-only and checks nothing.
- `getScheduleById` is not modelled, and neither is the consequence of its
  absence. The controller does not export it (lines 218-223 of
  app/controllers/schedule.controllers.js), so app/routes/schedule.routes.js:25
  passes `undefined` to `.get(...)`. Express's `Route.get` throws a `TypeError`
  for a handler that is not a function, at the moment the router module loads,
  so the `require` at app/app.js:7 fails and the application as written does
  not start. ScheduleRoutes.Dispatch and RoleGate.ScheduleRoutesGate model the
  write routes as declared at app/routes/schedule.routes.js:14-27, not a server
  that starts.
- Concurrency is not modelled. Each request runs alone on a snapshot of the
  store, so the check-then-write race between two simultaneous requests is
  not captured.
- Token validation is not modelled: it runs before the role gate and is
  represented only by the user it yields. The other routes and controllers
  (users, drivers, professionals, e-mail) are not modelled.
- Strings are sequences of Dafny characters. JavaScript compares UTF-16 code
  units, and the two differ only outside the Basic Multilingual Plane.
- ScheduleHelpers.OverlapIsSharedMinute: stated only for well-formed `HH:mm`
  clocks with start before end. The handlers check neither, and other strings
  have no minute reading.
- BookingProperties.PostKeepsNoDoubleBooking: the invariant `NoDoubleBooking`
  speaks of records with different ids. It is weaker than "no two records
  overlap", because a record trivially overlaps itself.
