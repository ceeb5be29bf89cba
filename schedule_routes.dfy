/**
 * The schedule routes that write: POST /, PUT /:id and DELETE /:id, each
 * behind the role gate for the administrative roles. Token validation runs
 * before the gate and is represented by the user it yields.
 */
module ScheduleRoutes {
  import opened Wrappers
  import opened ScheduleModel
  import opened Booking
  import opened ScheduleStore
  import opened RoleGate

  datatype Request =
    | PostRequest(body: Body)
    | PutRequest(id: nat, body: Body)
    | DeleteRequest(id: nat)

  datatype Response = Refused(verdict: Verdict) | Handled(result: Result<Schedule, Rejection>)

  /** What the handler behind the gate answers for a request on a given store snapshot. */
  function HandlerOutcome(w: World, nextId: nat, req: Request, parse: string -> Option<Date>): Result<Schedule, Rejection>
  {
    match req
    case PostRequest(body) => PostOutcome(w, body, parse, nextId)
    case PutRequest(id, body) => UpdateOutcome(w, id, body, parse)
    case DeleteRequest(id) => DeleteOutcome(w.schedules, id)
  }

  /**
   * Runs the gate, then the handler. A request the gate turns away leaves the
   * store as it was and answers 403; one it lets through gets the handler's outcome.
   */
  method Dispatch(store: Store, user: Option<User>, req: Request, parse: string -> Option<Date>)
    returns (resp: Response)
    requires store.Valid()
    modifies store`schedules, store`nextId
    ensures store.Valid()
    ensures CheckRole(ScheduleRoles, user).Forbidden? ==>
              resp == Refused(Forbidden(403, ForbiddenMessage)) && unchanged(store)
    ensures CheckRole(ScheduleRoles, user).Next? ==>
              resp == Handled(HandlerOutcome(old(store.State()), old(store.nextId), req, parse))
    ensures resp.Handled? ==>
              store.schedules == if resp.result.Err? then old(store.schedules) else
                match req
                case PostRequest(_) => old(store.schedules) + [resp.result.value]
                case PutRequest(_, _) => Replaced(old(store.schedules), resp.result.value)
                case DeleteRequest(id) => Without(old(store.schedules), id)
    ensures resp.Handled? ==>
              store.nextId == if req.PostRequest? && resp.result.Ok? then old(store.nextId) + 1 else old(store.nextId)
    ensures NoDoubleBooking(old(store.schedules)) ==> NoDoubleBooking(store.schedules)
  {
    var verdict := CheckRole(ScheduleRoles, user);
    if verdict.Forbidden? {
      return Refused(verdict);
    }
    var result: Result<Schedule, Rejection>;
    match req {
      case PostRequest(body) =>
        result := store.Post(body, parse);
      case PutRequest(id, body) =>
        result := store.Update(id, body, parse);
      case DeleteRequest(id) =>
        result := store.Delete(id);
    }
    return Handled(result);
  }
}
