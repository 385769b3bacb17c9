/** The task routes: every route resolves the caller in optional mode; POST
    and PUT run their schema before the controller; the other routes validate
    no body. */
module TaskRoutes {
  import opened Wrappers
  import opened Environment
  import opened Schema
  import opened Responses
  import opened AuthMiddleware
  import opened ErrorHandler
  import opened TaskValidators
  import opened TaskController

  datatype TaskRoute =
    | ListRoute(statusParam: string, searchParam: string)
    | GetRoute(id: string)
    | CreateRoute
    | UpdateRoute(id: string)
    | DeleteRoute(id: string)

  datatype TaskRequest = TaskRequest(route: TaskRoute, authorization: Option<string>, body: Body)

  /** One request through its route. `freshId` is the identifier the store
      assigns to a created task and `now` the store clock. */
  method HandleTaskRequest(e: Env, s: Store, req: TaskRequest, freshId: string, now: nat)
    returns (s': Store, out: Outcome)
    requires KeysAreIds(s)
    requires req.route.ListRoute? ==> LiteralPattern(req.route.searchParam)
    requires req.route.CreateRoute? ==> freshId !in s
    ensures var user := OptionalAuth(e, req.authorization);
      match req.route
      case ListRoute(st, se) =>
        var q := BuildQuery(st, se, user);
        && s' == s && out.Reply?
        && (OwnerCasts(e, q) ==> out.response.status == 200 && out.response.payload.TaskArray?
                                 && IsListing(s, q, out.response.payload.tasks))
        && (!OwnerCasts(e, q) ==> out.response == HandleError(CastError))
      case GetRoute(id) =>
        s' == s && out == Reply(GetTaskById(e, s, id, user))
      case CreateRoute =>
        if ValidateCreate(e, req.body) != [] then s' == s && out == SchemaRejected(ValidateCreate(e, req.body))
        else
          var (s1, r) := CreateTask(e, s, req.body, user, freshId, now);
          s' == s1 && out == Reply(r)
      case UpdateRoute(id) =>
        if ValidateUpdate(e, req.body) != [] then s' == s && out == SchemaRejected(ValidateUpdate(e, req.body))
        else
          var (s1, r) := UpdateTask(e, s, id, req.body, user, now);
          s' == s1 && out == Reply(r)
      case DeleteRoute(id) =>
        var (s1, r) := DeleteTask(e, s, id, user);
        s' == s1 && out == Reply(r)
    ensures out.Reply? ==> out.response.status != 401
  {
    var user := OptionalAuth(e, req.authorization);
    match req.route {
      case ListRoute(st, se) =>
        var resp := GetTasks(e, s, st, se, user);
        s', out := s, Reply(resp);
      case GetRoute(id) =>
        s', out := s, Reply(GetTaskById(e, s, id, user));
      case CreateRoute =>
        var errs := ValidateCreate(e, req.body);
        if errs != [] {
          s', out := s, SchemaRejected(errs);
        } else {
          var (s1, r) := CreateTask(e, s, req.body, user, freshId, now);
          s', out := s1, Reply(r);
        }
      case UpdateRoute(id) =>
        var errs := ValidateUpdate(e, req.body);
        if errs != [] {
          s', out := s, SchemaRejected(errs);
        } else {
          var (s1, r) := UpdateTask(e, s, id, req.body, user, now);
          s', out := s1, Reply(r);
        }
      case DeleteRoute(id) =>
        var (s1, r) := DeleteTask(e, s, id, user);
        s', out := s1, Reply(r);
    }
  }
}
