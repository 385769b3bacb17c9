/** The task controllers over an in-memory document store: query building
    with status, search and ownership scoping, and create, list, get, update
    and delete with their 404 and error paths. */
module TaskController {
  import opened Wrappers
  import opened Text
  import opened Environment
  import opened Schema
  import opened TaskModel
  import opened TaskValidators
  import opened Responses
  import opened AuthMiddleware
  import opened ErrorHandler

  /** The task collection: documents by identifier. */
  type Store = map<string, Task>

  /** Every document is filed under its own identifier. */
  predicate KeysAreIds(s: Store) {
    forall id :: id in s ==> s[id].id == id
  }

  /** What the store keeps true of all its documents. */
  ghost predicate StoreInvariant(e: Env, s: Store) {
    forall id :: id in s ==> s[id].id == id && WellFormed(s[id]) && e.isObjectId(id)
  }

  /** No document carries a timestamp later than `now`. */
  ghost predicate ClockAfter(s: Store, now: nat) {
    forall id :: id in s ==> s[id].updatedAt <= now
  }

  /** The query filter: exact status name, search text, owner identifier. */
  datatype Query = Query(status: Option<string>, search: Option<string>, owner: Option<string>)

  /** Case-insensitive substring match of `s` in the title or the description. */
  predicate SearchHit(t: Task, s: string) {
    Contains(Lower(t.title), Lower(s)) || Contains(Lower(t.description), Lower(s))
  }

  predicate Matches(q: Query, t: Task) {
    && (q.status.Some? ==> StatusName(t.status) == q.status.value)
    && (q.search.Some? ==> SearchHit(t, q.search.value))
    && (q.owner.Some? ==> t.owner == q.owner)
  }

  /** The filter of the list request: a non-empty `status` parameter filters by
      exact name, a non-empty `search` parameter is trimmed and matched, and an
      authenticated caller is restricted to the tasks it owns. */
  function BuildQuery(statusParam: string, searchParam: string, user: Option<Identity>): Query {
    Query(
      if statusParam != "" then Some(statusParam) else None,
      if searchParam != "" then Some(Trim(searchParam)) else None,
      CallerId(user))
  }

  /** Which tasks a list request selects, stated on the request parameters. */
  lemma BuildQuerySelects(statusParam: string, searchParam: string, user: Option<Identity>, t: Task)
    ensures Matches(BuildQuery(statusParam, searchParam, user), t) <==>
      && (statusParam == "" || StatusName(t.status) == statusParam)
      && (searchParam == "" || SearchHit(t, Trim(searchParam)))
      && (CallerId(user).None? || t.owner == CallerId(user))
  {
  }

  /** A status parameter that is not one of the three names selects nothing. */
  lemma UnknownStatusSelectsNothing(statusParam: string, searchParam: string, user: Option<Identity>, t: Task)
    requires statusParam != "" && statusParam !in StatusNames
    ensures !Matches(BuildQuery(statusParam, searchParam, user), t)
  {
    ParseStatusName(t.status);
  }

  /** The search text is trimmed, so a search of white space only matches every task. */
  lemma BlankSearchMatchesAll(searchParam: string, user: Option<Identity>, t: Task)
    requires AllSpace(searchParam)
    requires CallerId(user).None? || t.owner == CallerId(user)
    ensures Matches(BuildQuery("", searchParam, user), t)
  {
    TrimEmptyIffAllSpace(searchParam);
    assert Lower("") == "";
    assert OccursAt(Lower(t.title), "", 0);
  }

  /** An anonymous caller is not scoped: with no status or search filter every task matches. */
  lemma AnonymousSeesAll(t: Task)
    ensures Matches(BuildQuery("", "", None), t)
  {
  }

  /** Characters that have a meaning in a regular expression. */
  predicate IsRegexMeta(c: char) {
    c in {'.', '^', '$', '*', '+', '?', '(', ')', '[', ']', '{', '}', '|', '\\'}
  }

  /** Search text that a regular expression matches literally. */
  predicate LiteralPattern(s: string) {
    forall i :: 0 <= i < |s| ==> !IsRegexMeta(s[i])
  }

  /** The query casts its owner identifier to the store's identifier shape. */
  predicate OwnerCasts(e: Env, q: Query) {
    q.owner.Some? ==> e.isObjectId(q.owner.value)
  }

  predicate SortedNewestFirst(r: seq<Task>) {
    forall i, j :: 0 <= i < j < |r| ==> r[i].createdAt >= r[j].createdAt
  }

  predicate DistinctIds(r: seq<Task>) {
    forall i, j :: 0 <= i < j < |r| ==> r[i].id != r[j].id
  }

  /** `r` lists exactly the matching documents, each once, newest first. */
  ghost predicate IsListing(s: Store, q: Query, r: seq<Task>) {
    && (forall i :: 0 <= i < |r| ==> r[i].id in s && s[r[i].id] == r[i] && Matches(q, r[i]))
    && (forall id :: id in s && Matches(q, s[id]) ==> s[id] in r)
    && DistinctIds(r)
    && SortedNewestFirst(r)
  }

  /** Where a task goes in a newest-first list: after every task at least as new. */
  function InsertPosition(t: Task, r: seq<Task>): (k: nat)
    ensures k <= |r|
    ensures forall i :: 0 <= i < k ==> r[i].createdAt >= t.createdAt
    ensures k < |r| ==> r[k].createdAt < t.createdAt
  {
    if r == [] || r[0].createdAt < t.createdAt then 0 else 1 + InsertPosition(t, r[1..])
  }

  /** `r` with `t` placed at position `k`. */
  function InsertAt(r: seq<Task>, k: nat, t: Task): (r': seq<Task>)
    requires k <= |r|
    ensures |r'| == |r| + 1
    ensures forall i :: 0 <= i < |r'| ==> r'[i] == if i < k then r[i] else if i == k then t else r[i - 1]
  {
    r[..k] + [t] + r[k..]
  }

  /** A list that already holds the newer tasks, with `t` inserted where it belongs. */
  function InsertNewest(t: Task, r: seq<Task>): seq<Task> {
    InsertAt(r, InsertPosition(t, r), t)
  }

  lemma InsertNewestSorted(t: Task, r: seq<Task>)
    requires SortedNewestFirst(r)
    ensures SortedNewestFirst(InsertNewest(t, r))
  {
    var k := InsertPosition(t, r);
    var r' := InsertNewest(t, r);
    forall i, j | 0 <= i < j < |r'|
      ensures r'[i].createdAt >= r'[j].createdAt
    {
      if j > k && i == k {
        assert r[k].createdAt >= r[j - 1].createdAt;
      }
    }
  }

  lemma InsertNewestDistinct(t: Task, r: seq<Task>)
    requires DistinctIds(r)
    requires forall i :: 0 <= i < |r| ==> r[i].id != t.id
    ensures DistinctIds(InsertNewest(t, r))
  {
  }

  lemma InsertNewestElements(t: Task, r: seq<Task>)
    ensures forall x :: x in InsertNewest(t, r) <==> x == t || x in r
  {
    var k := InsertPosition(t, r);
    var r' := InsertNewest(t, r);
    forall x | x in r
      ensures x in r'
    {
      var i :| 0 <= i < |r| && r[i] == x;
      if i < k {
        assert r'[i] == x;
      } else {
        assert r'[i + 1] == x;
      }
    }
    assert r'[k] == t;
  }

  /** `find(q).sort({createdAt: -1})`. Ties in `createdAt` come out in no
      particular order; this one keeps older insertions first among equals. */
  method FindSorted(s: Store, q: Query) returns (r: seq<Task>)
    requires KeysAreIds(s)
    ensures IsListing(s, q, r)
  {
    var pending := s.Keys;
    r := [];
    while pending != {}
      invariant pending <= s.Keys
      invariant forall i :: 0 <= i < |r| ==> r[i].id in s && s[r[i].id] == r[i] && r[i].id !in pending && Matches(q, r[i])
      invariant forall id :: id in s && id !in pending && Matches(q, s[id]) ==> s[id] in r
      invariant DistinctIds(r)
      invariant SortedNewestFirst(r)
      decreases pending
    {
      var id :| id in pending;
      pending := pending - {id};
      var t := s[id];
      if Matches(q, t) {
        InsertNewestSorted(t, r);
        InsertNewestDistinct(t, r);
        InsertNewestElements(t, r);
        r := InsertNewest(t, r);
      }
    }
  }

  /** GET /api/tasks: 200 with the caller's matching tasks, newest first; a
      caller identifier of the wrong shape fails the query cast (400). */
  method GetTasks(e: Env, s: Store, statusParam: string, searchParam: string, user: Option<Identity>)
    returns (resp: Response)
    requires KeysAreIds(s)
    requires LiteralPattern(searchParam)
    ensures var q := BuildQuery(statusParam, searchParam, user);
      && (!OwnerCasts(e, q) ==> resp == HandleError(CastError))
      && (OwnerCasts(e, q) ==> resp.status == 200 && resp.payload.TaskArray? && IsListing(s, q, resp.payload.tasks))
  {
    var q := BuildQuery(statusParam, searchParam, user);
    if !OwnerCasts(e, q) {
      return HandleError(CastError);
    }
    var tasks := FindSorted(s, q);
    return Response(200, TaskArray(tasks));
  }

  /** The caller may see the task: anonymous callers see every task,
      authenticated callers only their own. */
  predicate Visible(user: Option<Identity>, t: Task) {
    CallerId(user).None? || t.owner == CallerId(user)
  }

  /** A single-document query `{_id: id, userId?}` casts both identifiers. */
  predicate IdQueryCasts(e: Env, id: string, user: Option<Identity>) {
    e.isObjectId(id) && (CallerId(user).Some? ==> e.isObjectId(CallerId(user).value))
  }

  /** The document a single-document query finds. */
  predicate Found(s: Store, id: string, user: Option<Identity>) {
    id in s && Visible(user, s[id])
  }

  /** POST /api/tasks, after the create schema: the owner is the caller's id
      exactly when the caller is authenticated; the document layer trims and
      defaults the fields and either stores the task (201) or rejects it (500). */
  function CreateTask(e: Env, s: Store, body: Body, user: Option<Identity>, freshId: string, now: nat)
    : (out: (Store, Response))
    requires ValidateCreate(e, body) == []
    requires freshId !in s
    ensures var d := DraftOf(body).(owner := CallerId(user));
      && (Storable(e, d) ==> out == (s[freshId := Normalize(e, d, freshId, now).value],
                                     Response(201, OneTask(Normalize(e, d, freshId, now).value))))
      && (!Storable(e, d) ==> out.0 == s && out.1.status == 500)
    ensures out.1.status == 201 ==> out.1.payload.OneTask? && out.1.payload.task.owner == CallerId(user)
  {
    var d := DraftOf(body).(owner := CallerId(user));
    match Normalize(e, d, freshId, now)
    case Err(paths) => (s, HandleError(ValidationError(paths)))
    case Ok(t) => (s[freshId := t], Response(201, OneTask(t)))
  }

  /** GET /api/tasks/:id: the task when it exists and the caller may see it,
      otherwise 404 "Task not found"; an identifier of the wrong shape is 400. */
  function GetTaskById(e: Env, s: Store, id: string, user: Option<Identity>): (resp: Response)
    ensures !IdQueryCasts(e, id, user) ==> resp == Response(400, Message("Invalid ID format"))
    ensures IdQueryCasts(e, id, user) && Found(s, id, user) ==> resp == Response(200, OneTask(s[id]))
    ensures IdQueryCasts(e, id, user) && !Found(s, id, user) ==> resp == TaskNotFound
  {
    if !IdQueryCasts(e, id, user) then HandleError(CastError)
    else if Found(s, id, user) then Response(200, OneTask(s[id]))
    else TaskNotFound
  }

  /** PUT /api/tasks/:id, after the update schema: identifiers are cast first,
      then the update validators run on the fields set, then the task is found
      and patched (200), or not found (404). */
  function UpdateTask(e: Env, s: Store, id: string, body: Body, user: Option<Identity>, now: nat)
    : (out: (Store, Response))
    requires ValidateUpdate(e, body) == []
    ensures !IdQueryCasts(e, id, user) ==> out == (s, Response(400, Message("Invalid ID format")))
    ensures IdQueryCasts(e, id, user) && !Patchable(e, DraftOf(body)) ==> out.0 == s && out.1.status == 500
    ensures IdQueryCasts(e, id, user) && Patchable(e, DraftOf(body)) && !Found(s, id, user) ==>
      out == (s, TaskNotFound)
    ensures IdQueryCasts(e, id, user) && Patchable(e, DraftOf(body)) && Found(s, id, user) ==>
      var t := ApplyPatch(s[id], DraftOf(body), now);
      && out == (s[id := t], Response(200, OneTask(t)))
      && t.owner == s[id].owner
  {
    if !IdQueryCasts(e, id, user) then (s, HandleError(CastError))
    else
      var d := DraftOf(body);
      var failures := PatchFailures(e, d);
      if failures != [] then (s, HandleError(ValidationError(failures)))
      else if Found(s, id, user) then
        var t := ApplyPatch(s[id], d, now);
        (s[id := t], Response(200, OneTask(t)))
      else (s, TaskNotFound)
  }

  /** DELETE /api/tasks/:id: removes the task when it exists and the caller may
      see it and answers {message: "Task deleted"}, otherwise 404. */
  function DeleteTask(e: Env, s: Store, id: string, user: Option<Identity>): (out: (Store, Response))
    ensures !IdQueryCasts(e, id, user) ==> out == (s, Response(400, Message("Invalid ID format")))
    ensures IdQueryCasts(e, id, user) && Found(s, id, user) ==>
      out == (s - {id}, Response(200, Message("Task deleted")))
    ensures IdQueryCasts(e, id, user) && !Found(s, id, user) ==> out == (s, TaskNotFound)
  {
    if !IdQueryCasts(e, id, user) then (s, HandleError(CastError))
    else if Found(s, id, user) then (s - {id}, Response(200, Message("Task deleted")))
    else (s, TaskNotFound)
  }

  /** For a body the create schema accepted, the document layer refuses it
      exactly when the title is white space only or the caller id has the wrong shape. */
  lemma CreateSucceedsIff(e: Env, s: Store, body: Body, user: Option<Identity>, freshId: string, now: nat)
    requires ValidateCreate(e, body) == []
    requires freshId !in s
    ensures CreateTask(e, s, body, user, freshId, now).1.status == 201 <==>
      && !AllSpace(body["title"].s)
      && (CallerId(user).Some? ==> e.isObjectId(CallerId(user).value))
  {
    var title := body["title"].s;
    TrimEmptyIffAllSpace(title);
    TrimShape(title);
    JsLengthTrim(title);
    if "description" in body {
      TrimShape(body["description"].s);
      JsLengthTrim(body["description"].s);
    }
  }

  /** A task created by a caller can be fetched back by the same caller under
      the new identifier, unchanged. */
  lemma CreateThenGet(e: Env, s: Store, body: Body, user: Option<Identity>, freshId: string, now: nat)
    requires ValidateCreate(e, body) == []
    requires freshId !in s && e.isObjectId(freshId)
    requires CreateTask(e, s, body, user, freshId, now).1.status == 201
    ensures var (s', resp) := CreateTask(e, s, body, user, freshId, now);
      GetTaskById(e, s', freshId, user) == Response(200, OneTask(resp.payload.task))
  {
  }

  /** Create keeps every document well formed and filed under its own identifier. */
  lemma CreatePreservesInvariant(e: Env, s: Store, body: Body, user: Option<Identity>, freshId: string, now: nat)
    requires StoreInvariant(e, s)
    requires ValidateCreate(e, body) == [] && freshId !in s && e.isObjectId(freshId)
    ensures StoreInvariant(e, CreateTask(e, s, body, user, freshId, now).0)
  {
  }

  /** Update keeps the invariant, given a clock reading no earlier than any stored timestamp. */
  lemma UpdatePreservesInvariant(e: Env, s: Store, id: string, body: Body, user: Option<Identity>, now: nat)
    requires StoreInvariant(e, s) && ClockAfter(s, now)
    requires ValidateUpdate(e, body) == []
    ensures StoreInvariant(e, UpdateTask(e, s, id, body, user, now).0)
  {
    if IdQueryCasts(e, id, user) && Patchable(e, DraftOf(body)) && Found(s, id, user) {
      PatchPreservesWellFormed(e, s[id], DraftOf(body), now);
      var t := ApplyPatch(s[id], DraftOf(body), now);
      assert UpdateTask(e, s, id, body, user, now).0 == s[id := t];
    }
  }

  /** Delete keeps the invariant. */
  lemma DeletePreservesInvariant(e: Env, s: Store, id: string, user: Option<Identity>)
    requires StoreInvariant(e, s)
    ensures StoreInvariant(e, DeleteTask(e, s, id, user).0)
  {
  }

  /** A successful delete removes exactly that one task and leaves every other
      task as it was; deleting the same identifier again answers 404 and changes nothing. */
  lemma DeleteOnce(e: Env, s: Store, id: string, user: Option<Identity>)
    requires DeleteTask(e, s, id, user).1.status == 200
    ensures var s' := DeleteTask(e, s, id, user).0;
      && id in s && id !in s' && |s'| == |s| - 1
      && (forall other :: other != id ==> (other in s' <==> other in s) && (other in s ==> s'[other] == s[other]))
      && DeleteTask(e, s', id, user) == (s', TaskNotFound)
  {
    var s' := s - {id};
    assert s'.Keys == s.Keys - {id};
  }

  /** A task owned by one user is out of reach of every other authenticated
      user: get, update and delete answer exactly as if the task did not exist. */
  lemma ForeignTaskLooksAbsent(e: Env, s: Store, id: string, body: Body, user: Option<Identity>, now: nat)
    requires id in s && s[id].owner.Some?
    requires CallerId(user).Some? && CallerId(user) != s[id].owner
    ensures GetTaskById(e, s, id, user) == GetTaskById(e, s - {id}, id, user)
    ensures DeleteTask(e, s, id, user).1 == DeleteTask(e, s - {id}, id, user).1
    ensures DeleteTask(e, s, id, user).0 == s
    ensures ValidateUpdate(e, body) == [] ==>
      UpdateTask(e, s, id, body, user, now).1 == UpdateTask(e, s - {id}, id, body, user, now).1
      && UpdateTask(e, s, id, body, user, now).0 == s
  {
  }

  /** An anonymous caller reaches every task, whoever owns it. */
  lemma AnonymousReachesAll(e: Env, s: Store, id: string)
    requires id in s && e.isObjectId(id)
    ensures GetTaskById(e, s, id, None) == Response(200, OneTask(s[id]))
    ensures DeleteTask(e, s, id, None).1 == Response(200, Message("Task deleted"))
  {
  }
}
