/** The request-body schemas for creating and updating a task, and the
    conversion of an accepted body into the draft handed to the document layer. */
module TaskValidators {
  import opened Wrappers
  import opened Text
  import opened Environment
  import opened Schema
  import opened TaskModel

  const TaskKeys: set<string> := {"title", "description", "status", "dueDate"}

  /** Create: title a string of 1..120 characters and dueDate an ISO date, both
      required; description a string of at most 2000 characters, "" allowed;
      status one of the three names; nothing else. */
  ghost predicate CreateAccepts(e: Env, b: Body) {
    && b.Keys <= TaskKeys
    && "title" in b && b["title"].Text? && b["title"].s != "" && JsLength(b["title"].s) <= TitleMax
    && ("description" in b ==> b["description"].Text? && JsLength(b["description"].s) <= DescriptionMax)
    && ("status" in b ==> b["status"].Text? && b["status"].s in StatusNames)
    && "dueDate" in b && b["dueDate"].Text? && b["dueDate"].s != "" && e.isIsoDate(b["dueDate"].s)
  }

  /** Update: the same per-field rules with every field optional, nothing
      else, and at least one key. */
  ghost predicate UpdateAccepts(e: Env, b: Body) {
    && b.Keys <= TaskKeys
    && |b| >= 1
    && ("title" in b ==> b["title"].Text? && b["title"].s != "" && JsLength(b["title"].s) <= TitleMax)
    && ("description" in b ==> b["description"].Text? && JsLength(b["description"].s) <= DescriptionMax)
    && ("status" in b ==> b["status"].Text? && b["status"].s in StatusNames)
    && ("dueDate" in b ==> b["dueDate"].Text? && b["dueDate"].s != "" && e.isIsoDate(b["dueDate"].s))
  }

  function TaskFieldErrors(e: Env, b: Body, create: bool): seq<FieldError> {
    StringErrors("title", Get(b, "title"), create, false, 1, TitleMax)
    + StringErrors("description", Get(b, "description"), false, true, 0, DescriptionMax)
    + OneOfErrors("status", Get(b, "status"), false, StatusNames)
    + IsoDateErrors("dueDate", Get(b, "dueDate"), create, e.isIsoDate)
    + UnknownKeyErrors(b, TaskKeys)
  }

  /** The create schema: lists every violated rule; empty exactly when the body is acceptable. */
  function ValidateCreate(e: Env, b: Body): (errs: seq<FieldError>)
    ensures errs == [] <==> CreateAccepts(e, b)
  {
    TaskFieldErrors(e, b, true)
  }

  /** The update schema: as for create with every field optional, plus the
      at-least-one-key rule. */
  function ValidateUpdate(e: Env, b: Body): (errs: seq<FieldError>)
    ensures errs == [] <==> UpdateAccepts(e, b)
  {
    TaskFieldErrors(e, b, false) + (if |b| == 0 then [NoKeys] else [])
  }

  /** The draft built from a request body: the four task fields as given, and
      no owner, since no body field is ever read as the owner. */
  function DraftOf(b: Body): (d: Draft)
    ensures d.title.Some? <==> "title" in b && b["title"].Text?
    ensures d.title.Some? ==> b["title"] == Text(d.title.value)
    ensures d.description.Some? <==> "description" in b && b["description"].Text?
    ensures d.description.Some? ==> b["description"] == Text(d.description.value)
    ensures d.status.Some? <==> "status" in b && b["status"].Text?
    ensures d.status.Some? ==> b["status"] == Text(d.status.value)
    ensures d.dueDate.Some? <==> "dueDate" in b && b["dueDate"].Text?
    ensures d.dueDate.Some? ==> b["dueDate"] == Text(d.dueDate.value)
    ensures d.owner == None
  {
    Draft(TextOf(Get(b, "title")), TextOf(Get(b, "description")), TextOf(Get(b, "status")),
          TextOf(Get(b, "dueDate")), None)
  }

  /** Neither schema admits a `userId` key, so an accepted body cannot choose the owner. */
  lemma NoOwnerInValidatedBody(e: Env, b: Body)
    requires ValidateCreate(e, b) == [] || ValidateUpdate(e, b) == []
    ensures "userId" !in b
  {
  }

  /** Every acceptable create body is also an acceptable update body. */
  lemma CreateBodyIsUpdateBody(e: Env, b: Body)
    requires ValidateCreate(e, b) == []
    ensures ValidateUpdate(e, b) == []
  {
    assert "title" in b;
  }

  /** An update body with no recognised key is rejected, whatever else it holds. */
  lemma UpdateNeedsRecognisedKey(e: Env, b: Body)
    requires b.Keys * TaskKeys == {}
    ensures ValidateUpdate(e, b) != []
  {
    if |b| >= 1 {
      var k :| k in b.Keys;
      assert k !in b.Keys * TaskKeys;
      assert k !in TaskKeys;
    }
  }

  /** An accepted update body yields a draft that sets exactly the fields the
      body names, each to the text given, and no owner. */
  lemma UpdateDraftFields(e: Env, b: Body)
    requires ValidateUpdate(e, b) == []
    ensures var d := DraftOf(b);
      && (d.title.Some? <==> "title" in b)
      && (d.description.Some? <==> "description" in b)
      && (d.status.Some? <==> "status" in b)
      && (d.dueDate.Some? <==> "dueDate" in b)
      && d.owner.None?
  {
  }

  /** A title that is white space only passes the schema (its length is at least 1)
      but not the document layer, which trims it to "" and then requires it. */
  lemma BlankTitlePassesSchemaOnly(e: Env, due: string, id: string, now: nat)
    requires e.isIsoDate(due) && due != ""
    ensures var b := map["title" := Text(" "), "dueDate" := Text(due)];
      && ValidateCreate(e, b) == []
      && Normalize(e, DraftOf(b), id, now).Err?
  {
    var b := map["title" := Text(" "), "dueDate" := Text(due)];
    assert b.Keys == {"title", "dueDate"};
    assert Trim(" ") == "";
  }

  /** Length bounds count UTF-16 code units: 61 copies of an emoji outside the
      Basic Multilingual Plane are 61 characters but 122 code units, so the
      title is too long, while 60 of them (120 code units) are accepted. */
  lemma AstralTitleCountsCodeUnits(e: Env, due: string)
    requires e.isIsoDate(due) && due != ""
    ensures var long := seq(61, _ => '\U{1F600}');
      && |long| <= TitleMax
      && ValidateCreate(e, map["title" := Text(long), "dueDate" := Text(due)]) != []
    ensures ValidateCreate(e, map["title" := Text(seq(60, _ => '\U{1F600}')), "dueDate" := Text(due)]) == []
  {
    JsLengthRepeat('\U{1F600}', 61);
    JsLengthRepeat('\U{1F600}', 60);
    var b := map["title" := Text(seq(60, _ => '\U{1F600}')), "dueDate" := Text(due)];
    assert b.Keys == {"title", "dueDate"};
  }
}
