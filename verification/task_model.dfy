/** The persisted Task document: its fields, the constraints the document
    schema enforces on save and on validated updates (trim, required,
    maximum length, status enumeration, defaults, owner identifier shape)
    and the timestamps the store assigns. */
module TaskModel {
  import opened Wrappers
  import opened Text
  import opened Environment

  datatype Status = Pending | InProgress | Completed

  function StatusName(s: Status): string {
    match s
    case Pending => "Pending"
    case InProgress => "In Progress"
    case Completed => "Completed"
  }

  const StatusNames: set<string> := {"Pending", "In Progress", "Completed"}

  /** The enumeration check: a name denotes a status exactly when it is one of the three names. */
  function ParseStatus(name: string): (r: Option<Status>)
    ensures r.Some? <==> name in StatusNames
    ensures r.Some? ==> StatusName(r.value) == name
  {
    if name == "Pending" then Some(Pending)
    else if name == "In Progress" then Some(InProgress)
    else if name == "Completed" then Some(Completed)
    else None
  }

  lemma ParseStatusName(s: Status)
    ensures ParseStatus(StatusName(s)) == Some(s)
  {
  }

  const TitleMax: nat := 120
  const DescriptionMax: nat := 2000

  /** A stored task. `dueDate` is kept as the date text the request carried;
      `owner` is the optional `userId`; timestamps are store clock readings. */
  datatype Task = Task(
    id: string,
    title: string,
    description: string,
    status: Status,
    dueDate: string,
    owner: Option<string>,
    createdAt: nat,
    updatedAt: nat)

  /** Every stored task satisfies the document constraints. */
  predicate WellFormed(t: Task) {
    && IsTrimmed(t.title) && t.title != "" && JsLength(t.title) <= TitleMax
    && IsTrimmed(t.description) && JsLength(t.description) <= DescriptionMax
    && t.dueDate != ""
    && t.createdAt <= t.updatedAt
  }

  /** The fields handed to the document layer on create, or as the `$set` of an update. */
  datatype Draft = Draft(
    title: Option<string>,
    description: Option<string>,
    status: Option<string>,
    dueDate: Option<string>,
    owner: Option<string>)

  function TitleFailures(title: Option<string>, required: bool): (r: seq<string>)
    ensures r == [] <==> match title
      case None => !required
      case Some(s) => Trim(s) != "" && JsLength(Trim(s)) <= TitleMax
  {
    match title
    case None => if required then ["title"] else []
    case Some(s) => if Trim(s) == "" || JsLength(Trim(s)) > TitleMax then ["title"] else []
  }

  function DescriptionFailures(description: Option<string>): (r: seq<string>)
    ensures r == [] <==> (description.Some? ==> JsLength(Trim(description.value)) <= DescriptionMax)
  {
    if description.Some? && JsLength(Trim(description.value)) > DescriptionMax then ["description"] else []
  }

  function StatusFailures(status: Option<string>): (r: seq<string>)
    ensures r == [] <==> (status.Some? ==> status.value in StatusNames)
  {
    if status.Some? && status.value !in StatusNames then ["status"] else []
  }

  function DueDateFailures(e: Env, dueDate: Option<string>, required: bool): (r: seq<string>)
    ensures r == [] <==> match dueDate
      case None => !required
      case Some(s) => s != "" && e.isIsoDate(s)
  {
    match dueDate
    case None => if required then ["dueDate"] else []
    case Some(s) => if s != "" && e.isIsoDate(s) then [] else ["dueDate"]
  }

  function OwnerFailures(e: Env, owner: Option<string>): (r: seq<string>)
    ensures r == [] <==> (owner.Some? ==> e.isObjectId(owner.value))
  {
    if owner.Some? && !e.isObjectId(owner.value) then ["userId"] else []
  }

  /** Path names whose constraints a draft field violates, in schema order.
      Only the fields present are checked, as update validators do; `requireAll`
      adds the `required` checks a full document save performs. */
  function FieldFailures(e: Env, d: Draft, requireAll: bool): (r: seq<string>)
    ensures r == [] <==>
      && TitleFailures(d.title, requireAll) == []
      && DescriptionFailures(d.description) == []
      && StatusFailures(d.status) == []
      && DueDateFailures(e, d.dueDate, requireAll) == []
      && OwnerFailures(e, d.owner) == []
  {
    TitleFailures(d.title, requireAll) + DescriptionFailures(d.description) + StatusFailures(d.status)
    + DueDateFailures(e, d.dueDate, requireAll) + OwnerFailures(e, d.owner)
  }

  /** The draft passes every field constraint checked by a full save. */
  ghost predicate Storable(e: Env, d: Draft) {
    && d.title.Some? && Trim(d.title.value) != "" && JsLength(Trim(d.title.value)) <= TitleMax
    && (d.description.Some? ==> JsLength(Trim(d.description.value)) <= DescriptionMax)
    && (d.status.Some? ==> d.status.value in StatusNames)
    && d.dueDate.Some? && d.dueDate.value != "" && e.isIsoDate(d.dueDate.value)
    && (d.owner.Some? ==> e.isObjectId(d.owner.value))
  }

  /** Building and validating a new document: trims strings, applies the
      defaults (description "", status Pending), stamps both timestamps with
      `now`, and fails with the violated paths when a constraint is broken. */
  function Normalize(e: Env, d: Draft, id: string, now: nat): (r: Result<Task, seq<string>>)
    ensures r.Ok? <==> Storable(e, d)
    ensures r.Err? ==> r.error != []
    ensures r.Ok? ==> var t := r.value;
      && WellFormed(t)
      && t.id == id
      && t.title == Trim(d.title.value)
      && t.description == (if d.description.Some? then Trim(d.description.value) else "")
      && t.status == (if d.status.Some? then ParseStatus(d.status.value).value else Pending)
      && t.dueDate == d.dueDate.value
      && t.owner == d.owner
      && t.createdAt == now && t.updatedAt == now
  {
    var failures := FieldFailures(e, d, true);
    if failures != [] then Err(failures)
    else
      TrimIsTrimmedAll();
      Ok(Task(
        id,
        Trim(d.title.value),
        if d.description.Some? then Trim(d.description.value) else "",
        if d.status.Some? then ParseStatus(d.status.value).value else Pending,
        d.dueDate.value,
        d.owner,
        now,
        now))
  }

  /** The draft passes the update validators, which check only the paths it sets. */
  ghost predicate Patchable(e: Env, d: Draft) {
    && (d.title.Some? ==> Trim(d.title.value) != "" && JsLength(Trim(d.title.value)) <= TitleMax)
    && (d.description.Some? ==> JsLength(Trim(d.description.value)) <= DescriptionMax)
    && (d.status.Some? ==> d.status.value in StatusNames)
    && (d.dueDate.Some? ==> d.dueDate.value != "" && e.isIsoDate(d.dueDate.value))
    && (d.owner.Some? ==> e.isObjectId(d.owner.value))
  }

  /** Update validation: the failures of the paths the update sets. */
  function PatchFailures(e: Env, d: Draft): (r: seq<string>)
    ensures r == [] <==> Patchable(e, d)
  {
    FieldFailures(e, d, false)
  }

  /** Applying a validated `$set`: every field present is replaced by its
      trimmed value, every absent field is kept, and `updatedAt` becomes `now`. */
  function ApplyPatch(t: Task, d: Draft, now: nat): (r: Task)
    ensures r.id == t.id && r.createdAt == t.createdAt && r.updatedAt == now
    ensures r.title == if d.title.Some? then Trim(d.title.value) else t.title
    ensures r.description == if d.description.Some? then Trim(d.description.value) else t.description
    ensures r.dueDate == if d.dueDate.Some? then d.dueDate.value else t.dueDate
    ensures r.owner == if d.owner.Some? then d.owner else t.owner
    ensures d.status.Some? && ParseStatus(d.status.value).Some? ==> StatusName(r.status) == d.status.value
    ensures d.status.None? || ParseStatus(d.status.value).None? ==> r.status == t.status
  {
    t.(
      title := if d.title.Some? then Trim(d.title.value) else t.title,
      description := if d.description.Some? then Trim(d.description.value) else t.description,
      status := if d.status.Some? && ParseStatus(d.status.value).Some? then ParseStatus(d.status.value).value else t.status,
      dueDate := if d.dueDate.Some? then d.dueDate.value else t.dueDate,
      owner := if d.owner.Some? then d.owner else t.owner,
      updatedAt := now)
  }

  /** A validated patch applied at a clock reading no earlier than the last
      update keeps the task well formed, and sets the status it names. */
  lemma PatchPreservesWellFormed(e: Env, t: Task, d: Draft, now: nat)
    requires WellFormed(t) && Patchable(e, d) && t.updatedAt <= now
    ensures WellFormed(ApplyPatch(t, d, now))
    ensures d.status.Some? ==> StatusName(ApplyPatch(t, d, now).status) == d.status.value
    ensures d.status.None? ==> ApplyPatch(t, d, now).status == t.status
  {
    TrimIsTrimmedAll();
  }

  /** The draft that describes a stored task field for field. */
  function DraftOfTask(t: Task): Draft {
    Draft(Some(t.title), Some(t.description), Some(StatusName(t.status)), Some(t.dueDate), t.owner)
  }

  /** Saving a stored task's own fields again reproduces it (with new timestamps):
      normalisation is idempotent on well-formed documents. */
  lemma NormalizeStoredTask(e: Env, t: Task, now: nat)
    requires WellFormed(t) && e.isIsoDate(t.dueDate)
    requires t.owner.Some? ==> e.isObjectId(t.owner.value)
    ensures Normalize(e, DraftOfTask(t), t.id, now) == Ok(t.(createdAt := now, updatedAt := now))
  {
    ParseStatusName(t.status);
    TrimOfTrimmed(t.title);
    TrimOfTrimmed(t.description);
    var d := DraftOfTask(t);
    assert Storable(e, d);
    var u := Normalize(e, d, t.id, now).value;
    assert u.title == t.title;
    assert u.description == t.description;
    assert u.status == t.status;
    assert u == t.(createdAt := now, updatedAt := now);
  }
}
