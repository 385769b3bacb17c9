/** The browser-side API client: normalisation of the task objects the server
    returns, the error message chosen for a failed response, and the request
    and result shaping of the list, create, update and delete calls. */
module ClientApi {
  import opened Wrappers
  import opened Text

  /** A parsed JSON value (numbers restricted to integers). */
  datatype Json = JNull | JBool(b: bool) | JNum(n: int) | JStr(s: string) | JArr(items: seq<Json>) | JObj(fields: map<string, Json>)

  /** JavaScript truthiness of a JSON value. */
  predicate Truthy(j: Json) {
    match j
    case JNull => false
    case JBool(b) => b
    case JNum(n) => n != 0
    case JStr(s) => s != ""
    case _ => true
  }

  /** A property read that may be `undefined` (None). */
  predicate TruthyField(v: Option<Json>) {
    v.Some? && Truthy(v.value)
  }

  /** `x.key` on a non-null value: only objects have the keys the client reads. */
  function Field(j: Json, key: string): Option<Json> {
    if j.JObj? && key in j.fields then Some(j.fields[key]) else None
  }

  /** `a ?? b`: `b` when `a` is null or undefined. */
  function Coalesce(a: Option<Json>, b: Option<Json>): Option<Json> {
    if a.None? || a.value.JNull? then b else a
  }

  function Join(parts: seq<string>, sep: string): string {
    if parts == [] then "" else if |parts| == 1 then parts[0] else parts[0] + sep + Join(parts[1..], sep)
  }

  function IntToString(n: int): string {
    if n < 0 then "-" + NatToString(-n) else NatToString(n)
  }

  /** `String(j)`: arrays join their elements with "," (null elements as ""),
      objects print as "[object Object]". */
  function JsString(j: Json): string
    decreases j
  {
    match j
    case JNull => "null"
    case JBool(b) => if b then "true" else "false"
    case JNum(n) => IntToString(n)
    case JStr(s) => s
    case JArr(items) =>
      Join(seq(|items|, i requires 0 <= i < |items| => if items[i].JNull? then "" else JsString(items[i])), ",")
    case JObj(_) => "[object Object]"
  }

  /** The client-side task. `status` is whatever the server sent (not checked
      against the three names). */
  datatype Task = Task(
    id: string,
    title: string,
    description: string,
    status: Json,
    dueDate: string,
    createdAt: Option<string>,
    updatedAt: Option<string>)

  function TextOr(v: Option<Json>, default: string): string {
    match Coalesce(v, None)
    case Some(j) => JsString(j)
    case None => default
  }

  function TruthyText(v: Option<Json>): Option<string> {
    if TruthyField(v) then Some(JsString(v.value)) else None
  }

  /** `normalizeTask`: None when the value is null (reading a field of null throws). */
  function NormalizeTask(t: Json): (r: Option<Task>)
    ensures r.None? <==> t.JNull?
    ensures r.Some? ==> var n := r.value;
      && n.id == (if Coalesce(Field(t, "id"), None).Some? then JsString(Field(t, "id").value)
                  else if Coalesce(Field(t, "_id"), None).Some? then JsString(Field(t, "_id").value)
                  else "")
      && (Coalesce(Field(t, "title"), None).None? ==> n.title == "")
      && (Coalesce(Field(t, "title"), None).Some? ==> n.title == JsString(Field(t, "title").value))
      && (Coalesce(Field(t, "description"), None).None? ==> n.description == "")
      && (Coalesce(Field(t, "description"), None).Some? ==> n.description == JsString(Field(t, "description").value))
      && n.status == (if Coalesce(Field(t, "status"), None).None? then JStr("Pending") else Field(t, "status").value)
      && (!TruthyField(Field(t, "dueDate")) ==> n.dueDate == "")
      && (TruthyField(Field(t, "dueDate")) ==> n.dueDate == JsString(Field(t, "dueDate").value))
      && (n.createdAt.None? <==> !TruthyField(Field(t, "createdAt")))
      && (TruthyField(Field(t, "createdAt")) ==> n.createdAt == Some(JsString(Field(t, "createdAt").value)))
      && (n.updatedAt.None? <==> !TruthyField(Field(t, "updatedAt")))
      && (TruthyField(Field(t, "updatedAt")) ==> n.updatedAt == Some(JsString(Field(t, "updatedAt").value)))
  {
    if t.JNull? then None
    else
      Some(Task(
        TextOr(Coalesce(Field(t, "id"), Field(t, "_id")), ""),
        TextOr(Field(t, "title"), ""),
        TextOr(Field(t, "description"), ""),
        Coalesce(Field(t, "status"), Some(JStr("Pending"))).value,
        TruthyText(Field(t, "dueDate")).GetOr(""),
        TruthyText(Field(t, "createdAt")),
        TruthyText(Field(t, "updatedAt"))))
  }

  function OptText(v: Option<string>): Json {
    match v
    case Some(s) => JStr(s)
    case None => JNull
  }

  /** A client task written back as the JSON object the server would send for it. */
  function ToJson(t: Task): Json {
    JObj(map[
      "id" := JStr(t.id),
      "title" := JStr(t.title),
      "description" := JStr(t.description),
      "status" := t.status,
      "dueDate" := JStr(t.dueDate),
      "createdAt" := OptText(t.createdAt),
      "updatedAt" := OptText(t.updatedAt)])
  }

  /** Normalising the JSON form of a client task gives the task back, provided
      its status is not null and its timestamps, when present, are not "". */
  lemma NormalizeRoundTrip(t: Task)
    requires !t.status.JNull?
    requires t.createdAt.Some? ==> t.createdAt.value != ""
    requires t.updatedAt.Some? ==> t.updatedAt.value != ""
    ensures NormalizeTask(ToJson(t)) == Some(t)
  {
  }

  /** `id` is preferred to `_id`; `_id` is used only when `id` is null or missing. */
  lemma NormalizePrefersId(idv: string, mongoId: string)
    ensures NormalizeTask(JObj(map["id" := JStr(idv), "_id" := JStr(mongoId)])).value.id == idv
    ensures NormalizeTask(JObj(map["_id" := JStr(mongoId)])).value.id == mongoId
    ensures NormalizeTask(JObj(map[])).value.id == ""
  {
  }

  /** An HTTP response as the client sees it. */
  datatype HttpResponse = HttpResponse(ok: bool, status: nat, text: string)

  /** The parsed body: null for an empty body or one that is not JSON. */
  function BodyData(r: HttpResponse, parse: string -> Option<Json>): Json {
    if r.text == "" then JNull else parse(r.text).GetOr(JNull)
  }

  /** `readJson`: the parsed body on success; on failure an error whose message
      is the first truthy of `data.message`, `data.error`, the raw text, and
      "HTTP <status>". */
  function ReadJson(r: HttpResponse, parse: string -> Option<Json>): (res: Result<Json, string>)
    ensures r.ok ==> res == Ok(BodyData(r, parse))
    ensures !r.ok ==> res.Err?
    ensures !r.ok ==> var data := BodyData(r, parse);
      var fromMessage := Truthy(data) && TruthyField(Field(data, "message"));
      var fromError := Truthy(data) && TruthyField(Field(data, "error"));
      && (fromMessage ==> res.error == JsString(Field(data, "message").value))
      && (!fromMessage && fromError ==> res.error == JsString(Field(data, "error").value))
      && (!fromMessage && !fromError && r.text != "" ==> res.error == r.text)
      && (!fromMessage && !fromError && r.text == "" ==> res.error == "HTTP " + NatToString(r.status))
  {
    var data := BodyData(r, parse);
    if r.ok then Ok(data)
    else
      var picked :=
        if Truthy(data) && TruthyField(Field(data, "message")) then Field(data, "message")
        else if Truthy(data) && TruthyField(Field(data, "error")) then Field(data, "error")
        else None;
      if picked.Some? then Err(JsString(picked.value))
      else if r.text != "" then Err(r.text)
      else Err("HTTP " + NatToString(r.status))
  }

  /** A failed response whose body is not JSON (an HTML error page, say) reports its raw text. */
  lemma UnparsableErrorReportsText(r: HttpResponse, parse: string -> Option<Json>)
    requires !r.ok && r.text != "" && parse(r.text).None?
    ensures ReadJson(r, parse) == Err(r.text)
  {
  }

  /** The message of the TypeError raised by reading a field of null. */
  const NullTaskError: string := "Cannot read properties of null (reading 'id')"

  /** `items.map(normalizeTask)`: fails on the first null element. */
  function NormalizeAll(items: seq<Json>): (r: Option<seq<Task>>)
    ensures r.Some? <==> forall i :: 0 <= i < |items| ==> !items[i].JNull?
    ensures r.Some? ==> |r.value| == |items| && forall i :: 0 <= i < |items| ==> NormalizeTask(items[i]) == Some(r.value[i])
  {
    if items == [] then Some([])
    else match NormalizeTask(items[0])
      case None => None
      case Some(t) =>
        match NormalizeAll(items[1..])
        case None => None
        case Some(rest) => Some([t] + rest)
  }

  /** `getTasks`: the normalised tasks when the body is an array, [] when it is
      anything else, and the error of a failed response. */
  function GetTasks(r: HttpResponse, parse: string -> Option<Json>): (res: Result<seq<Task>, string>)
    ensures ReadJson(r, parse).Err? ==> res == Err(ReadJson(r, parse).error)
    ensures ReadJson(r, parse).Ok? && !ReadJson(r, parse).value.JArr? ==> res == Ok([])
    ensures ReadJson(r, parse).Ok? && ReadJson(r, parse).value.JArr? ==>
      var items := ReadJson(r, parse).value.items;
      && ((forall i :: 0 <= i < |items| ==> !items[i].JNull?) ==>
            res.Ok? && |res.value| == |items| &&
            forall i :: 0 <= i < |items| ==> NormalizeTask(items[i]) == Some(res.value[i]))
      && ((exists i :: 0 <= i < |items| && items[i].JNull?) ==> res == Err(NullTaskError))
  {
    match ReadJson(r, parse)
    case Err(m) => Err(m)
    case Ok(data) =>
      if data.JArr? then
        match NormalizeAll(data.items)
        case Some(ts) => Ok(ts)
        case None => Err(NullTaskError)
      else Ok([])
  }

  /** `createTask`: the normalised created task. */
  function CreateTask(r: HttpResponse, parse: string -> Option<Json>): (res: Result<Task, string>)
    ensures ReadJson(r, parse).Err? ==> res == Err(ReadJson(r, parse).error)
    ensures ReadJson(r, parse).Ok? && ReadJson(r, parse).value.JNull? ==> res == Err(NullTaskError)
    ensures ReadJson(r, parse).Ok? && !ReadJson(r, parse).value.JNull? ==>
      res.Ok? && Some(res.value) == NormalizeTask(ReadJson(r, parse).value)
  {
    match ReadJson(r, parse)
    case Err(m) => Err(m)
    case Ok(data) =>
      match NormalizeTask(data)
      case Some(t) => Ok(t)
      case None => Err(NullTaskError)
  }

  /** The PUT request `updateTask` sends: the path segment is the input's `id`
      (the string "undefined" when it has none) and the body is the input
      without `id`; every other key, `_id` included, is sent. */
  function UpdateRequest(input: map<string, Json>): (req: (string, map<string, Json>))
    ensures "id" !in req.1
    ensures forall k :: k in input && k != "id" ==> k in req.1 && req.1[k] == input[k]
    ensures req.1.Keys <= input.Keys
    ensures req.0 == if "id" in input then JsString(input["id"]) else "undefined"
  {
    (if "id" in input then JsString(input["id"]) else "undefined", input - {"id"})
  }

  /** `updateTask`: the normalised updated task. */
  function UpdateTask(r: HttpResponse, parse: string -> Option<Json>): (res: Result<Task, string>)
    ensures ReadJson(r, parse).Err? ==> res == Err(ReadJson(r, parse).error)
    ensures ReadJson(r, parse).Ok? && ReadJson(r, parse).value.JNull? ==> res == Err(NullTaskError)
    ensures ReadJson(r, parse).Ok? && !ReadJson(r, parse).value.JNull? ==>
      res.Ok? && Some(res.value) == NormalizeTask(ReadJson(r, parse).value)
  {
    CreateTask(r, parse)
  }

  /** `deleteTask`: any error of the response is swallowed and the requested id
      is returned, whatever the server answered. */
  function DeleteTask(id: string, r: HttpResponse, parse: string -> Option<Json>): (res: string)
    ensures res == id
  {
    id
  }

  /** The same failed response that makes `updateTask` reject leaves
      `deleteTask` resolving to the requested id: the delete swallows the
      error, whatever the status and body. */
  lemma DeleteSwallowsErrors(id: string, r: HttpResponse, parse: string -> Option<Json>)
    requires !r.ok
    ensures UpdateTask(r, parse).Err?
    ensures DeleteTask(id, r, parse) == id
  {
  }
}
