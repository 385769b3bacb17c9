/** The single-page app's own list view and form: the filtered and due-date
    sorted list, the completion percentage, and what a form submit sends. */
module AppOld {
  import opened Wrappers
  import opened Text
  import opened Seqs
  import opened TaskTypes
  import TaskList
  import ProgressBar

  /** The query is trimmed and lower-cased; an empty one matches everything,
      otherwise it must occur in the lower-cased `title + " " + description`. */
  predicate MatchesQuery(t: ViewTask, query: string) {
    var q := Lower(Trim(query));
    q == "" || Contains(Lower(OrEmpty(t.title) + " " + OrEmpty(t.description)), q)
  }

  /** The sort key: the due date's time when the task has a non-empty due date,
      None (sorted last, like `Infinity`) otherwise. `time` stands for
      `new Date(d).getTime()`. */
  function DueKey(t: ViewTask, time: string -> int): Option<int> {
    if t.dueDate.Some? && t.dueDate.value != "" then Some(time(t.dueDate.value)) else None
  }

  /** The comparator's order on keys: every date before None, Nones tied. */
  predicate KeyLe(a: Option<int>, b: Option<int>) {
    b.None? || (a.Some? && a.value <= b.value)
  }

  predicate SortedByDue(r: seq<ViewTask>, time: string -> int) {
    forall i, j :: 0 <= i < j < |r| ==> KeyLe(DueKey(r[i], time), DueKey(r[j], time))
  }

  /** Puts `x` before the first task whose key is not smaller than its own. */
  function Insert(x: ViewTask, r: seq<ViewTask>, time: string -> int): (r': seq<ViewTask>)
    ensures multiset(r') == multiset(r) + multiset{x}
  {
    if r == [] then [x]
    else if KeyLe(DueKey(x, time), DueKey(r[0], time)) then [x] + r
    else
      assert r == [r[0]] + r[1..];
      [r[0]] + Insert(x, r[1..], time)
  }

  /** `Array.prototype.sort` with the due-date comparator (a stable sort). */
  function SortByDue(s: seq<ViewTask>, time: string -> int): (r: seq<ViewTask>)
    ensures multiset(r) == multiset(s)
  {
    if s == [] then []
    else
      assert s == [s[0]] + s[1..];
      Insert(s[0], SortByDue(s[1..], time), time)
  }

  lemma {:induction false} InsertSorted(x: ViewTask, r: seq<ViewTask>, time: string -> int)
    requires SortedByDue(r, time)
    ensures SortedByDue(Insert(x, r, time), time)
  {
    if r != [] && !KeyLe(DueKey(x, time), DueKey(r[0], time)) {
      InsertSorted(x, r[1..], time);
      var rest := Insert(x, r[1..], time);
      forall j | 0 <= j < |rest|
        ensures KeyLe(DueKey(r[0], time), DueKey(rest[j], time))
      {
        assert rest[j] in multiset(rest);
        if rest[j] != x {
          assert rest[j] in multiset(r[1..]);
          var k :| 0 <= k < |r[1..]| && r[1..][k] == rest[j];
          assert r[k + 1] == rest[j];
        }
      }
    }
  }

  /** The sorted list is ordered by due date, missing dates last. */
  lemma {:induction false} SortSorted(s: seq<ViewTask>, time: string -> int)
    ensures SortedByDue(SortByDue(s, time), time)
  {
    if s != [] {
      SortSorted(s[1..], time);
      InsertSorted(s[0], SortByDue(s[1..], time), time);
    }
  }

  /** The tasks with one particular key. */
  function HasKey(k: Option<int>, time: string -> int): ViewTask -> bool {
    t => DueKey(t, time) == k
  }

  lemma {:induction false} InsertKeepsTies(x: ViewTask, r: seq<ViewTask>, time: string -> int, k: Option<int>)
    ensures Filter(Insert(x, r, time), HasKey(k, time)) ==
      if DueKey(x, time) == k then [x] + Filter(r, HasKey(k, time)) else Filter(r, HasKey(k, time))
  {
    var p := HasKey(k, time);
    if r == [] {
    } else if KeyLe(DueKey(x, time), DueKey(r[0], time)) {
      assert ([x] + r)[1..] == r;
    } else {
      InsertKeepsTies(x, r[1..], time, k);
      assert ([r[0]] + Insert(x, r[1..], time))[1..] == Insert(x, r[1..], time);
    }
  }

  /** Stability: tasks with equal keys keep their relative order. */
  lemma {:induction false} SortStable(s: seq<ViewTask>, time: string -> int, k: Option<int>)
    ensures Filter(SortByDue(s, time), HasKey(k, time)) == Filter(s, HasKey(k, time))
  {
    if s != [] {
      SortStable(s[1..], time, k);
      InsertKeepsTies(s[0], SortByDue(s[1..], time), time, k);
    }
  }

  /** The tasks passing the status filter and then the query, in input order. */
  function Selected(tasks: seq<ViewTask>, query: string, filter: string): seq<ViewTask> {
    Filter(Filter(tasks, (t: ViewTask) => TaskList.MatchesStatus(t, filter)), (t: ViewTask) => MatchesQuery(t, query))
  }

  /** `filteredTasks`: status filter, then query filter, then the due-date sort. */
  function FilteredTasks(tasks: seq<ViewTask>, query: string, filter: string, time: string -> int): (r: seq<ViewTask>)
    ensures forall t :: t in r <==> t in tasks && TaskList.MatchesStatus(t, filter) && MatchesQuery(t, query)
    ensures forall t :: TaskList.MatchesStatus(t, filter) && MatchesQuery(t, query) ==>
      multiset(r)[t] == multiset(tasks)[t]
    ensures forall t :: !(TaskList.MatchesStatus(t, filter) && MatchesQuery(t, query)) ==> multiset(r)[t] == 0
    ensures SortedByDue(r, time)
  {
    var byStatus := Filter(tasks, (t: ViewTask) => TaskList.MatchesStatus(t, filter));
    var byQuery := Selected(tasks, query, filter);
    SortSorted(byQuery, time);
    forall t
      ensures multiset(byQuery)[t] ==
        if TaskList.MatchesStatus(t, filter) && MatchesQuery(t, query) then multiset(tasks)[t] else 0
    {
      FilterMultiset(tasks, (t: ViewTask) => TaskList.MatchesStatus(t, filter), t);
      FilterMultiset(byStatus, (t: ViewTask) => MatchesQuery(t, query), t);
    }
    SortByDue(byQuery, time)
  }

  /** Within one due date, the list keeps the order the selected tasks arrived in. */
  lemma FilteredTasksStable(tasks: seq<ViewTask>, query: string, filter: string, time: string -> int, k: Option<int>)
    ensures Filter(FilteredTasks(tasks, query, filter, time), HasKey(k, time)) == Filter(Selected(tasks, query, filter), HasKey(k, time))
  {
    SortStable(Selected(tasks, query, filter), time, k);
  }

  /** For a query without surrounding white space, a per-field match in the task
      list is also a match here. */
  lemma FieldMatchIsJoinedMatch(t: ViewTask, query: string)
    requires IsTrimmed(query)
    requires TaskList.MatchesSearch(t, query)
    ensures MatchesQuery(t, query)
  {
    TrimOfTrimmed(query);
    var a := OrEmpty(t.title);
    var b := OrEmpty(t.description);
    var q := Lower(query);
    if q != "" {
      LowerAppend(a, " " + b);
      LowerAppend(" ", b);
      assert Lower(a + " " + b) == Lower(a) + (Lower(" ") + Lower(b));
      if Contains(Lower(a), q) {
        ContainsInConcat(Lower(a), Lower(" ") + Lower(b), q);
      } else {
        ContainsInConcat(Lower(" "), Lower(b), q);
        ContainsInConcat(Lower(a), Lower(" ") + Lower(b), q);
      }
    }
  }

  /** A query spanning the joining space matches here but not in the task list. */
  lemma JoinedQuerySpansFields()
    ensures var t := ViewTask(None, None, Some("ab"), Some("cd"), None, None);
      MatchesQuery(t, "b c") && !TaskList.MatchesSearch(t, "b c")
  {
    var t := ViewTask(None, None, Some("ab"), Some("cd"), None, None);
    assert Lower("b c") == "b c";
    assert Lower("ab") == "ab";
    assert Lower("cd") == "cd";
    assert Lower("ab cd") == "ab cd";
    assert Trim("b c") == "b c";
    assert "ab" + " " + "cd" == "ab cd";
    assert OccursAt("ab cd", "b c", 1);
  }

  /** `completionPct`: 0 without tasks, otherwise the rounded share of completed tasks. */
  function CompletionPct(tasks: seq<ViewTask>): (p: nat)
    ensures p <= 100
    ensures p == ProgressBar.TaskPercentage(tasks)
  {
    if |tasks| == 0 then 0 else ProgressBar.Percentage(ProgressBar.CompletedCount(tasks), |tasks|)
  }

  /** The task whose `_id` equals the selected id (the first one), if any. */
  function FindSelected(tasks: seq<ViewTask>, selectedId: Option<string>): (r: Option<ViewTask>)
    ensures r.Some? ==> r.value in tasks && selectedId.Some? && r.value.mongoId == selectedId
    ensures r.None? ==> selectedId.None? || forall i :: 0 <= i < |tasks| ==> tasks[i].mongoId != selectedId
    ensures r.Some? ==>
      exists i :: 0 <= i < |tasks| && tasks[i] == r.value && (forall j :: 0 <= j < i ==> tasks[j].mongoId != selectedId)
  {
    if selectedId.None? || tasks == [] then None
    else if tasks[0].mongoId == selectedId then Some(tasks[0])
    else FindSelected(tasks[1..], selectedId)
  }

  datatype Mode = CreateMode | EditMode

  /** The JSON body of a submit; a missing due date is sent as null (None). */
  datatype SubmitPayload = SubmitPayload(title: string, description: string, status: string, dueDate: Option<string>)

  /** What a submit does: fail with a message before any request, POST, or PUT to an id. */
  datatype Submission = Rejected(message: string) | Post(payload: SubmitPayload) | Put(id: string, payload: SubmitPayload)

  /** `onSubmit`. `dueIso` is the form's date as `toIsoOrEmpty` renders it. */
  function OnSubmit(mode: Mode, selected: Option<ViewTask>, title: string, description: string, status: string, dueIso: string): (r: Submission)
    ensures r == Rejected("Title is required.") <==> AllSpace(title)
    ensures r.Rejected? ==> r.message in {"Title is required.", "No task selected to edit."}
    ensures r.Post? <==> mode.CreateMode? && !AllSpace(title)
    ensures r.Put? <==>
      mode.EditMode? && !AllSpace(title) && selected.Some? && selected.value.mongoId.Some? && selected.value.mongoId.value != ""
    ensures r.Put? ==> mode.EditMode? && selected.Some? && selected.value.mongoId == Some(r.id) && r.id != ""
    ensures !r.Rejected? ==> var p := r.payload;
      && p.title == Trim(title) && p.title != "" && IsTrimmed(p.title)
      && p.description == Trim(description)
      && p.status == status
      && (p.dueDate.None? <==> dueIso == "")
      && (p.dueDate.Some? ==> p.dueDate.value == dueIso)
  {
    TrimEmptyIffAllSpace(title);
    TrimShape(title);
    if Trim(title) == "" then Rejected("Title is required.")
    else
      var payload := SubmitPayload(Trim(title), Trim(description), status, if dueIso == "" then None else Some(dueIso));
      if mode.CreateMode? then Post(payload)
      else if selected.None? || selected.value.mongoId.None? || selected.value.mongoId.value == "" then
        Rejected("No task selected to edit.")
      else Put(selected.value.mongoId.value, payload)
  }

  /** Edit mode with no selected task fails before any request. */
  lemma EditWithoutSelectionRejected(title: string, description: string, status: string, dueIso: string)
    requires !AllSpace(title)
    ensures OnSubmit(EditMode, None, title, description, status, dueIso) == Rejected("No task selected to edit.")
  {
    TrimEmptyIffAllSpace(title);
  }
}
