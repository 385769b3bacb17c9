/** The task list component: the search and status filter applied to the tasks it
    is given, and the id it keys each entry by. */
module TaskList {
  import opened Wrappers
  import opened Text
  import opened Seqs
  import opened TaskTypes
  import ClientApi
  import TaskModel
  import TaskController

  /** An empty query matches everything; otherwise the lower-cased, untrimmed
      query must occur in the lower-cased title or in the lower-cased description. */
  predicate MatchesSearch(t: ViewTask, query: string) {
    var q := Lower(query);
    q == "" || Contains(Lower(OrEmpty(t.title)), q) || Contains(Lower(OrEmpty(t.description)), q)
  }

  /** "All" passes every task; any other filter needs the exact status. */
  predicate MatchesStatus(t: ViewTask, filter: string) {
    filter == "All" || t.status == Some(filter)
  }

  predicate Keep(query: string, filter: string, t: ViewTask) {
    MatchesSearch(t, query) && MatchesStatus(t, filter)
  }

  /** `filteredTasks`: the tasks passing both tests, in their original order,
      each as often as in the input. */
  function FilteredTasks(tasks: seq<ViewTask>, query: string, filter: string): (r: seq<ViewTask>)
    ensures IsSubsequence(r, tasks)
    ensures forall t :: t in r <==> t in tasks && MatchesSearch(t, query) && MatchesStatus(t, filter)
    ensures forall t :: Keep(query, filter, t) ==> multiset(r)[t] == multiset(tasks)[t]
  {
    var p := (t: ViewTask) => Keep(query, filter, t);
    FilterIsSubsequence(tasks, p);
    forall t | Keep(query, filter, t)
      ensures multiset(Filter(tasks, p))[t] == multiset(tasks)[t]
    {
      FilterMultiset(tasks, p, t);
    }
    Filter(tasks, p)
  }

  /** With an empty query and the "All" filter the list is shown unchanged. */
  lemma EmptyQueryShowsAll(tasks: seq<ViewTask>)
    ensures FilteredTasks(tasks, "", "All") == tasks
  {
    FilterAll(tasks, (t: ViewTask) => Keep("", "All", t));
  }

  /** Only the empty query lower-cases to "", so a query of spaces is a real search. */
  lemma EmptyQueryOnly(query: string)
    ensures Lower(query) == "" <==> query == ""
  {
    assert |Lower(query)| == |query|;
  }

  /** `getId`: `_id` when present, otherwise `id`. */
  function GetId(t: ViewTask): (r: Option<string>)
    ensures t.mongoId.Some? ==> r == t.mongoId
    ensures t.mongoId.None? ==> r == t.id
    ensures r.None? <==> t.mongoId.None? && t.id.None?
  {
    if t.mongoId.Some? then t.mongoId else t.id
  }

  /** The list and the API client disagree on which id wins when a task has both. */
  lemma IdPreferenceDiffers(mongoId: string, idv: string)
    requires mongoId != idv
    ensures var v := ViewTask(Some(mongoId), Some(idv), None, None, None, None);
      GetId(v) == Some(mongoId)
    ensures ClientApi.NormalizeTask(ClientApi.JObj(map["_id" := ClientApi.JStr(mongoId), "id" := ClientApi.JStr(idv)])).value.id == idv
  {
  }

  /** The list does not trim the query while the server trims its search: a
      leading space hides a task here that the server's search returns. */
  lemma QueryNotTrimmedUnlikeServer(t: TaskModel.Task)
    requires t.title == "x" && t.description == ""
    ensures FilteredTasks([ViewTask(None, None, Some("x"), Some(""), None, None)], " x", "All") == []
    ensures TaskController.Matches(TaskController.BuildQuery("", " x", None), t)
  {
    var v := ViewTask(None, None, Some("x"), Some(""), None, None);
    assert Lower(" x") == " x";
    assert Lower("x") == "x";
    assert !Contains("x", " x");
    assert !Contains("", " x");
    assert !MatchesSearch(v, " x");
    assert TrimStart(" x") == "x" by {
      assert IsSpace(' ');
      assert " x"[1..] == "x";
    }
    assert Trim(" x") == "x";
    assert OccursAt("x", "x", 0);
  }
}
