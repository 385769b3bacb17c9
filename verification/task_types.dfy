/** The task record the page components work with. */
module TaskTypes {
  import opened Wrappers

  /** A task as the components receive it: `_id` (the store's name for the id)
      and `id` are both optional, and any field may be missing. */
  datatype ViewTask = ViewTask(
    mongoId: Option<string>,
    id: Option<string>,
    title: Option<string>,
    description: Option<string>,
    status: Option<string>,
    dueDate: Option<string>)

  /** `v || ""` for an optional string. */
  function OrEmpty(v: Option<string>): string {
    v.GetOr("")
  }
}
