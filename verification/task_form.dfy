/** The create/edit form component: loading a task for editing, the submit
    normalisation, and the resets. */
module TaskForm {
  import opened Wrappers
  import opened Text

  /** The form's state: the four inputs and the error line. */
  datatype FormState = FormState(title: string, description: string, status: string, dueDate: string, error: string)

  /** The state `resetForm` produces (also the initial state). */
  const EmptyForm: FormState := FormState("", "", "Pending", "", "")

  /** The task being edited, with the fields the form reads. */
  datatype EditingTask = EditingTask(title: string, description: string, status: string, dueDate: string)

  /** What the form hands to its `onSubmit` callback. */
  datatype TaskInput = TaskInput(title: string, description: string, status: string, dueDate: string)

  /** The form after a submit, and the input passed to `onSubmit` if it was called. */
  datatype SubmitResult = SubmitResult(form: FormState, sent: Option<TaskInput>)

  /** The effect of a change of the edited task: its fields are loaded, with the
      due date cut at the first "T"; no task resets the form. The error line is
      kept when a task is loaded. */
  function LoadForEdit(st: FormState, editing: Option<EditingTask>): (r: FormState)
    ensures editing.None? ==> r == EmptyForm
    ensures editing.Some? ==> var t := editing.value;
      && r.title == t.title && r.description == t.description && r.status == t.status
      && r.error == st.error
      && r.dueDate <= t.dueDate && 'T' !in r.dueDate
      && (|r.dueDate| < |t.dueDate| ==> t.dueDate[|r.dueDate|] == 'T')
  {
    match editing
    case None => EmptyForm
    case Some(t) =>
      FormState(t.title, t.description, t.status, if t.dueDate != "" then BeforeFirst(t.dueDate, 'T') else "", st.error)
  }

  /** A stored timestamp "YYYY-MM-DDThh:mm..." loads as its date part. */
  lemma LoadTakesDatePart(st: FormState, t: EditingTask, date: string, time: string)
    requires t.dueDate == date + "T" + time && 'T' !in date
    ensures LoadForEdit(st, Some(t)).dueDate == date
  {
    BeforeFirstUnique(t.dueDate, 'T', date);
  }

  /** `handleSubmit`. `nowIso` is `new Date().toISOString()`; `submitOk` says
      whether the `onSubmit` callback completed. */
  function HandleSubmit(st: FormState, editing: bool, nowIso: string, submitOk: bool): (r: SubmitResult)
    ensures r.sent.None? <==> AllSpace(st.title)
    ensures r.sent.None? ==> r.form == st.(error := "Title is required")
    ensures r.sent.Some? ==> var input := r.sent.value;
      && input.title == Trim(st.title) && input.title != "" && IsTrimmed(input.title)
      && input.description == Trim(st.description)
      && input.status == st.status
      && input.dueDate == (if st.dueDate == "" then BeforeFirst(nowIso, 'T') else st.dueDate)
    ensures r.sent.Some? && !editing && submitOk ==> r.form == EmptyForm
    ensures r.sent.Some? && (editing || !submitOk) ==> r.form == st.(error := "")
  {
    TrimEmptyIffAllSpace(st.title);
    TrimShape(st.title);
    var cleared := st.(error := "");
    if Trim(st.title) == "" then
      SubmitResult(cleared.(error := "Title is required"), None)
    else
      var input := TaskInput(Trim(st.title), Trim(st.description), st.status,
        if st.dueDate != "" then st.dueDate else BeforeFirst(nowIso, 'T'));
      SubmitResult(if !editing && submitOk then EmptyForm else cleared, Some(input))
  }

  /** `handleCancel`: the reset form, and `onCancel` is called (true). */
  function HandleCancel(st: FormState): (r: (FormState, bool))
    ensures r.1
    ensures r.0.title == "" && r.0.description == "" && r.0.dueDate == "" && r.0.error == ""
    ensures r.0.status == "Pending"
  {
    (EmptyForm, true)
  }

  /** After a cancel the form holds no title, so a submit sends nothing. */
  lemma CancelThenSubmitSendsNothing(st: FormState, editing: bool, nowIso: string, submitOk: bool)
    ensures HandleSubmit(HandleCancel(st).0, editing, nowIso, submitOk).sent.None?
  {
  }

  /** Loading a task with a clean title and description and submitting it
      unchanged in edit mode sends the task's own fields back, with the due date
      reduced to its date part. */
  lemma EditRoundTrip(st: FormState, t: EditingTask, nowIso: string, submitOk: bool)
    requires IsTrimmed(t.title) && t.title != "" && IsTrimmed(t.description)
    requires t.dueDate != "" && t.dueDate[0] != 'T'
    ensures var r := HandleSubmit(LoadForEdit(st, Some(t)), true, nowIso, submitOk);
      r.sent == Some(TaskInput(t.title, t.description, t.status, BeforeFirst(t.dueDate, 'T')))
      && r.form == LoadForEdit(st, Some(t)).(error := "")
  {
    TrimOfTrimmed(t.title);
    TrimOfTrimmed(t.description);
    TrimEmptyIffAllSpace(t.title);
  }
}
