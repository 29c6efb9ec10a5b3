/** The task creation dialog of `src/components/createTaskModal.tsx`: its form,
    the validation in `handleCreateTask`, the task data it emits, and the
    disabled state of its button. */
module CreateTask {
  import opened Seqs
  import opened Text
  import opened Tasks

  /** The form when the dialog first renders and after each creation. */
  const EmptyForm := TaskForm("", "", Todo)

  /** The create button is disabled when the title trims to nothing. */
  predicate CreateDisabled(f: TaskForm)
  {
    Trim(f.title) == ""
  }

  /** The outcome of pressing create: the form afterwards, the data passed to
      `onAddTask` if any, and whether `onClose` ran. */
  datatype CreateOutcome = CreateOutcome(form: TaskForm, emitted: Option<NewTask>, closed: bool)

  /** `handleCreateTask`: a blank title does nothing; otherwise emit the form
      (title as typed) with no assignees and the mock creator, reset the form
      and close. */
  function HandleCreateTask(f: TaskForm, workspaceId: string): (r: CreateOutcome)
    ensures AllWhitespace(f.title) ==> r == CreateOutcome(f, None, false)
    ensures !AllWhitespace(f.title) ==> r.form == EmptyForm && r.closed && r.emitted.Some?
    ensures r.emitted.Some? ==> r.emitted.value == NewTask(workspaceId, f.title, f.description, f.status, [], "user-1")
    ensures r.emitted.Some? <==> !CreateDisabled(f)
  {
    TrimEmptyIffBlank(f.title);
    if Trim(f.title) == "" then CreateOutcome(f, None, false)
    else CreateOutcome(EmptyForm, Some(NewTask(workspaceId, f.title, f.description, f.status, [], "user-1")), true)
  }

  /** A created task lands at the end of the store with the form's data, no
      assignees, and the form ready for the next one. */
  lemma CreateThenAdd(tasks: seq<Task>, f: TaskForm, workspaceId: string, newId: string, createdAt: string, updatedAt: string)
    requires !CreateDisabled(f)
    ensures var out := HandleCreateTask(f, workspaceId);
            var (ts, t) := AddTask(tasks, out.emitted.value, newId, createdAt, updatedAt);
            && ts == tasks + [t] && t.title == f.title && t.description == f.description
            && t.status == f.status && t.assignees == [] && t.workspaceId == workspaceId
            && t.createdBy == "user-1" && out.form == EmptyForm
  {
  }

  /** Pressing create on a fresh dialog does nothing. */
  lemma EmptyFormCannotCreate(workspaceId: string)
    ensures CreateDisabled(EmptyForm)
    ensures HandleCreateTask(EmptyForm, workspaceId).emitted.None?
  {
  }
}
