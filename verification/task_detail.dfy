/** The task detail modal of `src/components/taskDetailModal.tsx`: the edit
    form, the assigned / unassigned split of the user directory, the update it
    submits, the creator lookup and the attachment flag. HTTP responses are
    inputs; date formatting and the modal itself are not modelled. */
module TaskDetail {
  import opened Seqs
  import opened Tasks

  /** The form state for a task; also what the form is reset to whenever the
      task prop changes. */
  function FormFor(t: Task): (f: TaskForm)
    ensures f.title == t.title && f.description == t.description && f.status == t.status
  {
    TaskForm(t.title, t.description, t.status)
  }

  /** The test `!task.assignees.includes(user.id)`. */
  function IsUnassigned(t: Task): Member -> bool
  {
    (u: Member) => u.id !in t.assignees
  }

  /** The users offered under "add": those whose id is not among the
      assignees, in directory order, each as often as the directory lists it. */
  function UnassignedMembers(users: seq<Member>, t: Task): (r: seq<Member>)
    ensures IsSubsequence(r, users)
    ensures forall i :: 0 <= i < |r| ==> r[i].id !in t.assignees
    ensures forall i :: 0 <= i < |users| && users[i].id !in t.assignees ==> users[i] in r
    ensures |r| == Count(IsUnassigned(t), users)
  {
    Filter(IsUnassigned(t), users)
  }

  /** Every user of the directory is listed once, either as assigned or as
      unassigned: the two lists together are the directory, counted with
      multiplicity, and no user is in both. */
  lemma AssignedUnassignedPartition(users: seq<Member>, t: Task)
    ensures multiset(AssignedMembers(users, t)) + multiset(UnassignedMembers(users, t)) == multiset(users)
    ensures |AssignedMembers(users, t)| + |UnassignedMembers(users, t)| == |users|
    ensures forall u :: u in users ==> (u in AssignedMembers(users, t) <==> u !in UnassignedMembers(users, t))
  {
    FilterPartition(IsAssigned(t), IsUnassigned(t), users);
  }

  /** What `handleUpdate` does: call `onUpdate(task.id, {title, description,
      status})` and close the modal. */
  datatype UpdateCall = UpdateCall(taskId: string, update: TaskUpdate, closed: bool)

  function HandleUpdate(t: Task, f: TaskForm): (r: UpdateCall)
    ensures r.taskId == t.id && r.closed
    ensures r.update.title == Some(f.title) && r.update.description == Some(f.description)
    ensures r.update.status == Some(f.status)
    ensures r.update.workspaceId.None? && r.update.assignees.None? && r.update.updatedAt.None?
  {
    UpdateCall(t.id, TaskUpdate(None, Some(f.title), Some(f.description), Some(f.status), None, None), true)
  }

  /** Submitting the form and applying it in the store gives a task whose form
      is the submitted one; its workspace, assignees and creation data stay. */
  lemma UpdateRoundTrip(tasks: seq<Task>, i: nat, f: TaskForm, now: string)
    requires i < |tasks|
    ensures var call := HandleUpdate(tasks[i], f);
            var r := UpdateTask(tasks, call.taskId, call.update, now);
            && FormFor(r[i]) == f
            && r[i].workspaceId == tasks[i].workspaceId && r[i].assignees == tasks[i].assignees
            && r[i].id == tasks[i].id && r[i].createdAt == tasks[i].createdAt
            && r[i].createdBy == tasks[i].createdBy && r[i].updatedAt == now
  {
  }

  /** The creator shown: the first directory user with the task's `createdBy`. */
  function Creator(users: seq<Member>, t: Task): (r: Option<Member>)
    ensures r.None? <==> forall i :: 0 <= i < |users| ==> users[i].id != t.createdBy
    ensures r.Some? ==> r.value.id == t.createdBy && r.value in users
    ensures r.Some? ==> exists i :: 0 <= i < |users| && users[i] == r.value
                          && forall j :: 0 <= j < i ==> users[j].id != t.createdBy
  {
    var p := (u: Member) => u.id == t.createdBy;
    var k := FirstIndex(p, users);
    assert k < |users| ==> Find(p, users) == Some(users[k]);
    Find(p, users)
  }

  /** `res.ok` of the Fetch standard: a status in the range 200 to 299. */
  predicate Ok(status: int)
  {
    200 <= status <= 299
  }

  /** The attachment check on opening: the flag becomes whether the `HEAD`
      was answered with exactly 200, whatever it was before. */
  function FileExistsAfterHead(fileExists: bool, status: int): (r: bool)
    ensures r <==> status == 200
    ensures r ==> Ok(status)
  {
    status == 200
  }

  /** The outcome of an attachment action: the new `fileExists` flag and
      whether a request was sent. */
  datatype FileOutcome = FileOutcome(fileExists: bool, requestSent: bool)

  /** `handleUpload`: nothing without a selected file; otherwise `POST` it and
      mark the attachment present only if the response is ok. */
  function HandleUpload(fileExists: bool, fileSelected: bool, status: int): (r: FileOutcome)
    ensures !fileSelected ==> r == FileOutcome(fileExists, false)
    ensures fileSelected ==> r.requestSent
    ensures r.fileExists != fileExists ==> r.fileExists && fileSelected && Ok(status)
    ensures fileSelected && Ok(status) ==> r.fileExists
  {
    if !fileSelected then FileOutcome(fileExists, false)
    else if Ok(status) then FileOutcome(true, true)
    else FileOutcome(fileExists, true)
  }

  /** `handleDelete`: send a `DELETE` and mark the attachment absent only if
      the response is ok. */
  function HandleDelete(fileExists: bool, status: int): (r: FileOutcome)
    ensures r.requestSent
    ensures r.fileExists != fileExists ==> !r.fileExists && Ok(status)
    ensures Ok(status) ==> !r.fileExists
  {
    if Ok(status) then FileOutcome(false, true) else FileOutcome(fileExists, true)
  }

  /** A 204 answer to the opening check reads as "no attachment", although a
      later upload answered 204 marks one present. */
  lemma HeadIsStricterThanOk()
    ensures Ok(204) && !FileExistsAfterHead(true, 204)
    ensures HandleUpload(false, true, 204).fileExists
  {
  }
}
