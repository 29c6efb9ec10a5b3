/** The task records of `src/mock-data/tasks.ts` and the list operations of the
    `useTasks` hook in `src/hooks/use-tasks.tsx`. The hook's `setTasks(prev => …)`
    updaters are modelled as functions from the old list to the new one; the
    clock (`new Date().toISOString()`) and `uuidv4()` are parameters. */
module Tasks {
  import opened Seqs

  datatype Status = Todo | InProgress | Completed

  datatype Task = Task(
    id: string,
    workspaceId: string,
    title: string,
    description: string,
    status: Status,
    assignees: seq<string>,     // user ids
    createdBy: string,
    createdAt: string,          // ISO timestamps
    updatedAt: string)

  /** A user of the mock directory: `{ id, name, email, role }`. */
  datatype Member = Member(id: string, name: string, email: string, role: string)

  /** The title, description and status a task form edits. */
  datatype TaskForm = TaskForm(title: string, description: string, status: Status)

  /** The test `task.assignees.includes(user.id)`. */
  function IsAssigned(t: Task): Member -> bool
  {
    (u: Member) => u.id in t.assignees
  }

  /** The users whose id is among the task's assignees, in directory order,
      each as often as the directory lists it:
      `users.filter(user => task.assignees.includes(user.id))`. */
  function AssignedMembers(users: seq<Member>, t: Task): (r: seq<Member>)
    ensures IsSubsequence(r, users)
    ensures forall i :: 0 <= i < |r| ==> r[i].id in t.assignees
    ensures forall i :: 0 <= i < |users| && users[i].id in t.assignees ==> users[i] in r
    ensures |r| == Count(IsAssigned(t), users)
  {
    Filter(IsAssigned(t), users)
  }

  /** `Omit<Task, "id" | "createdAt" | "updatedAt">`: what `addTask` is given. */
  datatype NewTask = NewTask(
    workspaceId: string,
    title: string,
    description: string,
    status: Status,
    assignees: seq<string>,
    createdBy: string)

  /** `Partial<Omit<Task, "id" | "createdAt" | "createdBy">>`: the fields an
      update may carry; an absent field is `None`. */
  datatype TaskUpdate = TaskUpdate(
    workspaceId: Option<string>,
    title: Option<string>,
    description: Option<string>,
    status: Option<Status>,
    assignees: Option<seq<string>>,
    updatedAt: Option<string>)

  function Or<T>(o: Option<T>, default: T): T
  {
    if o.Some? then o.value else default
  }

  predicate NoDuplicates(xs: seq<string>)
  {
    forall i, j :: 0 <= i < j < |xs| ==> xs[i] != xs[j]
  }

  /** The test `task.workspaceId === workspaceId`. */
  function InWorkspace(workspaceId: string): Task -> bool
  {
    (t: Task) => t.workspaceId == workspaceId
  }

  /** The hook's initial state: the mock tasks of the given workspace, in
      order, each as often as the mock data holds it. */
  function InitialTasks(mock: seq<Task>, workspaceId: string): (r: seq<Task>)
    ensures IsSubsequence(r, mock)
    ensures forall i :: 0 <= i < |r| ==> r[i].workspaceId == workspaceId
    ensures forall i :: 0 <= i < |mock| && mock[i].workspaceId == workspaceId ==> mock[i] in r
    ensures |r| == Count(InWorkspace(workspaceId), mock)
  {
    Filter(InWorkspace(workspaceId), mock)
  }

  /** `getTaskById`: the first task with the id, if any. */
  function GetTaskById(tasks: seq<Task>, taskId: string): (r: Option<Task>)
    ensures r.None? <==> forall i :: 0 <= i < |tasks| ==> tasks[i].id != taskId
    ensures r.Some? ==> r.value.id == taskId && r.value in tasks
    ensures r.Some? ==> exists i :: 0 <= i < |tasks| && tasks[i] == r.value
                          && forall j :: 0 <= j < i ==> tasks[j].id != taskId
  {
    var p := (t: Task) => t.id == taskId;
    var k := FirstIndex(p, tasks);
    assert k < |tasks| ==> Find(p, tasks) == Some(tasks[k]);
    Find(p, tasks)
  }

  /** `addTask`: append the given fields with a fresh id and the two
      timestamps, each from its own clock reading, and return the new task. */
  function AddTask(tasks: seq<Task>, t: NewTask, newId: string, createdAt: string, updatedAt: string): (r: (seq<Task>, Task))
    ensures r.0 == tasks + [r.1]
    ensures r.1.id == newId && r.1.createdAt == createdAt && r.1.updatedAt == updatedAt
    ensures r.1.workspaceId == t.workspaceId && r.1.title == t.title && r.1.description == t.description
    ensures r.1.status == t.status && r.1.assignees == t.assignees && r.1.createdBy == t.createdBy
  {
    var task := Task(newId, t.workspaceId, t.title, t.description, t.status, t.assignees, t.createdBy, createdAt, updatedAt);
    (tasks + [task], task)
  }

  /** `{ ...task, ...updates, updatedAt: now }` */
  function ApplyUpdate(t: Task, u: TaskUpdate, now: string): (r: Task)
    ensures r.id == t.id && r.createdAt == t.createdAt && r.createdBy == t.createdBy
    ensures r.updatedAt == now
    ensures r.title == Or(u.title, t.title) && r.description == Or(u.description, t.description)
    ensures r.status == Or(u.status, t.status) && r.assignees == Or(u.assignees, t.assignees)
    ensures r.workspaceId == Or(u.workspaceId, t.workspaceId)
  {
    t.(workspaceId := Or(u.workspaceId, t.workspaceId),
       title := Or(u.title, t.title),
       description := Or(u.description, t.description),
       status := Or(u.status, t.status),
       assignees := Or(u.assignees, t.assignees),
       updatedAt := now)
  }

  /** `prev.map(f)` */
  function MapTasks(f: Task -> Task, tasks: seq<Task>): (r: seq<Task>)
    ensures |r| == |tasks| && forall i :: 0 <= i < |tasks| ==> r[i] == f(tasks[i])
  {
    seq(|tasks|, i requires 0 <= i < |tasks| => f(tasks[i]))
  }

  /** `updateTask`: every task with the id gets the update; the others, the
      length and the order stay as they were. */
  function UpdateTask(tasks: seq<Task>, taskId: string, u: TaskUpdate, now: string): (r: seq<Task>)
    ensures |r| == |tasks|
    ensures forall i :: 0 <= i < |tasks| ==> r[i].id == tasks[i].id
    ensures forall i :: 0 <= i < |tasks| && tasks[i].id != taskId ==> r[i] == tasks[i]
    ensures forall i :: 0 <= i < |tasks| && tasks[i].id == taskId ==> r[i] == ApplyUpdate(tasks[i], u, now)
  {
    MapTasks((t: Task) => if t.id == taskId then ApplyUpdate(t, u, now) else t, tasks)
  }

  /** The test `task.id !== taskId`. */
  function OtherId(taskId: string): Task -> bool
  {
    (t: Task) => t.id != taskId
  }

  /** `deleteTask`: drop every task with the id, keep the rest in order, each
      as often as it was there. */
  function DeleteTask(tasks: seq<Task>, taskId: string): (r: seq<Task>)
    ensures IsSubsequence(r, tasks)
    ensures forall i :: 0 <= i < |r| ==> r[i].id != taskId
    ensures forall i :: 0 <= i < |tasks| && tasks[i].id != taskId ==> tasks[i] in r
    ensures |r| == Count(OtherId(taskId), tasks)
  {
    Filter(OtherId(taskId), tasks)
  }

  /** One task's side of `addMemberToTask`. */
  function AddMember(t: Task, taskId: string, userId: string, now: string): (r: Task)
    ensures t.id != taskId || userId in t.assignees ==> r == t
    ensures t.id == taskId && userId !in t.assignees ==>
      r == t.(assignees := t.assignees + [userId], updatedAt := now)
  {
    if t.id == taskId && userId !in t.assignees then
      t.(assignees := t.assignees + [userId], updatedAt := now)
    else t
  }

  /** `addMemberToTask`: append the user to the matching tasks that do not
      have it yet; everything else is left alone. */
  function AddMemberToTask(tasks: seq<Task>, taskId: string, userId: string, now: string): (r: seq<Task>)
    ensures |r| == |tasks|
    ensures forall i :: 0 <= i < |tasks| ==> r[i] == AddMember(tasks[i], taskId, userId, now)
  {
    MapTasks((t: Task) => AddMember(t, taskId, userId, now), tasks)
  }

  /** One task's side of `removeMemberFromTask`. */
  function RemoveMember(t: Task, taskId: string, userId: string, now: string): (r: Task)
    ensures t.id != taskId ==> r == t
    ensures t.id == taskId ==> r.updatedAt == now && userId !in r.assignees
    ensures t.id == taskId ==> r.assignees == Filter((x: string) => x != userId, t.assignees)
    ensures r == t.(assignees := r.assignees, updatedAt := r.updatedAt)
  {
    if t.id == taskId then
      t.(assignees := Filter((x: string) => x != userId, t.assignees), updatedAt := now)
    else t
  }

  /** `removeMemberFromTask`: filter the user out of the matching tasks'
      assignees, stamping them even when the user was not there. */
  function RemoveMemberFromTask(tasks: seq<Task>, taskId: string, userId: string, now: string): (r: seq<Task>)
    ensures |r| == |tasks|
    ensures forall i :: 0 <= i < |tasks| ==> r[i] == RemoveMember(tasks[i], taskId, userId, now)
  {
    MapTasks((t: Task) => RemoveMember(t, taskId, userId, now), tasks)
  }

  /** Adding a member never creates a duplicate assignee. */
  lemma AddMemberKeepsNoDuplicates(t: Task, taskId: string, userId: string, now: string)
    requires NoDuplicates(t.assignees)
    ensures NoDuplicates(AddMember(t, taskId, userId, now).assignees)
    ensures userId in AddMember(t, taskId, userId, now).assignees <==> userId in t.assignees || t.id == taskId
  {
  }

  /** Adding the same member twice is adding it once. */
  lemma AddMemberIdempotent(tasks: seq<Task>, taskId: string, userId: string, now: string)
    ensures AddMemberToTask(AddMemberToTask(tasks, taskId, userId, now), taskId, userId, now)
         == AddMemberToTask(tasks, taskId, userId, now)
  {
  }

  /** Removing keeps the other assignees, in order, as the order-preserving
      subsequence of the old ones without the user. */
  lemma RemoveMemberKeepsOthers(t: Task, userId: string, now: string)
    ensures var r := RemoveMember(t, t.id, userId, now);
            IsSubsequence(r.assignees, t.assignees)
            && forall x :: x in t.assignees && x != userId ==> x in r.assignees
  {
  }

  /** Removing a member that was just added restores the assignee list. */
  lemma {:induction false} RemoveUndoesAdd(t: Task, userId: string, now: string, later: string)
    requires userId !in t.assignees
    ensures RemoveMember(AddMember(t, t.id, userId, now), t.id, userId, later).assignees == t.assignees
  {
    var p := (x: string) => x != userId;
    FilterAll(p, t.assignees);
    FilterAppend(p, t.assignees, [userId]);
  }

  /** A deleted task can no longer be looked up. */
  lemma DeleteThenGet(tasks: seq<Task>, taskId: string)
    ensures GetTaskById(DeleteTask(tasks, taskId), taskId).None?
  {
  }

  /** A task added under an id no other task has is what the lookup finds. */
  lemma AddThenGet(tasks: seq<Task>, t: NewTask, newId: string, createdAt: string, updatedAt: string)
    requires forall i :: 0 <= i < |tasks| ==> tasks[i].id != newId
    ensures var (ts, task) := AddTask(tasks, t, newId, createdAt, updatedAt);
            GetTaskById(ts, newId) == Some(task)
  {
    var (ts, task) := AddTask(tasks, t, newId, createdAt, updatedAt);
    var p := (x: Task) => x.id == newId;
    FirstIndexIs(p, ts, |tasks|);
  }

  /** After an update the lookup sees the updated task. */
  lemma UpdateThenGet(tasks: seq<Task>, taskId: string, u: TaskUpdate, now: string)
    requires GetTaskById(tasks, taskId).Some?
    ensures GetTaskById(UpdateTask(tasks, taskId, u, now), taskId)
         == Some(ApplyUpdate(GetTaskById(tasks, taskId).value, u, now))
  {
    var p := (x: Task) => x.id == taskId;
    var r := UpdateTask(tasks, taskId, u, now);
    var k := FirstIndex(p, tasks);
    assert FirstIndex(p, r) == k by {
      FirstIndexSameIds(p, tasks, r, taskId);
    }
  }

  /** The first index of an id depends only on the ids in the list. */
  lemma FirstIndexSameIds(p: Task -> bool, a: seq<Task>, b: seq<Task>, taskId: string)
    requires forall x :: p(x) <==> x.id == taskId
    requires |a| == |b| && forall i :: 0 <= i < |a| ==> a[i].id == b[i].id
    ensures FirstIndex(p, a) == FirstIndex(p, b)
  {
  }
}
