/** A task card of `src/components/taskItem.tsx`: the status badge, the
    assignee avatars with their overflow counter, and the confirm-gated
    delete. Date formatting and the dropdown are not modelled. */
module TaskItem {
  import opened Seqs
  import opened Tasks

  /** The avatar row: at most three assignees, then `+n` for the rest. */
  datatype AvatarRow = AvatarRow(shown: seq<Member>, overflow: Option<nat>)

  const MaxAvatars: nat := 3

  /** `assignees.slice(0, 3)` and, when more than three, `+{assignees.length - 3}`. */
  function Avatars(assignees: seq<Member>): (r: AvatarRow)
    ensures |r.shown| == if |assignees| < MaxAvatars then |assignees| else MaxAvatars
    ensures r.shown == assignees[..|r.shown|]
    ensures r.overflow.Some? <==> |assignees| > MaxAvatars
    ensures r.overflow.Some? ==> |r.shown| + r.overflow.value == |assignees|
  {
    var shown := if |assignees| < MaxAvatars then assignees else assignees[..MaxAvatars];
    AvatarRow(shown, if |assignees| > MaxAvatars then Some(|assignees| - MaxAvatars) else None)
  }

  /** The card's avatars are the task's assignees found in the directory, in
      directory order; nobody else appears and nobody is counted twice. */
  lemma CardShowsAssignees(users: seq<Member>, t: Task)
    ensures var row := Avatars(AssignedMembers(users, t));
            var n := |AssignedMembers(users, t)|;
            && (forall i :: 0 <= i < |row.shown| ==> row.shown[i].id in t.assignees)
            && |row.shown| + (if row.overflow.Some? then row.overflow.value else 0) == n
            && n <= |users|
  {
  }

  /** `handleDelete`: `onDelete(task.id)` runs exactly when the confirmation
      dialog resolves true. */
  function HandleDelete(t: Task, confirmed: bool): (deleted: Option<string>)
    ensures deleted.Some? <==> confirmed
    ensures deleted.Some? ==> deleted.value == t.id
  {
    if confirmed then Some(t.id) else None
  }

  /** The badge colour classes per status. */
  const StatusColors: map<Status, string> := map[
    Todo := "bg-yellow-100 text-yellow-800",
    InProgress := "bg-blue-100 text-blue-800",
    Completed := "bg-green-100 text-green-800"]

  /** The badge label per status. */
  const StatusText: map<Status, string> := map[
    Todo := "Cần làm",
    InProgress := "Đang làm",
    Completed := "Hoàn thành"]

  /** The badge of a task: its colour classes and label. */
  function Badge(t: Task): (r: (string, string))
    ensures t.status in StatusColors && r.0 == StatusColors[t.status]
    ensures t.status in StatusText && r.1 == StatusText[t.status]
  {
    StatusMapsTotal();
    (StatusColors[t.status], StatusText[t.status])
  }

  /** Both maps cover every status, and different statuses get different labels. */
  lemma StatusMapsTotal()
    ensures forall s: Status :: s in StatusColors && s in StatusText
    ensures forall s, s': Status :: s in StatusText && s' in StatusText && s != s' ==> StatusText[s] != StatusText[s']
  {
    forall s: Status ensures s in StatusColors && s in StatusText {
      match s
      case Todo =>
      case InProgress =>
      case Completed =>
    }
  }

  /** The badge label tells the status: two tasks carry the same label
      exactly when they have the same status. */
  lemma BadgeIdentifiesStatus(t: Task, t': Task)
    ensures Badge(t).1 == Badge(t').1 <==> t.status == t'.status
  {
    StatusMapsTotal();
  }
}
