/** The search box and status badges of `src/components/taskList.tsx`.
    `toLowerCase`, Unicode's default case mapping, is a parameter. */
module TaskList {
  import opened Seqs
  import opened Text
  import opened Tasks

  /** The status badge selection: "all" or one status. */
  datatype StatusFilter = All | Only(status: Status)

  /** The lower-cased title or description includes the lower-cased query. */
  predicate MatchesSearch(t: Task, query: string, lower: string -> string)
  {
    Includes(lower(t.title), lower(query)) || Includes(lower(t.description), lower(query))
  }

  predicate MatchesStatus(t: Task, f: StatusFilter)
  {
    f.All? || t.status == f.status
  }

  /** The test a task must pass to be listed. */
  function Shown(query: string, f: StatusFilter, lower: string -> string): Task -> bool
  {
    (t: Task) => MatchesSearch(t, query, lower) && MatchesStatus(t, f)
  }

  /** `filteredTasks`: the tasks matching both the search and the status
      filter, in list order; none is lost, none is added, and each is kept as
      often as the list holds it. */
  function FilteredTasks(tasks: seq<Task>, query: string, f: StatusFilter, lower: string -> string): (r: seq<Task>)
    ensures IsSubsequence(r, tasks)
    ensures forall i :: 0 <= i < |r| ==> MatchesSearch(r[i], query, lower) && MatchesStatus(r[i], f)
    ensures forall i :: 0 <= i < |r| ==> f.Only? ==> r[i].status == f.status
    ensures forall i :: 0 <= i < |tasks| && MatchesSearch(tasks[i], query, lower) && MatchesStatus(tasks[i], f)
              ==> tasks[i] in r
    ensures |r| == Count(Shown(query, f, lower), tasks)
  {
    Filter(Shown(query, f, lower), tasks)
  }

  /** With an empty query and "all" selected the whole list is shown. */
  lemma EmptyQueryShowsAll(tasks: seq<Task>, lower: string -> string)
    requires lower("") == ""
    ensures FilteredTasks(tasks, "", All, lower) == tasks
  {
    forall i | 0 <= i < |tasks| ensures MatchesSearch(tasks[i], "", lower) {
      IncludesEmpty(lower(tasks[i].title));
    }
    FilterAll(Shown("", All, lower), tasks);
  }
}
