/**
 * The task domain: the closed status enumeration, the task record as the
 * store returns it, and the read accessor that lists the caller's tasks.
 */
module Tasks {
  import opened Wrappers

  type UserId = string

  datatype TaskStatus = Todo | InProgress | Done | Archived

  /** The string each status is stored and transmitted as. */
  function StatusName(s: TaskStatus): string {
    match s
    case Todo => "TODO"
    case InProgress => "IN_PROGRESS"
    case Done => "DONE"
    case Archived => "ARCHIVED"
  }

  /** The four strings of the status domain. */
  const StatusNames: set<string> := {"TODO", "IN_PROGRESS", "DONE", "ARCHIVED"}

  /** Reads a status back from its name; None for any other string. */
  function ParseStatus(name: string): (r: Option<TaskStatus>)
    ensures r.Some? <==> name in StatusNames
    ensures r.Some? ==> StatusName(r.value) == name
  {
    if name == "TODO" then Some(Todo)
    else if name == "IN_PROGRESS" then Some(InProgress)
    else if name == "DONE" then Some(Done)
    else if name == "ARCHIVED" then Some(Archived)
    else None
  }

  /** The status domain is exactly the four names, and each name denotes one
      status: parsing inverts naming. */
  lemma {:induction false} StatusNameRoundTrip(s: TaskStatus)
    ensures StatusName(s) in StatusNames
    ensures ParseStatus(StatusName(s)) == Some(s)
  {
    match s
    case Todo =>
    case InProgress =>
    case Done =>
    case Archived =>
  }

  /** Distinct statuses have distinct names. */
  lemma StatusNameInjective(s: TaskStatus, t: TaskStatus)
    ensures StatusName(s) == StatusName(t) ==> s == t
  {
    StatusNameRoundTrip(s);
    StatusNameRoundTrip(t);
  }

  /** A row of the `tasks` table. `priority` is an arbitrary integer here:
      the store's column is documented as 1, 2 or 3 but the type does not
      enforce it, and the display code handles any value. */
  datatype Task = Task(
    id: string,
    userId: UserId,
    title: string,
    description: Option<string>,
    status: TaskStatus,
    priority: int,
    createdAt: string,
    aiSummary: Option<string>)

  /** A select over one table: the columns read and the column and direction
      of the ordering. */
  datatype SelectQuery = SelectQuery(table: string, columns: string, orderBy: string, ascending: bool)

  /** The query the read accessor issues: every column of `tasks`, newest
      first. Row-level security in the store restricts it to the caller's
      rows. */
  const TasksQuery := SelectQuery("tasks", "*", "created_at", false)

  /** What the store answers to a select. */
  datatype SelectOutcome = Rows(rows: seq<Task>) | SelectError(message: string)

  /** The store, as the answer it gives to each query. */
  type Store = SelectQuery -> SelectOutcome

  /** The read accessor: the store's rows for the tasks query, unchanged and
      in the order the store returns them, or the empty list when the store
      reports an error (the error is logged and swallowed). */
  function GetUserTasks(store: Store): (tasks: seq<Task>)
    ensures store(TasksQuery).SelectError? ==> tasks == []
    ensures store(TasksQuery).Rows? ==> tasks == store(TasksQuery).rows
  {
    match store(TasksQuery)
    case Rows(rows) => rows
    case SelectError(_) => []
  }

  /** The value of a task's column, as the store compares it; columns the
      model does not order by read as the empty string. */
  function ColumnValue(task: Task, column: string): string {
    if column == "created_at" then task.createdAt
    else if column == "id" then task.id
    else if column == "title" then task.title
    else ""
  }

  /** `rows` are ordered on `column` in the given direction, where
      `after(a, b)` is the store's strict "a sorts after b" on that column. */
  ghost predicate OrderedOn(rows: seq<Task>, column: string, ascending: bool, after: (string, string) -> bool) {
    forall i, j | 0 <= i < j < |rows| ::
      if ascending then !after(ColumnValue(rows[i], column), ColumnValue(rows[j], column))
      else !after(ColumnValue(rows[j], column), ColumnValue(rows[i], column))
  }

  /** The store honours every query's ordering. */
  ghost predicate HonoursOrdering(store: Store, after: (string, string) -> bool) {
    forall q: SelectQuery :: store(q).Rows? ==> OrderedOn(store(q).rows, q.orderBy, q.ascending, after)
  }

  /** No task is listed before one created later. */
  ghost predicate NewestFirst(tasks: seq<Task>, after: (string, string) -> bool) {
    forall i, j | 0 <= i < j < |tasks| :: !after(tasks[j].createdAt, tasks[i].createdAt)
  }

  /** The accessor lists tasks newest first: it asks for `created_at`
      descending and passes the rows through unchanged, so any store that
      honours the ordering of the query it is given yields a newest-first
      list (an error yields the empty list, which is trivially ordered). */
  lemma AccessorNewestFirst(store: Store, after: (string, string) -> bool)
    requires HonoursOrdering(store, after)
    ensures NewestFirst(GetUserTasks(store), after)
  {
    var answer := store(TasksQuery);
    if answer.Rows? {
      assert OrderedOn(answer.rows, "created_at", false, after);
      forall i, j | 0 <= i < j < |answer.rows|
        ensures !after(answer.rows[j].createdAt, answer.rows[i].createdAt)
      {
        assert ColumnValue(answer.rows[i], "created_at") == answer.rows[i].createdAt;
        assert ColumnValue(answer.rows[j], "created_at") == answer.rows[j].createdAt;
      }
    }
  }
}
