/**
 * The dashboard page's server-side decisions: the sign-in gate, the choice
 * between the empty state and the task grid, and the values each task card
 * derives from its row (priority badge, description text, summary panel,
 * status text). Layout and styling are not modelled.
 */
module DashboardPage {
  import opened Wrappers
  import opened JsText
  import opened Tasks
  import Actions
  import Gemini
  import Middleware

  /** A badge's text and its visual variant. */
  datatype Badge = Badge(caption: string, variant: string)

  /** A stored AI summary, or the button that requests one for the task. */
  datatype SummaryPanel = AiSummary(text: string) | SummarizeButton(taskId: string)

  /** What one card shows; `key` is the React key. */
  datatype Card = Card(key: string, title: string, badge: Badge, description: string, summary: SummaryPanel, status: string)

  datatype TaskList = EmptyState | Grid(cards: seq<Card>)

  datatype PageOutcome = RedirectTo(path: string) | Dashboard(list: TaskList)

  const NoDescriptionText := "No description provided."

  /** Priority 3 is high and destructive, 2 is medium and default, and every
      other value, in range or not, is low and secondary. */
  function PriorityBadge(priority: int): (b: Badge)
    ensures b.caption == "high" <==> priority == 3
    ensures b.caption == "medium" <==> priority == 2
    ensures b.caption == "low" <==> priority != 2 && priority != 3
    ensures b.caption == "high" <==> b.variant == "destructive"
    ensures b.caption == "medium" <==> b.variant == "default"
    ensures b.caption == "low" <==> b.variant == "secondary"
  {
    var caption := if priority == 3 then "high" else if priority == 2 then "medium" else "low";
    var variant := if priority == 3 then "destructive" else if priority == 2 then "default" else "secondary";
    Badge(caption, variant)
  }

  /** The priority a label stands for, among the documented priorities. */
  function LabelPriority(caption: string): int {
    if caption == "high" then 3 else if caption == "medium" then 2 else 1
  }

  /** On the documented priorities 1, 2 and 3 the badge loses nothing: the
      label gives the priority back. */
  lemma BadgeRoundTrip(priority: Actions.Priority)
    ensures LabelPriority(PriorityBadge(priority).caption) == priority
  {
  }

  /** `task.description || "No description provided."`: null and the empty
      string fall back; any other text, even blank, is shown as stored. */
  function DescriptionText(description: Option<string>): (t: string)
    ensures t == NoDescriptionText <==> description.None? || description.value in {"", NoDescriptionText}
    ensures description.Some? && Truthy(description.value) ==> t == description.value
  {
    if description.Some? && Truthy(description.value) then description.value else NoDescriptionText
  }

  /** `task.status.replace("_", " ")`: the first underscore becomes a space,
      so only IN_PROGRESS changes. */
  function StatusText(status: TaskStatus): (text: string)
    ensures text == (if status == InProgress then "IN PROGRESS" else StatusName(status))
  {
    var name := StatusName(status);
    if status == InProgress then
      assert IndexOf(name, '_') == 2;
      assert name[..2] + " " + name[3..] == "IN PROGRESS";
      ReplaceFirst(name, '_', " ")
    else
      assert '_' !in name;
      ReplaceFirst(name, '_', " ")
  }

  /** Distinct statuses display distinctly. */
  lemma StatusTextInjective(s: TaskStatus, t: TaskStatus)
    ensures StatusText(s) == StatusText(t) ==> s == t
  {
    StatusNameInjective(s, t);
  }

  /** `task.ai_summary ? <summary/> : <SummarizeButton/>`. */
  function SummaryPanelOf(task: Task): (p: SummaryPanel)
    ensures p.AiSummary? <==> task.aiSummary.Some? && Truthy(task.aiSummary.value)
    ensures p.AiSummary? ==> p.text == task.aiSummary.value
    ensures p.SummarizeButton? ==> p.taskId == task.id
  {
    if task.aiSummary.Some? && Truthy(task.aiSummary.value) then AiSummary(task.aiSummary.value)
    else SummarizeButton(task.id)
  }

  /** The card of one task: keyed and titled by the task, showing its
      priority badge, its description or the fallback, its summary or the
      summarize button, and its status text. */
  function CardOf(task: Task): (c: Card)
    ensures c.key == task.id && c.title == task.title
    ensures c.badge == PriorityBadge(task.priority)
    ensures c.description == (if task.description.Some? && Truthy(task.description.value) then task.description.value else NoDescriptionText)
    ensures c.summary.AiSummary? <==> task.aiSummary.Some? && Truthy(task.aiSummary.value)
    ensures c.summary.SummarizeButton? ==> c.summary.taskId == task.id
    ensures c.status == (if task.status == InProgress then "IN PROGRESS" else StatusName(task.status))
  {
    Card(task.id, task.title, PriorityBadge(task.priority), DescriptionText(task.description),
         SummaryPanelOf(task), StatusText(task.status))
  }

  /** One card per task, in the order the tasks were listed. */
  function Cards(tasks: seq<Task>): (cards: seq<Card>)
    ensures |cards| == |tasks|
    ensures forall i | 0 <= i < |tasks| :: cards[i] == CardOf(tasks[i])
  {
    if tasks == [] then [] else [CardOf(tasks[0])] + Cards(tasks[1..])
  }

  /** `tasks.length === 0 ? <empty state/> : <grid/>`. */
  function TaskListView(tasks: seq<Task>): (v: TaskList)
    ensures v == EmptyState <==> tasks == []
    ensures v.Grid? ==> |v.cards| == |tasks| && forall i | 0 <= i < |tasks| :: v.cards[i].key == tasks[i].id
  {
    if |tasks| == 0 then EmptyState else Grid(Cards(tasks))
  }

  /** The page: without a user it redirects to the login page before reading
      any task; otherwise it lists the tasks the read accessor returns. */
  function Page(user: Option<UserId>, store: Store): (o: PageOutcome)
    ensures user.None? ==> o == RedirectTo(Middleware.LoginPath)
    ensures user.Some? ==> o == Dashboard(TaskListView(GetUserTasks(store)))
  {
    if user.None? then RedirectTo(Middleware.LoginPath)
    else Dashboard(TaskListView(GetUserTasks(store)))
  }

  /** Without a user the page never depends on the store: no read happens. */
  lemma SignedOutReadsNothing(s1: Store, s2: Store)
    ensures Page(None, s1) == Page(None, s2) == RedirectTo("/login")
  {
  }

  /** A store error shows the empty state rather than an error. */
  lemma StoreErrorShowsEmptyState(user: UserId, store: Store)
    requires store(TasksQuery).SelectError?
    ensures Page(Some(user), store) == Dashboard(EmptyState)
  {
  }

  /** The page's own gate agrees with the route guard: a signed-out request
      for the dashboard is sent to the same login path by both (the guard
      also keeps the query string and fragment, the page's redirect does not). */
  lemma GateAgreesWithGuard(url: Middleware.Url, store: Store)
    requires url.pathname == Middleware.DashboardPath
    ensures Middleware.Guard(url, false) == Middleware.Redirect(url.(pathname := Page(None, store).path))
  {
  }

  /** For a task created through the create action, the card shows the
      description exactly when one was given, and the fallback otherwise. */
  lemma CreatedDescriptionDisplay(user: Option<UserId>, form: Actions.TaskForm, store: Actions.InsertOutcome, task: Task)
    requires Actions.CreateTask(user, form, store).insert.Some?
    requires task.description == Actions.CreateTask(user, form, store).insert.value.description
    ensures task.description.None? ==> CardOf(task).description == NoDescriptionText
    ensures task.description.Some? ==> CardOf(task).description == task.description.value
  {
    Actions.CreatedRowWellFormed(user, form, store);
  }

  /** A summary returned by the summarizer, once stored on the task, is
      always shown in place of the summarize button. */
  lemma GeneratedSummaryIsShown(apiKey: Option<string>, input: Gemini.SummaryInput, reply: Gemini.ServiceReply, task: Task)
    requires Gemini.SummarizeTaskText(apiKey, input, reply).result.Summary?
    requires task.aiSummary == Some(Gemini.SummarizeTaskText(apiKey, input, reply).result.text)
    ensures SummaryPanelOf(task) == AiSummary(task.aiSummary.value)
  {
    Gemini.SummaryIsTrimmedNonEmpty(apiKey, input, reply);
  }
}
