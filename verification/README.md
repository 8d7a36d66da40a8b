# Task dashboard core, modelled in Dafny

This project models the decision logic of a small task-management web
application. Users sign in, create tasks with a status and a priority, see them
on a dashboard, and can ask a generative text service for a short summary of a
task. The store, the identity provider and the text service are outside the
model. Each one is a parameter: the signed-in user is an `Option<UserId>`, and
the store's and the service's answers are values of small outcome datatypes.

Modules follow the source files:

- `Tasks` (`tasks.dfy`, src/lib/tasks.ts): the closed status enumeration, the
  task record, and the read accessor that falls back to an empty list on a
  store error.
- `Actions` (`actions.dfy`, src/app/dashboard/actions.ts): `isTaskStatus`,
  `toPriority`, and the create-task action. The action checks, in order:
  signed-in user, title, status, priority. It then builds the inserted row and
  maps the store's answer to an `ActionState`.
- `Gemini` (`gemini.dfy`, src/lib/ai/gemini.ts): the API-key precondition,
  the deterministic prompt, the trimmed non-empty reply check, and the
  collapse of every failure into one message.
- `Middleware` (`middleware.dfy`, src/middleware.ts): the route guard, a pure
  function from (request URL, signed in?) to pass-through or a redirect.
- `DashboardPage` (`dashboard_page.dfy`, src/app/dashboard/page.tsx): the
  sign-in gate, the empty-state/grid choice, and the values each card derives
  from its task.
- `JsText` and `JsNumber`: the JavaScript semantics these rely on. They cover
  `String.prototype.trim` (the ECMAScript WhiteSpace and LineTerminator sets),
  string truthiness, `replace` with a string pattern (first occurrence only),
  and `Number()` applied to a string (section 7.1.4.1 of ECMA-262).
- `Wrappers`: `Option`, standing for `null`/`undefined`.

Modelling choices that follow the code closely:

- Errors are the literal message strings the code returns.
- The status check is strict equality on the untrimmed form value, so
  `" TODO"` is rejected.
- Priority accepts anything `Number()` reads as exactly 1, 2 or 3, including
  `"0x3"`, `"03"` and `" 2 "`.
- The dashboard labels every priority other than 2 and 3 as "low".
- src/app/dashboard/actions.ts imports a `TaskPriority` type that
  src/lib/tasks.ts does not declare. The model uses the subtype
  `Actions.Priority` (1 to 3) in its place.

## Model

| member | source | states |
|---|---|---|
| JsText.TrimStart | src/app/dashboard/actions.ts:34 | The result is the suffix of the input left after dropping every leading whitespace character; it is empty or starts with non-whitespace. |
| JsText.TrimEnd | src/app/dashboard/actions.ts:35 | The result is the prefix of the input left after dropping every trailing whitespace character; it is empty or ends with non-whitespace. |
| JsText.Trim | src/app/dashboard/actions.ts:34-35 | `trim()` meets the reference definition: its result is a contiguous slice of the input, everything outside the slice is whitespace, and the slice has no whitespace at either end. It is empty exactly when the input is all whitespace. |
| JsText.TrimUnique | src/app/dashboard/actions.ts:34-35 | The reference definition determines `trim()`: any slice meeting it is exactly the result of `trim()`. |
| JsText.TrimOfTrimmed | src/lib/ai/gemini.ts:32 | A string with no whitespace at either end is its own trim. |
| JsText.TrimIdempotent | src/lib/ai/gemini.ts:32 | Trimming an already trimmed string changes nothing. |
| JsText.TrimPadded | src/app/dashboard/actions.ts:34-35 | Surrounding whitespace never changes the trim of a string. |
| JsText.IndexOf | src/app/dashboard/page.tsx:103 | The index found holds the character and no earlier position does. |
| JsText.ReplaceFirst | src/app/dashboard/page.tsx:103 | `replace` with a one-character pattern and a replacement free of `$` rewrites only the first occurrence and leaves a string without the character unchanged. |
| JsNumber.StringToNumber | src/app/dashboard/actions.ts:17 | `Number()` of a blank string is 0; any other string denotes what its non-empty trimmed text denotes as a numeral. |
| JsNumber.NumberIgnoresPadding | src/app/dashboard/actions.ts:17 | `Number()` ignores whitespace around its argument. |
| JsNumber.BlankIsZero | src/app/dashboard/actions.ts:17 | `Number()` of a blank string is 0 (so an empty priority field is rejected). |
| JsNumber.DecimalRoundTrip | src/app/dashboard/actions.ts:17 | `Number()` reads every natural number back from its decimal rendering. |
| JsNumber.NonNumeralStart | src/app/dashboard/actions.ts:17 | A string whose first character is not whitespace, a digit, a sign, a point or `I` is NaN, whatever follows it. |
| JsNumber.HexExample | src/app/dashboard/actions.ts:17 | `Number("0x3")` is 3. |
| Tasks.ParseStatus | src/lib/tasks.ts:3 | A string names a status exactly when it is one of TODO, IN_PROGRESS, DONE, ARCHIVED, and then it is that status's name. |
| Tasks.StatusNameRoundTrip | src/lib/tasks.ts:3 | Every status's name is in the four-name domain and parses back to the same status. |
| Tasks.StatusNameInjective | src/lib/tasks.ts:3 | Distinct statuses have distinct names. |
| Tasks.GetUserTasks | src/lib/tasks.ts:20-30 | The accessor reads the store's answer to the `tasks` query (all columns, `created_at` descending). A store error yields the empty list; otherwise the rows are returned unchanged. |
| Tasks.AccessorNewestFirst | src/lib/tasks.ts:20-30 | For any store that honours the ordering of the query it is given, the accessor's list is newest first by `created_at`. |
| Actions.AsString | src/app/dashboard/actions.ts:34-35 | `String(value ?? "")`: a missing field reads as "", text as itself, an uploaded File as "[object File]". |
| Actions.ToNumber | src/app/dashboard/actions.ts:17 | `Number(value)`: a missing field is 0, text goes through `Number()`, and an uploaded File is NaN. |
| Actions.IsTaskStatus | src/app/dashboard/actions.ts:12-14 | Holds exactly for a text entry equal to one of the four status names. |
| Actions.ToPriority | src/app/dashboard/actions.ts:16-20 | A priority is returned exactly when the entry coerces to the number 1, 2 or 3, and it equals that number. |
| Actions.IsTaskStatusExactly | src/app/dashboard/actions.ts:12-14 | `isTaskStatus` holds exactly for a string value naming one of the four statuses. It accepts the same set as the task status type. |
| Actions.PriorityOf | src/app/dashboard/actions.ts:16-20 | The priority is defined exactly when the coerced number is 1, 2 or 3, and then equals that number. |
| Actions.DecimalPriority | src/app/dashboard/actions.ts:16-20 | A run of decimal digits (leading zeros allowed), with any whitespace around it, is accepted as a priority exactly when it denotes 1, 2 or 3, and then as that priority. |
| Actions.HexPriority | src/app/dashboard/actions.ts:17-18 | The priority field accepts `"0x3"` as priority 3. |
| Actions.NonNumericPriority | src/app/dashboard/actions.ts:16-20 | Any text starting with a lower-case letter, a missing field and an uploaded File are all rejected as priorities. |
| Actions.NormalizeDescription | src/app/dashboard/actions.ts:35 | The stored description is the trimmed text, or null exactly when the field is missing or all whitespace. |
| Actions.FormError | src/app/dashboard/actions.ts:39-48 | The form passes exactly when the title is not blank, the status is valid and the priority is valid. Checks run in the order title, status, priority, and the first failing one is reported: "Title is required", then "Invalid status", then "Invalid priority". |
| Actions.CreateTask | src/app/dashboard/actions.ts:28-61 | Exactly one of error and success is set. A row is inserted iff a user is signed in and the form passes. With no user the result is "Unauthorized"; otherwise a failing form reports its first error. The row holds the caller's id, trimmed title, normalized description, validated status and priority. A store error is reported by its message; a successful insert reports exactly `{success: true}`. |
| Actions.UnauthorizedIgnoresInput | src/app/dashboard/actions.ts:32 | Without a user the outcome is the same for every form and store answer, and nothing is inserted. |
| Actions.BlankTitleWins | src/app/dashboard/actions.ts:34-39 | A missing, empty or whitespace-only title yields "Title is required" whatever the status and priority fields hold. |
| Actions.CreatedRowWellFormed | src/app/dashboard/actions.ts:50-56 | An inserted row has a non-empty trimmed title, and its description is null or non-empty and trimmed. |
| Actions.ValidSubmission | src/app/dashboard/actions.ts:28-61 | Any signed-in submission with a trimmed non-empty title, no description, any status name and priority 1, 2 or 3 in decimal inserts exactly those values with no description and reports success. |
| Gemini.TaskContent | src/lib/ai/gemini.ts:19-21 | The task content starts with the title line; the description line follows exactly when the description is not blank, and otherwise the title line is all of it. |
| Gemini.Prompt | src/lib/ai/gemini.ts:23 | The prompt is the fixed instruction and a blank line, followed by the task content. |
| Gemini.SummarizeTaskText | src/lib/ai/gemini.ts:11-43 | A missing or empty API key fails with "GEMINI_API_KEY is not defined" and sends no request. Otherwise one request goes out carrying the prompt. A summary is returned exactly when the reply has non-blank text, and it is that text trimmed. Every other failure has the message "Failed to generate task summary". |
| Gemini.SummaryIsTrimmedNonEmpty | src/lib/ai/gemini.ts:32-38 | A returned summary is never empty and has no surrounding whitespace. |
| Gemini.RequestDependsOnlyOnInput | src/lib/ai/gemini.ts:19-29 | The request sent depends only on the title and description. It does not depend on the key or on the service's reply. |
| Gemini.BlankDescriptionIgnored | src/lib/ai/gemini.ts:19-21 | A whitespace-only description gives the same prompt as no description. |
| Gemini.PromptStartsWithInstruction | src/lib/ai/gemini.ts:23 | The prompt always begins with the fixed instruction, a blank line and the title line. |
| Gemini.TitleRecoverable | src/lib/ai/gemini.ts:19-23 | Without a description, different titles give different prompts. |
| Gemini.PromptAmbiguity | src/lib/ai/gemini.ts:19-23 | The prompt format is not injective. Take any title and any non-blank description. The title followed by "\nDescription: " and the description, with no description, gives the same prompt as the title alone with that description. |
| Middleware.Guard | src/middleware.ts:44-62 | A signed-out request to a path starting with "/dashboard" is redirected to "/login". A signed-in request to a path starting with "/login" or "/register" is redirected to "/dashboard". Everything else passes through. A redirect changes only the pathname of the request URL. |
| Middleware.NoRedirectLoop | src/middleware.ts:48-62 | Following a redirect with the same session state always passes through. |
| Middleware.PrefixGuardsExtensions | src/middleware.ts:48 | The protection is a raw prefix test: any path extending "/dashboard", such as "/dashboardX", is redirected when signed out. |
| DashboardPage.PriorityBadge | src/app/dashboard/page.tsx:56-68 | Priority 3 is "high"/"destructive" and 2 is "medium"/"default". Every other value, including out-of-range ones, is "low"/"secondary". Label and variant always correspond. |
| DashboardPage.BadgeRoundTrip | src/app/dashboard/page.tsx:56-61 | On priorities 1 to 3 the label determines the priority. |
| DashboardPage.DescriptionText | src/app/dashboard/page.tsx:79 | A null or empty description shows "No description provided."; any other text is shown as stored. |
| DashboardPage.StatusText | src/app/dashboard/page.tsx:103 | IN_PROGRESS shows as "IN PROGRESS"; the other statuses show their names unchanged. |
| DashboardPage.StatusTextInjective | src/app/dashboard/page.tsx:103 | Distinct statuses show distinct text. |
| DashboardPage.SummaryPanelOf | src/app/dashboard/page.tsx:84-98 | A non-empty AI summary is shown; otherwise the summarize button for that task's id is shown. |
| DashboardPage.CardOf | src/app/dashboard/page.tsx:56-103 | A card is keyed and titled by its task and shows its priority badge, its description or the fallback, its non-empty summary or else the summarize button for its id, and its status text. |
| DashboardPage.Cards | src/app/dashboard/page.tsx:55-79 | There is one card per task, in the listed order, each derived from its own task. |
| DashboardPage.TaskListView | src/app/dashboard/page.tsx:49-55 | The empty state is shown exactly when there are no tasks. Otherwise the grid has one card per task, keyed by the task's id, in order. |
| DashboardPage.Page | src/app/dashboard/page.tsx:19-23 | Without a user the page redirects to "/login"; with one it lists what the read accessor returns. |
| DashboardPage.SignedOutReadsNothing | src/app/dashboard/page.tsx:19-23 | Signed out, the page's outcome does not depend on the store, so no task read takes effect. |
| DashboardPage.StoreErrorShowsEmptyState | src/lib/tasks.ts:25-28 | A store error on the tasks query shows the empty state on the dashboard, not an error. |
| DashboardPage.GateAgreesWithGuard | src/app/dashboard/page.tsx:19-21 | For a signed-out dashboard request, the page's gate and the route guard redirect to the same login path. |
| DashboardPage.CreatedDescriptionDisplay | src/app/dashboard/page.tsx:79 | For a task written by the create action, the card shows the description exactly when one was given. |
| DashboardPage.GeneratedSummaryIsShown | src/app/dashboard/page.tsx:84 | A summary returned by the summarizer, once stored on a task, is always displayed instead of the button. |

## Left out

- Supabase clients, cookie plumbing and session refresh (src/middleware.ts:6-42). These are I/O. The signed-in user is a parameter.
- `revalidatePath` (src/app/dashboard/actions.ts:60). It is a framework cache effect with no bearing on the result.
- The Gemini SDK client, the network call and `console.error` logging. The service is an oracle whose reply is a parameter. A constructor failure of the SDK client is not modelled.
- The route matcher regex (src/middleware.ts:65-77). It is framework configuration; the guard is modelled for the requests it matches.
- Date formatting of `created_at` on the card, the greeting with the user's e-mail, and all layout, CSS and JSX.
- Sorting itself is the store's job. The store is a function from query to answer; the model states which query the accessor issues (`Tasks.TasksQuery`, `created_at` descending) and does not sort.
- Row-level security and per-owner filtering happen inside the store. They are not in the application code.
- The update, status-change, delete, summarize-and-store and note actions. Their bodies are not part of this model, so no contract is stated for them.
- src/lib/notes.ts. Its only logic is the same error-to-empty-list fallback modelled in `Tasks.GetUserTasks`.
- The React components, dialogs and the root page's redirect. These are presentation.
- JsNumber.StringToNumber: reads numerals as exact rationals, not binary64. A decimal string that only rounds to 1, 2 or 3 is a rejected priority here but accepted by the source. One example is "3.0000000000000001". Numerals beyond the binary64 range are also not turned into Infinity.
- JsText.ReplaceFirst: replacement strings containing `$` are excluded, because JavaScript expands `$&`, `$$` and similar patterns in them. The only replacement in the dashboard is " ".
- DecimalPriority: covers unsigned runs of digits. Signed, fractional and exponent forms such as "+2" or "3.0" follow `JsNumber.StringToNumber`, but no lemma states their priority.
- JsText.IsWhitespace: characters are Unicode scalar values, not UTF-16 code units. Lone surrogates cannot be represented.
- Task priorities read from the store are integers here. The source's `number` type could also hold a fraction. Such a value would also show as "low".
