# SmartTodo AI: task list reconciliation, analysis cache and form guard

This project models the logic of a single-page todo application that keeps
its tasks in a remote Supabase table and uses a Gemini model to break a task
into steps. The rendering is left out. What is modelled:

- **App** (`app.dfy`, class `AppState`): the session state (`todos`,
  `loading`, `error`, `showSetup`) and its four operations.
  - `fetchTodos` is split at its `await`. `BeginFetch` turns loading on and
    clears the error. `CompleteFetch` reconciles the store's answer: it
    classifies the error (missing table or other) and decides whether to
    overwrite the list with the two sample tasks. That decision uses the
    `showSetup` value the callback closed over, so it reads the value as it
    was when the call began.
  - `addTodo`, `toggleTodo` and `deleteTodo` take the store's answer as a
    parameter. Toggle and delete compute the same list whatever that answer
    is.
- **TodoOps** (`todo_ops.dfy`): the pure list transformations behind those
  operations: the toggle `map`, the delete `filter` and the pending counter,
  with lemmas about the prepend that `AppState.AddTodo` writes inline.
- **GeminiService** (`gemini_service.dfy`): `analyzeTask`. The model call
  and `JSON.parse` are passed in as functions. Only the parse is guarded: a
  rejected model call comes back as a `Failure`. A response that does not
  parse gives the fixed fallback breakdown.
- **TodoItem** (`todo_item.dfy`, class `ItemState`): one row's analysis
  state (`aiData`, `analyzing`, `showAi`). The first click fetches and
  caches a breakdown; later clicks only show or hide it. A failed request
  leaves the cache empty. The invariant `Valid()` (a request is outstanding
  only while nothing is cached) is the reason a cached breakdown is never
  replaced.
- **TodoForm** (`todo_form.dfy`, class `FormState`): the title, priority and
  category fields, and the submit guard that rejects blank titles.
- **Strings** (`strings.dfy`): JavaScript's `trim` and `includes`. The
  whitespace set is ECMAScript's WhiteSpace plus LineTerminator.
- **Types** and **Wrappers**: the records of types.ts, and Option/Result.

Every call into Supabase or Gemini is an input. So are the ids from
`Math.random()` and the timestamps from `new Date()`.

Three behaviours of the code that a reader may not expect:

- A successful insert that returns `null` data leaves the list unchanged.
  The list does not always grow by one.
- A delete removes every task with that id, not exactly one.
  `TodoOps.WithoutIdUniqueLength` gives "at most one" when ids are unique.
- A missing-table error seeds the list only if the setup panel was closed
  when the fetch began. It does not seed unconditionally.

## Model

| member | source | states |
|---|---|---|
| `Strings.SkipLeading` | services/geminiService.ts:36 | returns the index of the first non-whitespace character at or after the start (or the end of the string); everything before it is whitespace |
| `Strings.SkipTrailing` | services/geminiService.ts:36 | returns the index after the last non-whitespace character; everything from it to the end is whitespace |
| `Strings.Trim` | services/geminiService.ts:36 | `trim()` returns a contiguous slice of the input; only whitespace lies before and after it; it neither starts nor ends with whitespace |
| `Strings.TrimUnique` | services/geminiService.ts:36 | any slice with only whitespace around it and no whitespace at its ends is the result of `trim()` |
| `Strings.TrimEmptyIffAllWhitespace` | components/TodoForm.tsx:16 | `trim()` gives the empty string exactly when every character is whitespace |
| `Strings.TrimIgnoresPadding` | services/geminiService.ts:36 | wrapping a string in whitespace does not change what `trim()` returns |
| `Strings.TrimIdempotent` | services/geminiService.ts:36 | trimming twice is the same as trimming once |
| `Strings.Contains` | App.tsx:25 | `message.includes(pat)` is false when `pat` is longer than `message`, and true when `message` starts with `pat` |
| `Strings.ContainsIffOccurs` | App.tsx:25 | `message.includes(pat)` holds exactly when `pat` occurs at some offset of `message` |
| `Strings.ContainsInfix` | App.tsx:25 | a message containing the fragment anywhere is recognised |
| `TodoOps.Toggled` | App.tsx:79-81 | same length; every task with the id gets `isCompleted = !currentStatus`; every other task is unchanged; order kept |
| `TodoOps.ToggledAbsent` | App.tsx:79-81 | toggling an id no task carries leaves the list unchanged |
| `TodoOps.ToggleRoundTrip` | App.tsx:72-82 | when the status passed is the task's own, toggling flips it, and toggling back restores the list |
| `TodoOps.ToggleFromRowFlips` | components/TodoItem.tsx:45 | toggling with the `(id, is_completed)` a row forwards flips that row's task |
| `TodoOps.ToggledKeepsOrder` | App.tsx:79-81 | a newest-first list stays newest-first after a toggle |
| `TodoOps.WithoutId` | App.tsx:89-91 | a task is kept exactly when it was in the list and its id differs; the list never grows |
| `TodoOps.WithoutIdAppend` | App.tsx:89-91 | the delete filter distributes over concatenation, so survivors keep their order |
| `TodoOps.WithoutIdAbsent` | App.tsx:85-92 | deleting an id no task carries leaves the list unchanged |
| `TodoOps.WithoutIdIdempotent` | App.tsx:85-92 | deleting the same id twice equals deleting it once |
| `TodoOps.WithoutIdLength` | App.tsx:89-91 | the list shrinks by exactly the number of tasks carrying the id |
| `TodoOps.WithoutIdUniqueLength` | App.tsx:85-92 | with unique ids, a delete removes one task if the id is present and none otherwise |
| `TodoOps.CountIdUnique` | App.tsx:89-91 | with unique ids, at most one task carries a given id |
| `TodoOps.WithoutIdKeepsOrder` | App.tsx:89-91 | a newest-first list stays newest-first after a delete |
| `TodoOps.CountId` | App.tsx:89 | the count is zero exactly when no task carries the id, and never exceeds the length |
| `TodoOps.Pending` | App.tsx:171 | a task is pending exactly when it is in the list and not completed |
| `TodoOps.PendingCount` | App.tsx:171 | the "Pending" badge never exceeds the number of tasks, and is positive only when some task is not completed |
| `TodoOps.PendingAppend` | App.tsx:171 | the pending filter distributes over concatenation |
| `TodoOps.PendingCountBounds` | App.tsx:169-171 | the pending badge never exceeds the total, and equals it exactly when no task is completed |
| `TodoOps.PendingAfterToggle` | App.tsx:79-81 | after a toggle, the pending count equals the pending count of the other tasks, plus all the matching tasks when they are set to not completed |
| `TodoOps.PrependKeepsOrder` | App.tsx:64 | prepending a task at least as new as the rest keeps newest-first order |
| `TodoOps.PrependCounts` | App.tsx:68 | prepending a not-completed task raises both the total and the pending count by one |
| `App.IsMissingTable` | App.tsx:25 | a fetch error means a missing table exactly when its code is `PGRST116` or its message holds `relation "todos" does not exist` at some offset |
| `App.FetchErrorMessage` | App.tsx:25-29 | the message left in `error` is the fixed Korean one whenever the code is `PGRST116`; it differs from the store's message only for a missing table, and then it is the fixed one |
| `App.Seed` | App.tsx:39-42 | the fallback list has two tasks, both stamped with the clock reading and without a description |
| `App.LocalTodo` | App.tsx:54-59 | the task kept locally on an insert error has the given id and timestamp, the title, priority and category, no description, and is not completed |
| `App.SeedShape` | App.tsx:39-42 | the seed is two tasks: `'1'`, not completed, high, Dev; `'2'`, completed, medium, AI; unique ids, one pending |
| `App.MissingRelationRecognised` | App.tsx:25-27 | any message containing `relation "todos" does not exist` is classified as a missing table and reported with the fixed message |
| `App.AppState.constructor` | App.tsx:9-12 | initial state: no tasks, loading, no error, setup panel closed |
| `App.AppState.BeginFetch` | App.tsx:16-17 | loading is on and the error cleared; returns the `showSetup` value in force when the call began; list and panel unchanged |
| `App.AppState.CompleteFetch` | App.tsx:23-46 | rows (none for `null`) replace the list and close the panel; an error sets its message (the fixed one for a missing table, which also opens the panel); an error replaces the list with the seed iff the panel was closed at the start, otherwise leaves it; loading is off on every path |
| `App.AppState.FetchTodos` | App.tsx:14-47 | the two halves together: on success error stays cleared; on failure the seeding decision uses the panel state before the call |
| `App.AppState.AddTodo` | App.tsx:53-70 | an insert error prepends one local task with the given title, priority and category, the given id and timestamp, not completed; an insert with data prepends `data[0]`; no data leaves the list unchanged |
| `App.AppState.ToggleTodo` | App.tsx:72-83 | whatever the store answers, the list becomes `Toggled` of the old list |
| `App.AppState.DeleteTodo` | App.tsx:85-93 | whatever the store answers, the list becomes `WithoutId` of the old list |
| `App.SubmitForm` | App.tsx:163 | a blank form title leaves the list and the form unchanged; otherwise the title is cleared (priority and category kept) and the list is what `addTodo` makes of the form's fields: `data[0]` prepended on an insert with data, unchanged on one without, and on an insert error a new pending task at the head with both counters up by one |
| `App.ToggleFromRow` | components/TodoItem.tsx:45 | the row's check button, wired to `toggleTodo`, flips that row's task, keeps the length, and leaves every task with another id unchanged |
| `App.DeleteFromRow` | components/TodoItem.tsx:90 | the row's delete button, wired to `deleteTodo`, removes that row's task; exactly the tasks with another id remain |
| `GeminiService.ParseOrFallback` | services/geminiService.ts:35-44 | a successful parse of the trimmed text is returned unchanged; a failed parse or a missing text gives exactly the fallback breakdown |
| `GeminiService.AnalyzeTask` | services/geminiService.ts:7-45 | fails exactly when the model call rejects, with its message unchanged; once the model answers it always succeeds, with the parsed-or-fallback breakdown |
| `GeminiService.PromptQuotesTitle` | services/geminiService.ts:10 | the prompt contains the title verbatim between double quotes, and the title can be read back from it |
| `GeminiService.PromptInjective` | services/geminiService.ts:10 | distinct titles give distinct prompts |
| `GeminiService.AnalysisIgnoresPadding` | services/geminiService.ts:36 | whitespace around the response text does not change the breakdown |
| `GeminiService.Prompt` | services/geminiService.ts:10 | the prompt is the fixed lead, then a double quote, then exactly the title, then a double quote |
| `TodoItem.ItemState.constructor` | components/TodoItem.tsx:13-15 | nothing cached, not analyzing, breakdown hidden |
| `TodoItem.ItemState.ShowsBreakdown` | components/TodoItem.tsx:100 | the panel is never rendered without a cached breakdown, nor while `showAi` is off |
| `TodoItem.ItemState.MagicButtonEnabled` | components/TodoItem.tsx:76 | the magic button is disabled while an analysis is outstanding, and enabled whenever a breakdown is cached |
| `TodoItem.ItemState.ReceiveTodo` | components/TodoList.tsx:17 | a re-render with the same id replaces the task and keeps the analysis state |
| `TodoItem.ItemState.ToggleClicked` | components/TodoItem.tsx:45 | forwards the task's id and its current completion status |
| `TodoItem.ItemState.DeleteClicked` | components/TodoItem.tsx:90 | forwards the task's id |
| `TodoItem.ItemState.Click` | components/TodoItem.tsx:18-23 | with a breakdown cached, flips `showAi` and requests nothing; otherwise sets `analyzing` and requests one analysis of the task's title |
| `TodoItem.ItemState.Settle` | components/TodoItem.tsx:24-32 | a success caches the breakdown and shows it; a failure leaves the cache empty and `showAi` unchanged; `analyzing` is off after either |
| `TodoItem.ItemState.HandleMagicClick` | components/TodoItem.tsx:17-33 | `analyzeTask` is called with the title exactly once when nothing is cached and never otherwise; a cached breakdown is never replaced and a click toggles whether it is rendered; a first click whose analysis succeeds renders the breakdown; the outcome is applied as in `Settle` |
| `TodoForm.FormState.constructor` | components/TodoForm.tsx:10-12 | title `''`, priority medium, category `'Personal'` |
| `TodoForm.FormState.ChangeTitle` | components/TodoForm.tsx:27 | the title becomes the typed value |
| `TodoForm.FormState.ChooseCategory` | components/TodoForm.tsx:35-43 | the category becomes one of the five options |
| `TodoForm.FormState.ChoosePriority` | components/TodoForm.tsx:46-50 | the priority becomes one of low, medium, high |
| `TodoForm.FormState.HandleSubmit` | components/TodoForm.tsx:14-19 | a whitespace-only title submits nothing and changes nothing; otherwise `onAdd` gets the untrimmed title with the current priority and category, and only the title is cleared |

## Left out

- The Supabase and Gemini clients, network and API keys. Their outcomes are parameters (`FetchResult`, `InsertResult`, `RemoteOutcome`, `Generation`).
- `JSON.parse` is a parameter from text to an optional breakdown. A parsed JSON value that is not shaped like a breakdown cannot be represented, so the absence of a shape check is modelled only as "returned unchanged".
- TodoItem.ItemState.Settle: caches every successful analysis. In the source a parse that yields a falsy JSON value (`null`, `false`, `0`, `""`) is stored by `setAiData` but then counts as no cache at `if (aiData)`, so the next click calls `analyzeTask` again; such values cannot arise from a parser that returns a breakdown.
- `Math.random()` ids and `new Date().toISOString()` timestamps are parameters. The two seed rows get one clock reading between them, although the source reads the clock twice.
- App.AppState.AddTodo: requires that a non-null insert response holds at least one row. With an empty array, `data[0]` would prepend `undefined`, which a list of tasks cannot hold.
- App.SubmitForm: carries the same requirement on the insert response, for the same reason, since it hands the submitted draft to `AddTodo`.
- The database's ordering by `created_at`. The model does not assume it. The `KeepsOrder` lemmas show that toggle, delete and prepend preserve any newest-first order.
- React effect scheduling, i.e. the re-run of `fetchTodos` when `showSetup` changes. Async interleaving: stale `todos` closures in add/toggle/delete, and overlapping requests. Each operation is atomic. The only interleaving point modelled is the one between `BeginFetch` and `CompleteFetch`.
- Console logging, the clipboard copy and alert, the onboarding SQL text, and all markup and styling.
- JavaScript strings are UTF-16, while Dafny's `char` is a Unicode scalar value. Every character `trim` removes lies in the Basic Multilingual Plane, so trimming agrees with the source.
