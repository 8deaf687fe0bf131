/** The top-level component's state and its four operations (App.tsx): the
    task list, the loading flag, the error message and the setup-panel flag.
    Every call into the data store is replaced by its outcome, passed in as a
    parameter; so are the random ids and the clock readings. */
module App {
  import opened Wrappers
  import opened Types
  import opened Strings
  import opened TodoOps
  import TodoForm
  import TodoItem

  /** What `supabase.from('todos').select('*')...` resolved to: rows (possibly
      `null`) or an error with its code and message. */
  datatype FetchResult = Rows(data: Option<seq<Todo>>) | FetchError(code: string, message: string)

  /** What `insert([newTodo]).select()` resolved to. */
  datatype InsertResult = Inserted(data: Option<seq<Todo>>) | InsertError(message: string)

  /** Whether an update or delete request reported an error. */
  datatype RemoteOutcome = RemoteOk | RemoteFailed(message: string)

  /** The store's error code for a missing relation. */
  const MissingTableCode: string := "PGRST116"

  /** The fragment of the store's message that reports the missing table. */
  const MissingRelationText: string := "relation \"todos\" does not exist"

  /** The message shown when the table is missing. */
  const NoTableMessage: string := "Supabase에 'todos' 테이블이 없습니다."

  /** A fetch error means the table is missing: the store's code for it, or
      a message in which the fragment occurs at some offset. */
  function IsMissingTable(code: string, message: string): (b: bool)
    ensures b <==> code == MissingTableCode || exists k :: OccursAt(message, MissingRelationText, k)
  {
    ContainsIffOccurs(message, MissingRelationText);
    code == MissingTableCode || Contains(message, MissingRelationText)
  }

  /** The message a failed fetch leaves in `error`: the fixed one for a
      missing table, otherwise the store's own. */
  function FetchErrorMessage(code: string, message: string): (m: string)
    ensures code == MissingTableCode ==> m == NoTableMessage
    ensures m != message ==> m == NoTableMessage && IsMissingTable(code, message)
  {
    if IsMissingTable(code, message) then NoTableMessage else message
  }

  /** The two sample tasks shown on a failed fetch; both are stamped with the
      clock reading `now`. */
  function Seed(now: string): (r: seq<Todo>)
    ensures |r| == 2
    ensures forall i :: 0 <= i < |r| ==> r[i].createdAt == now && r[i].description == None
  {
    [ Todo("1", now, "Supabase SQL 실행하기", None, false, High, "Dev"),
      Todo("2", now, "Gemini AI로 할일 관리하기", None, true, Medium, "AI") ]
  }

  /** The task kept locally when an insert fails (App.tsx:54-59 and 67). */
  function LocalTodo(title: string, priority: Priority, category: string, id: string, now: string): (t: Todo)
    ensures t.id == id && t.createdAt == now
    ensures t.title == title && t.priority == priority && t.category == category
    ensures t.description == None && !t.isCompleted
  {
    Todo(id, now, title, None, false, priority, category)
  }

  /** The seed matches the sample rows field by field: one pending
      high-priority Dev task and one completed medium-priority AI task. */
  lemma SeedShape(now: string)
    ensures |Seed(now)| == 2
    ensures Seed(now)[0].id == "1" && !Seed(now)[0].isCompleted
    ensures Seed(now)[0].priority == High && Seed(now)[0].category == "Dev"
    ensures Seed(now)[1].id == "2" && Seed(now)[1].isCompleted
    ensures Seed(now)[1].priority == Medium && Seed(now)[1].category == "AI"
    ensures UniqueIds(Seed(now)) && PendingCount(Seed(now)) == 1
  {
    var s := Seed(now);
    assert s[1..][1..] == [];
    assert Pending(s[1..]) == [];
    assert Pending(s) == [s[0]];
  }

  /** The store's missing-relation message is recognised wherever the
      fragment occurs in it. */
  lemma MissingRelationRecognised(code: string, before: string, after: string)
    ensures IsMissingTable(code, before + MissingRelationText + after)
    ensures FetchErrorMessage(code, before + MissingRelationText + after) == NoTableMessage
  {
    ContainsInfix(before, MissingRelationText, after);
  }

  class AppState {
    var todos: seq<Todo>
    var loading: bool
    var error: Option<string>
    var showSetup: bool

    /** The initial state: no tasks, loading, no error, no setup panel. */
    constructor ()
      ensures todos == [] && loading && error == None && !showSetup
    {
      todos := [];
      loading := true;
      error := None;
      showSetup := false;
    }

    /** `fetchTodos` up to the request (App.tsx:16-17): loading is on and the
        error is cleared. The result is the `showSetup` the callback closed
        over, which the rest of the call reads. */
    method BeginFetch() returns (showSetupAtStart: bool)
      modifies this
      ensures showSetupAtStart == old(showSetup)
      ensures loading && error == None
      ensures todos == old(todos) && showSetup == old(showSetup)
    {
      showSetupAtStart := showSetup;
      loading := true;
      error := None;
    }

    /** `fetchTodos` from the response on (App.tsx:23-46). Rows replace the
        list and close the setup panel; an error is classified (a missing
        table opens the setup panel) and its message kept, and the list is
        overwritten by the seed only if the setup panel was closed when the
        call began. Loading is off on every path. */
    method CompleteFetch(showSetupAtStart: bool, result: FetchResult, now: string)
      modifies this
      ensures !loading
      ensures result.Rows? ==>
        todos == result.data.GetOr([]) && !showSetup && error == old(error)
      ensures result.FetchError? ==>
        && error == Some(FetchErrorMessage(result.code, result.message))
        && showSetup == (old(showSetup) || IsMissingTable(result.code, result.message))
        && todos == (if showSetupAtStart then old(todos) else Seed(now))
    {
      var failure: Option<string> := None;
      match result {
        case FetchError(code, message) =>
          if IsMissingTable(code, message) {
            showSetup := true;
            failure := Some(NoTableMessage);
          } else {
            failure := Some(message);
          }
        case Rows(data) =>
          todos := data.GetOr([]);
          showSetup := false;
      }
      if failure.Some? {
        error := failure;
        if !showSetupAtStart {
          todos := Seed(now);
        }
      }
      loading := false;
    }

    /** The whole of `fetchTodos`, the store's answer given as `result`. */
    method FetchTodos(result: FetchResult, now: string)
      modifies this
      ensures !loading
      ensures result.Rows? ==> todos == result.data.GetOr([]) && !showSetup && error == None
      ensures result.FetchError? ==>
        && error == Some(FetchErrorMessage(result.code, result.message))
        && showSetup == (old(showSetup) || IsMissingTable(result.code, result.message))
        && todos == (if old(showSetup) then old(todos) else Seed(now))
    {
      var showSetupAtStart := BeginFetch();
      CompleteFetch(showSetupAtStart, result, now);
    }

    /** `addTodo`: on a successful insert the returned row is prepended (and
        nothing changes if no rows came back); on an error a local task with
        the given fields, the fresh `localId` and the clock reading `now`, not
        completed, is prepended. The other state is untouched. */
    method AddTodo(title: string, priority: Priority, category: string,
                   result: InsertResult, localId: string, now: string)
      requires result.Inserted? && result.data.Some? ==> |result.data.value| > 0
      modifies this`todos
      ensures result.Inserted? && result.data.Some? ==> todos == [result.data.value[0]] + old(todos)
      ensures result.Inserted? && result.data.None? ==> todos == old(todos)
      ensures result.InsertError? ==>
        todos == [LocalTodo(title, priority, category, localId, now)] + old(todos)
    {
      match result {
        case Inserted(data) =>
          if data.Some? {
            todos := [data.value[0]] + todos;
          }
        case InsertError(_) =>
          todos := [LocalTodo(title, priority, category, localId, now)] + todos;
      }
    }

    /** `toggleTodo`: the same new list whatever the store answered. */
    method ToggleTodo(id: string, currentStatus: bool, remote: RemoteOutcome)
      modifies this`todos
      ensures todos == Toggled(old(todos), id, currentStatus)
    {
      // The store's answer is only logged (App.tsx:79, 81): both paths apply
      // the same change to the list.
      todos := Toggled(todos, id, currentStatus);
    }

    /** `deleteTodo`: the same new list whatever the store answered. */
    method DeleteTodo(id: string, remote: RemoteOutcome)
      modifies this`todos
      ensures todos == WithoutId(old(todos), id)
    {
      // The store's answer is only logged (App.tsx:89, 91): both paths apply
      // the same change to the list.
      todos := WithoutId(todos, id);
    }
  }

  /** The form wired to `addTodo` (App.tsx:163): a blank title adds nothing
      and keeps the form as it is; any other is added with exactly the fields
      the form holds, as `AddTodo` reconciles it, and the title is cleared.
      On an insert error the list grows by one pending task. */
  method SubmitForm(app: AppState, form: TodoForm.FormState,
                    result: InsertResult, localId: string, now: string)
    requires form.Valid()
    requires result.Inserted? && result.data.Some? ==> |result.data.value| > 0
    modifies app`todos, form`title
    ensures form.Valid()
    ensures form.priority == old(form.priority) && form.category == old(form.category)
    ensures AllWhitespace(old(form.title)) ==> app.todos == old(app.todos) && form.title == old(form.title)
    ensures !AllWhitespace(old(form.title)) ==> form.title == ""
    ensures !AllWhitespace(old(form.title)) && result.Inserted? && result.data.Some? ==>
      app.todos == [result.data.value[0]] + old(app.todos)
    ensures !AllWhitespace(old(form.title)) && result.Inserted? && result.data.None? ==>
      app.todos == old(app.todos)
    ensures !AllWhitespace(old(form.title)) && result.InsertError? ==>
      && app.todos == [LocalTodo(old(form.title), form.priority, form.category, localId, now)] + old(app.todos)
      && |app.todos| == |old(app.todos)| + 1
      && PendingCount(app.todos) == PendingCount(old(app.todos)) + 1
  {
    var draft := form.HandleSubmit();
    if draft.Some? {
      var d := draft.value;
      PrependCounts(LocalTodo(d.title, d.priority, d.category, localId, now), app.todos);
      app.AddTodo(d.title, d.priority, d.category, result, localId, now);
    }
  }

  /** A row's check button wired to `toggleTodo` (TodoItem.tsx:45 and
      App.tsx:72-83): the row's own task flips, the list keeps its length, and
      every task with another id is unchanged. */
  method ToggleFromRow(app: AppState, row: TodoItem.ItemState, k: nat, remote: RemoteOutcome)
    requires k < |app.todos| && row.todo == app.todos[k]
    modifies app`todos
    ensures |app.todos| == |old(app.todos)|
    ensures app.todos[k].isCompleted == !old(app.todos[k].isCompleted)
    ensures forall i :: 0 <= i < |app.todos| && old(app.todos[i]).id != row.todo.id ==>
      app.todos[i] == old(app.todos[i])
  {
    var id, status := row.ToggleClicked();
    ghost var before := app.todos;
    app.ToggleTodo(id, status, remote);
    assert app.todos == Toggled(before, id, status);
  }

  /** A row's delete button wired to `deleteTodo` (TodoItem.tsx:90 and
      App.tsx:85-93): the row's task is gone, and exactly the tasks with
      another id remain. */
  method DeleteFromRow(app: AppState, row: TodoItem.ItemState, remote: RemoteOutcome)
    modifies app`todos
    ensures row.todo !in app.todos
    ensures forall t :: t in app.todos <==> t in old(app.todos) && t.id != row.todo.id
  {
    var id := row.DeleteClicked();
    app.DeleteTodo(id, remote);
  }

  /** A session against a store without the table: the first refresh seeds
      the list and opens the setup panel; a task added locally afterwards
      survives a second, generically failing refresh. */
  method DegradedSessionKeepsLocalTasks(now: string, localId: string, later: string)
  {
    var app := new AppState();
    app.FetchTodos(FetchError(MissingTableCode, "not found"), now);
    assert app.showSetup && app.error == Some(NoTableMessage) && app.todos == Seed(now);
    app.AddTodo("Write notes", Low, "Work", InsertError("no table"), localId, later);
    var local := LocalTodo("Write notes", Low, "Work", localId, later);
    assert app.todos == [local] + Seed(now);
    app.FetchTodos(FetchError("08006", "connection failure"), later);
    assert app.todos == [local] + Seed(now) && app.error == Some("connection failure");
    assert !app.loading && |app.todos| == 3;
  }
}
