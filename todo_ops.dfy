/** The list transformations the app applies to its in-memory task list
    (App.tsx): toggling the completion flag by id (a `map`), deleting by id
    (a `filter`), and the pending counter of the header (a `filter` and a
    length). Adding is a plain prepend, `[t] + todos`, written inline in
    `App.AppState.AddTodo`; the lemmas at the end state what it preserves. */
module TodoOps {
  import opened Types

  /** The list after `toggleTodo(id, currentStatus)`: every task whose id
      matches gets the flag `!currentStatus`; every other task is kept as is. */
  function Toggled(todos: seq<Todo>, id: string, currentStatus: bool): (r: seq<Todo>)
    ensures |r| == |todos|
    ensures forall i :: 0 <= i < |todos| && todos[i].id == id ==>
      r[i] == todos[i].(isCompleted := !currentStatus)
    ensures forall i :: 0 <= i < |todos| && todos[i].id != id ==> r[i] == todos[i]
  {
    if todos == [] then []
    else
      var t := todos[0];
      [if t.id == id then t.(isCompleted := !currentStatus) else t]
        + Toggled(todos[1..], id, currentStatus)
  }

  /** The list after `deleteTodo(id)`: the tasks whose id differs, in order. */
  function WithoutId(todos: seq<Todo>, id: string): (r: seq<Todo>)
    ensures |r| <= |todos|
    ensures forall t :: t in r <==> t in todos && t.id != id
  {
    if todos == [] then []
    else (if todos[0].id == id then [] else [todos[0]]) + WithoutId(todos[1..], id)
  }

  /** The tasks still to do, in order: `todos.filter(t => !t.is_completed)`. */
  function Pending(todos: seq<Todo>): (r: seq<Todo>)
    ensures |r| <= |todos|
    ensures forall t :: t in r <==> t in todos && !t.isCompleted
  {
    if todos == [] then []
    else (if todos[0].isCompleted then [] else [todos[0]]) + Pending(todos[1..])
  }

  /** The "Pending" badge. (The "Total" label is `|todos|`.) */
  function PendingCount(todos: seq<Todo>): (n: nat)
    ensures n <= |todos|
    ensures n > 0 ==> exists i :: 0 <= i < |todos| && !todos[i].isCompleted
  {
    var p := Pending(todos);
    assert p != [] ==> p[0] in p;
    |p|
  }

  /** How many tasks carry the id `id`. */
  function CountId(todos: seq<Todo>, id: string): (n: nat)
    ensures n <= |todos|
    ensures n == 0 <==> forall i :: 0 <= i < |todos| ==> todos[i].id != id
  {
    if todos == [] then 0
    else (if todos[0].id == id then 1 else 0) + CountId(todos[1..], id)
  }

  /** No two tasks share an id (the store's primary key). */
  predicate UniqueIds(todos: seq<Todo>) {
    forall i, j :: 0 <= i < j < |todos| ==> todos[i].id != todos[j].id
  }

  /** Tasks ordered newest first by some order `newer` on creation timestamps:
      the order the store returns on a refresh. */
  predicate NewestFirst(todos: seq<Todo>, newer: (string, string) -> bool) {
    forall i, j :: 0 <= i < j < |todos| ==> newer(todos[i].createdAt, todos[j].createdAt)
  }

  // ----- toggle -----

  /** Toggling an id that no task carries leaves the list unchanged. */
  lemma ToggledAbsent(todos: seq<Todo>, id: string, currentStatus: bool)
    requires CountId(todos, id) == 0
    ensures Toggled(todos, id, currentStatus) == todos
  {
  }

  /** Toggling with the status each matching task actually has flips it, and
      toggling back with the new status restores the original list. */
  lemma ToggleRoundTrip(todos: seq<Todo>, id: string, currentStatus: bool)
    requires forall i :: 0 <= i < |todos| && todos[i].id == id ==> todos[i].isCompleted == currentStatus
    ensures forall i :: 0 <= i < |todos| && todos[i].id == id ==>
      Toggled(todos, id, currentStatus)[i].isCompleted == !todos[i].isCompleted
    ensures Toggled(Toggled(todos, id, currentStatus), id, !currentStatus) == todos
  {
    var once := Toggled(todos, id, currentStatus);
    var twice := Toggled(once, id, !currentStatus);
    assert forall i :: 0 <= i < |todos| ==> once[i].id == todos[i].id;
    assert forall i :: 0 <= i < |todos| ==> twice[i] == todos[i];
  }

  /** The task a row forwards, `(todo.id, todo.is_completed)`, is flipped. */
  lemma ToggleFromRowFlips(todos: seq<Todo>, k: nat)
    requires k < |todos|
    ensures Toggled(todos, todos[k].id, todos[k].isCompleted)[k].isCompleted == !todos[k].isCompleted
  {
  }

  /** Toggling changes no position: the newest-first order survives. */
  lemma ToggledKeepsOrder(todos: seq<Todo>, id: string, currentStatus: bool, newer: (string, string) -> bool)
    requires NewestFirst(todos, newer)
    ensures NewestFirst(Toggled(todos, id, currentStatus), newer)
  {
    var r := Toggled(todos, id, currentStatus);
    assert forall i :: 0 <= i < |todos| ==> r[i].createdAt == todos[i].createdAt;
  }

  /** The pending count after a toggle: matching tasks leave the count when
      marked done and all join it when marked not done. */
  lemma {:induction false} PendingAfterToggle(todos: seq<Todo>, id: string, currentStatus: bool)
    ensures PendingCount(Toggled(todos, id, currentStatus))
         == PendingCount(WithoutId(todos, id)) + (if currentStatus then CountId(todos, id) else 0)
  {
    if todos != [] {
      var t := todos[0];
      var rest := todos[1..];
      PendingAfterToggle(rest, id, currentStatus);
      var h := if t.id == id then t.(isCompleted := !currentStatus) else t;
      assert Toggled(todos, id, currentStatus) == [h] + Toggled(rest, id, currentStatus);
      PendingAppend([h], Toggled(rest, id, currentStatus));
      PendingAppend(if t.id == id then [] else [t], WithoutId(rest, id));
    }
  }

  /** Pending distributes over concatenation. */
  lemma {:induction false} PendingAppend(a: seq<Todo>, b: seq<Todo>)
    ensures Pending(a + b) == Pending(a) + Pending(b)
  {
    if a == [] {
      assert a + b == b;
    } else {
      assert (a + b)[1..] == a[1..] + b;
      PendingAppend(a[1..], b);
    }
  }

  /** Total and pending: the pending count never exceeds the list length, and
      equals it exactly when no task is completed. */
  lemma {:induction false} PendingCountBounds(todos: seq<Todo>)
    ensures PendingCount(todos) <= |todos|
    ensures PendingCount(todos) == |todos| <==> forall i :: 0 <= i < |todos| ==> !todos[i].isCompleted
  {
    if todos != [] {
      PendingCountBounds(todos[1..]);
      assert forall i :: 1 <= i < |todos| ==> todos[i] == todos[1..][i - 1];
    }
  }

  // ----- delete -----

  /** Filtering distributes over concatenation: what survives keeps its order. */
  lemma {:induction false} WithoutIdAppend(a: seq<Todo>, b: seq<Todo>, id: string)
    ensures WithoutId(a + b, id) == WithoutId(a, id) + WithoutId(b, id)
  {
    if a == [] {
      assert a + b == b;
    } else {
      assert (a + b)[1..] == a[1..] + b;
      WithoutIdAppend(a[1..], b, id);
    }
  }

  /** Deleting an id that no task carries leaves the list unchanged. */
  lemma {:induction false} WithoutIdAbsent(todos: seq<Todo>, id: string)
    requires CountId(todos, id) == 0
    ensures WithoutId(todos, id) == todos
  {
    if todos != [] {
      WithoutIdAbsent(todos[1..], id);
      assert todos == [todos[0]] + todos[1..];
    }
  }

  /** Deleting the same id twice is the same as deleting it once. */
  lemma WithoutIdIdempotent(todos: seq<Todo>, id: string)
    ensures WithoutId(WithoutId(todos, id), id) == WithoutId(todos, id)
  {
    var r := WithoutId(todos, id);
    assert forall i :: 0 <= i < |r| ==> r[i] in r;
    WithoutIdAbsent(r, id);
  }

  /** Exactly the tasks with that id disappear. */
  lemma {:induction false} WithoutIdLength(todos: seq<Todo>, id: string)
    ensures |WithoutId(todos, id)| == |todos| - CountId(todos, id)
  {
    if todos != [] {
      WithoutIdLength(todos[1..], id);
    }
  }

  /** With unique ids, a delete removes one task when the id is present and
      none when it is absent. */
  lemma {:induction false} WithoutIdUniqueLength(todos: seq<Todo>, id: string)
    requires UniqueIds(todos)
    ensures |WithoutId(todos, id)| == |todos| - (if CountId(todos, id) == 0 then 0 else 1)
  {
    WithoutIdLength(todos, id);
    CountIdUnique(todos, id);
  }

  lemma {:induction false} CountIdUnique(todos: seq<Todo>, id: string)
    requires UniqueIds(todos)
    ensures CountId(todos, id) <= 1
  {
    if todos != [] {
      var rest := todos[1..];
      assert UniqueIds(rest) by {
        forall i, j | 0 <= i < j < |rest| ensures rest[i].id != rest[j].id {
          assert rest[i] == todos[i + 1] && rest[j] == todos[j + 1];
        }
      }
      CountIdUnique(rest, id);
      if todos[0].id == id {
        assert forall i :: 0 <= i < |rest| ==> rest[i] == todos[i + 1];
      }
    }
  }

  /** Deleting keeps the newest-first order of the tasks that remain. */
  lemma {:induction false} WithoutIdKeepsOrder(todos: seq<Todo>, id: string, newer: (string, string) -> bool)
    requires NewestFirst(todos, newer)
    ensures NewestFirst(WithoutId(todos, id), newer)
  {
    if todos != [] {
      var rest := todos[1..];
      assert NewestFirst(rest, newer) by {
        forall i, j | 0 <= i < j < |rest| ensures newer(rest[i].createdAt, rest[j].createdAt) {
          assert rest[i] == todos[i + 1] && rest[j] == todos[j + 1];
        }
      }
      WithoutIdKeepsOrder(rest, id, newer);
      var tail := WithoutId(rest, id);
      if todos[0].id != id {
        var r := [todos[0]] + tail;
        forall i, j | 0 <= i < j < |r| ensures newer(r[i].createdAt, r[j].createdAt) {
          if i == 0 {
            assert r[j] in rest;
            var m :| 0 <= m < |rest| && rest[m] == r[j];
            assert todos[m + 1] == r[j];
          } else {
            assert r[i] == tail[i - 1] && r[j] == tail[j - 1];
          }
        }
      }
    }
  }

  // ----- add -----

  /** Prepending a task at least as new as every other keeps the order. */
  lemma PrependKeepsOrder(t: Todo, todos: seq<Todo>, newer: (string, string) -> bool)
    requires NewestFirst(todos, newer)
    requires forall i :: 0 <= i < |todos| ==> newer(t.createdAt, todos[i].createdAt)
    ensures NewestFirst([t] + todos, newer)
  {
    var r := [t] + todos;
    assert forall i :: 1 <= i < |r| ==> r[i] == todos[i - 1];
  }

  /** A new task that is not completed adds one to both counters. */
  lemma PrependCounts(t: Todo, todos: seq<Todo>)
    requires !t.isCompleted
    ensures |[t] + todos| == |todos| + 1
    ensures PendingCount([t] + todos) == PendingCount(todos) + 1
  {
    assert ([t] + todos)[1..] == todos;
  }
}
