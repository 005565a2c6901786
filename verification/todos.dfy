/** The to-do widget: a list of items with add, toggle and remove. */
module Todos {
  import opened Text
  import Seqs

  datatype Todo = Todo(id: String, text: String, completed: bool)

  /** The list and the text in the "new task" box. */
  datatype TodoList = TodoList(todos: seq<Todo>, newTodo: String)

  const InitialTodos: seq<Todo> := [
    Todo("1", "Review dashboard design", true),
    Todo("2", "Finalize Q3 metrics", false),
    Todo("3", "Schedule team meeting", false),
    Todo("4", "Update project timeline", false)
  ]

  /** The starting list has distinct ids, so toggling one of them changes that item alone:
      toggling "1" reopens the one finished task. */
  lemma StartingListHasDistinctIds()
    ensures forall i, j :: 0 <= i < j < |InitialTodos| ==> InitialTodos[i].id != InitialTodos[j].id
    ensures var r := ToggleTodo(TodoList(InitialTodos, []), "1").todos;
            forall i :: 0 <= i < |r| ==> !r[i].completed
  {
    var r := ToggleTodo(TodoList(InitialTodos, []), "1").todos;
    assert r[0].completed != InitialTodos[0].completed;
  }

  /** Appends the trimmed text of the input box as an open item with the given id and clears
      the box; a blank box changes nothing. */
  function AddTodo(l: TodoList, id: String): (r: TodoList)
    ensures Trim(l.newTodo) == [] ==> r == l
    ensures Trim(l.newTodo) != [] ==>
              && |r.todos| == |l.todos| + 1
              && r.todos[..|l.todos|] == l.todos
              && r.todos[|l.todos|] == Todo(id, Trim(l.newTodo), false)
              && r.newTodo == []
  {
    var t := Trim(l.newTodo);
    if t == [] then l
    else TodoList(l.todos + [Todo(id, t, false)], [])
  }

  /** Flips `completed` on the items with the given id. */
  function ToggleTodo(l: TodoList, id: String): (r: TodoList)
    ensures |r.todos| == |l.todos| && r.newTodo == l.newTodo
    ensures forall i :: 0 <= i < |r.todos| ==>
              && r.todos[i].(completed := l.todos[i].completed) == l.todos[i]
              && (r.todos[i].completed != l.todos[i].completed <==> l.todos[i].id == id)
  {
    l.(todos := seq(|l.todos|, i requires 0 <= i < |l.todos| =>
                    if l.todos[i].id == id then l.todos[i].(completed := !l.todos[i].completed)
                    else l.todos[i]))
  }

  /** Toggling the same id twice is the identity. */
  lemma ToggleTodoTwice(l: TodoList, id: String)
    ensures ToggleTodo(ToggleTodo(l, id), id) == l
  {
    var r := ToggleTodo(ToggleTodo(l, id), id);
    assert r.todos == l.todos;
  }

  /** Drops every item with the given id; the rest keep their order. */
  function RemoveTodo(l: TodoList, id: String): (r: TodoList)
    ensures r.newTodo == l.newTodo
    ensures |r.todos| <= |l.todos|
    ensures forall k :: 0 <= k < |r.todos| ==> r.todos[k].id != id && r.todos[k] in l.todos
    ensures forall k :: 0 <= k < |l.todos| && l.todos[k].id != id ==> l.todos[k] in r.todos
  {
    l.(todos := Seqs.Filter(l.todos, (t: Todo) => t.id != id))
  }

  /** Adding an item under an unused id and removing that id again restores the list. */
  lemma AddThenRemove(l: TodoList, id: String)
    requires Trim(l.newTodo) != []
    requires forall k :: 0 <= k < |l.todos| ==> l.todos[k].id != id
    ensures RemoveTodo(AddTodo(l, id), id).todos == l.todos
  {
    var keep := (t: Todo) => t.id != id;
    var added := Todo(id, Trim(l.newTodo), false);
    Seqs.FilterAppend(l.todos, [added], keep);
    Seqs.FilterKeepsAll(l.todos, keep);
    assert Seqs.Filter([added], keep) == [];
  }

  /** Removing an id leaves every other item where it was relative to the others: removal from
      a split list is removal from each part. */
  lemma RemoveKeepsOrder(a: seq<Todo>, b: seq<Todo>, newTodo: String, id: String)
    ensures RemoveTodo(TodoList(a + b, newTodo), id).todos
            == RemoveTodo(TodoList(a, newTodo), id).todos + RemoveTodo(TodoList(b, newTodo), id).todos
  {
    Seqs.FilterAppend(a, b, (t: Todo) => t.id != id);
  }
}
