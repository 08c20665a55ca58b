/**
  The todo page: loading the saved list, adding a trimmed item at the end,
  toggling an item's completion and deleting by id.
*/
module TodoPage {
  import opened Text
  import opened Json
  import opened Lists

  datatype Todo = Todo(id: int, text: string, completed: bool)

  /** The page state: the list and the text of the input box. */
  datatype Page = Page(todos: seq<Todo>, newTodo: string)

  /** The list after loading, and whether the stored key is removed. */
  datatype Loaded = Loaded(todos: seq<Todo>, removeKey: bool)

  /** Loading accepts only an array; text that does not parse is removed from storage. */
  function Load(stored: Stored<Todo>): (r: Loaded)
    ensures r.removeKey <==> stored.Unparsable?
    ensures r.todos == (if stored.Items? then stored.items else [])
  {
    match stored
    case Items(items) => Loaded(items, false)
    case Unparsable => Loaded([], true)
    case _ => Loaded([], false)
  }

  /** Submitting the form; `now` is the new item's id (the current time in milliseconds). */
  function AddTodo(p: Page, now: int): Page {
    var text := Trim(p.newTodo);
    if text != "" then Page(p.todos + [Todo(now, text, false)], "") else p
  }

  /** Flips `completed` of the items with this id. */
  function ToggleTodo(todos: seq<Todo>, id: int): seq<Todo> {
    seq(|todos|, i requires 0 <= i < |todos| =>
      if todos[i].id == id then todos[i].(completed := !todos[i].completed) else todos[i])
  }

  function DeleteTodo(todos: seq<Todo>, id: int): seq<Todo> {
    Filter(todos, (t: Todo) => t.id != id)
  }

  // ---- properties ----

  /** Input that is empty after trimming adds nothing and keeps the input. */
  lemma BlankAddsNothing(p: Page, now: int)
    requires AllSpace(p.newTodo)
    ensures AddTodo(p, now) == p
  {
    TrimStartAllSpace(p.newTodo);
  }

  /** A successful add appends one open item with the trimmed text and clears the input. */
  lemma AddAppends(p: Page, now: int)
    requires !AllSpace(p.newTodo)
    ensures var r := AddTodo(p, now);
      && r.newTodo == ""
      && |r.todos| == |p.todos| + 1
      && r.todos[..|p.todos|] == p.todos
      && r.todos[|p.todos|] == Todo(now, Trim(p.newTodo), false)
      && Trim(p.newTodo) != "" && !IsSpace(Trim(p.newTodo)[0])
  {
    TrimEmpty(p.newTodo);
    TrimShape(p.newTodo);
  }

  /** Toggling flips only the matching items; the length and every other item stay. */
  lemma ToggleFlipsMatching(todos: seq<Todo>, id: int)
    ensures |ToggleTodo(todos, id)| == |todos|
    ensures forall i :: 0 <= i < |todos| ==>
      && ToggleTodo(todos, id)[i].id == todos[i].id
      && ToggleTodo(todos, id)[i].text == todos[i].text
      && (ToggleTodo(todos, id)[i].completed <==> (todos[i].completed != (todos[i].id == id)))
  {
  }

  /** Toggling twice is the identity. */
  lemma ToggleTwice(todos: seq<Todo>, id: int)
    ensures ToggleTodo(ToggleTodo(todos, id), id) == todos
  {
  }

  /** Deleting removes exactly the items with the id. */
  lemma DeleteRemovesId(todos: seq<Todo>, id: int)
    ensures forall t :: t in DeleteTodo(todos, id) <==> t in todos && t.id != id
  {
  }

  /** Deleting keeps the rest in their order: it works piece by piece. */
  lemma DeleteKeepsOrder(a: seq<Todo>, b: seq<Todo>, id: int)
    ensures DeleteTodo(a + b, id) == DeleteTodo(a, id) + DeleteTodo(b, id)
  {
    FilterAppend(a, b, (t: Todo) => t.id != id);
  }

  /** Deleting an id no item has changes nothing. */
  lemma DeleteAbsentId(todos: seq<Todo>, id: int)
    requires forall i :: 0 <= i < |todos| ==> todos[i].id != id
    ensures DeleteTodo(todos, id) == todos
  {
    FilterKeepsAll(todos, (t: Todo) => t.id != id);
  }
}
