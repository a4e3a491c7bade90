/** The `ToDoList` component (src/ToDoList.js): the list state, the input
    text and the `"todos"` storage entry, with its handlers and effects. */
module ToDoListComponent {
  import opened Wrappers
  import opened TodoStore

  class ToDoList {
    /** `todos`, replaced through `setTodos`. */
    var todos: seq<Todo>
    /** `newTodoTitle`, the text in the input box. */
    var newTodoTitle: string
    /** The `"todos"` storage entry; `None` when the key is absent. */
    var storage: Option<seq<Todo>>
    /** Whether the load-failure alert has been shown. */
    var alerted: bool
    /** Whether the mount effect has run. */
    var mounted: bool
    /** Whether the seed request started by the mount effect is still pending. */
    var fetching: bool

    /** The auto-save effect keeps every non-empty list persisted; a
        pending seed request exists only after mounting. */
    ghost predicate Valid()
      reads this
    {
      (|todos| > 0 ==> storage == Some(todos)) && (fetching ==> mounted)
    }

    /** The first render over an existing storage entry. The auto-save
        effect sees an empty list and writes nothing. */
    constructor (stored: Option<seq<Todo>>)
      ensures Valid()
      ensures todos == [] && newTodoTitle == "" && storage == stored
      ensures !alerted && !mounted && !fetching
    {
      todos := [];
      newTodoTitle := "";
      storage := stored;
      alerted := false;
      mounted := false;
      fetching := false;
    }

    /** The auto-save effect, run after every `setTodos`: only a non-empty
        list is written. */
    method SaveIfNonEmpty()
      modifies this`storage
      ensures storage == if |todos| > 0 then Some(todos) else old(storage)
    {
      if |todos| > 0 {
        storage := Some(todos);
      }
    }

    /** The mount effect: a stored list (an empty one too, since a parsed
        `[]` is truthy) becomes `todos`; an absent entry starts the seed
        request, reported through `seeding`. */
    method Mount() returns (seeding: bool)
      requires Valid() && !mounted
      modifies this`todos, this`storage, this`mounted, this`fetching
      ensures Valid() && mounted
      ensures seeding == fetching == old(storage).None?
      ensures old(storage).Some? ==> todos == old(storage).value
      ensures old(storage).None? ==> todos == old(todos)
      ensures storage == old(storage)
    {
      mounted := true;
      seeding := storage.None?;
      if storage.Some? {
        todos := storage.value;
        SaveIfNonEmpty();
      }
      fetching := seeding;
    }

    /** `getToDos` once its request has settled: a status-200 response
        replaces `todos` (and the auto-save persists it when non-empty);
        any other status or a network failure keeps `todos` and raises
        the alert. */
    method GetToDos(outcome: FetchOutcome)
      requires Valid() && fetching
      modifies this`todos, this`storage, this`alerted, this`fetching
      ensures Valid() && !fetching
      ensures outcome.Response? && outcome.status == 200 ==>
                todos == outcome.data && alerted == old(alerted)
                && storage == (if |outcome.data| > 0 then Some(outcome.data) else old(storage))
      ensures !(outcome.Response? && outcome.status == 200) ==>
                todos == old(todos) && storage == old(storage) && alerted
    {
      fetching := false;
      match outcome
      case Response(status, data) =>
        if status == 200 {
          todos := data;
          SaveIfNonEmpty();
        } else {
          alerted := true;
        }
      case NetworkError =>
        alerted := true;
    }

    /** The input's `onChange`. */
    method SetNewTodoTitle(text: string)
      modifies this`newTodoTitle
      ensures newTodoTitle == text
    {
      newTodoTitle := text;
    }

    /** `handleAddTodo` with `Date.now()` passed in as `now`: a blank title
        changes nothing; otherwise the untrimmed title is appended as an
        incomplete item with id `now`, the input is cleared and the
        auto-save persists the list. */
    method HandleAddTodo(now: int)
      requires Valid()
      modifies this`todos, this`newTodoTitle, this`storage
      ensures Valid()
      ensures (todos, newTodoTitle) == Submit(old(todos), old(newTodoTitle), now)
      ensures AllSpace(old(newTodoTitle)) ==> storage == old(storage)
      ensures !AllSpace(old(newTodoTitle)) ==> storage == Some(todos)
    {
      if IsBlank(newTodoTitle) {
        return;
      }
      todos := Add(todos, newTodoTitle, now);
      newTodoTitle := "";
      SaveIfNonEmpty();
    }

    /** `handleToggleComplete`: the toggled list, persisted by the
        auto-save unless it is empty. */
    method HandleToggleComplete(id: int)
      requires Valid()
      modifies this`todos, this`storage
      ensures Valid()
      ensures todos == Toggle(old(todos), id)
      ensures storage == if |todos| > 0 then Some(todos) else old(storage)
    {
      todos := Toggle(todos, id);
      SaveIfNonEmpty();
    }

    /** `handleDeleteTodo`: the filtered list, written to storage
        explicitly, so an emptied list is persisted too. */
    method HandleDeleteTodo(id: int)
      requires Valid()
      modifies this`todos, this`storage
      ensures Valid()
      ensures todos == Delete(old(todos), id)
      ensures storage == Some(todos)
    {
      var updateTodos := Delete(todos, id);
      todos := updateTodos;
      storage := Some(updateTodos);
      SaveIfNonEmpty();
    }
  }

  /** A first visit (no storage entry) whose seed request answers 200 with
      `data`: the list becomes `data`, and it is persisted only when it is
      not empty. */
  method FirstVisit(data: seq<Todo>) returns (list: seq<Todo>, stored: Option<seq<Todo>>)
    ensures list == data
    ensures stored == if |data| > 0 then Some(data) else None
  {
    var c := new ToDoList(None);
    var seeding := c.Mount();
    c.GetToDos(Response(200, data));
    list, stored := c.todos, c.storage;
  }

  /** A first visit whose seed request fails (a status other than 200, or
      an exception) raises the alert and leaves no storage entry, so the
      next visit seeds again. */
  method RevisitAfterFailedSeed(outcome: FetchOutcome) returns (alerted: bool, seedsAgain: bool)
    requires !(outcome.Response? && outcome.status == 200)
    ensures alerted && seedsAgain
  {
    var first := new ToDoList(None);
    var seeding := first.Mount();
    first.GetToDos(outcome);
    alerted := first.alerted;
    var second := new ToDoList(first.storage);
    seedsAgain := second.Mount();
  }
}
