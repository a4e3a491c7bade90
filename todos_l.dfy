/** The `ToDosL` component (src/ToDosL.js): the list state, the input text
    and the `"todos"` storage entry, with its handlers and effects. */
module ToDosLComponent {
  import opened Wrappers
  import opened TodoStore

  class ToDosL {
    /** `todos`, replaced through `setTodos`. */
    var todos: seq<Todo>
    /** `newTodo`, the text in the input box. */
    var newTodo: string
    /** The `"todos"` storage entry; `None` when the key is absent. */
    var storage: Option<seq<Todo>>
    /** Whether the mount effect has run. */
    var mounted: bool
    /** Whether `fetchInitialTodos` is still waiting for its request. */
    var fetching: bool

    /** Once mounted, the unconditional auto-save keeps storage equal to
        `todos`; a pending seed request exists only after mounting. */
    ghost predicate Valid()
      reads this
    {
      (mounted ==> storage == Some(todos)) && (fetching ==> mounted)
    }

    /** The first render over an existing storage entry, before any effect. */
    constructor (stored: Option<seq<Todo>>)
      ensures Valid()
      ensures todos == [] && newTodo == "" && storage == stored
      ensures !mounted && !fetching
    {
      todos := [];
      newTodo := "";
      storage := stored;
      mounted := false;
      fetching := false;
    }

    /** The auto-save effect, run after every `setTodos` and after the
        first render: the list is written whatever its length. */
    method SaveTodos()
      modifies this`storage
      ensures storage == Some(todos)
    {
      storage := Some(todos);
    }

    /** The effects of the first commit, in order. The mount effect reads
        the entry first: a stored list becomes `todos`; an absent entry
        starts `fetchInitialTodos`, reported through `seeding`. The
        auto-save then runs, so an absent entry is left holding the empty
        list until the request settles. */
    method Mount() returns (seeding: bool)
      requires Valid() && !mounted
      modifies this`todos, this`storage, this`mounted, this`fetching
      ensures Valid() && mounted
      ensures seeding == fetching == old(storage).None?
      ensures old(storage).Some? ==> todos == old(storage).value
      ensures old(storage).None? ==> todos == old(todos)
    {
      mounted := true;
      seeding := storage.None?;
      if storage.Some? {
        todos := storage.value;
      }
      fetching := seeding;
      SaveTodos();
    }

    /** `fetchInitialTodos` once its request has settled: any response
        (no status check) replaces `todos` with its records, ids carried
        over, and writes them to storage; a network failure is only
        logged. */
    method FetchInitialTodos(outcome: FetchOutcome)
      requires Valid() && fetching
      modifies this`todos, this`storage, this`fetching
      ensures Valid() && !fetching
      ensures outcome.Response? ==> todos == outcome.data
      ensures outcome.NetworkError? ==> todos == old(todos)
      ensures storage == Some(todos)
    {
      fetching := false;
      match outcome
      case Response(_, data) =>
        var initialTodos := CopyWithIds(data);
        todos := initialTodos;
        storage := Some(initialTodos);
        SaveTodos();
      case NetworkError =>
    }

    /** The input's `onChange`. */
    method SetNewTodo(text: string)
      modifies this`newTodo
      ensures newTodo == text
    {
      newTodo := text;
    }

    /** `addTodo` with `Date.now()` passed in as `now`: a blank title
        changes nothing; otherwise the untrimmed title is appended as an
        incomplete item with id `now`, the input is cleared and the
        auto-save writes the list. */
    method AddTodo(now: int)
      requires Valid()
      modifies this`todos, this`newTodo, this`storage
      ensures Valid()
      ensures (todos, newTodo) == Submit(old(todos), old(newTodo), now)
      ensures AllSpace(old(newTodo)) ==> storage == old(storage)
      ensures !AllSpace(old(newTodo)) ==> storage == Some(todos)
    {
      if IsBlank(newTodo) {
        return;
      }
      todos := Add(todos, newTodo, now);
      newTodo := "";
      SaveTodos();
    }

    /** `toggleTodo`: the toggled list, written by the auto-save. */
    method ToggleTodo(id: int)
      requires Valid()
      modifies this`todos, this`storage
      ensures Valid()
      ensures todos == Toggle(old(todos), id)
      ensures storage == Some(todos)
    {
      todos := Toggle(todos, id);
      SaveTodos();
    }

    /** `deleteTodo`: the filtered list, written by the auto-save even
        when it is empty. */
    method DeleteTodo(id: int)
      requires Valid()
      modifies this`todos, this`storage
      ensures Valid()
      ensures todos == Delete(old(todos), id)
      ensures storage == Some(todos)
    {
      todos := Delete(todos, id);
      SaveTodos();
    }
  }

  /** A first visit (no storage entry) whose seed request gets any
      response: the list and the storage entry both become its records. */
  method FirstVisit(status: int, data: seq<Todo>) returns (list: seq<Todo>, stored: Option<seq<Todo>>)
    ensures list == data && stored == Some(data)
  {
    var c := new ToDosL(None);
    var seeding := c.Mount();
    c.FetchInitialTodos(Response(status, data));
    list, stored := c.todos, c.storage;
  }

  /** A first visit whose seed request fails leaves the empty list stored
      by the first auto-save, so the next visit loads it and never seeds. */
  method RevisitAfterFailedSeed() returns (list: seq<Todo>, seedsAgain: bool)
    ensures list == [] && !seedsAgain
  {
    var first := new ToDosL(None);
    var seeding := first.Mount();
    first.FetchInitialTodos(NetworkError);
    var second := new ToDosL(first.storage);
    seedsAgain := second.Mount();
    list := second.todos;
  }
}
