# To-do list state, in Dafny

This project models the state logic of the two to-do list components of
xjwsx/todolist: `ToDoList` (src/ToDoList.js) and `ToDosL` (src/ToDosL.js).
Each component holds three pieces of state:

- an ordered list of `{id, title, completed}` records;
- the text in the input box;
- the `"todos"` entry in browser storage.

It changes them through an add handler, a toggle handler, a delete handler,
an input `onChange`, a mount effect that loads the stored list or starts a
seed request, the settling of that request, and an auto-save effect.

Layout:

- `wrappers.dfy`: module `Wrappers`, the `Option` used for the storage entry
  (`None` is an absent key).
- `todo_store.dfy`: module `TodoStore`, the parts both components share.
  It holds the `Todo` record, the fetch outcome and `trim`. It also holds the
  pure list steps (`Add`, `Toggle`, `Delete`, the seed copy) with their
  lemmas: toggle undoes itself, delete is the in-order filter, and id
  uniqueness is kept.
- `todo_list.dfy`: module `ToDoListComponent`, class `ToDoList`. Its
  auto-save writes only non-empty lists. Delete writes storage explicitly.
  The seed is accepted only on status 200, and any failure raises an alert.
- `todos_l.dfy`: module `ToDosLComponent`, class `ToDosL`. Its auto-save
  writes every list. There is no status check and no alert.

Modelling choices:

- `Date.now()` is the `now` parameter of the add handlers.
- The white-space test of `trim` is the predicate `IsSpace`, over a fixed
  set of characters.
- JSON encoding and decoding of these flat records is the identity.
  Storage therefore holds the list itself.
- The seed request is split into two events. `Mount` starts it and reports
  `seeding`. `GetToDos` / `FetchInitialTodos` is the later event where the
  request settles, with its outcome as a parameter: a response with a
  status and a list of records, or `NetworkError` for any exception raised
  inside the request's `try` block. User events may
  happen between the two, as in the components.
- Every `setTodos` is followed by the component's auto-save effect.
- In `ToDosL` the first auto-save runs right after the mount effect has
  read storage, so an absent entry holds `[]` until the seed settles. After
  a failed seed that `[]` stays, and the next visit loads it instead of
  seeding again (`ToDosLComponent.RevisitAfterFailedSeed`). `ToDoList`
  leaves the entry absent and seeds again
  (`ToDoListComponent.RevisitAfterFailedSeed`).
- Malformed stored data is not modelled as absent. `JSON.parse` on it
  throws uncaught (src/ToDoList.js:58, src/ToDosL.js:28).
- `ToDosL` shows no alert when the seed request fails: its `catch` only
  logs the error (src/ToDosL.js:21-23).

## Model

| member | source | states |
|---|---|---|
| TodoStore.TrimStart | src/ToDoList.js:27 | the result is a suffix of the input, everything removed is white space, and it does not start with white space |
| TodoStore.TrimEnd | src/ToDoList.js:27 | the result is a prefix of the input, everything removed is white space, and it does not end with white space |
| TodoStore.Trim | src/ToDoList.js:27 | `s.trim()`, used in the add guards of both components (also src/ToDosL.js:40): the result is a contiguous slice of `s`; everything cut off on either side is white space; the result neither starts nor ends with white space |
| TodoStore.IsBlank | src/ToDosL.js:40 | the add guard `!newTodo.trim()` (also `newTodoTitle.trim() === ""` at src/ToDoList.js:27) holds exactly when every character of the input is white space, in both directions |
| TodoStore.Add | src/ToDoList.js:29-35 | the new list is the old list unchanged plus one last item with the given timestamp as id, the raw title, and `completed` false |
| TodoStore.Submit | src/ToDoList.js:25-37 | a white-space-only input leaves the list and the input unchanged; any other input appends one incomplete item with the raw untrimmed input as title and `now` as id, keeps the earlier items, and clears the input |
| TodoStore.AddKeepsUniqueIff | src/ToDoList.js:29-35 | if ids are unique before an add, they are unique after it exactly when the timestamp is not already an id |
| TodoStore.Toggle | src/ToDoList.js:41-45 | length, order, ids and titles are kept; `completed` is flipped exactly on the items whose id matches |
| TodoStore.ToggleTwice | src/ToDoList.js:42-44 | toggling the same id twice restores the original list |
| TodoStore.ToggleMissingId | src/ToDoList.js:42-44 | toggling an id that no item carries leaves the list unchanged |
| TodoStore.ToggleKeepsUnique | src/ToDoList.js:42-43 | toggling keeps ids unique |
| TodoStore.Delete | src/ToDoList.js:52 | the result is never longer than the input, and an item is in it exactly when it is in the input with a different id |
| TodoStore.DeleteAppend | src/ToDoList.js:52 | delete distributes over concatenation, so it keeps the surviving items in their original order |
| TodoStore.DeleteMissingId | src/ToDoList.js:52 | deleting an id that no item carries leaves the list unchanged |
| TodoStore.DeleteTwice | src/ToDoList.js:52 | after a delete no item carries the id, and deleting it again changes nothing |
| TodoStore.DeleteAfterToggle | src/ToDoList.js:52 | toggling an id and then deleting it gives the same list as deleting it directly |
| TodoStore.DeleteKeepsUnique | src/ToDoList.js:52 | deleting keeps ids unique |
| TodoStore.CopyWithIds | src/ToDosL.js:15-18 | the seed copy `{...todo, id: todo.id}` gives back exactly the fetched list, ids carried over |
| ToDoListComponent.ToDoList.constructor | src/ToDoList.js:5-6 | the first render starts with an empty list, empty input, the existing storage entry, no alert, not yet mounted |
| ToDoListComponent.ToDoList.SaveIfNonEmpty | src/ToDoList.js:66-70 | storage becomes the list when it is non-empty and is otherwise left as it was |
| ToDoListComponent.ToDoList.Mount | src/ToDoList.js:57-64 | a present stored list, an empty one included, becomes `todos` without a seed; an absent entry starts the seed; storage is unchanged; afterwards every non-empty list is stored |
| ToDoListComponent.ToDoList.GetToDos | src/ToDoList.js:8-23 | a status-200 response replaces `todos` and is stored only if non-empty; another status or a network failure keeps `todos` and storage and raises the alert |
| ToDoListComponent.ToDoList.SetNewTodoTitle | src/ToDoList.js:80 | the input text becomes the typed value |
| ToDoListComponent.ToDoList.HandleAddTodo | src/ToDoList.js:25-37 | list and input change as `Submit` says; storage is unchanged on a blank input and equals the new list otherwise |
| ToDoListComponent.ToDoList.HandleToggleComplete | src/ToDoList.js:39-48 | the list becomes its toggle; storage becomes it when non-empty |
| ToDoListComponent.ToDoList.HandleDeleteTodo | src/ToDoList.js:50-55 | the list becomes its filter and storage is set to it even when it is empty |
| ToDoListComponent.FirstVisit | src/ToDoList.js:57-70 | with no stored entry and a status-200 seed, the list becomes the seed, and it is stored only if non-empty |
| ToDoListComponent.RevisitAfterFailedSeed | src/ToDoList.js:13-22 | a failed seed, either a status other than 200 or an exception caught at the `catch`, raises the alert and leaves the entry absent, so the next mount seeds again |
| ToDosLComponent.ToDosL.constructor | src/ToDosL.js:5-6 | the first render starts with an empty list, empty input, the existing storage entry, not yet mounted |
| ToDosLComponent.ToDosL.SaveTodos | src/ToDosL.js:34-36 | storage becomes the list, whatever its length |
| ToDosLComponent.ToDosL.Mount | src/ToDosL.js:26-36 | a present stored list becomes `todos` and no seed starts; an absent entry starts the seed; afterwards storage equals `todos` |
| ToDosLComponent.ToDosL.FetchInitialTodos | src/ToDosL.js:9-24 | any response replaces `todos` with its records, whatever the status, and storage equals them; a network failure keeps `todos`; storage equals `todos` either way |
| ToDosLComponent.ToDosL.SetNewTodo | src/ToDosL.js:69 | the input text becomes the typed value |
| ToDosLComponent.ToDosL.AddTodo | src/ToDosL.js:38-48 | list and input change as `Submit` says; storage is unchanged on a blank input and equals the new list otherwise |
| ToDosLComponent.ToDosL.ToggleTodo | src/ToDosL.js:50-56 | the list becomes its toggle and storage equals it |
| ToDosLComponent.ToDosL.DeleteTodo | src/ToDosL.js:58-60 | the list becomes its filter and storage equals it, an empty list included |
| ToDosLComponent.FirstVisit | src/ToDosL.js:9-20 | with no stored entry, any seed response becomes both the list and the stored entry |
| ToDosLComponent.RevisitAfterFailedSeed | src/ToDosL.js:21-36 | a failed seed leaves `[]` stored by the auto-save, so the next mount loads the empty list and does not seed |

## Left out

- Rendering and styling: the JSX and the styled components are presentation only, with no state.
- src/App.js is not part of this model. It is the page shell that mounts one component.
- The network: the `fetch` call, its URL and `_limit=5` are not modelled. Its result is the `FetchOutcome` parameter.
- The response body is assumed to be a list of records. In `ToDosL` a non-array body makes `data.map` throw, and the `catch` handles it like a network failure (`NetworkError`). In `ToDoList` a status-200 non-array body reaches `setTodos(data)`, and the next render's `todos.map` throws, so the component fails to render and the auto-save never runs. That path is not modelled.
- `alert` is a boolean flag. `console.error` is left out.
- JSON: encode and decode are the identity. Malformed stored data makes `JSON.parse` throw uncaught, and that path is not modelled.
- In `ToDosL`, a stored empty string is falsy and would trigger the seed. `JSON.stringify` of a list never produces it, so storage holds only lists here.
- White space: `IsSpace` is a fixed set of characters, not the full Unicode set that `String.prototype.trim` uses.
- React scheduling: batched updates, `useCallback` stale closures, and `preventDefault` / `stopPropagation` are not modelled. Each `setTodos` is followed at once by its auto-save.
- Ids are unbounded integers. The range of `Date.now()` and the float representation of JavaScript numbers are not modelled.
