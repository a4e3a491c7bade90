/** The to-do list values and the pure list steps that both components
    (ToDoList and ToDosL) compute with spread-append, `map` and `filter`. */
module TodoStore {

  /** One to-do record `{id, title, completed}`. */
  datatype Todo = Todo(id: int, title: string, completed: bool)

  /** How the seed request settled: an HTTP response whose body is a list
      of records, or `NetworkError` for any exception raised inside the
      request's `try` block (the `fetch` or `response.json()` promise
      rejecting, or, in ToDosL, `data.map` throwing on a non-list body). */
  datatype FetchOutcome = Response(status: int, data: seq<Todo>) | NetworkError

  // ---------------------------------------------------------------------
  // Trimming
  // ---------------------------------------------------------------------

  /** The white-space test of `String.prototype.trim`, on a fixed set of
      characters standing for the full Unicode set. */
  predicate IsSpace(c: char) {
    c == ' ' || c == '\t' || c == '\n' || c == '\r' || c == '\U{0B}' || c == '\U{0C}'
    || c == '\U{A0}' || c == '\U{2028}' || c == '\U{2029}' || c == '\U{FEFF}'
  }

  /** `s` with its leading white space removed. */
  function TrimStart(s: string): (r: string)
    ensures |r| <= |s| && r == s[|s| - |r|..]
    ensures forall k :: 0 <= k < |s| - |r| ==> IsSpace(s[k])
    ensures r != [] ==> !IsSpace(r[0])
    decreases |s|
  {
    if s != [] && IsSpace(s[0]) then TrimStart(s[1..]) else s
  }

  /** `s` with its trailing white space removed. */
  function TrimEnd(s: string): (r: string)
    ensures |r| <= |s| && r == s[..|r|]
    ensures forall k :: |r| <= k < |s| ==> IsSpace(s[k])
    ensures r != [] ==> !IsSpace(r[|r| - 1])
    decreases |s|
  {
    if s != [] && IsSpace(s[|s| - 1]) then TrimEnd(s[..|s| - 1]) else s
  }

  /** Every character of `s` is white space. */
  predicate AllSpace(s: string) {
    forall k :: 0 <= k < |s| ==> IsSpace(s[k])
  }

  /** `s.trim()`: a contiguous slice of `s` with neither end white space,
      where everything cut off on either side is white space. */
  function Trim(s: string): (r: string)
    ensures |r| <= |s|
    ensures r != [] ==> !IsSpace(r[0]) && !IsSpace(r[|r| - 1])
    ensures exists i :: 0 <= i <= |s| - |r| && r == s[i..i + |r|]
                        && AllSpace(s[..i]) && AllSpace(s[i + |r|..])
  {
    var t := TrimStart(s);
    var r := TrimEnd(t);
    TrimSlice(s, t, r);
    var i := |s| - |t|;
    assert r == s[i..i + |r|] && AllSpace(s[..i]) && AllSpace(s[i + |r|..]);
    r
  }

  /** Cutting white space off the front of `s` (giving `t`) and then off
      the back of `t` (giving `r`) keeps a contiguous slice of `s`. */
  lemma TrimSlice(s: string, t: string, r: string)
    requires |t| <= |s| && t == s[|s| - |t|..]
    requires forall k :: 0 <= k < |s| - |t| ==> IsSpace(s[k])
    requires |r| <= |t| && r == t[..|r|]
    requires forall k :: |r| <= k < |t| ==> IsSpace(t[k])
    ensures r == s[|s| - |t|..|s| - |t| + |r|]
    ensures AllSpace(s[..|s| - |t|]) && AllSpace(s[|s| - |t| + |r|..])
  {
    var i := |s| - |t|;
    assert forall k :: 0 <= k < i ==> s[..i][k] == s[k];
    assert forall k :: 0 <= k < |t| - |r| ==> s[i + |r|..][k] == t[|r|..][k];
  }

  /** The guard of both add handlers: `s.trim() === ""` (ToDoList) and
      `!s.trim()` (ToDosL) both hold exactly when every character of `s`
      is white space. */
  predicate IsBlank(s: string): (b: bool)
    ensures b <==> AllSpace(s)
  {
    Trim(s) == []
  }

  // ---------------------------------------------------------------------
  // Identity of records
  // ---------------------------------------------------------------------

  /** Some record of `todos` carries `id`. */
  predicate HasId(todos: seq<Todo>, id: int) {
    exists k :: 0 <= k < |todos| && todos[k].id == id
  }

  /** No two records of `todos` share an id. */
  predicate UniqueIds(todos: seq<Todo>) {
    forall i, j :: 0 <= i < j < |todos| ==> todos[i].id != todos[j].id
  }

  // ---------------------------------------------------------------------
  // Add: `[...todos, {id: Date.now(), title, completed: false}]`
  // ---------------------------------------------------------------------

  /** The list after adding `title` with the timestamp `now` as its id. */
  function Add(todos: seq<Todo>, title: string, now: int): (r: seq<Todo>)
    ensures |r| == |todos| + 1 && r[..|todos|] == todos
    ensures r[|todos|].id == now && r[|todos|].title == title && !r[|todos|].completed
  {
    todos + [Todo(now, title, false)]
  }

  /** The add handler of both components on the list and the input text:
      a blank input leaves both unchanged; any other input is appended
      untrimmed and the input is cleared. */
  function Submit(todos: seq<Todo>, input: string, now: int): (r: (seq<Todo>, string))
    ensures AllSpace(input) ==> r == (todos, input)
    ensures !AllSpace(input) ==>
              r.1 == "" && |r.0| == |todos| + 1 && r.0[..|todos|] == todos
              && r.0[|todos|] == Todo(now, input, false)
  {
    if IsBlank(input) then (todos, input) else (Add(todos, input, now), "")
  }

  /** Adding keeps ids unique exactly when the timestamp is not already an
      id of the list: `Date.now()` is not guaranteed to be fresh. */
  lemma AddKeepsUniqueIff(todos: seq<Todo>, title: string, now: int)
    requires UniqueIds(todos)
    ensures UniqueIds(Add(todos, title, now)) <==> !HasId(todos, now)
  {
  }

  // ---------------------------------------------------------------------
  // Toggle: `todos.map(t => t.id === id ? {...t, completed: !t.completed} : t)`
  // ---------------------------------------------------------------------

  /** One record of the toggle map. */
  function ToggleOne(t: Todo, id: int): Todo {
    if t.id == id then t.(completed := !t.completed) else t
  }

  /** The list after toggling `id`: same length and order, ids and titles
      unchanged, `completed` flipped exactly on the records whose id is `id`. */
  function Toggle(todos: seq<Todo>, id: int): (r: seq<Todo>)
    ensures |r| == |todos|
    ensures forall k :: 0 <= k < |todos| ==>
              r[k].id == todos[k].id && r[k].title == todos[k].title
              && (r[k].completed <==> (todos[k].completed != (todos[k].id == id)))
    decreases |todos|
  {
    if todos == [] then [] else [ToggleOne(todos[0], id)] + Toggle(todos[1..], id)
  }

  /** Toggling the same id twice restores the list. */
  lemma ToggleTwice(todos: seq<Todo>, id: int)
    ensures Toggle(Toggle(todos, id), id) == todos
  {
  }

  /** Toggling an id that no record carries changes nothing. */
  lemma ToggleMissingId(todos: seq<Todo>, id: int)
    requires !HasId(todos, id)
    ensures Toggle(todos, id) == todos
  {
  }

  /** Toggling keeps the ids, in order, so it keeps them unique. */
  lemma ToggleKeepsUnique(todos: seq<Todo>, id: int)
    requires UniqueIds(todos)
    ensures UniqueIds(Toggle(todos, id))
  {
  }

  // ---------------------------------------------------------------------
  // Delete: `todos.filter(t => t.id !== id)`
  // ---------------------------------------------------------------------

  /** The list after deleting `id`: exactly the records whose id differs,
      never longer than the input. */
  function Delete(todos: seq<Todo>, id: int): (r: seq<Todo>)
    ensures |r| <= |todos|
    ensures forall t :: t in r <==> t in todos && t.id != id
    decreases |todos|
  {
    if todos == [] then []
    else if todos[0].id == id then Delete(todos[1..], id)
    else [todos[0]] + Delete(todos[1..], id)
  }

  /** Deleting distributes over concatenation; with the one-record cases
      this pins the result down as the in-order filter. */
  lemma {:induction false} DeleteAppend(a: seq<Todo>, b: seq<Todo>, id: int)
    ensures Delete(a + b, id) == Delete(a, id) + Delete(b, id)
    decreases |a|
  {
    if a != [] {
      assert (a + b)[1..] == a[1..] + b;
      DeleteAppend(a[1..], b, id);
    } else {
      assert a + b == b;
    }
  }

  /** Deleting an id that no record carries changes nothing. */
  lemma {:induction false} DeleteMissingId(todos: seq<Todo>, id: int)
    requires !HasId(todos, id)
    ensures Delete(todos, id) == todos
    decreases |todos|
  {
    if todos != [] {
      assert forall k :: 0 <= k < |todos| - 1 ==> todos[1..][k] == todos[k + 1];
      DeleteMissingId(todos[1..], id);
      assert todos == [todos[0]] + todos[1..];
    }
  }

  /** After a delete no record carries the id, so deleting again is a no-op. */
  lemma DeleteTwice(todos: seq<Todo>, id: int)
    ensures !HasId(Delete(todos, id), id)
    ensures Delete(Delete(todos, id), id) == Delete(todos, id)
  {
    DeleteMissingId(Delete(todos, id), id);
  }

  /** Deleting removes the toggled records, so toggling first makes no difference. */
  lemma {:induction false} DeleteAfterToggle(todos: seq<Todo>, id: int)
    ensures Delete(Toggle(todos, id), id) == Delete(todos, id)
    decreases |todos|
  {
    if todos != [] {
      var toggled := Toggle(todos, id);
      assert toggled[0].id == todos[0].id;
      assert toggled[1..] == Toggle(todos[1..], id);
      DeleteAfterToggle(todos[1..], id);
    }
  }

  /** Deleting keeps ids unique. */
  lemma {:induction false} DeleteKeepsUnique(todos: seq<Todo>, id: int)
    requires UniqueIds(todos)
    ensures UniqueIds(Delete(todos, id))
    decreases |todos|
  {
    if todos != [] {
      var rest := Delete(todos[1..], id);
      DeleteKeepsUnique(todos[1..], id);
      if todos[0].id != id {
        var r := [todos[0]] + rest;
        forall i, j | 0 <= i < j < |r| ensures r[i].id != r[j].id {
          if i == 0 {
            assert r[j] in rest;
            assert r[j] in todos[1..];
            var m :| 0 <= m < |todos[1..]| && todos[1..][m] == r[j];
            assert todos[m + 1] == r[j];
          } else {
            assert r[i] == rest[i - 1] && r[j] == rest[j - 1];
          }
        }
      }
    }
  }

  // ---------------------------------------------------------------------
  // Seed copy: `data.map(todo => ({...todo, id: todo.id}))`
  // ---------------------------------------------------------------------

  /** The seed records as ToDosL copies them, each id carried over; the
      copy equals the fetched list. */
  function CopyWithIds(data: seq<Todo>): (r: seq<Todo>)
    ensures r == data
    decreases |data|
  {
    if data == [] then [] else [data[0].(id := data[0].id)] + CopyWithIds(data[1..])
  }
}
