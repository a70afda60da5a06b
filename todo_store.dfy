/**
 * The TodoList class of app.js (lines 304-413): an ordered list of to-do items that is
 * appended to, toggled and filtered in place. The clock readings that give an item its
 * id and timestamp are passed in; the cookie the list is kept in is left to the caller.
 */
module TodoStore {
  import opened Wrappers

  /** One to-do item as addTodo creates it (app.js:370-375). */
  datatype Todo = Todo(id: int, text: string, completed: bool, timestamp: string)

  /** What the `todos` cookie held: a parsed list, or text JSON.parse rejected. */
  datatype StoredTodos = Parsed(items: seq<Todo>) | Malformed

  /**
   * The characters String.prototype.trim removes: ECMAScript's WhiteSpace (tab, vertical
   * tab, form feed, space, no-break space, byte order mark and the Zs category) and
   * LineTerminator (line feed, carriage return, line and paragraph separators).
   */
  const JsWhitespace: set<char> := {
    '\t', '\n', '\U{B}', '\U{C}', '\r', ' ', '\U{A0}', '\U{1680}',
    '\U{2000}', '\U{2001}', '\U{2002}', '\U{2003}', '\U{2004}', '\U{2005}',
    '\U{2006}', '\U{2007}', '\U{2008}', '\U{2009}', '\U{200A}',
    '\U{2028}', '\U{2029}', '\U{202F}', '\U{205F}', '\U{3000}', '\U{FEFF}'
  }

  predicate IsJsWhitespace(c: char)
  {
    c in JsWhitespace
  }

  /** Where the text starts: the first index from `i` on that holds no whitespace, or |s|. */
  function TrimStartIndex(s: string, i: nat): (k: nat)
    requires i <= |s|
    ensures i <= k <= |s|
    ensures forall j :: i <= j < k ==> IsJsWhitespace(s[j])
    ensures k < |s| ==> !IsJsWhitespace(s[k])
    decreases |s| - i
  {
    if i < |s| && IsJsWhitespace(s[i]) then TrimStartIndex(s, i + 1) else i
  }

  /** Where the text ends: just past the last index below `j`, and not below `lo`, that holds no whitespace. */
  function TrimEndIndex(s: string, lo: nat, j: nat): (k: nat)
    requires lo <= j <= |s|
    ensures lo <= k <= j
    ensures forall m :: k <= m < j ==> IsJsWhitespace(s[m])
    ensures k > lo ==> !IsJsWhitespace(s[k - 1])
    decreases j
  {
    if j > lo && IsJsWhitespace(s[j - 1]) then TrimEndIndex(s, lo, j - 1) else j
  }

  /** String.prototype.trim: the input without its leading and trailing whitespace. */
  function Trim(s: string): (r: string)
    ensures TrimStartIndex(s, 0) + |r| <= |s|
    ensures r == s[TrimStartIndex(s, 0)..TrimStartIndex(s, 0) + |r|]
    ensures forall i :: 0 <= i < TrimStartIndex(s, 0) ==> IsJsWhitespace(s[i])
    ensures forall i :: TrimStartIndex(s, 0) + |r| <= i < |s| ==> IsJsWhitespace(s[i])
    ensures r == [] <==> forall i :: 0 <= i < |s| ==> IsJsWhitespace(s[i])
    ensures r != [] ==> !IsJsWhitespace(r[0]) && !IsJsWhitespace(r[|r| - 1])
  {
    var a := TrimStartIndex(s, 0);
    var b := TrimEndIndex(s, a, |s|);
    s[a..b]
  }

  /** addTodo (app.js:367-381) on the list: blank input is ignored, else one item is appended. */
  function Added(todos: seq<Todo>, input: string, id: int, timestamp: string): (r: seq<Todo>)
    ensures Trim(input) == [] ==> r == todos
    ensures Trim(input) != [] ==>
      && |r| == |todos| + 1 && r[..|todos|] == todos
      && r[|todos|] == Todo(id, Trim(input), false, timestamp)
  {
    var text := Trim(input);
    if text != [] then todos + [Todo(id, text, false, timestamp)] else todos
  }

  /** Index of the first item with the given id, or the length when there is none. */
  function FirstMatch(todos: seq<Todo>, id: int): (k: nat)
    ensures k <= |todos|
    ensures k < |todos| ==> todos[k].id == id
    ensures forall j :: 0 <= j < k ==> todos[j].id != id
    decreases |todos|
  {
    if todos == [] then 0
    else if todos[0].id == id then 0
    else 1 + FirstMatch(todos[1..], id)
  }

  /** toggleTodo (app.js:384-391): flip the first item with the id, if there is one. */
  function ToggledFirst(todos: seq<Todo>, id: int): (r: seq<Todo>)
    ensures |r| == |todos|
    ensures forall i :: 0 <= i < |todos| && i != FirstMatch(todos, id) ==> r[i] == todos[i]
    ensures var k := FirstMatch(todos, id);
      k < |todos| ==> r[k] == todos[k].(completed := !todos[k].completed)
    ensures (forall i :: 0 <= i < |todos| ==> todos[i].id != id) ==> r == todos
  {
    var k := FirstMatch(todos, id);
    if k < |todos| then todos[k := todos[k].(completed := !todos[k].completed)] else todos
  }

  /** deleteTodo (app.js:393-394): `filter(t => t.id !== id)`. */
  function RemoveId(todos: seq<Todo>, id: int): (r: seq<Todo>)
    ensures |r| <= |todos|
    ensures forall i :: 0 <= i < |r| ==> r[i].id != id
    decreases |todos|
  {
    if todos == [] then []
    else
      var last := todos[|todos| - 1];
      RemoveId(todos[..|todos| - 1], id) + (if last.id == id then [] else [last])
  }

  /** Number of items that carry the id. */
  function CountId(todos: seq<Todo>, id: int): nat
    decreases |todos|
  {
    if todos == [] then 0
    else CountId(todos[..|todos| - 1], id) + (if todos[|todos| - 1].id == id then 1 else 0)
  }

  /** loadTodos (app.js:403-413): nothing stored keeps the list, a malformed one empties it. */
  function Loaded(todos: seq<Todo>, stored: Option<StoredTodos>): (r: seq<Todo>)
    ensures stored.None? ==> r == todos
    ensures stored == Some(Malformed) ==> r == []
    ensures stored.Some? && stored.value.Parsed? ==> r == stored.value.items
  {
    match stored
    case None => todos
    case Some(Malformed) => []
    case Some(Parsed(items)) => items
  }

  // ---------------------------------------------------------------------------
  // Properties.
  // ---------------------------------------------------------------------------

  /** Trimming twice is trimming once: an added item's text is already trimmed. */
  lemma TrimIdempotent(s: string)
    ensures Trim(Trim(s)) == Trim(s)
  {
    var r := Trim(s);
    if r != [] {
      assert TrimStartIndex(r, 0) == 0;
      assert TrimEndIndex(r, 0, |r|) == |r|;
    }
  }

  /** Any index with the properties of the first match is the first match. */
  lemma {:induction false} FirstMatchUnique(todos: seq<Todo>, id: int, k: nat)
    requires k <= |todos|
    requires k < |todos| ==> todos[k].id == id
    requires forall j :: 0 <= j < k ==> todos[j].id != id
    ensures k == FirstMatch(todos, id)
    decreases |todos|
  {
    if todos != [] && todos[0].id != id {
      FirstMatchUnique(todos[1..], id, k - 1);
    }
  }

  /** Toggling the same id twice gives back the list. */
  lemma ToggleTwice(todos: seq<Todo>, id: int)
    ensures ToggledFirst(ToggledFirst(todos, id), id) == todos
  {
    var once := ToggledFirst(todos, id);
    var k := FirstMatch(todos, id);
    FirstMatchUnique(once, id, k);
  }

  /** Deleting distributes over concatenation: the survivors keep their order. */
  lemma {:induction false} RemoveIdAppend(a: seq<Todo>, b: seq<Todo>, id: int)
    ensures RemoveId(a + b, id) == RemoveId(a, id) + RemoveId(b, id)
    decreases |b|
  {
    if b == [] {
      assert a + b == a;
    } else {
      var ab := a + b;
      assert ab[..|ab| - 1] == a + b[..|b| - 1];
      RemoveIdAppend(a, b[..|b| - 1], id);
    }
  }

  /** Deleting keeps every item without the id and invents none. */
  lemma {:induction false} RemoveIdKeeps(todos: seq<Todo>, id: int)
    ensures forall x :: x in RemoveId(todos, id) <==> x in todos && x.id != id
    decreases |todos|
  {
    if todos != [] {
      var init := todos[..|todos| - 1];
      RemoveIdKeeps(init, id);
      assert todos == init + [todos[|todos| - 1]];
    }
  }

  /** Deleting removes exactly the items with the id, however many there are. */
  lemma {:induction false} RemoveIdCount(todos: seq<Todo>, id: int)
    ensures |RemoveId(todos, id)| + CountId(todos, id) == |todos|
    decreases |todos|
  {
    if todos != [] {
      RemoveIdCount(todos[..|todos| - 1], id);
    }
  }

  /** Deleting an id that no item carries leaves the list as it is. */
  lemma {:induction false} RemoveIdAbsent(todos: seq<Todo>, id: int)
    requires forall i :: 0 <= i < |todos| ==> todos[i].id != id
    ensures RemoveId(todos, id) == todos
    decreases |todos|
  {
    if todos != [] {
      RemoveIdAbsent(todos[..|todos| - 1], id);
    }
  }

  /** Deleting the same id twice is deleting it once. */
  lemma RemoveIdIdempotent(todos: seq<Todo>, id: int)
    ensures RemoveId(RemoveId(todos, id), id) == RemoveId(todos, id)
  {
    RemoveIdAbsent(RemoveId(todos, id), id);
  }

  class TodoList {
    var todos: seq<Todo>

    /** The constructor (app.js:305-313): an empty list, then whatever was stored. */
    constructor (stored: Option<StoredTodos>)
      ensures todos == Loaded([], stored)
    {
      todos := [];
      new;
      LoadTodos(stored);
    }

    /** loadTodos (app.js:403-413). */
    method LoadTodos(stored: Option<StoredTodos>)
      modifies this
      ensures todos == Loaded(old(todos), stored)
    {
      if stored.Some? {
        match stored.value
        case Parsed(items) =>
          todos := items;
        case Malformed =>
          todos := [];
      }
    }

    /** addTodo (app.js:367-381); `input` is the text box, `id` and `timestamp` the clock. */
    method AddTodo(input: string, id: int, timestamp: string)
      modifies this
      ensures todos == Added(old(todos), input, id, timestamp)
    {
      var text := Trim(input);
      if text != [] {
        var todo := Todo(id, text, false, timestamp);
        todos := todos + [todo];
      }
    }

    /** `todos.find(t => t.id === id)` (app.js:385), as the index of the item found. */
    method FindFirst(id: int) returns (k: nat)
      ensures k <= |todos|
      ensures k < |todos| ==> todos[k].id == id
      ensures forall j :: 0 <= j < k ==> todos[j].id != id
    {
      k := 0;
      while k < |todos| && todos[k].id != id
        invariant k <= |todos|
        invariant forall j :: 0 <= j < k ==> todos[j].id != id
      {
        k := k + 1;
      }
    }

    /** toggleTodo (app.js:384-391). */
    method ToggleTodo(id: int)
      modifies this
      ensures todos == ToggledFirst(old(todos), id)
    {
      var k := FindFirst(id);
      FirstMatchUnique(todos, id, k);
      if k < |todos| {
        var todo := todos[k];
        todos := todos[k := todo.(completed := !todo.completed)];
      }
    }

    /** `todos.filter(t => t.id !== id)` (app.js:394): the items kept, in order. */
    method Filter(id: int) returns (kept: seq<Todo>)
      ensures kept == RemoveId(todos, id)
    {
      kept := [];
      var i := 0;
      while i < |todos|
        invariant i <= |todos|
        invariant kept == RemoveId(todos[..i], id)
      {
        assert todos[..i + 1][..i] == todos[..i];
        if todos[i].id != id {
          kept := kept + [todos[i]];
        }
        i := i + 1;
      }
      assert todos[..i] == todos;
    }

    /** deleteTodo (app.js:393-397). */
    method DeleteTodo(id: int)
      modifies this
      ensures todos == RemoveId(old(todos), id)
    {
      var kept := Filter(id);
      todos := kept;
    }
  }
}
