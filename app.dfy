/** The application state of js/app.js and the event handlers that change it.
    The page itself is abstracted to three fields: the todos whose rows the
    list holds, the placeholder row's text and the counter's text. */
module App {
  import opened Wrappers
  import opened Text
  import opened Seqs
  import opened TodoList
  import opened Render

  /** `JSON.parse(stored) || []`: a stored collection reads back as itself,
      an absent entry as no todos. */
  function Loaded(stored: Option<seq<Todo>>): (r: seq<Todo>)
    ensures stored == Some(r) || (stored == None && r == [])
  {
    match stored
    case None => []
    case Some(s) => s
  }

  /** What renderTodos leaves in `todos`: under All it sorts the collection
      itself, because the filtered array is the collection; under the other
      filters it only sorts a copy. */
  function Settled(s: seq<Todo>, f: Filter): (r: seq<Todo>)
    ensures multiset(r) == multiset(s)
    ensures f == All ==> NewestFirst(r)
    ensures f != All ==> r == s
  {
    if f == All then Sort(s) else s
  }

  /** What renderTodos does to `todos` changes neither the list it draws nor
      the count of pending todos. */
  lemma SettledShowsTheSame(s: seq<Todo>, f: Filter)
    ensures View(Settled(s, f), f) == View(s, f)
    ensures PendingCount(Settled(s, f)) == PendingCount(s)
  {
    SortOfSorted(Sort(s));
    WherePermutationCount(Settled(s, f), s, IsPending);
  }

  /** Nor does it change what a later sort of `todos` yields: the sort a
      reload applies. */
  lemma SettledSortsTheSame(s: seq<Todo>, f: Filter)
    ensures Sort(Settled(s, f)) == Sort(s)
  {
    SortOfSorted(Sort(s));
  }

  class TodoApp {
    /** The collection, the `todos` global. */
    var todos: seq<Todo>
    var currentFilter: Filter
    /** The value stored under the 'vikram-todos' key. */
    var persisted: Option<seq<Todo>>
    /** The todos whose rows the list holds, top to bottom. */
    var shown: seq<Todo>
    /** The text of the placeholder row, when the list holds one. */
    var placeholder: Option<string>
    /** The text of the remaining-task counter. */
    var tasksLabel: string

    /** Between two events: what is stored sorts to what the collection sorts
        to, so it holds the same todos; the list and the counter show the
        collection; under All the collection is newest first. */
    ghost predicate Valid()
      reads this
    {
      && Sort(Loaded(persisted)) == Sort(todos)
      && (currentFilter == All ==> NewestFirst(todos))
      && shown == View(todos, currentFilter)
      && placeholder == Placeholder(todos, currentFilter)
      && tasksLabel == CountLabel(PendingCount(todos))
    }

    /** Loading the script (the todos read from storage, the filter at All)
        and then the DOMContentLoaded handler (render, then the counter). */
    constructor Load(stored: Option<seq<Todo>>)
      ensures Valid()
      ensures persisted == stored && currentFilter == All
      ensures todos == Sort(Loaded(stored))
    {
      todos := Loaded(stored);
      currentFilter := All;
      persisted := stored;
      shown := [];
      placeholder := None;
      tasksLabel := "";
      new;
      RenderTodos();
      SettledSortsTheSame(Loaded(stored), All);
      UpdateTasksCount();
    }

    /** saveTodos: the whole collection overwrites the stored value. */
    method SaveTodos()
      modifies this
      ensures persisted == Some(todos)
      ensures todos == old(todos) && currentFilter == old(currentFilter)
      ensures shown == old(shown) && placeholder == old(placeholder)
      ensures tasksLabel == old(tasksLabel)
    {
      persisted := Some(todos);
    }

    /** renderTodos: filter, sort newest first, then draw the rows or the
        placeholder. Under All the sort reorders `todos` itself. */
    method RenderTodos()
      modifies this
      ensures todos == Settled(old(todos), currentFilter)
      ensures shown == View(todos, currentFilter)
      ensures placeholder == Placeholder(todos, currentFilter)
      ensures currentFilter == old(currentFilter) && persisted == old(persisted)
      ensures tasksLabel == old(tasksLabel)
    {
      var filtered := Selected(todos, currentFilter);
      var sorted := Sort(filtered);
      if currentFilter == All {
        todos := sorted;
      }
      SettledShowsTheSame(old(todos), currentFilter);
      shown := sorted;
      placeholder := if sorted == [] then Some(EmptyMessage(currentFilter)) else None;
    }

    /** updateTasksCount. */
    method UpdateTasksCount()
      modifies this
      ensures tasksLabel == CountLabel(PendingCount(todos))
      ensures todos == old(todos) && currentFilter == old(currentFilter)
      ensures persisted == old(persisted) && shown == old(shown)
      ensures placeholder == old(placeholder)
    {
      tasksLabel := CountLabel(PendingCount(todos));
    }

    /** addTodo, with the entry field's value, Date.now() and new Date() as
        parameters. Blank input changes nothing; otherwise the new todo is
        appended, saved, and then the page is redrawn. */
    method AddTodo(input: string, id: int, now: int)
      requires Valid()
      modifies this
      ensures Valid() && currentFilter == old(currentFilter)
      ensures Trim(input) == [] ==> todos == old(todos) && persisted == old(persisted)
      ensures Trim(input) != [] ==> persisted == Some(Add(old(todos), input, id, now))
      ensures Trim(input) != [] ==> todos == Settled(Add(old(todos), input, id, now), currentFilter)
    {
      var text := Trim(input);
      if text == [] {
        return;
      }
      Push(Todo(id, text, false, now));
      ghost var added := todos;
      assert added == Add(old(todos), input, id, now);
      SaveTodos();
      RenderTodos();
      SettledSortsTheSame(added, currentFilter);
      UpdateTasksCount();
    }

    /** `todos.push(newTodo)`. */
    method Push(t: Todo)
      modifies this
      ensures todos == old(todos) + [t]
      ensures currentFilter == old(currentFilter) && persisted == old(persisted)
      ensures shown == old(shown) && placeholder == old(placeholder)
      ensures tasksLabel == old(tasksLabel)
    {
      todos := todos + [t];
    }

    /** toggleTodo. */
    method ToggleTodo(id: int)
      requires Valid()
      modifies this
      ensures Valid() && currentFilter == old(currentFilter)
      ensures persisted == Some(Toggle(old(todos), id))
      ensures todos == Settled(Toggle(old(todos), id), currentFilter)
    {
      todos := Toggle(todos, id);
      SaveTodos();
      ghost var saved := todos;
      RenderTodos();
      SettledSortsTheSame(saved, currentFilter);
      UpdateTasksCount();
    }

    /** deleteTodo. */
    method DeleteTodo(id: int)
      requires Valid()
      modifies this
      ensures Valid() && currentFilter == old(currentFilter)
      ensures persisted == Some(Delete(old(todos), id))
      ensures todos == Settled(Delete(old(todos), id), currentFilter)
    {
      todos := Delete(todos, id);
      SaveTodos();
      ghost var saved := todos;
      RenderTodos();
      SettledSortsTheSame(saved, currentFilter);
      UpdateTasksCount();
    }

    /** clearCompleted. */
    method ClearCompleted()
      requires Valid()
      modifies this
      ensures Valid() && currentFilter == old(currentFilter)
      ensures persisted == Some(TodoList.ClearCompleted(old(todos)))
      ensures todos == Settled(TodoList.ClearCompleted(old(todos)), currentFilter)
    {
      todos := TodoList.ClearCompleted(todos);
      SaveTodos();
      ghost var saved := todos;
      RenderTodos();
      SettledSortsTheSame(saved, currentFilter);
      UpdateTasksCount();
    }

    /** A click on a filter button: the filter changes and the list is redrawn;
        nothing is saved and the counter is not recomputed. */
    method SelectFilter(f: Filter)
      requires Valid()
      modifies this
      ensures Valid() && currentFilter == f
      ensures persisted == old(persisted)
      ensures todos == Settled(old(todos), f)
      ensures tasksLabel == old(tasksLabel)
    {
      currentFilter := f;
      RenderTodos();
      SettledShowsTheSame(old(todos), f);
      SettledSortsTheSame(old(todos), f);
    }

    /** The drop handler's two splices on `todos`: the todo at `from` is taken
        out, then put back in at `to`. */
    method Splice(from: nat, to: nat)
      requires from < |todos| && to < |todos|
      modifies this
      ensures todos == Move(old(todos), from, to)
      ensures currentFilter == old(currentFilter) && persisted == old(persisted)
      ensures shown == old(shown) && placeholder == old(placeholder)
      ensures tasksLabel == old(tasksLabel)
    {
      var movedTodo := todos[from];
      todos := RemoveAt(todos, from);
      todos := InsertAt(todos, to, movedTodo);
    }

    /** The drop handler, given the list positions of the dragged row and of
        the row it is dropped on. The positions are applied to the whole
        collection, not to the list drawn; a drop on the dragged row itself
        does nothing. The counter is not recomputed. */
    method Drop(from: nat, to: nat)
      requires Valid()
      requires from < |shown| && to < |shown|
      modifies this
      ensures Valid() && currentFilter == old(currentFilter)
      ensures tasksLabel == old(tasksLabel)
      ensures from == to ==> todos == old(todos) && persisted == old(persisted)
      ensures from != to ==> persisted == Some(Move(old(todos), from, to))
      ensures from != to ==> todos == Settled(Move(old(todos), from, to), currentFilter)
    {
      if from == to {
        return;
      }
      Splice(from, to);
      MoveKeepsCount(old(todos), from, to);
      SaveTodos();
      RenderTodos();
      SettledShowsTheSame(Move(old(todos), from, to), currentFilter);
      SettledSortsTheSame(Move(old(todos), from, to), currentFilter);
    }
  }

  /** Reloading the page restores the collection: whenever the stored value
      sorts to what the collection sorts to and the collection is newest first
      (as `Valid()` keeps them under All), the sort the first render applies to
      the loaded value yields the collection, order included, whatever the
      creation times. */
  lemma ReloadRestores(stored: Option<seq<Todo>>, s: seq<Todo>)
    requires Sort(Loaded(stored)) == Sort(s)
    requires NewestFirst(s)
    ensures Sort(Loaded(stored)) == s
  {
    SortOfSorted(s);
  }

  /** A reload of the page under All: loading what the page stored gives a
      page with the same collection in the same order. */
  method ReloadPage(app: TodoApp) returns (reloaded: TodoApp)
    requires app.Valid() && app.currentFilter == All
    ensures reloaded.Valid() && reloaded.currentFilter == All
    ensures reloaded.todos == app.todos && reloaded.persisted == app.persisted
  {
    ReloadRestores(app.persisted, app.todos);
    reloaded := new TodoApp.Load(app.persisted);
  }

  /** With a shared creation time a drop under All does survive the render:
      the stable sort keeps the order the splices made. */
  lemma SharedTimeDropSurvives(a: Todo, b: Todo)
    requires a.createdAt == b.createdAt
    ensures Move([a, b], 0, 1) == [b, a]
    ensures Settled([b, a], All) == [b, a]
  {
    assert RemoveAt([a, b], 0) == [b];
    assert InsertAt([b], 1, a) == [b, a];
    SortOfSorted([b, a]);
  }

  /** Under All, with distinct creation times, a drop leaves the page exactly
      as it was: the render that follows sorts the moved todo back. */
  lemma DropUndoneUnderAll(s: seq<Todo>, from: nat, to: nat)
    requires NewestFirst(s) && DistinctTimes(s)
    requires from < |s| && to < |s|
    ensures Settled(Move(s, from, to), All) == s
  {
    ReorderIsUndoneByRender(s, from, to, All);
    SortOfSorted(s);
  }

  /** The drop's indices come from the list drawn but index the whole
      collection: under Pending, with a completed todo stored first, dragging
      the newer pending todo onto the older one moves the hidden completed
      todo instead, and the list drawn afterwards is the same. */
  lemma DropUnderFilterMovesHiddenTodo(done: Todo, newer: Todo, older: Todo)
    requires done.completed && !newer.completed && !older.completed
    requires newer.createdAt >= older.createdAt
    ensures View([done, newer, older], Pending) == [newer, older]
    ensures Move([done, newer, older], 0, 1) == [newer, done, older]
    ensures View([newer, done, older], Pending) == [newer, older]
  {
    MoveFirstBehindSecond(done, newer, older);
    PendingOfThree(done, newer, older);
    PendingOfThree(newer, done, older);
    PendingPairDrawn([done, newer, older], newer, older);
    PendingPairDrawn([newer, done, older], newer, older);
  }

  /** The two splices of a drop from position 0 onto position 1. */
  lemma MoveFirstBehindSecond(a: Todo, b: Todo, c: Todo)
    ensures Move([a, b, c], 0, 1) == [b, a, c]
  {
    assert RemoveAt([a, b, c], 0) == [b, c];
    assert InsertAt([b, c], 1, a) == [b, a, c];
  }

  /** Two pending todos in newest-first order are drawn as they are. */
  lemma PendingPairDrawn(s: seq<Todo>, newer: Todo, older: Todo)
    requires Selected(s, Pending) == [newer, older]
    requires newer.createdAt >= older.createdAt
    ensures View(s, Pending) == [newer, older]
  {
    SortOfSorted([newer, older]);
  }

  /** Of three todos of which exactly one is completed, the Pending filter
      keeps the other two in their order. */
  lemma PendingOfThree(a: Todo, b: Todo, c: Todo)
    requires !c.completed && (a.completed != b.completed)
    ensures Selected([a, b, c], Pending) == if a.completed then [b, c] else [a, c]
  {
    assert [a, b, c][1..] == [b, c] && [b, c][1..] == [c] && [c][1..] == [];
    assert Where([c], IsPending) == [c];
    assert Where([b, c], IsPending) == (if b.completed then [] else [b]) + [c];
  }

  /** Under All, a todo added later than every other one is drawn at the top
      and the others keep their places below it. */
  lemma AddOnTop(s: seq<Todo>, input: string, id: int, now: int)
    requires NewestFirst(s) && Trim(input) != []
    requires forall t :: t in s ==> t.createdAt < now
    ensures Settled(Add(s, input, id, now), All) == [Todo(id, Trim(input), false, now)] + s
  {
    NewestOnTop(s, Todo(id, Trim(input), false, now));
  }

  /** The labels the walkthrough reads. */
  lemma WalkthroughLabels()
    ensures CountLabel(2) == "2 tasks left" && CountLabel(1) == "1 task left"
  {
    assert DecimalString(2) == "2";
  }

  /** Adding two todos, one after the other, under All: the newer one is drawn
      first and both count as pending. */
  lemma WalkthroughAdds(buyMilk: string, walkDog: string)
    requires buyMilk != [] && Trim(buyMilk) == buyMilk
    requires walkDog != [] && Trim(walkDog) == walkDog
    ensures var s1 := Settled(Add([], buyMilk, 1, 1), All);
            Settled(Add(s1, walkDog, 2, 2), All)
              == [Todo(2, walkDog, false, 2), Todo(1, buyMilk, false, 1)]
  {
    var milk := Todo(1, buyMilk, false, 1);
    AddOnTop([], buyMilk, 1, 1);
    assert Settled(Add([], buyMilk, 1, 1), All) == [milk];
    AddOnTop([milk], walkDog, 2, 2);
  }

  /** Toggling the older of two pending todos under All completes it in place
      and leaves one pending. */
  lemma WalkthroughToggle(dog: Todo, milk: Todo)
    requires !dog.completed && !milk.completed
    requires milk.id == 1 && dog.id == 2 && dog.createdAt > milk.createdAt
    ensures PendingCount([dog, milk]) == 2
    ensures Settled(Toggle([dog, milk], 1), All) == [dog, milk.(completed := true)]
    ensures PendingCount([dog, milk.(completed := true)]) == 1
  {
    var s3 := [dog, milk.(completed := true)];
    assert Toggle([dog, milk], 1) == s3;
    SortOfSorted(s3);
    PendingOfTwo(dog, milk);
    PendingOfTwo(dog, milk.(completed := true));
  }

  /** The counter for two todos. */
  lemma PendingOfTwo(a: Todo, b: Todo)
    ensures PendingCount([a, b]) == (if a.completed then 0 else 1) + (if b.completed then 0 else 1)
  {
    assert [a, b][1..] == [b] && [b][1..] == [];
    assert Where([b], IsPending) == if b.completed then [] else [b];
  }

  /** Selecting Completed then draws the completed todo alone; clearCompleted,
      still under Completed, keeps only the pending one, and selecting All
      draws it. */
  lemma WalkthroughClear(dog: Todo, done: Todo)
    requires !dog.completed && done.completed
    ensures View([dog, done], Completed) == [done]
    ensures Settled(TodoList.ClearCompleted([dog, done]), Completed) == [dog]
    ensures Settled([dog], All) == [dog] && View([dog], All) == [dog]
  {
    assert [dog, done][1..] == [done] && [done][1..] == [];
    assert Where([dog, done], IsDone) == [done];
    assert Where([dog, done], IsPending) == [dog];
    SortOfSorted([done]);
    SortOfSorted([dog]);
  }

  /** Starting with nothing stored and selecting Pending draws the
      placeholder row and no todo. */
  method EmptyPendingWalkthrough() returns (rows: seq<Todo>, placeholder: Option<string>)
    ensures rows == [] && placeholder == Some("No pending tasks found.")
  {
    var app := new TodoApp.Load(None);
    app.SelectFilter(Pending);
    rows, placeholder := app.shown, app.placeholder;
  }
}
