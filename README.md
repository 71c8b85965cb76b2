# Todo store of js/app.js, in Dafny

This project models the todo store of the single-page todo app in `js/app.js`,
and proves properties of that model. The store is the `todos` collection of
records `{id, text, completed, createdAt}` plus the current filter
(`all`, `pending` or `completed`). Its handlers are:

- `addTodo`: trims the entry and appends one pending todo.
- `toggleTodo(id)`, `deleteTodo(id)` and `clearCompleted`.
- the filter buttons.
- the drop handler of the drag reorder: two `splice` calls on `todos`.

Add (of a non-blank entry), toggle, delete and clear-completed each save the
store, redraw the list and update the counter. A blank entry returns before any
of the three. A filter click only redraws. A drop saves and redraws but does
not update the counter.

The project has six modules in five files:

- `text.dfy` (`Text`): the whitespace trim applied to the entry field, and the
  decimal rendering of the counter.
- `seqs.dfy` (`Wrappers`, `Seqs`): `Array.prototype.filter` and the two
  `splice` forms, on sequences, with their algebra.
- `todos.dfy` (`TodoList`): the todo record and the pure operations: add,
  toggle, delete, clear-completed, the counter label and the move the two
  splices perform.
- `render.dfy` (`Render`): what `renderTodos` computes. This is the filtered
  subset, sorted newest first by a stable sort, and the placeholder text.
- `app.dfy` (`App`): the page state as a class `TodoApp`. Its fields are
  `todos`, `currentFilter`, the stored value, the rows drawn, the placeholder
  row and the counter text. Each handler is a method on it.

The class invariant `Valid()` holds between events. It states:

- the stored value sorts to what `todos` sorts to, so the two hold the same
  todos;
- under All, `todos` itself is newest first;
- the rows, the placeholder and the counter show `todos`.

Every handler keeps `Valid()`. Each handler states how `todos` and the stored
value change, in terms of the pure operations.

Behaviour of the code that the model keeps, and proves:

- `id` is `Date.now()`, so ids need not be unique. Toggle and delete act on
  every todo that carries the id.
- Under All, `renderTodos` sorts `todos` itself in place, right after
  `saveTodos` stored it. The stored order can therefore differ from the order
  in memory. `Valid()` therefore relates them through the sort: both sort to
  the same sequence. `ReloadRestores` and `ReloadPage` show that under All a
  reload, whose first render sorts the loaded value, restores the exact order,
  whatever the creation times.
- The drop handler takes its two indices from the rows drawn. It applies them
  to the whole collection, and nothing checks them.
  - `DropUnderFilterMovesHiddenTodo` shows a drop under Pending that moves a
    hidden completed todo instead of the dragged one.
  - `ReorderIsUndoneByRender` and `DropUndoneUnderAll` show that, with
    distinct creation times, the redraw after a drop shows the list exactly as
    before. Under All, the collection itself also returns to its earlier order.
  - Two todos created in the same millisecond are the exception: the stable
    sort keeps the order the splices made, so a drop between them under All
    survives the render (`SharedTimeDropSurvives`).
- A filter click and a drop do not recompute the counter. The model proves
  that the counter stays correct anyway.

Behaviour one might expect of such an app that the code does not provide, and
the model therefore does not either:

- unique ids: two todos added in the same millisecond share one;
- a stored form identical to the in-memory form after every mutation: under
  All the two agree only up to order;
- a reorder that acts on the displayed sequence and checks its indices: the
  code does neither;
- falling back to an empty collection on corrupt stored data: `JSON.parse`
  throws instead;
- a save that cannot fail: when `localStorage.setItem` throws, the handler
  stops with `todos` changed but neither redrawn nor counted;
- ignoring a drop from outside the list: with no todos, such a drop on the
  placeholder row stores `[null]`, and from then on every render throws.

## Model

| member | source | states |
|---|---|---|
| Text.Trim | js/app.js:57 | trim yields the empty string exactly when the input is all whitespace; otherwise the result starts and ends with a non-whitespace character |
| Text.TrimRemovesOnlyEnds | js/app.js:57 | Trim(s) is the slice of s between a leading and a trailing run of whitespace: trim removes nothing else |
| Text.TrimOfPadded | js/app.js:57 | any string that neither starts nor ends with whitespace is what trim returns for it with any whitespace around it |
| Text.TrimIdempotent | js/app.js:57 | trimming twice is trimming once |
| Text.DecimalString | js/app.js:110 | the count is written as decimal digits that denote the number, with no leading zero: a digit string opening with 0 is "0" itself |
| TodoList.Add | js/app.js:56-68 | a blank input leaves the collection unchanged; otherwise exactly one pending todo with the trimmed text, the id and the time is appended, and every earlier todo is kept |
| TodoList.OperationsKeepTextsTrimmed | js/app.js:57-213 | add, toggle, delete, clear-completed and the reorder's move never introduce an empty or untrimmed text |
| TodoList.Toggle | js/app.js:77-83 | same length and order; ids, texts and times are kept; `completed` flips exactly on the todos whose id matches |
| TodoList.ToggleTwice | js/app.js:77-83 | toggling the same id twice restores the collection |
| TodoList.ToggleAbsent | js/app.js:77-83 | toggling an id that no todo carries changes nothing |
| TodoList.ToggleCount | js/app.js:77-83 | toggling moves the counter by one for each matching todo: down for pending ones, up for completed ones |
| TodoList.Delete | js/app.js:90-91 | no todo with the id remains; every todo with another id is kept, as many times as it occurs |
| TodoList.DeleteKeepsOrder | js/app.js:90-91 | the remaining todos keep their relative order |
| TodoList.DeleteTwice | js/app.js:90-91 | a second delete of the same id changes nothing |
| TodoList.DeleteAbsent | js/app.js:90-91 | deleting an absent id changes nothing |
| TodoList.ClearCompleted | js/app.js:97-98 | no completed todo remains; every pending todo is kept, as many times as it occurs |
| TodoList.ClearCompletedKeepsPending | js/app.js:97-98 | the result is the pending todos in their order, so the counter is unchanged; pending and completed todos split the collection |
| TodoList.ClearCompletedTwice | js/app.js:97-98 | clearing twice is clearing once |
| TodoList.ClearCompletedUnchanged | js/app.js:97-98 | clearing changes nothing exactly when no todo is completed |
| TodoList.PendingCount | js/app.js:109 | the count is at most the number of todos, and is zero exactly when every todo is completed |
| TodoList.CountLabel | js/app.js:110 | the label opens with the count; it is "1 task left" for one pending todo, "0 tasks left" for none and "{n} tasks left" otherwise |
| TodoList.CountLabelInjective | js/app.js:110 | different counts give different labels |
| TodoList.Move | js/app.js:212-213 | the two splices keep the length and the multiset of todos; the moved todo ends at `to`; the others keep their relative order |
| TodoList.MoveBack | js/app.js:212-213 | a move from `to` back to `from` restores the collection |
| TodoList.MoveKeepsCount | js/app.js:212-213 | a move never changes the counter |
| Seqs.Where | js/app.js:120 | filter keeps exactly the elements that pass, never more than it was given |
| Seqs.WhereIsSubsequence | js/app.js:120 | filter keeps the relative order of what it keeps |
| Seqs.WhereIdempotent | js/app.js:120 | filtering twice by one test is filtering once |
| Seqs.WherePermutation | js/app.js:120 | filtering two permutations of each other yields two permutations of each other |
| Seqs.RemoveAt | js/app.js:212 | `splice(i, 1)` removes only the element at i and shifts the rest down |
| Seqs.InsertAt | js/app.js:213 | `splice(i, 0, x)` puts x at i and shifts the rest up |
| Seqs.InsertRemoved | js/app.js:212-213 | putting an element back where it was taken out restores the sequence |
| Render.Selected | js/app.js:118-123 | Pending keeps exactly the pending todos, Completed exactly the completed ones, All all of them |
| Render.NewestFirstOrdered | js/app.js:126 | the newest-first order means that every todo is at least as new as every later one |
| Render.Sort | js/app.js:126 | the sort result is newest first and a permutation of its input |
| Render.SortStable | js/app.js:126 | the sort is stable: todos created at the same time keep their order |
| Render.SortOfSorted | js/app.js:126 | sorting a newest-first sequence changes nothing |
| Render.NewestOnTop | js/app.js:126 | a todo newer than all others sorts to the top, and the others keep their order below it |
| Render.View | js/app.js:117-126 | the list drawn is newest first and a permutation of the filtered subset; it holds exactly the todos the filter shows |
| Render.ViewsPartition | js/app.js:118-123 | the Pending and Completed lists together are as long as the collection; the All list is a permutation of the collection |
| Render.ViewAllIsStore | js/app.js:118-126 | under All, once the collection is newest first, the list drawn is the collection index for index |
| Render.EmptyMessage | js/app.js:131-133 | the three placeholder texts, letter for letter |
| Render.Placeholder | js/app.js:129-133 | the placeholder row is drawn exactly when no todo passes the filter, with the filter's text |
| Render.NewestFirstUnique | js/app.js:126 | with distinct creation times, two newest-first permutations of each other are equal |
| Render.ViewIgnoresOrder | js/app.js:117-126 | with distinct creation times, the list drawn depends only on which todos the collection holds |
| Render.ReorderIsUndoneByRender | js/app.js:212-216 | with distinct creation times, the list drawn after a move is the list drawn before it, under every filter |
| App.Loaded | js/app.js:11 | a stored collection reads back as itself; an absent entry reads as no todos |
| App.Settled | js/app.js:118-126 | the render sorts `todos` itself under All and leaves it as it was under the other filters; either way it keeps the same todos |
| App.SettledShowsTheSame | js/app.js:113-126 | that change to `todos` alters neither the list drawn nor the counter |
| App.SettledSortsTheSame | js/app.js:118-126 | nor what a later sort of `todos` yields |
| App.TodoApp.Load | js/app.js:11-19 | loading reads an absent entry as no todos, starts at All, and leaves the sorted collection and a correct page |
| App.TodoApp.SaveTodos | js/app.js:104-106 | the whole collection overwrites the stored value; nothing else changes |
| App.TodoApp.RenderTodos | js/app.js:113-138 | `todos` becomes its render-settled form; the rows and the placeholder become those of the current filter |
| App.TodoApp.UpdateTasksCount | js/app.js:108-111 | the counter text becomes the label of the pending count |
| App.TodoApp.Push | js/app.js:68 | `push` appends the new todo to `todos`; nothing else changes |
| App.TodoApp.AddTodo | js/app.js:56-71 | blank input changes nothing; otherwise the trimmed todo is appended, stored, then settled by the render; `Valid()` is kept |
| App.TodoApp.ToggleTodo | js/app.js:77-88 | the toggled collection is stored, then settled by the render; `Valid()` is kept |
| App.TodoApp.DeleteTodo | js/app.js:90-95 | the collection without the id is stored, then settled by the render; `Valid()` is kept |
| App.TodoApp.ClearCompleted | js/app.js:97-102 | the collection of pending todos is stored, then settled by the render; `Valid()` is kept |
| App.TodoApp.SelectFilter | js/app.js:43-52 | the filter changes and the page is redrawn; nothing is stored and the counter, though not recomputed, stays correct |
| App.TodoApp.Splice | js/app.js:212-213 | the two splices turn `todos` into the move of the todo at `from` to `to`; nothing else changes |
| App.TodoApp.Drop | js/app.js:201-217 | a drop on the dragged row does nothing; otherwise the moved collection is stored, then settled by the render; the counter, not recomputed, stays correct |
| App.ReloadRestores | js/app.js:11-17 | whenever the stored value sorts to what a newest-first collection sorts to, the sort of the loaded value on the first render is that collection, order included, for any creation times |
| App.ReloadPage | js/app.js:11-17 | reloading a page that is under All gives a page with the same collection in the same order, still consistent |
| App.DropUndoneUnderAll | js/app.js:212-216 | under All, with distinct creation times, the render after a drop returns the collection to its earlier order |
| App.SharedTimeDropSurvives | js/app.js:212-216 | two todos with one creation time, swapped by a drop under All, stay swapped after the render |
| App.DropUnderFilterMovesHiddenTodo | js/app.js:207-216 | under Pending, the row positions index the whole collection: dragging the first pending row onto the second moves a hidden completed todo, and the list drawn stays the same |
| App.AddOnTop | js/app.js:68-70 | under All, a todo newer than all others is drawn first and the rest keep their places |
| App.WalkthroughAdds | js/app.js:56-71 | adding "Buy milk" and then "Walk dog" under All leaves the second above the first |
| App.WalkthroughLabels | js/app.js:110 | the counter reads "2 tasks left" for two pending todos and "1 task left" for one |
| App.WalkthroughToggle | js/app.js:77-88 | toggling the older of two pending todos completes it in place and leaves one pending |
| App.WalkthroughClear | js/app.js:97-126 | the Completed list shows the completed todo alone; clearing leaves the pending one, which the All list shows |
| App.EmptyPendingWalkthrough | js/app.js:129-133 | with nothing stored, selecting Pending draws no row and the text "No pending tasks found." |

## Left out

- DOM work is not modelled: element lookup, `innerHTML`, row construction, classes and styles, and attaching listeners to each row (js/app.js:1-8, 140-166). The rows drawn are modelled as the sequence of todos they show.
- The theme toggle and `loadTheme` (js/app.js:21-31) are cosmetic and left out.
- Drag bookkeeping is left out: `draggedItem`, opacity and background changes, and the `setTimeout`. The `renderTodos` wrapper that re-attaches the drag handlers is left out too (js/app.js:170-200, 222-227). `Drop` receives the two row positions as parameters.
- App.TodoApp.Drop: requires both positions to be rows of the list of todos. A drop whose dragged element is not such a row (an item dragged in from outside the page) gives `indexOf` -1, and that case is not modelled. The placeholder row receives drops too, because the `renderTodos` wrapper (js/app.js:224-226) attaches the listeners after the early return at js/app.js:137. With at least one todo, `splice(-1, 1)` moves the last todo to the target's position. With none, it removes nothing, so `undefined` is inserted and `[null]` is stored; the render that follows then throws on `todo.completed` (js/app.js:142), and so does every later load and render.
- `localStorage` and JSON are foreign calls. The stored value is a field holding an optional sequence of todos, and saving assigns it, so a save never fails in the model. In the code a `setItem` that throws (the storage quota exceeded) aborts the handler after `todos` has already changed, and the render and the counter update are skipped. A stored value that `JSON.parse` rejects makes the script throw at js/app.js:11; that path is not modelled. A stored value of `null` reads as no todos, like an absent one.
- `Date.now()` and `new Date()` are parameters of `AddTodo`: `id` and `now`. After a reload `createdAt` is a string that `new Date` parses back; the model keeps it as an integer number of milliseconds. So the comparator never sees an invalid date or `NaN`.
- Text.IsWhitespace: the trim uses a fixed character set. It holds the ECMAScript WhiteSpace and LineTerminator characters with the space separators of Unicode 15, not whatever table a given engine ships.
- Clearing and focusing the entry field after adding (js/app.js:73-74) is UI, and left out.
- The filter buttons' `active` class (js/app.js:46-48) is cosmetic. The filter is a three-valued datatype, so a `data-filter` value outside the three is not modelled.
- `Array.prototype.sort` is modelled as a stable insertion sort on sequences, as ES2019 and later require. The model does not copy the engine's sorting algorithm.
