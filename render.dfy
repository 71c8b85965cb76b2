/** What renderTodos derives from the collection: the filtered subset, sorted
    newest first, and the placeholder text shown when that subset is empty. */
module Render {
  import opened Wrappers
  import opened Seqs
  import opened TodoList

  /** The value of `currentFilter`, set from a filter button's data-filter. */
  datatype Filter = All | Pending | Completed

  function FilterName(f: Filter): string
  {
    match f
    case All => "all"
    case Pending => "pending"
    case Completed => "completed"
  }

  /** Whether a todo belongs to the subset the filter selects. */
  predicate Shows(f: Filter, t: Todo)
  {
    match f
    case All => true
    case Pending => !t.completed
    case Completed => t.completed
  }

  /** The subset before sorting. Under All it is the collection itself (the
      same array in the source); otherwise a filtered copy. */
  function Selected(s: seq<Todo>, f: Filter): (r: seq<Todo>)
    ensures |r| <= |s|
    ensures forall t :: t in r <==> t in s && Shows(f, t)
  {
    match f
    case All => s
    case Pending => Where(s, IsPending)
    case Completed => Where(s, IsDone)
  }

  /** Sorted by the comparator `b.createdAt - a.createdAt`: newest first,
      each todo created no earlier than the one after it. */
  ghost predicate NewestFirst(s: seq<Todo>)
  {
    |s| <= 1 || (s[0].createdAt >= s[1].createdAt && NewestFirst(s[1..]))
  }

  /** The first todo of a newest-first sequence is a newest one. */
  lemma {:induction false} NewestFirstHead(s: seq<Todo>)
    requires NewestFirst(s) && s != []
    ensures forall t :: t in s ==> s[0].createdAt >= t.createdAt
  {
    if |s| > 1 {
      NewestFirstHead(s[1..]);
      assert forall t :: t in s ==> t == s[0] || t in s[1..];
    }
  }

  /** Newest first means every todo is at least as new as every later one. */
  lemma {:induction false} NewestFirstOrdered(s: seq<Todo>)
    ensures NewestFirst(s) <==> forall i, j :: 0 <= i < j < |s| ==> s[i].createdAt >= s[j].createdAt
  {
    if |s| > 1 {
      NewestFirstOrdered(s[1..]);
      if NewestFirst(s) {
        NewestFirstHead(s);
        forall i, j | 0 <= i < j < |s| ensures s[i].createdAt >= s[j].createdAt {
          assert s[j] in s;
          if i > 0 {
            assert s[i] == s[1..][i - 1] && s[j] == s[1..][j - 1];
          }
        }
      } else {
        assert s[0].createdAt < s[1].createdAt || !NewestFirst(s[1..]);
        if s[0].createdAt >= s[1].createdAt {
          var i, j :| 0 <= i < j < |s[1..]| && s[1..][i].createdAt < s[1..][j].createdAt;
          assert s[i + 1].createdAt < s[j + 1].createdAt;
        }
      }
    }
  }

  /** The todos of `s` created at time `k`, in order. */
  function CreatedAtIs(k: int): Todo -> bool
  {
    (t: Todo) => t.createdAt == k
  }

  /** Places `x` into a newest-first sequence, before every todo that is not
      strictly newer than it. */
  function Insert(x: Todo, s: seq<Todo>): (r: seq<Todo>)
    requires NewestFirst(s)
    ensures NewestFirst(r)
    ensures |r| == |s| + 1
    ensures multiset(r) == multiset(s) + multiset{x}
    ensures r[0] == x || (s != [] && r[0] == s[0])
  {
    if s == [] || x.createdAt >= s[0].createdAt then [x] + s
    else
      assert s == [s[0]] + s[1..];
      [s[0]] + Insert(x, s[1..])
  }

  /** Array.prototype.sort with the comparator above. The sort is stable
      (ECMA-262 requires it since the 2019 edition), so it is an insertion
      sort that keeps todos created at the same time in their order. */
  function Sort(s: seq<Todo>): (r: seq<Todo>)
    ensures NewestFirst(r)
    ensures |r| == |s|
    ensures multiset(r) == multiset(s)
  {
    if s == [] then []
    else
      assert s == [s[0]] + s[1..];
      Insert(s[0], Sort(s[1..]))
  }

  /** Inserting `x` adds it to the run of todos created at its own time, ahead
      of that run, and leaves every other run as it was. */
  lemma {:induction false} InsertStable(x: Todo, s: seq<Todo>, k: int)
    requires NewestFirst(s)
    ensures Where(Insert(x, s), CreatedAtIs(k))
         == (if x.createdAt == k then [x] else []) + Where(s, CreatedAtIs(k))
  {
    if s == [] || x.createdAt >= s[0].createdAt {
      WhereCons(x, s, CreatedAtIs(k));
    } else {
      InsertStable(x, s[1..], k);
      InsertBehind(x, s, k);
    }
  }

  /** The step of InsertStable where `x` goes behind the first todo, which is
      strictly newer and so not in the same run as `x`. */
  lemma InsertBehind(x: Todo, s: seq<Todo>, k: int)
    requires NewestFirst(s) && s != [] && x.createdAt < s[0].createdAt
    requires Where(Insert(x, s[1..]), CreatedAtIs(k))
          == (if x.createdAt == k then [x] else []) + Where(s[1..], CreatedAtIs(k))
    ensures Where(Insert(x, s), CreatedAtIs(k))
         == (if x.createdAt == k then [x] else []) + Where(s, CreatedAtIs(k))
  {
    var p := CreatedAtIs(k);
    var s0, tail := s[0], s[1..];
    var w0 := if p(s0) then [s0] else [];
    var wx := if p(x) then [x] else [];
    assert Insert(x, s) == [s0] + Insert(x, tail);
    WhereCons(s0, Insert(x, tail), p);
    assert Where(s, p) == w0 + Where(tail, p);
    SwapPastEmpty(w0, wx, Where(tail, p));
  }

  /** The sort is stable: among todos created at the same time, the sorted
      sequence keeps the order of the input. */
  lemma {:induction false} SortStable(s: seq<Todo>, k: int)
    ensures Where(Sort(s), CreatedAtIs(k)) == Where(s, CreatedAtIs(k))
  {
    if s != [] {
      SortStable(s[1..], k);
      InsertStable(s[0], Sort(s[1..]), k);
    }
  }

  /** Sorting a sequence that is already newest first changes nothing. */
  lemma {:induction false} SortOfSorted(s: seq<Todo>)
    requires NewestFirst(s)
    ensures Sort(s) == s
  {
    if s != [] {
      SortOfSorted(s[1..]);
      InsertHead(s);
    }
  }

  /** Inserting the first todo of a newest-first sequence into the rest
      gives the sequence back. */
  lemma InsertHead(s: seq<Todo>)
    requires NewestFirst(s) && s != []
    ensures Insert(s[0], s[1..]) == s
  {
  }

  /** Inserting `y` behind a strictly newer first todo `x`. */
  lemma InsertPast(y: Todo, x: Todo, t: seq<Todo>)
    requires NewestFirst([x] + t) && y.createdAt < x.createdAt
    ensures NewestFirst(t)
    ensures Insert(y, [x] + t) == [x] + Insert(y, t)
  {
    assert ([x] + t)[1..] == t;
  }

  /** A todo newer than every other one sorts to the top. */
  lemma {:induction false} NewestOnTop(s: seq<Todo>, x: Todo)
    requires NewestFirst(s)
    requires forall t :: t in s ==> t.createdAt < x.createdAt
    ensures Sort(s + [x]) == [x] + s
  {
    if s == [] {
      assert s + [x] == [x];
    } else {
      var s0, tail := s[0], s[1..];
      SnocTail(s, x);
      assert s0 in s;
      assert forall t :: t in tail ==> t in s;
      NewestOnTop(tail, x);
      InsertPast(s0, x, tail);
      InsertHead(s);
    }
  }

  /** The list renderTodos draws, top to bottom. */
  function View(s: seq<Todo>, f: Filter): (r: seq<Todo>)
    ensures |r| <= |s|
    ensures NewestFirst(r)
    ensures multiset(r) == multiset(Selected(s, f))
    ensures forall t :: t in r <==> t in s && Shows(f, t)
  {
    var r := Sort(Selected(s, f));
    assert forall t :: t in r <==> t in multiset(Selected(s, f));
    r
  }

  /** The pending and the completed views split the collection. */
  lemma ViewsPartition(s: seq<Todo>)
    ensures |View(s, Pending)| + |View(s, Completed)| == |s| == |View(s, All)|
    ensures multiset(View(s, All)) == multiset(s)
  {
    WhereComplement(s, IsPending, IsDone);
  }

  /** Under All, once the collection itself is newest first (which
      renderTodos makes it), the list drawn is the collection, index for
      index: the drop handler's indices then point at the intended todos. */
  lemma ViewAllIsStore(s: seq<Todo>)
    requires NewestFirst(s)
    ensures View(s, All) == s
  {
    SortOfSorted(s);
  }

  /** The placeholder row's text. */
  function EmptyMessage(f: Filter): (r: string)
    ensures f == All ==> r == "Your todo list is empty!"
    ensures f == Pending ==> r == "No pending tasks found."
    ensures f == Completed ==> r == "No completed tasks found."
  {
    match f
    case All => "Your todo list is empty!"
    case _ => "No " + FilterName(f) + " tasks found."
  }

  /** The placeholder row, drawn exactly when no todo passes the filter. */
  function Placeholder(s: seq<Todo>, f: Filter): (r: Option<string>)
    ensures r.Some? <==> forall t :: t in s ==> !Shows(f, t)
    ensures r.Some? ==> r.value == EmptyMessage(f)
  {
    var v := View(s, f);
    assert v != [] ==> v[0] in v;
    if v == [] then Some(EmptyMessage(f)) else None
  }

  /** No todo is created at the same time as a different one. */
  ghost predicate DistinctTimes(s: seq<Todo>)
  {
    forall t, u :: t in s && u in s && t.createdAt == u.createdAt ==> t == u
  }

  /** With distinct creation times a newest-first order is unique: two
      newest-first sequences with the same elements are equal. */
  lemma {:induction false} NewestFirstUnique(a: seq<Todo>, b: seq<Todo>)
    requires NewestFirst(a) && NewestFirst(b)
    requires multiset(a) == multiset(b)
    requires DistinctTimes(a)
    ensures a == b
  {
    assert |a| == |multiset(a)| == |multiset(b)| == |b|;
    if a != [] {
      SameHead(a, b);
      Tails(a, b);
      NewestFirstUnique(a[1..], b[1..]);
      assert a == [a[0]] + a[1..] && b == [b[0]] + b[1..];
    }
  }

  /** The tails of two equal-headed sequences NewestFirstUnique recurses on
      satisfy its requirements again. */
  lemma Tails(a: seq<Todo>, b: seq<Todo>)
    requires NewestFirst(a) && NewestFirst(b)
    requires multiset(a) == multiset(b)
    requires DistinctTimes(a)
    requires a != [] && b != [] && a[0] == b[0]
    ensures NewestFirst(a[1..]) && NewestFirst(b[1..])
    ensures multiset(a[1..]) == multiset(b[1..])
    ensures DistinctTimes(a[1..])
  {
    TailsPermutation(a, b);
    assert forall t :: t in a[1..] ==> t in a;
  }

  /** The first step of NewestFirstUnique: both sequences start with the
      newest todo, which distinct times make a single one. */
  lemma SameHead(a: seq<Todo>, b: seq<Todo>)
    requires NewestFirst(a) && NewestFirst(b)
    requires multiset(a) == multiset(b)
    requires DistinctTimes(a)
    requires a != [] && b != []
    ensures a[0] == b[0]
  {
    assert a[0] in multiset(b) && b[0] in multiset(a);
    NewestFirstHead(a);
    NewestFirstHead(b);
    assert a[0] in a;
  }

  /** The filtered subset of a permutation is a permutation of the filtered
      subset. */
  lemma SelectedPermutation(a: seq<Todo>, b: seq<Todo>, f: Filter)
    requires multiset(a) == multiset(b)
    ensures multiset(Selected(a, f)) == multiset(Selected(b, f))
  {
    match f
    case All =>
    case Pending => WherePermutation(a, b, IsPending);
    case Completed => WherePermutation(a, b, IsDone);
  }

  /** The list drawn depends only on which todos the collection holds, not
      on their order, as long as no two todos share a creation time. */
  lemma ViewIgnoresOrder(a: seq<Todo>, b: seq<Todo>, f: Filter)
    requires multiset(a) == multiset(b)
    requires DistinctTimes(a)
    ensures View(a, f) == View(b, f)
  {
    SelectedPermutation(a, b, f);
    assert forall t :: t in View(a, f) ==> t in a;
    NewestFirstUnique(View(a, f), View(b, f));
  }

  /** So a drag reorder never changes the list drawn after it, under any
      filter, when creation times are distinct: the next render sorts the
      moved todo back to its place. */
  lemma ReorderIsUndoneByRender(s: seq<Todo>, from: nat, to: nat, f: Filter)
    requires from < |s| && to < |s|
    requires DistinctTimes(s)
    ensures View(Move(s, from, to), f) == View(s, f)
  {
    ViewIgnoresOrder(s, Move(s, from, to), f);
  }
}
