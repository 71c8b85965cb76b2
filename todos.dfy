/** The todo collection and the operations the store applies to it: add,
    toggle, delete, clear-completed, the remaining-task counter and the
    drag reorder's move. Ids and creation times are whatever the caller
    passes in; nothing here assumes ids are unique. */
module TodoList {
  import opened Text
  import opened Seqs

  /** One task. `createdAt` is the creation time in milliseconds. */
  datatype Todo = Todo(id: int, text: string, completed: bool, createdAt: int)

  predicate IsPending(t: Todo) { !t.completed }

  predicate IsDone(t: Todo) { t.completed }

  /** The filter test `todo.id !== id`. */
  function IdIsNot(id: int): Todo -> bool
  {
    (t: Todo) => t.id != id
  }

  /** addTodo on the collection: the trimmed input is rejected when empty;
      otherwise one pending todo carrying it is appended. */
  function Add(s: seq<Todo>, input: string, id: int, now: int): (r: seq<Todo>)
    ensures Trim(input) == [] ==> r == s
    ensures Trim(input) != [] ==> |r| == |s| + 1 && r[..|s|] == s
    ensures Trim(input) != [] ==> r[|s|] == Todo(id, Trim(input), false, now)
  {
    var text := Trim(input);
    if text == [] then s else s + [Todo(id, text, false, now)]
  }

  /** toggleTodo: flips `completed` on every todo whose id is `id`. */
  function Toggle(s: seq<Todo>, id: int): (r: seq<Todo>)
    ensures |r| == |s|
    ensures forall i :: 0 <= i < |s| ==>
      && r[i].id == s[i].id && r[i].text == s[i].text && r[i].createdAt == s[i].createdAt
      && (r[i].completed <==> (s[i].completed != (s[i].id == id)))
  {
    seq(|s|, i requires 0 <= i < |s| =>
      if s[i].id == id then s[i].(completed := !s[i].completed) else s[i])
  }

  /** deleteTodo: drops every todo whose id is `id`. */
  function Delete(s: seq<Todo>, id: int): (r: seq<Todo>)
    ensures forall t :: t in r ==> t.id != id
    ensures forall t :: t in r <==> t in s && t.id != id
    ensures forall t :: multiset(r)[t] == if t.id != id then multiset(s)[t] else 0
  {
    WhereCounts(s, IdIsNot(id));
    Where(s, IdIsNot(id))
  }

  /** clearCompleted: drops every completed todo. */
  function ClearCompleted(s: seq<Todo>): (r: seq<Todo>)
    ensures forall t :: t in r ==> !t.completed
    ensures forall t :: t in r <==> t in s && !t.completed
    ensures forall t :: multiset(r)[t] == if !t.completed then multiset(s)[t] else 0
  {
    WhereCounts(s, IsPending);
    Where(s, IsPending)
  }

  /** The number the counter shows: how many todos are not completed. */
  function PendingCount(s: seq<Todo>): (n: nat)
    ensures n <= |s|
    ensures n == 0 <==> forall t :: t in s ==> t.completed
  {
    var w := Where(s, IsPending);
    assert w != [] ==> w[0] in w;
    |w|
  }

  /** The counter label `${n} task${n !== 1 ? 's' : ''} left`: it opens with
      the count, is singular for one task, and reads "0 tasks left" once
      nothing is pending. */
  function CountLabel(n: nat): (r: string)
    ensures |DecimalString(n)| < |r| && r[..|DecimalString(n)|] == DecimalString(n)
    ensures n == 0 ==> r == "0 tasks left"
    ensures n == 1 ==> r == "1 task left"
    ensures n != 1 ==> r == DecimalString(n) + " tasks left"
  {
    assert DecimalString(0) == "0" && DecimalString(1) == "1";
    DecimalString(n) + " task" + (if n != 1 then "s" else "") + " left"
  }

  /** The drop handler's two splices: take out the todo at `from`, then put
      it in at `to` of what remains. */
  function Move(s: seq<Todo>, from: nat, to: nat): (r: seq<Todo>)
    requires from < |s| && to < |s|
    ensures |r| == |s| && r[to] == s[from]
    ensures multiset(r) == multiset(s)
    ensures RemoveAt(r, to) == RemoveAt(s, from)
  {
    var moved := s[from];
    var rest := RemoveAt(s, from);
    RemoveAtMultiset(s, from);
    InsertAtMultiset(rest, to, moved);
    RemoveInserted(rest, to, moved);
    InsertAt(rest, to, moved)
  }

  /** Every text is a trimmed, non-empty string: what addTodo creates. */
  ghost predicate TextsTrimmed(s: seq<Todo>)
  {
    forall t :: t in s ==> t.text != [] && Trim(t.text) == t.text
  }

  /** Adding a todo never introduces an empty or untrimmed text, and the other
      operations, the reorder's move included, keep every text as it was. */
  lemma OperationsKeepTextsTrimmed(s: seq<Todo>, input: string, id: int, now: int, from: nat, to: nat)
    requires TextsTrimmed(s)
    ensures TextsTrimmed(Add(s, input, id, now))
    ensures TextsTrimmed(Toggle(s, id))
    ensures TextsTrimmed(Delete(s, id))
    ensures TextsTrimmed(ClearCompleted(s))
    ensures from < |s| && to < |s| ==> TextsTrimmed(Move(s, from, to))
  {
    if from < |s| && to < |s| {
      var m := Move(s, from, to);
      forall t | t in m ensures t in s {
        assert t in multiset(m);
      }
    }
    TrimIdempotent(input);
    var r := Toggle(s, id);
    forall t | t in r ensures t.text != [] && Trim(t.text) == t.text {
      var i :| 0 <= i < |r| && r[i] == t;
      assert s[i] in s;
    }
  }

  /** Toggling the same id twice restores the collection. */
  lemma ToggleTwice(s: seq<Todo>, id: int)
    ensures Toggle(Toggle(s, id), id) == s
  {
    var r := Toggle(Toggle(s, id), id);
    assert forall i :: 0 <= i < |s| ==> r[i] == s[i];
  }

  /** Toggling an id that no todo carries changes nothing. */
  lemma ToggleAbsent(s: seq<Todo>, id: int)
    requires forall t :: t in s ==> t.id != id
    ensures Toggle(s, id) == s
  {
    var r := Toggle(s, id);
    forall i | 0 <= i < |s| ensures r[i] == s[i] {
      assert s[i] in s;
    }
  }

  /** Toggling changes the counter by one for each todo with that id: the
      pending ones become completed and the completed ones pending. */
  lemma {:induction false} ToggleCount(s: seq<Todo>, id: int)
    ensures PendingCount(Toggle(s, id)) + |Where(s, (t: Todo) => t.id == id && !t.completed)|
         == PendingCount(s) + |Where(s, (t: Todo) => t.id == id && t.completed)|
  {
    if s != [] {
      ToggleCount(s[1..], id);
      assert Toggle(s, id) == [Toggle(s, id)[0]] + Toggle(s[1..], id);
    }
  }

  /** Delete keeps the remaining todos in their relative order. */
  lemma DeleteKeepsOrder(s: seq<Todo>, id: int)
    ensures IsSubsequence(Delete(s, id), s)
  {
    WhereIsSubsequence(s, IdIsNot(id));
  }

  /** A second delete of the same id changes nothing. */
  lemma DeleteTwice(s: seq<Todo>, id: int)
    ensures Delete(Delete(s, id), id) == Delete(s, id)
  {
    WhereIdempotent(s, IdIsNot(id));
  }

  /** Deleting an id that no todo carries changes nothing. */
  lemma DeleteAbsent(s: seq<Todo>, id: int)
    requires forall t :: t in s ==> t.id != id
    ensures Delete(s, id) == s
  {
    assert forall i :: 0 <= i < |s| ==> s[i] in s;
    WhereAll(s, IdIsNot(id));
  }

  /** clearCompleted leaves exactly the pending todos in their order, so the
      counter is unchanged and now counts every todo. */
  lemma ClearCompletedKeepsPending(s: seq<Todo>)
    ensures IsSubsequence(ClearCompleted(s), s)
    ensures PendingCount(ClearCompleted(s)) == PendingCount(s) == |ClearCompleted(s)|
    ensures |ClearCompleted(s)| + |Where(s, IsDone)| == |s|
  {
    WhereIsSubsequence(s, IsPending);
    WhereIdempotent(s, IsPending);
    WhereComplement(s, IsPending, IsDone);
  }

  /** clearCompleted twice is clearCompleted once. */
  lemma ClearCompletedTwice(s: seq<Todo>)
    ensures ClearCompleted(ClearCompleted(s)) == ClearCompleted(s)
  {
    WhereIdempotent(s, IsPending);
  }

  /** clearCompleted changes nothing exactly when nothing is completed. */
  lemma ClearCompletedUnchanged(s: seq<Todo>)
    ensures ClearCompleted(s) == s <==> forall t :: t in s ==> !t.completed
  {
    if forall t :: t in s ==> !t.completed {
      assert forall i :: 0 <= i < |s| ==> s[i] in s;
      WhereAll(s, IsPending);
    }
  }

  /** The label tells the count back: distinct counts get distinct labels. */
  lemma CountLabelInjective(m: nat, n: nat)
    requires CountLabel(m) == CountLabel(n)
    ensures m == n
  {
    var dm, dn := DecimalString(m), DecimalString(n);
    assert |dm| == |dn|;
    assert dm == CountLabel(m)[..|dm|];
    assert dn == CountLabel(n)[..|dn|];
  }

  /** Moving an item back where it came from restores the collection. */
  lemma MoveBack(s: seq<Todo>, from: nat, to: nat)
    requires from < |s| && to < |s|
    ensures Move(Move(s, from, to), to, from) == s
  {
    var r := Move(s, from, to);
    InsertRemoved(s, from);
  }

  /** Reordering never changes the counter. */
  lemma MoveKeepsCount(s: seq<Todo>, from: nat, to: nat)
    requires from < |s| && to < |s|
    ensures PendingCount(Move(s, from, to)) == PendingCount(s)
  {
    WherePermutationCount(Move(s, from, to), s, IsPending);
  }
}
