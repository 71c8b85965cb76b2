/** Option, for the values the source represents by null. */
module Wrappers {
  datatype Option<+T> = None | Some(value: T)
}

/** The Array.prototype operations the todo store is built from, on
    sequences: `filter`, and the two forms of `splice` the drag reorder uses
    (take one element out, put one element in). */
module Seqs {

  /** Array.prototype.filter: the elements of `s` that satisfy `p`, in order. */
  function Where<T(!new)>(s: seq<T>, p: T -> bool): (r: seq<T>)
    ensures |r| <= |s|
    ensures forall i :: 0 <= i < |r| ==> p(r[i])
    ensures forall x :: x in r <==> x in s && p(x)
  {
    if s == [] then []
    else (if p(s[0]) then [s[0]] else []) + Where(s[1..], p)
  }

  /** `r` can be obtained from `s` by deleting elements: what `r` keeps of
      `s` stays in the same relative order. */
  ghost predicate IsSubsequence<T(!new)>(r: seq<T>, s: seq<T>)
    decreases |s|
  {
    || r == []
    || (s != [] && ((r[0] == s[0] && IsSubsequence(r[1..], s[1..])) || IsSubsequence(r, s[1..])))
  }

  /** `splice(i, 1)`: `s` without its element at index `i`. */
  function RemoveAt<T>(s: seq<T>, i: nat): (r: seq<T>)
    requires i < |s|
    ensures |r| == |s| - 1
    ensures forall k :: 0 <= k < i ==> r[k] == s[k]
    ensures forall k :: i <= k < |r| ==> r[k] == s[k + 1]
  {
    s[..i] + s[i + 1..]
  }

  /** `splice(i, 0, x)`: `s` with `x` placed at index `i`. */
  function InsertAt<T>(s: seq<T>, i: nat, x: T): (r: seq<T>)
    requires i <= |s|
    ensures |r| == |s| + 1 && r[i] == x
    ensures forall k :: 0 <= k < i ==> r[k] == s[k]
    ensures forall k :: i < k < |r| ==> r[k] == s[k - 1]
  {
    s[..i] + [x] + s[i..]
  }

  /** Taking out an element and putting it back where it was restores `s`. */
  lemma InsertRemoved<T>(s: seq<T>, i: nat)
    requires i < |s|
    ensures InsertAt(RemoveAt(s, i), i, s[i]) == s
  {
    assert RemoveAt(s, i)[..i] == s[..i];
    assert RemoveAt(s, i)[i..] == s[i + 1..];
  }

  /** Putting an element in and taking it out again restores `s`. */
  lemma RemoveInserted<T>(s: seq<T>, i: nat, x: T)
    requires i <= |s|
    ensures RemoveAt(InsertAt(s, i, x), i) == s
  {
  }

  /** Taking out one element removes one occurrence of it from the multiset. */
  lemma RemoveAtMultiset<T>(s: seq<T>, i: nat)
    requires i < |s|
    ensures multiset(RemoveAt(s, i)) + multiset{s[i]} == multiset(s)
  {
    assert s == s[..i] + [s[i]] + s[i + 1..];
  }

  /** Putting in one element adds one occurrence of it to the multiset. */
  lemma InsertAtMultiset<T>(s: seq<T>, i: nat, x: T)
    requires i <= |s|
    ensures multiset(InsertAt(s, i, x)) == multiset(s) + multiset{x}
  {
    assert s == s[..i] + s[i..];
  }

  /** Filtering a sequence with a first element decides that element alone. */
  lemma WhereCons<T(!new)>(x: T, s: seq<T>, p: T -> bool)
    ensures Where([x] + s, p) == (if p(x) then [x] else []) + Where(s, p)
  {
    assert ([x] + s)[1..] == s;
  }

  /** A sequence is its first element followed by the rest. */
  lemma HeadTail<T>(s: seq<T>)
    requires s != []
    ensures [s[0]] + s[1..] == s
  {
  }

  /** The multiset of a sequence splits into its first element and the rest. */
  lemma MultisetHeadTail<T>(s: seq<T>)
    requires s != []
    ensures multiset(s) == multiset{s[0]} + multiset(s[1..])
  {
    HeadTail(s);
  }

  /** Two permutations of each other with the same first element have
      tails that are permutations of each other. */
  lemma TailsPermutation<T>(a: seq<T>, b: seq<T>)
    requires a != [] && b != [] && a[0] == b[0]
    requires multiset(a) == multiset(b)
    ensures multiset(a[1..]) == multiset(b[1..])
  {
    MultisetHeadTail(a);
    MultisetHeadTail(b);
    forall y ensures multiset(a[1..])[y] == multiset(b[1..])[y] {
      assert multiset(a)[y] == multiset(b)[y];
    }
  }

  /** The rest of a sequence with an element appended. */
  lemma SnocTail<T>(s: seq<T>, x: T)
    requires s != []
    ensures (s + [x])[0] == s[0] && (s + [x])[1..] == s[1..] + [x]
  {
  }

  /** Of two prefixes one of which is empty, either can go first. */
  lemma SwapPastEmpty<T>(a: seq<T>, b: seq<T>, w: seq<T>)
    requires a == [] || b == []
    ensures a + (b + w) == b + (a + w)
  {
    if a == [] {
      assert a + (b + w) == b + w == b + (a + w);
    } else {
      assert a + (b + w) == a + w == b + (a + w);
    }
  }

  /** Filtering a sequence all of whose elements pass leaves it unchanged. */
  lemma {:induction false} WhereAll<T(!new)>(s: seq<T>, p: T -> bool)
    requires forall i :: 0 <= i < |s| ==> p(s[i])
    ensures Where(s, p) == s
  {
    if s != [] {
      WhereAll(s[1..], p);
    }
  }

  /** Filtering twice by the same test is filtering once. */
  lemma WhereIdempotent<T(!new)>(s: seq<T>, p: T -> bool)
    ensures Where(Where(s, p), p) == Where(s, p)
  {
    WhereAll(Where(s, p), p);
  }

  /** Filter keeps the relative order of what it keeps. */
  lemma {:induction false} WhereIsSubsequence<T(!new)>(s: seq<T>, p: T -> bool)
    ensures IsSubsequence(Where(s, p), s)
  {
    if s != [] {
      WhereIsSubsequence(s[1..], p);
      var w := Where(s[1..], p);
      if p(s[0]) {
        assert Where(s, p) == [s[0]] + w;
        assert Where(s, p)[1..] == w;
      } else {
        assert Where(s, p) == w;
      }
    }
  }

  /** Two complementary filters split `s`: every element goes to exactly
      one side. */
  lemma {:induction false} WhereComplement<T(!new)>(s: seq<T>, p: T -> bool, q: T -> bool)
    requires forall x :: q(x) == !p(x)
    ensures |Where(s, p)| + |Where(s, q)| == |s|
  {
    if s != [] {
      WhereComplement(s[1..], p, q);
    }
  }

  /** Filter keeps every occurrence of an element that passes and none of
      one that fails. */
  lemma {:induction false} WhereMultiplicity<T(!new)>(s: seq<T>, p: T -> bool, x: T)
    ensures multiset(Where(s, p))[x] == if p(x) then multiset(s)[x] else 0
  {
    if s != [] {
      WhereMultiplicity(s[1..], p, x);
      MultisetHeadTail(s);
      var w0 := if p(s[0]) then [s[0]] else [];
      assert multiset(Where(s, p)) == multiset(w0) + multiset(Where(s[1..], p));
    }
  }

  /** WhereMultiplicity for every element at once. */
  lemma WhereCounts<T(!new)>(s: seq<T>, p: T -> bool)
    ensures forall x :: multiset(Where(s, p))[x] == if p(x) then multiset(s)[x] else 0
  {
    forall x ensures multiset(Where(s, p))[x] == if p(x) then multiset(s)[x] else 0 {
      WhereMultiplicity(s, p, x);
    }
  }

  /** Filtering two permutations of each other yields two permutations of
      each other. */
  lemma WherePermutation<T(!new)>(a: seq<T>, b: seq<T>, p: T -> bool)
    requires multiset(a) == multiset(b)
    ensures multiset(Where(a, p)) == multiset(Where(b, p))
  {
    forall x ensures multiset(Where(a, p))[x] == multiset(Where(b, p))[x] {
      WhereMultiplicity(a, p, x);
      WhereMultiplicity(b, p, x);
    }
  }

  /** The count form of WherePermutation. */
  lemma WherePermutationCount<T(!new)>(a: seq<T>, b: seq<T>, p: T -> bool)
    requires multiset(a) == multiset(b)
    ensures |Where(a, p)| == |Where(b, p)|
  {
    WherePermutation(a, b, p);
    assert |Where(a, p)| == |multiset(Where(a, p))|;
    assert |Where(b, p)| == |multiset(Where(b, p))|;
  }
}
