/** Python list operations the scheduler relies on: `s[-1]`, `list.remove` and `list.sort`. */
module Lists {
  import opened Wrappers

  /** `s[-1]`. */
  function Last<T>(s: seq<T>): T
    requires |s| > 0
  {
    s[|s| - 1]
  }

  /** The position of the first occurrence of `x` in `s`. */
  function IndexOf<T(==)>(s: seq<T>, x: T): (i: nat)
    requires x in s
    ensures i < |s| && s[i] == x && x !in s[..i]
  {
    if s[0] == x then 0
    else
      var j := IndexOf(s[1..], x);
      assert s[..j + 1] == [s[0]] + s[1..][..j];
      j + 1
  }

  /** `list.remove(x)`: drops the first occurrence of `x`; `None` where Python raises `ValueError`. */
  function RemoveFirst<T(==)>(s: seq<T>, x: T): (r: Option<seq<T>>)
    ensures r.None? <==> x !in s
    ensures r.Some? ==> multiset(r.value) == multiset(s) - multiset{x}
    ensures r.Some? ==>
      exists i :: 0 <= i < |s| && s[i] == x && x !in s[..i] && r.value == s[..i] + s[i + 1..]
  {
    if x !in s then None
    else
      var i := IndexOf(s, x);
      var rest := s[..i] + s[i + 1..];
      assert s == s[..i] + [s[i]] + s[i + 1..];
      assert multiset(s) == multiset(rest) + multiset{x};
      assert 0 <= i < |s| && s[i] == x && x !in s[..i] && rest == s[..i] + s[i + 1..];
      Some(rest)
  }

  predicate Sorted(s: seq<nat>)
  {
    forall i, j :: 0 <= i < j < |s| ==> s[i] <= s[j]
  }

  function Insert(x: nat, s: seq<nat>): (r: seq<nat>)
    requires Sorted(s)
    ensures Sorted(r)
    ensures multiset(r) == multiset(s) + multiset{x}
    ensures |r| == |s| + 1 && (r[0] == x || (|s| > 0 && r[0] == s[0]))
  {
    if |s| == 0 then [x]
    else if x <= s[0] then [x] + s
    else
      assert s == [s[0]] + s[1..];
      [s[0]] + Insert(x, s[1..])
  }

  /** The sorted permutation of `s`, what `list.sort()` leaves in a list of integers. */
  function Sort(s: seq<nat>): (r: seq<nat>)
    ensures Sorted(r)
    ensures multiset(r) == multiset(s)
  {
    if |s| == 0 then []
    else
      assert s == [s[0]] + s[1..];
      Insert(s[0], Sort(s[1..]))
  }

  /** The number of times `x` occurs in `s`. */
  function Occurrences(s: seq<nat>, x: nat): nat
  {
    if |s| == 0 then 0 else Occurrences(s[..|s| - 1], x) + (if Last(s) == x then 1 else 0)
  }

  lemma {:induction false} OccurrencesConcat(s: seq<nat>, t: seq<nat>, x: nat)
    ensures Occurrences(s + t, x) == Occurrences(s, x) + Occurrences(t, x)
    decreases |t|
  {
    if |t| == 0 {
      assert s + t == s;
    } else {
      assert (s + t)[..|s + t| - 1] == s + t[..|t| - 1];
      OccurrencesConcat(s, t[..|t| - 1], x);
    }
  }

  /** Counting occurrences is taking the multiplicity in the list's multiset. */
  lemma {:induction false} OccurrencesMultiplicity(s: seq<nat>, x: nat)
    ensures Occurrences(s, x) == multiset(s)[x]
    decreases |s|
  {
    if |s| > 0 {
      var front := s[..|s| - 1];
      assert s == front + [Last(s)];
      OccurrencesMultiplicity(front, x);
    }
  }

  /** A sorted list is determined by its elements: any sort of a list of integers gives `Sort`. */
  lemma {:induction false} SortedUnique(s: seq<nat>, t: seq<nat>)
    requires Sorted(s) && Sorted(t) && multiset(s) == multiset(t)
    ensures s == t
    decreases |s|
  {
    assert |s| == |multiset(s)| == |t|;
    if |s| > 0 {
      SortedHeads(s, t);
      DropHead(s);
      DropHead(t);
      SortedUnique(s[1..], t[1..]);
    }
  }

  /** Two sorted lists with the same elements start with the same one. */
  lemma SortedHeads(s: seq<nat>, t: seq<nat>)
    requires Sorted(s) && Sorted(t) && multiset(s) == multiset(t) && |s| > 0 && |t| > 0
    ensures s[0] == t[0]
  {
    assert s[0] in multiset(t) && t[0] in multiset(s);
    var i :| 0 <= i < |t| && t[i] == s[0];
    var j :| 0 <= j < |s| && s[j] == t[0];
    assert t[0] <= t[i] && s[0] <= s[j];
  }

  /** Dropping the head of a list removes one copy of it from its elements. */
  lemma DropHead(s: seq<nat>)
    requires |s| > 0
    ensures multiset(s[1..]) == multiset(s) - multiset{s[0]}
  {
    assert s == [s[0]] + s[1..];
  }

}
