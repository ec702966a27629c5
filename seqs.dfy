/** Sequence combinators shared by the services and pages: the model's
    versions of JavaScript's `Array.prototype.filter`, `find`, and the
    insertion order of a `Map`'s keys.  Recursive definitions peel the LAST
    element, so that a loop over a prefix `s[..k]` extends them directly. */
module Seqs {

  datatype Option<+T> = None | Some(value: T) {
    function GetOr(default: T): T {
      match this
      case Some(v) => v
      case None => default
    }
  }

  function Last<T>(s: seq<T>): T
    requires |s| > 0
  {
    s[|s| - 1]
  }

  function DropLast<T>(s: seq<T>): seq<T>
    requires |s| > 0
  {
    s[..|s| - 1]
  }

  /** `r` can be obtained from `s` by deleting elements (order is kept). */
  ghost predicate IsSubsequence<T>(r: seq<T>, s: seq<T>)
    decreases |s|
  {
    r == [] ||
    (|s| > 0 &&
     ((|r| > 0 && Last(r) == Last(s) && IsSubsequence(DropLast(r), DropLast(s))) ||
      IsSubsequence(r, DropLast(s))))
  }

  /** `Array.prototype.filter`: the elements of `s` satisfying `p`, in order. */
  function Filter<T(!new)>(s: seq<T>, p: T -> bool): (r: seq<T>)
    ensures |r| <= |s|
    ensures forall x :: x in r <==> x in s && p(x)
  {
    if s == [] then []
    else
      var init := Filter(DropLast(s), p);
      assert forall x :: x in s <==> x in DropLast(s) || x == Last(s);
      if p(Last(s)) then
        assert DropLast(init + [Last(s)]) == init;
        init + [Last(s)]
      else init
  }

  /** A sequence that applies `f` to each element of `a + b` is the one
      for `a` followed by the one for `b`. */
  lemma ConcatPointwise<A, B>(f: A -> B, a: seq<A>, b: seq<A>, l: seq<B>, x: seq<B>, y: seq<B>)
    requires |l| == |a| + |b| && |x| == |a| && |y| == |b|
    requires forall i :: 0 <= i < |l| ==> l[i] == f((a + b)[i])
    requires forall i :: 0 <= i < |x| ==> x[i] == f(a[i])
    requires forall i :: 0 <= i < |y| ==> y[i] == f(b[i])
    ensures l == x + y
  {
    forall i | 0 <= i < |l|
      ensures l[i] == (x + y)[i]
    {
      if i < |a| {
        assert (a + b)[i] == a[i];
      } else {
        assert (a + b)[i] == b[i - |a|];
      }
    }
  }

  /** A sequence is its front, the front of its rest, and what is left. */
  lemma SplitThree<T>(s: seq<T>, k: nat, m: nat)
    requires k <= |s| && m <= |s| - k
    ensures s == s[..k] + s[k..][..m] + s[k..][m..]
  {
    assert s[k..] == s[k..][..m] + s[k..][m..];
    assert s == s[..k] + s[k..];
  }

  /** The filtered list keeps the order of the original. */
  lemma {:induction false} FilterIsSubsequence<T(!new)>(s: seq<T>, p: T -> bool)
    ensures IsSubsequence(Filter(s, p), s)
    decreases |s|
  {
    if s != [] {
      FilterIsSubsequence(DropLast(s), p);
      if p(Last(s)) {
        assert DropLast(Filter(DropLast(s), p) + [Last(s)]) == Filter(DropLast(s), p);
      }
    }
  }

  /** A predicate every element satisfies keeps the list whole. */
  lemma {:induction false} FilterKeepsAll<T(!new)>(s: seq<T>, p: T -> bool)
    ensures (forall i :: 0 <= i < |s| ==> p(s[i])) ==> Filter(s, p) == s
    decreases |s|
  {
    if s != [] {
      FilterKeepsAll(DropLast(s), p);
    }
  }

  /** A predicate no element satisfies leaves nothing. */
  lemma {:induction false} FilterRejectsAll<T(!new)>(s: seq<T>, p: T -> bool)
    requires forall i :: 0 <= i < |s| ==> !p(s[i])
    ensures Filter(s, p) == []
    decreases |s|
  {
    if s != [] {
      FilterRejectsAll(DropLast(s), p);
    }
  }

  lemma FilterAppend<T(!new)>(s: seq<T>, x: T, p: T -> bool)
    ensures Filter(s + [x], p) == Filter(s, p) + (if p(x) then [x] else [])
  {
    assert DropLast(s + [x]) == s;
  }

  lemma {:induction false} FilterConcat<T(!new)>(a: seq<T>, b: seq<T>, p: T -> bool)
    ensures Filter(a + b, p) == Filter(a, p) + Filter(b, p)
    decreases |b|
  {
    if b == [] {
      assert a + b == a;
    } else {
      var b', x := DropLast(b), Last(b);
      var t := if p(x) then [x] else [];
      assert b == b' + [x];
      assert a + b == (a + b') + [x];
      calc {
        Filter(a + b, p);
        { FilterAppend(a + b', x, p); }
        Filter(a + b', p) + t;
        { FilterConcat(a, b', p); }
        (Filter(a, p) + Filter(b', p)) + t;
        Filter(a, p) + (Filter(b', p) + t);
        { FilterAppend(b', x, p); }
        Filter(a, p) + Filter(b, p);
      }
    }
  }

  /** Every copy of a kept element survives and every copy of a rejected one
      goes: the filter fixes multiplicities, not just membership. */
  lemma {:induction false} FilterMultiset<T(!new)>(s: seq<T>, p: T -> bool)
    ensures forall x :: multiset(Filter(s, p))[x] == if p(x) then multiset(s)[x] else 0
    decreases |s|
  {
    if s != [] {
      FilterMultiset(DropLast(s), p);
      assert s == DropLast(s) + [Last(s)];
    }
  }

  /** A predicate that rejects the head and keeps the rest leaves the tail. */
  lemma FilterDropsHead<T(!new)>(s: seq<T>, p: T -> bool)
    requires |s| > 0 && !p(s[0]) && forall i :: 1 <= i < |s| ==> p(s[i])
    ensures Filter(s, p) == s[1..]
  {
    var t := s[1..];
    forall i | 0 <= i < |t|
      ensures p(t[i])
    {
      assert t[i] == s[i + 1];
    }
    FilterKeepsAll(t, p);
    assert Filter([s[0]], p) == [] by {
      FilterRejectsAll([s[0]], p);
    }
    FilterConcat([s[0]], t, p);
    assert s == [s[0]] + t;
  }

  /** Predicates that agree on the elements of `s` filter it alike. */
  lemma {:induction false} FilterExtensional<T(!new)>(s: seq<T>, p: T -> bool, q: T -> bool)
    requires forall x :: x in s ==> p(x) == q(x)
    ensures Filter(s, p) == Filter(s, q)
    decreases |s|
  {
    if s != [] {
      assert forall x :: x in DropLast(s) ==> x in s;
      FilterExtensional(DropLast(s), p, q);
    }
  }

  /** The conjunction of two predicates. */
  function And<T>(p: T -> bool, q: T -> bool): T -> bool {
    x => p(x) && q(x)
  }

  /** Filtering twice keeps what satisfies both predicates. */
  lemma {:induction false} FilterFilter<T(!new)>(s: seq<T>, p: T -> bool, q: T -> bool)
    ensures Filter(Filter(s, p), q) == Filter(s, And(p, q))
    decreases |s|
  {
    if s != [] {
      FilterFilter(DropLast(s), p, q);
      var init := Filter(DropLast(s), p);
      if p(Last(s)) {
        FilterAppend(init, Last(s), q);
      }
    }
  }

  /** Removing every element `p` rejects leaves a list of length `Count`. */
  function Count<T(!new)>(s: seq<T>, p: T -> bool): (n: nat)
    ensures n <= |s|
  {
    |Filter(s, p)|
  }

  /** The index of the first element satisfying `p`, as `findIndex` does. */
  function FindIndex<T>(s: seq<T>, p: T -> bool): (r: Option<nat>)
    ensures r.Some? ==> r.value < |s| && p(s[r.value]) &&
                        forall j :: 0 <= j < r.value ==> !p(s[j])
    ensures r.None? <==> forall j :: 0 <= j < |s| ==> !p(s[j])
  {
    FindFrom(s, p, 0)
  }

  function FindFrom<T>(s: seq<T>, p: T -> bool, k: nat): (r: Option<nat>)
    requires k <= |s|
    requires forall j :: 0 <= j < k ==> !p(s[j])
    ensures r.Some? ==> k <= r.value < |s| && p(s[r.value]) &&
                        forall j :: 0 <= j < r.value ==> !p(s[j])
    ensures r.None? <==> forall j :: 0 <= j < |s| ==> !p(s[j])
    decreases |s| - k
  {
    if k == |s| then None
    else if p(s[k]) then Some(k)
    else FindFrom(s, p, k + 1)
  }

  /** `Array.prototype.find`: the first element satisfying `p`, if any. */
  function Find<T(!new)>(s: seq<T>, p: T -> bool): (r: Option<T>)
    ensures r.Some? ==> r.value in s && p(r.value)
    ensures r.Some? ==> exists i :: 0 <= i < |s| && s[i] == r.value && forall j :: 0 <= j < i ==> !p(s[j])
    ensures r.None? <==> forall x :: x in s ==> !p(x)
  {
    match FindIndex(s, p)
    case Some(i) => Some(s[i])
    case None => None
  }

  /** A later index that keeps a matching element in place does not change
      which element is found first. */
  lemma FindIndexUpdate<T>(s: seq<T>, p: T -> bool, i: nat, x: T)
    requires FindIndex(s, p) == Some(i)
    requires p(x)
    ensures FindIndex(s[i := x], p) == Some(i)
  {
    assert p(s[i := x][i]);
    assert forall j :: 0 <= j < i ==> s[i := x][j] == s[j] && !p(s[i := x][j]);
  }

  lemma {:induction false} SubsequenceReflexive<T>(s: seq<T>)
    ensures IsSubsequence(s, s)
    decreases |s|
  {
    if s != [] {
      SubsequenceReflexive(DropLast(s));
    }
  }

  ghost predicate NoDuplicates<T>(s: seq<T>) {
    forall i, j :: 0 <= i < j < |s| ==> s[i] != s[j]
  }

  /** The distinct elements of `s` in order of first occurrence, which is
      the key order of a JavaScript `Map` filled from `s`. */
  function Dedup<T(==,!new)>(s: seq<T>): (r: seq<T>)
    ensures forall x :: x in r <==> x in s
    ensures |r| <= |s|
  {
    if s == [] then []
    else
      var init := Dedup(DropLast(s));
      assert forall x :: x in s <==> x in DropLast(s) || x == Last(s);
      if Last(s) in init then init else init + [Last(s)]
  }

  /** Each element is kept once. */
  lemma {:induction false} DedupNoDuplicates<T(!new)>(s: seq<T>)
    ensures NoDuplicates(Dedup(s))
    decreases |s|
  {
    if s != [] {
      DedupNoDuplicates(DropLast(s));
    }
  }

  lemma DedupAppend<T(!new)>(s: seq<T>, x: T)
    ensures Dedup(s + [x]) == if x in Dedup(s) then Dedup(s) else Dedup(s) + [x]
  {
    assert DropLast(s + [x]) == s;
  }

  /** The distinct values of `f` over `s`, as a JavaScript `Set` collects
      them; it never has more members than `s` has elements. */
  function Image<T, U(!new)>(s: seq<T>, f: T -> U): (r: set<U>)
    ensures |r| <= |s|
    ensures forall y :: y in r <==> exists i :: 0 <= i < |s| && f(s[i]) == y
  {
    if s == [] then {}
    else
      var init := Image(DropLast(s), f);
      assert forall i :: 0 <= i < |s| - 1 ==> DropLast(s)[i] == s[i];
      init + {f(Last(s))}
  }

  lemma ImageAppend<T, U(!new)>(s: seq<T>, x: T, f: T -> U)
    ensures Image(s + [x], f) == Image(s, f) + {f(x)}
  {
    assert DropLast(s + [x]) == s;
  }
}
