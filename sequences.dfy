/** The list operations the core builds on: `filter`, the `includes`-based
    toggle, and stable sorting by a comparator, as `Array.prototype.sort`
    does it. A comparator `cmp` is represented by `le(a, b) := cmp(a, b) <= 0`:
    `a` may stand before `b`. `Sort` is the specification (insertion of the head
    into the sorted tail, before the first element it may precede, so equal
    elements keep their input order); `SortInPlace` sorts an array to the
    same result. */
module Sequences {

  /** Inserts `x` before the first element of `t` that it may precede. */
  function Insert<T>(x: T, t: seq<T>, le: (T, T) -> bool): seq<T> {
    if t == [] || le(x, t[0]) then [x] + t
    else [t[0]] + Insert(x, t[1..], le)
  }

  function Sort<T>(s: seq<T>, le: (T, T) -> bool): seq<T> {
    if s == [] then []
    else Insert(s[0], Sort(s[1..], le), le)
  }

  /** Inserting adds exactly one occurrence of `x`. */
  lemma {:induction false} InsertPermutes<T>(x: T, t: seq<T>, le: (T, T) -> bool)
    ensures multiset(Insert(x, t, le)) == multiset(t) + multiset{x}
  {
    if t != [] && !le(x, t[0]) {
      InsertPermutes(x, t[1..], le);
      assert t == [t[0]] + t[1..];
    }
  }

  /** Sorting is a permutation, whatever the comparator. */
  lemma {:induction false} SortPermutes<T>(s: seq<T>, le: (T, T) -> bool)
    ensures multiset(Sort(s, le)) == multiset(s)
  {
    if s != [] {
      SortPermutes(s[1..], le);
      InsertPermutes(s[0], Sort(s[1..], le), le);
      assert s == [s[0]] + s[1..];
    }
  }

  /** Every element may stand before every later one. */
  ghost predicate Sorted<T>(s: seq<T>, le: (T, T) -> bool) {
    forall i, j :: 0 <= i < j < |s| ==> le(s[i], s[j])
  }

  /** `le` is a total preorder on `dom`: a consistent comparator there. */
  ghost predicate PreorderOn<T>(le: (T, T) -> bool, dom: set<T>) {
    && (forall a, b :: a in dom && b in dom ==> le(a, b) || le(b, a))
    && (forall a, b, c :: a in dom && b in dom && c in dom && le(a, b) && le(b, c) ==> le(a, c))
  }

  ghost predicate Within<T>(s: seq<T>, dom: set<T>) {
    forall a :: a in s ==> a in dom
  }

  /** The elements of `s` that satisfy `p`, in their order in `s`. */
  function Filter<T>(s: seq<T>, p: T -> bool): (r: seq<T>)
    ensures |r| <= |s|
    ensures forall a :: a in r ==> a in s && p(a)
  {
    if s == [] then []
    else if p(s[0]) then [s[0]] + Filter(s[1..], p)
    else Filter(s[1..], p)
  }

  /** `Filter` keeps every element that satisfies `p`. */
  lemma {:induction false} FilterComplete<T>(s: seq<T>, p: T -> bool, a: T)
    ensures a in Filter(s, p) <==> a in s && p(a)
  {
    if s != [] {
      FilterComplete(s[1..], p, a);
      assert a in s <==> a == s[0] || a in s[1..];
    }
  }

  /** `Filter` keeps exactly the elements of `s` that satisfy `p`. */
  lemma FilterMembers<T>(s: seq<T>, p: T -> bool)
    ensures forall a :: a in Filter(s, p) <==> a in s && p(a)
  {
    forall a
      ensures a in Filter(s, p) <==> a in s && p(a)
    {
      FilterComplete(s, p, a);
    }
  }

  /** When every element passes, the filter keeps the whole input. */
  lemma {:induction false} FilterAllPass<T>(s: seq<T>, p: T -> bool)
    ensures (forall a :: a in s ==> p(a)) ==> Filter(s, p) == s
  {
    if s != [] {
      FilterAllPass(s[1..], p);
      assert forall a :: a in s[1..] ==> a in s;
    }
  }

  /** When no element passes, the filter keeps nothing. */
  lemma {:induction false} FilterNonePass<T>(s: seq<T>, p: T -> bool)
    ensures (forall a :: a in s ==> !p(a)) ==> Filter(s, p) == []
  {
    if s != [] {
      FilterNonePass(s[1..], p);
      assert forall a :: a in s[1..] ==> a in s;
    }
  }

  /** `r` is `s` with some elements left out, in the original order. */
  predicate Subsequence<T(==)>(r: seq<T>, s: seq<T>)
    decreases |s|
  {
    r == [] || (s != [] && if r[0] == s[0] then Subsequence(r[1..], s[1..]) else Subsequence(r, s[1..]))
  }

  /** What `Filter` keeps is a subsequence of its input. */
  lemma {:induction false} FilterSubsequence<T>(s: seq<T>, p: T -> bool)
    ensures Subsequence(Filter(s, p), s)
  {
    if s != [] {
      FilterSubsequence(s[1..], p);
      if p(s[0]) {
        assert Filter(s, p)[1..] == Filter(s[1..], p);
      } else {
        SubsequenceSkip(Filter(s[1..], p), s);
      }
    }
  }

  /** A subsequence of the tail of `s` is a subsequence of `s`. */
  lemma {:induction false} SubsequenceSkip<T>(r: seq<T>, s: seq<T>)
    requires s != [] && Subsequence(r, s[1..])
    ensures Subsequence(r, s)
    decreases |s|, 0
  {
    if r != [] && r[0] == s[0] {
      SubsequenceDropHead(r, s[1..]);
    }
  }

  /** Dropping the first element of a subsequence leaves a subsequence. */
  lemma {:induction false} SubsequenceDropHead<T>(r: seq<T>, t: seq<T>)
    requires r != [] && Subsequence(r, t)
    ensures Subsequence(r[1..], t)
    decreases |t|, 1
  {
    if r[0] == t[0] {
      SubsequenceSkip(r[1..], t);
    } else {
      SubsequenceDropHead(r, t[1..]);
      SubsequenceSkip(r[1..], t);
    }
  }

  /** `s.includes(x) ? s.filter(y => y !== x) : [...s, x]`: flips the
      membership of `x` and of nothing else. */
  function Toggle<T(==,!new)>(s: seq<T>, x: T): (r: seq<T>)
    ensures x in r <==> x !in s
    ensures forall y :: y != x ==> (y in r <==> y in s)
  {
    if x in s then
      FilterOut(s, x);
      Filter(s, y => y != x)
    else s + [x]
  }

  /** Filtering `x` out keeps every other element. */
  lemma FilterOut<T(!new)>(s: seq<T>, x: T)
    ensures forall y :: y in Filter(s, z => z != x) <==> y in s && y != x
  {
    forall y ensures y in Filter(s, z => z != x) <==> y in s && y != x {
      FilterComplete(s, z => z != x, y);
    }
  }

  /** Toggling twice restores the membership of every element. */
  lemma ToggleTwice<T(!new)>(s: seq<T>, x: T)
    ensures forall y :: y in Toggle(Toggle(s, x), x) <==> y in s
  {
  }

  /** The elements the comparator cannot tell apart from `k`. */
  function EquivalentTo<T>(le: (T, T) -> bool, k: T): T -> bool {
    x => le(x, k) && le(k, x)
  }

  lemma {:induction false} InsertSorted<T>(x: T, t: seq<T>, le: (T, T) -> bool, dom: set<T>)
    requires PreorderOn(le, dom) && x in dom && Within(t, dom)
    requires Sorted(t, le)
    ensures Sorted(Insert(x, t, le), le)
  {
    if t == [] || le(x, t[0]) {
      var r := [x] + t;
      forall i, j | 0 <= i < j < |r| ensures le(r[i], r[j]) {
        if i == 0 && j > 1 {
          assert le(x, t[0]) && le(t[0], t[j - 1]);
        }
      }
    } else {
      InsertSorted(x, t[1..], le, dom);
      InsertPermutes(x, t[1..], le);
      var rest := Insert(x, t[1..], le);
      assert le(t[0], x);
      forall y | y in rest ensures le(t[0], y) {
        assert y in multiset(rest);
        if y != x {
          assert y in multiset(t[1..]);
        }
      }
      var r := [t[0]] + rest;
      forall i, j | 0 <= i < j < |r| ensures le(r[i], r[j]) {
        if i == 0 {
          assert r[j] in rest;
        } else {
          assert r[i] == rest[i - 1] && r[j] == rest[j - 1];
        }
      }
    }
  }

  /** With a consistent comparator the result is ordered. */
  lemma {:induction false} SortSorted<T>(s: seq<T>, le: (T, T) -> bool, dom: set<T>)
    requires PreorderOn(le, dom) && Within(s, dom)
    ensures Sorted(Sort(s, le), le)
  {
    if s != [] {
      SortSorted(s[1..], le, dom);
      SortPermutes(s[1..], le);
      var t := Sort(s[1..], le);
      forall a | a in t ensures a in dom {
        assert a in multiset(t);
      }
      InsertSorted(s[0], t, le, dom);
    }
  }

  /** Inserting an element the predicate rejects leaves the filtered view
      as it was. */
  lemma {:induction false} FilterInsertSkipped<T>(x: T, t: seq<T>, le: (T, T) -> bool, p: T -> bool)
    requires !p(x)
    ensures Filter(Insert(x, t, le), p) == Filter(t, p)
  {
    if t != [] && !le(x, t[0]) {
      FilterInsertSkipped(x, t[1..], le, p);
    }
  }

  /** Inserting an element equivalent to `k` into a sorted list puts it in
      front of every element equivalent to `k`. */
  lemma {:induction false} FilterInsertFront<T>(x: T, t: seq<T>, le: (T, T) -> bool, dom: set<T>, k: T)
    requires PreorderOn(le, dom) && x in dom && k in dom && Within(t, dom)
    requires Sorted(t, le)
    requires EquivalentTo(le, k)(x)
    ensures Filter(Insert(x, t, le), EquivalentTo(le, k)) == [x] + Filter(t, EquivalentTo(le, k))
  {
    var p := EquivalentTo(le, k);
    if t != [] && !le(x, t[0]) {
      var y := t[0];
      assert le(x, k) && le(k, y) ==> le(x, y);
      assert !p(y);
      assert Sorted(t[1..], le) by {
        forall i, j | 0 <= i < j < |t[1..]| ensures le(t[1..][i], t[1..][j]) {
          assert t[1..][i] == t[i + 1] && t[1..][j] == t[j + 1];
        }
      }
      FilterInsertFront(x, t[1..], le, dom, k);
    }
  }

  /** Stability: the elements equivalent to any `k` appear in the sorted
      result in the same order as in the input. */
  lemma {:induction false} SortStable<T>(s: seq<T>, le: (T, T) -> bool, dom: set<T>, k: T)
    requires PreorderOn(le, dom) && Within(s, dom) && k in dom
    ensures Filter(Sort(s, le), EquivalentTo(le, k)) == Filter(s, EquivalentTo(le, k))
  {
    if s != [] {
      var p := EquivalentTo(le, k);
      var t := Sort(s[1..], le);
      SortStable(s[1..], le, dom, k);
      if p(s[0]) {
        SortSorted(s[1..], le, dom);
        SortPermutes(s[1..], le);
        forall a | a in t ensures a in dom {
          assert a in multiset(t);
        }
        FilterInsertFront(s[0], t, le, dom, k);
      } else {
        FilterInsertSkipped(s[0], t, le, p);
      }
    }
  }

  /** `Insert` splits `t` at the first element that `x` may precede. */
  lemma {:induction false} InsertAt<T>(x: T, t: seq<T>, m: nat, le: (T, T) -> bool)
    requires m <= |t|
    requires forall l :: 0 <= l < m ==> !le(x, t[l])
    requires m == |t| || le(x, t[m])
    ensures Insert(x, t, le) == t[..m] + [x] + t[m..]
  {
    if m == 0 {
      assert t[..0] == [] && t[0..] == t;
    } else {
      var rest := t[1..];
      forall l | 0 <= l < m - 1 ensures !le(x, rest[l]) {
        assert rest[l] == t[l + 1];
      }
      assert m - 1 < |rest| ==> rest[m - 1] == t[m];
      InsertAt(x, rest, m - 1, le);
      assert !le(x, t[0]);
      assert Insert(x, t, le) == [t[0]] + Insert(x, rest, le);
      assert t[..m] == [t[0]] + rest[..m - 1];
      assert t[m..] == rest[m - 1..];
    }
  }

  /** One step of insertion sort: slides `a[i]` right past the elements of
      `a[i + 1..]` it may not precede, so that `a[i..]` becomes `Insert` of
      the old `a[i]` into the old `a[i + 1..]`. */
  method Slide<T>(a: array<T>, i: nat, le: (T, T) -> bool)
    requires i < a.Length
    modifies a
    ensures a[..i] == old(a[..i])
    ensures a[i..] == Insert(old(a[i]), old(a[i + 1..]), le)
  {
    ghost var t := a[i + 1..];
    var x := a[i];
    var j := i;
    while j + 1 < a.Length && !le(x, a[j + 1])
      invariant i <= j < a.Length
      invariant a[..i] == old(a[..i])
      invariant a[i..j] == t[..j - i]
      invariant a[j + 1..] == t[j - i..]
      invariant forall l :: 0 <= l < j - i ==> !le(x, t[l])
    {
      assert a[j + 1] == t[j - i];
      a[j] := a[j + 1];
      j := j + 1;
    }
    assert j + 1 < a.Length ==> a[j + 1] == t[j - i];
    a[j] := x;
    InsertAt(x, t, j - i, le);
    assert a[i..] == t[..j - i] + [x] + t[j - i..];
  }

  /** Insertion sort in place: `a` ends up as `Sort` of its old contents.
      The suffix `a[i..]` is kept sorted while `i` moves to the front. */
  method SortInPlace<T>(a: array<T>, le: (T, T) -> bool)
    modifies a
    ensures a[..] == Sort(old(a[..]), le)
  {
    ghost var s := a[..];
    var i := a.Length;
    while i > 0
      invariant 0 <= i <= a.Length
      invariant a[..i] == s[..i]
      invariant a[i..] == Sort(s[i..], le)
    {
      i := i - 1;
      assert a[i] == s[i] by {
        assert a[..i + 1][i] == s[..i + 1][i];
      }
      assert a[..i] == s[..i] by {
        assert a[..i] == a[..i + 1][..i];
      }
      Slide(a, i, le);
      assert s[i..] == [s[i]] + s[i + 1..];
    }
    assert a[..] == a[0..];
  }
}
