/**
 * Generic sequence operations that stand for the relational operators the
 * ORM uses: `.filter(...)` (Select), `.order_by(...)` (Sort) and `[:n]` (Take).
 */
module Sequences {

  /** The elements of `s` that satisfy `p`, in their original order. */
  function Select<T>(s: seq<T>, p: T -> bool): (r: seq<T>)
    ensures |r| <= |s|
    ensures forall i :: 0 <= i < |r| ==> r[i] in s && p(r[i])
    ensures forall i :: 0 <= i < |s| && p(s[i]) ==> s[i] in r
  {
    if s == [] then [] else (if p(s[0]) then [s[0]] else []) + Select(s[1..], p)
  }

  /** The conjunction of two row predicates (two chained `.filter` calls). */
  function And<T>(p: T -> bool, q: T -> bool): T -> bool
  {
    x => p(x) && q(x)
  }

  /** `if cond: qs = qs.filter(p)`: a filter applied only when its field was supplied. */
  function When<T>(s: seq<T>, cond: bool, p: T -> bool): seq<T>
  {
    if cond then Select(s, p) else s
  }

  /** The predicate accumulated by a chain of conditional filters. */
  function AndWhen<T>(p: T -> bool, cond: bool, q: T -> bool): T -> bool
  {
    if cond then And(p, q) else p
  }

  lemma {:induction false} SelectAppend<T>(a: seq<T>, b: seq<T>, p: T -> bool)
    ensures Select(a + b, p) == Select(a, p) + Select(b, p)
  {
    if a == [] {
      assert a + b == b;
    } else {
      assert (a + b)[0] == a[0] && (a + b)[1..] == a[1..] + b;
      SelectAppend(a[1..], b, p);
    }
  }

  /** Filtering twice is filtering once by the conjunction. */
  lemma {:induction false} SelectSelect<T>(s: seq<T>, p: T -> bool, q: T -> bool)
    ensures Select(Select(s, p), q) == Select(s, And(p, q))
  {
    if s != [] {
      SelectSelect(s[1..], p, q);
      var head := if p(s[0]) then [s[0]] else [];
      SelectAppend(head, Select(s[1..], p), q);
    }
  }

  /** Two filters in a row are one filter by any predicate that means both. */
  lemma SelectBoth<T>(s: seq<T>, p: T -> bool, q: T -> bool, r: T -> bool)
    requires forall x :: x in s ==> r(x) == (p(x) && q(x))
    ensures Select(Select(s, p), q) == Select(s, r)
  {
    SelectSelect(s, p, q);
    SelectCongruent(s, And(p, q), r);
  }

  /** One more conditional filter on a filtered sequence is one filter by the accumulated predicate. */
  lemma WhenSelect<T>(s: seq<T>, p: T -> bool, cond: bool, q: T -> bool)
    ensures When(Select(s, p), cond, q) == Select(s, AndWhen(p, cond, q))
  {
    if cond {
      SelectSelect(s, p, q);
    }
  }

  /** A filter that rejects every element yields the empty sequence. */
  lemma {:induction false} SelectNone<T>(s: seq<T>, p: T -> bool)
    requires forall x :: x in s ==> !p(x)
    ensures Select(s, p) == []
  {
    if s != [] {
      SelectNone(s[1..], p);
    }
  }

  /** A filter that accepts every element is the identity. */
  lemma {:induction false} SelectAll<T>(s: seq<T>, p: T -> bool)
    requires forall x :: x in s ==> p(x)
    ensures Select(s, p) == s
  {
    if s != [] {
      SelectAll(s[1..], p);
    }
  }

  /** Filters agreeing on every element of `s` select the same subsequence. */
  lemma {:induction false} SelectCongruent<T>(s: seq<T>, p: T -> bool, q: T -> bool)
    requires forall x :: x in s ==> p(x) == q(x)
    ensures Select(s, p) == Select(s, q)
  {
    if s != [] {
      SelectCongruent(s[1..], p, q);
    }
  }

  /** A filter keeps every copy of an accepted element and no copy of a rejected one. */
  lemma {:induction false} SelectMultiplicity<T>(s: seq<T>, p: T -> bool, x: T)
    ensures multiset(Select(s, p))[x] == if p(x) then multiset(s)[x] else 0
  {
    if s != [] {
      SelectMultiplicity(s[1..], p, x);
      assert s == [s[0]] + s[1..];
    }
  }

  /** An element is selected exactly when it occurs in `s` and satisfies `p`. */
  lemma SelectMembership<T>(s: seq<T>, p: T -> bool, x: T)
    ensures x in Select(s, p) <==> x in s && p(x)
  {
    SelectMultiplicity(s, p, x);
    assert x in Select(s, p) <==> x in multiset(Select(s, p));
    assert x in s <==> x in multiset(s);
  }

  /** `f` tells the elements of `s` apart: a primary key. */
  predicate Injective<T, I(==)>(s: seq<T>, f: T -> I)
  {
    forall i, j :: 0 <= i < j < |s| ==> f(s[i]) != f(s[j])
  }

  /** Filtering keeps a key a key. */
  lemma {:induction false} SelectKeepsInjective<T, I>(s: seq<T>, p: T -> bool, f: T -> I)
    requires Injective(s, f)
    ensures Injective(Select(s, p), f)
  {
    if s != [] {
      SelectKeepsInjective(s[1..], p, f);
      var rest := Select(s[1..], p);
      forall j | 0 <= j < |rest| ensures f(s[0]) != f(rest[j]) {
        var k :| 0 <= k < |s[1..]| && s[1..][k] == rest[j];
        assert s[k + 1] == rest[j];
      }
    }
  }

  /** Under a key, an element occurs at most once. */
  lemma {:induction false} InjectiveOnce<T, I>(s: seq<T>, f: T -> I, x: T)
    requires Injective(s, f)
    ensures multiset(s)[x] <= 1
  {
    if s != [] {
      assert s == [s[0]] + s[1..];
      InjectiveOnce(s[1..], f, x);
      if s[0] == x {
        forall j | 0 <= j < |s[1..]| ensures s[1..][j] != x {
          assert s[1..][j] == s[j + 1];
        }
      }
    }
  }

  /** `[:n]` on a Python sequence: the first `n` elements, or all of them when there are fewer. */
  function Take<T>(s: seq<T>, n: nat): (r: seq<T>)
    ensures |r| == if |s| <= n then |s| else n
    ensures r <= s
  {
    if |s| <= n then s else s[..n]
  }

  /** `[:n]` keeps some of the elements and adds none. */
  lemma TakeIsSubMultiset<T>(s: seq<T>, n: nat)
    ensures multiset(Take(s, n)) <= multiset(s)
  {
    var top := Take(s, n);
    assert s == top + s[|top|..];
    assert multiset(s) == multiset(top) + multiset(s[|top|..]);
  }

  /**
   * What `order_by(...)[:n]` leaves out: when an element of a sorted sequence
   * is not among the first `n`, exactly `n` are shown and each of them may
   * precede it.
   */
  lemma TakeSortedLeavesOut<T>(s: seq<T>, leq: (T, T) -> bool, n: nat, x: T)
    requires SortedBy(s, leq) && x in s && x !in Take(s, n)
    ensures |Take(s, n)| == n
    ensures forall i :: 0 <= i < n ==> leq(Take(s, n)[i], x)
  {
    var j :| 0 <= j < |s| && s[j] == x;
  }

  /** `leq` is total and transitive: a valid ordering for `order_by`. */
  ghost predicate TotalPreorder<T(!new)>(leq: (T, T) -> bool)
  {
    && (forall a, b :: leq(a, b) || leq(b, a))
    && (forall a, b, c :: leq(a, b) && leq(b, c) ==> leq(a, c))
  }

  predicate SortedBy<T>(s: seq<T>, leq: (T, T) -> bool)
  {
    forall i, j :: 0 <= i < j < |s| ==> leq(s[i], s[j])
  }

  /** Places `x` before the first element it may precede. */
  function Insert<T>(x: T, s: seq<T>, leq: (T, T) -> bool): (r: seq<T>)
    ensures multiset(r) == multiset(s) + multiset{x}
  {
    if s == [] || leq(x, s[0]) then [x] + s
    else
      assert s == [s[0]] + s[1..];
      [s[0]] + Insert(x, s[1..], leq)
  }

  /** Insertion sort; stable, so rows that tie keep their store order. */
  function Sort<T>(s: seq<T>, leq: (T, T) -> bool): (r: seq<T>)
    ensures multiset(r) == multiset(s)
  {
    if s == [] then []
    else
      assert s == [s[0]] + s[1..];
      Insert(s[0], Sort(s[1..], leq), leq)
  }

  lemma {:induction false} InsertSorted<T(!new)>(x: T, s: seq<T>, leq: (T, T) -> bool)
    requires TotalPreorder(leq) && SortedBy(s, leq)
    ensures SortedBy(Insert(x, s, leq), leq)
  {
    if s != [] && !leq(x, s[0]) {
      var t := Insert(x, s[1..], leq);
      InsertSorted(x, s[1..], leq);
      forall j | 0 <= j < |t| ensures leq(s[0], t[j]) {
        assert t[j] in multiset(t);
        if t[j] != x {
          assert t[j] in multiset(s[1..]);
          var k :| 0 <= k < |s[1..]| && s[1..][k] == t[j];
          assert s[k + 1] == t[j];
        }
      }
    }
  }

  /** Sort orders its result by `leq` whenever `leq` is a total preorder. */
  lemma {:induction false} SortSorted<T(!new)>(s: seq<T>, leq: (T, T) -> bool)
    requires TotalPreorder(leq)
    ensures SortedBy(Sort(s, leq), leq)
  {
    if s != [] {
      SortSorted(s[1..], leq);
      InsertSorted(s[0], Sort(s[1..], leq), leq);
    }
  }

}
