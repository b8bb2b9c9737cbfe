/** Small value wrappers and sequence helpers shared by the analytics modules. */
module Wrappers {

  /** A value that may be missing: `null` in the line parser, NaN in the statistics. */
  datatype Option<+T> = None | Some(value: T)

  /** A value or the error a throwing function would have raised. */
  datatype Result<+R, +E> = Success(value: R) | Failure(error: E) {
    function ToOption(): (o: Option<R>)
      ensures o.Some? <==> Success?
      ensures Success? ==> o.value == value
    {
      match this
      case Success(v) => Some(v)
      case Failure(_) => None
    }
  }

  /** `Array.prototype.filter`: the elements satisfying `p`, in their original order. */
  function Filter<T>(s: seq<T>, p: T -> bool): (r: seq<T>)
    ensures |r| <= |s|
    ensures forall x :: x in r ==> x in s && p(x)
    ensures forall x :: x in s && p(x) ==> x in r
  {
    if s == [] then []
    else if p(s[0]) then [s[0]] + Filter(s[1..], p)
    else Filter(s[1..], p)
  }

  lemma {:induction false} FilterAppend<T>(a: seq<T>, b: seq<T>, p: T -> bool)
    ensures Filter(a + b, p) == Filter(a, p) + Filter(b, p)
  {
    if a == [] {
      assert a + b == b;
    } else {
      assert (a + b)[1..] == a[1..] + b;
      FilterAppend(a[1..], b, p);
    }
  }

  /** Filtering by `p` and by its negation splits a sequence into two parts
      that together hold every element exactly as often as the sequence does. */
  lemma {:induction false} FilterPartition<T>(s: seq<T>, p: T -> bool, q: T -> bool)
    requires forall x :: q(x) == !p(x)
    ensures multiset(Filter(s, p)) + multiset(Filter(s, q)) == multiset(s)
  {
    if s != [] {
      FilterPartition(s[1..], p, q);
      var a, b := Filter(s[1..], p), Filter(s[1..], q);
      assert multiset(s) == multiset{s[0]} + multiset(a) + multiset(b) by {
        assert s == [s[0]] + s[1..];
      }
      if p(s[0]) {
        assert Filter(s, p) == [s[0]] + a && Filter(s, q) == b;
      } else {
        assert Filter(s, p) == a && Filter(s, q) == [s[0]] + b;
      }
    }
  }

  /** Filtering twice is filtering once by the conjunction. */
  lemma {:induction false} FilterFilter<T>(s: seq<T>, p: T -> bool, q: T -> bool, pq: T -> bool)
    requires forall x :: pq(x) == (p(x) && q(x))
    ensures Filter(Filter(s, p), q) == Filter(s, pq)
  {
    if s != [] {
      FilterFilter(s[1..], p, q, pq);
      if p(s[0]) {
        assert Filter(s, p) == [s[0]] + Filter(s[1..], p);
        assert Filter(s, p)[1..] == Filter(s[1..], p);
      }
    }
  }

  /** A filter whose predicate holds everywhere keeps the whole sequence. */
  lemma {:induction false} FilterAll<T>(s: seq<T>, p: T -> bool)
    requires forall x :: x in s ==> p(x)
    ensures Filter(s, p) == s
  {
    if s != [] {
      assert forall x :: x in s[1..] ==> x in s;
      FilterAll(s[1..], p);
    }
  }
}
