/** Small building blocks shared by the client stores, the screens and the
    account services: an optional value and the list filter of JavaScript
    (`Array.prototype.filter`) and Python list comprehensions. */
module Common {

  /** `undefined` / `None` versus a present value. */
  datatype Option<T> = None | Some(value: T)

  /** The elements of `s` that satisfy `keep`, in their original order. */
  function Filter<T>(s: seq<T>, keep: T -> bool): (r: seq<T>)
    ensures |r| <= |s|
    ensures forall i :: 0 <= i < |r| ==> r[i] in s && keep(r[i])
    ensures forall i :: 0 <= i < |s| && keep(s[i]) ==> s[i] in r
    ensures multiset(r) <= multiset(s)
  {
    if s == [] then []
    else
      assert s == [s[0]] + s[1..];
      (if keep(s[0]) then [s[0]] else []) + Filter(s[1..], keep)
  }

  /** Filtering a concatenation filters each part: the kept elements stay in
      their relative order. */
  lemma {:induction false} FilterConcat<T>(a: seq<T>, b: seq<T>, keep: T -> bool)
    ensures Filter(a + b, keep) == Filter(a, keep) + Filter(b, keep)
  {
    if a == [] {
      assert a + b == b;
    } else {
      assert (a + b)[1..] == a[1..] + b;
      FilterConcat(a[1..], b, keep);
    }
  }

  /** Filtering keeps every copy of a kept element and no copy of a dropped
      one, so the result's contents depend only on the input's contents. */
  lemma {:induction false} FilterMultiplicity<T>(s: seq<T>, keep: T -> bool, x: T)
    ensures multiset(Filter(s, keep))[x] == if keep(x) then multiset(s)[x] else 0
  {
    if s != [] {
      assert s == [s[0]] + s[1..];
      FilterMultiplicity(s[1..], keep, x);
    }
  }

  /** A one-element list keeps its element or loses it. */
  lemma FilterSingleton<T>(x: T, keep: T -> bool)
    ensures Filter([x], keep) == if keep(x) then [x] else []
  {
    assert [x][1..] == [];
  }

  /** A filter that rejects nothing returns its input unchanged. */
  lemma {:induction false} FilterKeepsAll<T>(s: seq<T>, keep: T -> bool)
    requires forall i :: 0 <= i < |s| ==> keep(s[i])
    ensures Filter(s, keep) == s
  {
    if s != [] {
      FilterKeepsAll(s[1..], keep);
    }
  }

  /** Filtering twice with predicates that agree on the kept elements is the
      same as filtering once. */
  lemma {:induction false} FilterSame<T>(s: seq<T>, p: T -> bool, q: T -> bool)
    requires forall i :: 0 <= i < |s| ==> (p(s[i]) <==> q(s[i]))
    ensures Filter(s, p) == Filter(s, q)
  {
    if s != [] {
      FilterSame(s[1..], p, q);
    }
  }

  /** The number of elements of `s` that satisfy `p`, as `s.filter(p).length`. */
  function Count<T>(s: seq<T>, p: T -> bool): nat
  {
    |Filter(s, p)|
  }

  /** Counting over a concatenation adds the counts of the parts. */
  lemma CountConcat<T>(a: seq<T>, b: seq<T>, p: T -> bool)
    ensures Count(a + b, p) == Count(a, p) + Count(b, p)
  {
    FilterConcat(a, b, p);
  }

  /** Elements satisfying `p` and elements satisfying its negation together
      make up the whole sequence. */
  lemma {:induction false} CountSplit<T>(s: seq<T>, p: T -> bool, q: T -> bool)
    requires forall i :: 0 <= i < |s| ==> (q(s[i]) <==> !p(s[i]))
    ensures Count(s, p) + Count(s, q) == |s|
  {
    if s != [] {
      CountSplit(s[1..], p, q);
    }
  }
}
