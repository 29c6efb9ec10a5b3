/** Generic sequence operations shared by the model: the `Array.prototype.filter`,
    `find` and `includes` that the application uses on its lists, with the
    facts about them that the rest of the model relies on. */
module Seqs {

  datatype Option<+T> = None | Some(value: T)

  /** `xs.filter(p)`: the elements satisfying `p`, in their original order. */
  function Filter<T>(p: T -> bool, xs: seq<T>): (r: seq<T>)
    ensures |r| <= |xs|
    ensures forall i :: 0 <= i < |r| ==> r[i] in xs && p(r[i])
    ensures forall i :: 0 <= i < |xs| && p(xs[i]) ==> xs[i] in r
    ensures IsSubsequence(r, xs)
    ensures |r| == Count(p, xs)
  {
    if |xs| == 0 then []
    else if p(xs[0]) then [xs[0]] + Filter(p, xs[1..])
    else Filter(p, xs[1..])
  }

  /** `a` is obtained from `b` by deleting elements, keeping the order of the rest. */
  ghost predicate IsSubsequence<T>(a: seq<T>, b: seq<T>)
    decreases |b|
  {
    if |a| == 0 then true
    else if |b| == 0 then false
    else (a[0] == b[0] && IsSubsequence(a[1..], b[1..])) || IsSubsequence(a, b[1..])
  }

  /** Number of elements satisfying `p`. */
  function Count<T>(p: T -> bool, xs: seq<T>): nat
  {
    if |xs| == 0 then 0
    else (if p(xs[0]) then 1 else 0) + Count(p, xs[1..])
  }

  /** Position of the first element satisfying `p`, or `|xs|` when there is none. */
  function FirstIndex<T>(p: T -> bool, xs: seq<T>): (i: nat)
    ensures i <= |xs|
    ensures i < |xs| ==> p(xs[i])
    ensures forall j :: 0 <= j < i ==> !p(xs[j])
  {
    if |xs| == 0 then 0
    else if p(xs[0]) then 0
    else 1 + FirstIndex(p, xs[1..])
  }

  /** The first index is the one before which nothing satisfies `p`. */
  lemma FirstIndexIs<T>(p: T -> bool, xs: seq<T>, k: nat)
    requires k < |xs| && p(xs[k])
    requires forall j :: 0 <= j < k ==> !p(xs[j])
    ensures FirstIndex(p, xs) == k
  {
  }

  /** `xs.find(p)`: the first element satisfying `p`, or nothing. */
  function Find<T>(p: T -> bool, xs: seq<T>): (r: Option<T>)
    ensures r.None? <==> forall i :: 0 <= i < |xs| ==> !p(xs[i])
    ensures r.Some? ==> r.value == xs[FirstIndex(p, xs)] && p(r.value)
  {
    var i := FirstIndex(p, xs);
    if i < |xs| then Some(xs[i]) else None
  }

  /** Keeping what satisfies `p` and keeping what satisfies its negation `q`
      splits `xs` into two parts that together hold every element exactly as often as `xs` does. */
  lemma {:induction false} FilterPartition<T>(p: T -> bool, q: T -> bool, xs: seq<T>)
    requires forall i :: 0 <= i < |xs| ==> q(xs[i]) == !p(xs[i])
    ensures multiset(Filter(p, xs)) + multiset(Filter(q, xs)) == multiset(xs)
    ensures |Filter(p, xs)| + |Filter(q, xs)| == |xs|
  {
    if |xs| > 0 {
      var x, tl := xs[0], xs[1..];
      FilterPartition(p, q, tl);
      assert xs == [x] + tl;
      if p(x) {
        assert Filter(p, xs) == [x] + Filter(p, tl);
        assert Filter(q, xs) == Filter(q, tl);
      } else {
        assert Filter(p, xs) == Filter(p, tl);
        assert Filter(q, xs) == [x] + Filter(q, tl);
      }
    }
  }

  /** A predicate that holds of every element keeps the whole sequence. */
  lemma {:induction false} FilterAll<T>(p: T -> bool, xs: seq<T>)
    requires forall i :: 0 <= i < |xs| ==> p(xs[i])
    ensures Filter(p, xs) == xs
  {
    if |xs| > 0 {
      FilterAll(p, xs[1..]);
    }
  }

  /** Filtering distributes over concatenation. */
  lemma {:induction false} FilterAppend<T>(p: T -> bool, a: seq<T>, b: seq<T>)
    ensures Filter(p, a + b) == Filter(p, a) + Filter(p, b)
  {
    if |a| == 0 {
      assert a + b == b;
    } else {
      var ab := a + b;
      assert ab[0] == a[0] && ab[1..] == a[1..] + b;
      FilterAppend(p, a[1..], b);
      var rest := Filter(p, a[1..]) + Filter(p, b);
      if p(a[0]) {
        calc {
          Filter(p, ab);
          [a[0]] + Filter(p, ab[1..]);
          [a[0]] + rest;
          { assert [a[0]] + rest == ([a[0]] + Filter(p, a[1..])) + Filter(p, b); }
          Filter(p, a) + Filter(p, b);
        }
      } else {
        calc {
          Filter(p, ab);
          Filter(p, ab[1..]);
          rest;
          Filter(p, a) + Filter(p, b);
        }
      }
    }
  }
}
