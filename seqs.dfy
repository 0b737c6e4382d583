/** Sequence helpers shared by the model: an Option type, duplicate-free
    sequences, first-occurrence indices and first-appearance de-duplication
    (the order pandas' `factorize` and `unique` produce). */
module Seqs {

  datatype Option<T> = None | Some(value: T)

  predicate NoDups<T(==)>(s: seq<T>) {
    forall i, j :: 0 <= i < j < |s| ==> s[i] != s[j]
  }

  /** Position of the first occurrence of `x` in `s`. */
  function IndexOf<T(==)>(s: seq<T>, x: T): (i: nat)
    requires x in s
    ensures i < |s| && s[i] == x && x !in s[..i]
  {
    if s[0] == x then 0
    else
      var j := IndexOf(s[1..], x);
      assert s[..j + 1] == [s[0]] + s[1..][..j];
      1 + j
  }

  /** The first occurrence is the only index with nothing equal before it. */
  lemma IndexOfUnique<T>(s: seq<T>, x: T, i: nat)
    requires i < |s| && s[i] == x && x !in s[..i]
    ensures IndexOf(s, x) == i
  {
    var j := IndexOf(s, x);
    assert s[..i] <= s && s[..j] <= s;
  }

  /** In a sequence without duplicates every element is its own first occurrence. */
  lemma IndexOfNoDups<T>(s: seq<T>, i: nat)
    requires NoDups(s) && i < |s|
    ensures IndexOf(s, s[i]) == i
  {
    IndexOfUnique(s, s[i], i);
  }

  /** Appending an element leaves first occurrences of earlier elements alone. */
  lemma IndexOfAppend<T>(s: seq<T>, y: T, x: T)
    requires x in s
    ensures IndexOf(s + [y], x) == IndexOf(s, x)
  {
    var i := IndexOf(s, x);
    assert (s + [y])[..i] == s[..i];
    IndexOfUnique(s + [y], x, i);
  }

  /** The distinct elements of `xs`, each once, in order of first appearance. */
  function Distinct<T(==,!new)>(xs: seq<T>): (ds: seq<T>)
    ensures NoDups(ds)
    ensures forall x :: x in ds <==> x in xs
    ensures |ds| <= |xs|
    decreases |xs|
  {
    if xs == [] then []
    else
      var front := xs[..|xs| - 1];
      var x := xs[|xs| - 1];
      assert xs == front + [x];
      var d := Distinct(front);
      if x in d then d else d + [x]
  }

  /** A duplicate-free sequence has as many elements as its set. */
  lemma {:induction false} NoDupsCard<T>(s: seq<T>)
    requires NoDups(s)
    ensures |set x | x in s| == |s|
  {
    if s != [] {
      var front := s[..|s| - 1];
      var x := s[|s| - 1];
      assert s == front + [x];
      NoDupsCard(front);
      assert (set y | y in s) == (set y | y in front) + {x};
      assert forall k :: 0 <= k < |front| ==> front[k] == s[k];
    }
  }

  /** `Distinct` keeps exactly one copy of every value: its length is the
      number of different values in the input (pandas' `nunique`). */
  lemma DistinctCountsValues<T(!new)>(xs: seq<T>)
    ensures |Distinct(xs)| == |set x | x in xs|
  {
    var ds := Distinct(xs);
    NoDupsCard(ds);
    assert (set x | x in ds) == (set x | x in xs);
  }

  /** `Distinct` lists values in the order of their first appearance in the
      input: one value comes before another in the output exactly when it
      first appears earlier in the input. */
  lemma {:induction false} DistinctKeepsFirstAppearance<T(!new)>(xs: seq<T>, a: T, b: T)
    requires a in xs && b in xs
    ensures IndexOf(Distinct(xs), a) < IndexOf(Distinct(xs), b)
        <==> IndexOf(xs, a) < IndexOf(xs, b)
    decreases |xs|
  {
    var front := xs[..|xs| - 1];
    var x := xs[|xs| - 1];
    assert xs == front + [x];
    var d := Distinct(front);
    if a in front {
      IndexOfAppend(front, x, a);
    }
    if b in front {
      IndexOfAppend(front, x, b);
    }
    if a in front && b in front {
      DistinctKeepsFirstAppearance(front, a, b);
      if x !in d {
        IndexOfAppend(d, x, a);
        IndexOfAppend(d, x, b);
      }
    } else if a in front {
      // b first appears as the last element
      assert b == x && x !in d;
      IndexOfAppend(d, x, a);
      assert (d + [x])[..|d|] == d;
      IndexOfUnique(d + [x], x, |d|);
      assert (front + [x])[..|front|] == front;
      IndexOfUnique(xs, x, |front|);
    } else if b in front {
      assert a == x && x !in d;
      IndexOfAppend(d, x, b);
      assert (d + [x])[..|d|] == d;
      IndexOfUnique(d + [x], x, |d|);
      assert (front + [x])[..|front|] == front;
      IndexOfUnique(xs, x, |front|);
    }
  }
}
