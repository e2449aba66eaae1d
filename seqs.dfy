/** Order-preserving sequence operations shared by the backend and the page:
    a filter (a Python list comprehension with a condition, JavaScript's
    `Array.prototype.filter`) and an element-wise map (`Array.prototype.map`). */
module Seqs {

  /** The elements of `s` that satisfy `keep`, in their original order. */
  function Filter<T(!new)>(s: seq<T>, keep: T -> bool): (r: seq<T>)
    ensures |r| <= |s|
    ensures forall x :: x in r <==> x in s && keep(x)
    decreases |s|
  {
    if s == [] then []
    else if keep(s[0]) then [s[0]] + Filter(s[1..], keep)
    else Filter(s[1..], keep)
  }

  /** `f` applied to every element, position by position. */
  function Map<T, U>(s: seq<T>, f: T -> U): (r: seq<U>)
    ensures |r| == |s|
    ensures forall i :: 0 <= i < |s| ==> r[i] == f(s[i])
  {
    seq(|s|, i requires 0 <= i < |s| => f(s[i]))
  }

  /** Filtering distributes over concatenation: what survives of a prefix comes
      before what survives of the rest, so the relative order is kept. */
  lemma {:induction false} FilterConcat<T(!new)>(a: seq<T>, b: seq<T>, keep: T -> bool)
    ensures Filter(a + b, keep) == Filter(a, keep) + Filter(b, keep)
    decreases |a|
  {
    if a == [] {
      assert a + b == b;
    } else {
      assert (a + b)[0] == a[0];
      assert (a + b)[1..] == a[1..] + b;
      FilterConcat(a[1..], b, keep);
    }
  }

  /** Nothing is dropped exactly when every element is kept, and then the
      sequence comes back unchanged. */
  lemma {:induction false} FilterKeepsAllIff<T(!new)>(s: seq<T>, keep: T -> bool)
    ensures |Filter(s, keep)| == |s| <==> forall i :: 0 <= i < |s| ==> keep(s[i])
    ensures (forall i :: 0 <= i < |s| ==> keep(s[i])) ==> Filter(s, keep) == s
    decreases |s|
  {
    if s != [] {
      FilterKeepsAllIff(s[1..], keep);
      assert forall i :: 1 <= i < |s| ==> s[i] == s[1..][i - 1];
      if keep(s[0]) {
        assert (forall i :: 0 <= i < |s| ==> keep(s[i])) <==> (forall i :: 0 <= i < |s| - 1 ==> keep(s[1..][i]));
      } else {
        assert |Filter(s[1..], keep)| <= |s| - 1;
      }
    }
  }

  /** Mapping also distributes over concatenation. */
  lemma MapConcat<T, U>(a: seq<T>, b: seq<T>, f: T -> U)
    ensures Map(a + b, f) == Map(a, f) + Map(b, f)
  {
  }

  /** Filtering before or after a map gives the same result when the two
      conditions agree through `f`. */
  lemma {:induction false} MapFilterCommute<T(!new), U(!new)>(s: seq<T>, f: T -> U, keepT: T -> bool, keepU: U -> bool)
    requires forall x :: keepT(x) == keepU(f(x))
    ensures Map(Filter(s, keepT), f) == Filter(Map(s, f), keepU)
    decreases |s|
  {
    if s != [] {
      MapFilterCommute(s[1..], f, keepT, keepU);
      assert s == [s[0]] + s[1..];
      MapConcat([s[0]], s[1..], f);
      var m := Map(s, f);
      assert m[0] == f(s[0]);
      assert m[1..] == Map(s[1..], f);
      if keepT(s[0]) {
        MapConcat([s[0]], Filter(s[1..], keepT), f);
      }
    }
  }
}
