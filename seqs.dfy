/**
 * Order-preserving filtering and counting over sequences: the `Array.prototype.filter`
 * and `filter(...).length` that the grid, the repetition editor and the legacy grid
 * all use. Both recurse on the prefix, as a left-to-right scan does.
 */
module Seqs {

  /** The elements of `s` that satisfy `keep`, in their original order. */
  function Filter<T(!new)>(s: seq<T>, keep: T -> bool): (r: seq<T>)
    ensures |r| <= |s|
    ensures forall x :: x in r <==> x in s && keep(x)
  {
    if s == [] then []
    else
      var init := s[..|s| - 1];
      assert s == init + [s[|s| - 1]];
      Filter(init, keep) + (if keep(s[|s| - 1]) then [s[|s| - 1]] else [])
  }

  /** How many elements of `s` satisfy `test`. */
  function Count<T(!new)>(s: seq<T>, test: T -> bool): (n: nat)
    ensures n <= |s|
    ensures n == 0 <==> forall x :: x in s ==> !test(x)
  {
    if s == [] then 0
    else
      var init := s[..|s| - 1];
      assert s == init + [s[|s| - 1]];
      Count(init, test) + (if test(s[|s| - 1]) then 1 else 0)
  }

  /** Filtering a concatenation filters each part: the kept elements stay in order. */
  lemma {:induction false} FilterConcat<T(!new)>(a: seq<T>, b: seq<T>, keep: T -> bool)
    ensures Filter(a + b, keep) == Filter(a, keep) + Filter(b, keep)
  {
    if b == [] {
      assert a + b == a;
    } else {
      var init := b[..|b| - 1];
      assert (a + b)[..|a + b| - 1] == a + init;
      assert (a + b)[|a + b| - 1] == b[|b| - 1];
      FilterConcat(a, init, keep);
    }
  }

  /** An element that fails the test leaves no trace in the filtered sequence. */
  lemma FilterSkip<T(!new)>(a: seq<T>, x: T, b: seq<T>, keep: T -> bool)
    requires !keep(x)
    ensures Filter(a + [x] + b, keep) == Filter(a + b, keep)
  {
    assert Filter([x], keep) == [] by {
      assert [x][..0] == [];
    }
    FilterConcat(a, [x], keep);
    assert Filter(a + [x], keep) == Filter(a, keep);
    FilterConcat(a + [x], b, keep);
    FilterConcat(a, b, keep);
  }

  /** Filtering keeps everything when every element passes. */
  lemma {:induction false} FilterAll<T(!new)>(s: seq<T>, keep: T -> bool)
    requires forall x :: x in s ==> keep(x)
    ensures Filter(s, keep) == s
  {
    if s != [] {
      var init := s[..|s| - 1];
      assert s == init + [s[|s| - 1]];
      assert forall x :: x in init ==> x in s;
      FilterAll(init, keep);
    }
  }

  /** Filtering keeps nothing when every element fails. */
  lemma {:induction false} FilterNone<T(!new)>(s: seq<T>, keep: T -> bool)
    requires forall x :: x in s ==> !keep(x)
    ensures Filter(s, keep) == []
  {
    if s != [] {
      var init := s[..|s| - 1];
      assert s == init + [s[|s| - 1]];
      assert forall x :: x in init ==> x in s;
      FilterNone(init, keep);
    }
  }

  /** The number of kept elements is the count of elements that pass. */
  lemma {:induction false} FilterLength<T(!new)>(s: seq<T>, keep: T -> bool)
    ensures |Filter(s, keep)| == Count(s, keep)
  {
    if s != [] {
      FilterLength(s[..|s| - 1], keep);
    }
  }

  /** Replacing one element changes the count by what that element contributed. */
  lemma {:induction false} CountUpdate<T(!new)>(s: seq<T>, i: nat, x: T, test: T -> bool)
    requires i < |s|
    ensures Count(s[i := x], test)
            == Count(s, test) - (if test(s[i]) then 1 else 0) + (if test(x) then 1 else 0)
  {
    var t := s[i := x];
    var n := |s| - 1;
    assert Count(t, test) == Count(t[..n], test) + (if test(t[n]) then 1 else 0);
    assert Count(s, test) == Count(s[..n], test) + (if test(s[n]) then 1 else 0);
    if i < n {
      assert t[..n] == s[..n][i := x] && t[n] == s[n];
      CountUpdate(s[..n], i, x, test);
    } else {
      assert t[..n] == s[..n];
    }
  }

  /** The count reaches the length exactly when every element passes. */
  lemma {:induction false} CountAllPass<T(!new)>(s: seq<T>, test: T -> bool)
    ensures Count(s, test) == |s| <==> forall x :: x in s ==> test(x)
  {
    if s != [] {
      var init := s[..|s| - 1];
      assert s == init + [s[|s| - 1]];
      CountAllPass(init, test);
      assert forall x :: x in s ==> x in init || x == s[|s| - 1];
    }
  }

  /** A stricter test never counts more elements. */
  lemma {:induction false} CountMonotone<T(!new)>(s: seq<T>, stricter: T -> bool, looser: T -> bool)
    requires forall x :: stricter(x) ==> looser(x)
    ensures Count(s, stricter) <= Count(s, looser)
  {
    if s != [] {
      CountMonotone(s[..|s| - 1], stricter, looser);
    }
  }
}
