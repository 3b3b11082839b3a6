/** Order-preserving sequence helpers behind the replay's pandas idioms: boolean-mask
    row selection and `drop_duplicates`. */
module Seqs {

  /** The elements of `s` that satisfy `p`, in their original order. */
  function Filter<T(!new)>(s: seq<T>, p: T -> bool): (r: seq<T>)
    ensures |r| <= |s|
    ensures forall x :: x in r <==> x in s && p(x)
  {
    if |s| == 0 then [] else (if p(s[0]) then [s[0]] else []) + Filter(s[1..], p)
  }

  /** Selection distributes over concatenation: rows keep their relative order. */
  lemma {:induction false} FilterAppend<T(!new)>(a: seq<T>, b: seq<T>, p: T -> bool)
    ensures Filter(a + b, p) == Filter(a, p) + Filter(b, p)
  {
    if |a| == 0 {
      assert a + b == b;
    } else {
      assert (a + b)[1..] == a[1..] + b;
      FilterAppend(a[1..], b, p);
    }
  }

  /** Selecting again with the same mask changes nothing. */
  lemma {:induction false} FilterIdempotent<T(!new)>(s: seq<T>, p: T -> bool)
    ensures Filter(Filter(s, p), p) == Filter(s, p)
  {
    if |s| > 0 {
      var rest := Filter(s[1..], p);
      FilterIdempotent(s[1..], p);
      if p(s[0]) {
        var r := [s[0]] + rest;
        assert r[0] == s[0] && r[1..] == rest;
      } else {
        assert Filter(s, p) == rest;
      }
    }
  }

  /** The position of the first occurrence of `x`. */
  function FirstIndex<T(==)>(s: seq<T>, x: T): (i: nat)
    requires x in s
    ensures i < |s| && s[i] == x && x !in s[..i]
  {
    var p := s[..|s| - 1];
    if x in p then
      var i := FirstIndex(p, x);
      assert s[..i] == p[..i];
      i
    else
      assert s == p + [s[|s| - 1]];
      |s| - 1
  }

  /** Position `i` holds the last occurrence of its element: no later position
      repeats it. */
  predicate LastAt<T(==)>(s: seq<T>, i: int)
    requires 0 <= i < |s|
  {
    forall j :: i < j < |s| ==> s[j] != s[i]
  }

  /** The position of the last occurrence of `x`: the write to `x` that survives a
      run of dictionary assignments. */
  function LastIndex<T(==)>(s: seq<T>, x: T): (i: nat)
    requires x in s
    ensures i < |s| && s[i] == x && LastAt(s, i)
  {
    var p := s[..|s| - 1];
    if s[|s| - 1] == x then |s| - 1
    else
      assert s == p + [s[|s| - 1]];
      LastIndex(p, x)
  }

  /** Each element once, kept where it first occurs (`drop_duplicates`). */
  function Dedup<T(==,!new)>(s: seq<T>): (r: seq<T>)
    ensures forall x :: x in r <==> x in s
  {
    if |s| == 0 then []
    else
      var p := s[..|s| - 1];
      assert s == p + [s[|s| - 1]];
      var d := Dedup(p);
      if s[|s| - 1] in d then d else d + [s[|s| - 1]]
  }

  /** An element keeps its first index when more elements are appended. */
  lemma FirstIndexOfPrefix<T>(s: seq<T>, x: T)
    requires |s| > 0 && x in s[..|s| - 1]
    ensures FirstIndex(s, x) == FirstIndex(s[..|s| - 1], x)
  {
  }

  /** The de-duplicated list is in first-appearance order, so in particular it has
      no repeated element. */
  lemma {:induction false} DedupFirstAppearanceOrder<T(!new)>(s: seq<T>)
    ensures forall a, b :: 0 <= a < b < |Dedup(s)| ==>
              FirstIndex(s, Dedup(s)[a]) < FirstIndex(s, Dedup(s)[b])
    ensures forall a, b :: 0 <= a < b < |Dedup(s)| ==> Dedup(s)[a] != Dedup(s)[b]
  {
    if |s| > 0 {
      var p := s[..|s| - 1];
      var x := s[|s| - 1];
      var d := Dedup(p);
      DedupFirstAppearanceOrder(p);
      forall y | y in d
        ensures FirstIndex(s, y) == FirstIndex(p, y)
      {
        FirstIndexOfPrefix(s, y);
      }
      if x !in d {
        assert Dedup(s) == d + [x];
        assert FirstIndex(s, x) == |s| - 1;
      }
    }
  }
}
