/** `iter().filter_map(f).collect()` over a sequence, and the positions of the
    elements it keeps. Both backends and the startup loop are filters of this kind. */
module Selection {
  import opened Wrappers

  /** The `Some` values of `f` over `s`, in the order of `s`. */
  function FilterMap<T, U>(s: seq<T>, f: T -> Option<U>): (r: seq<U>)
    ensures |r| <= |s|
  {
    if s == [] then []
    else (match f(s[0]) case Some(u) => [u] case None => []) + FilterMap(s[1..], f)
  }

  /** The indices `i` of `s` at which `f(s[i])` is `Some`, in increasing order. */
  function Positions<T, U>(s: seq<T>, f: T -> Option<U>): (ix: seq<nat>)
    ensures forall k :: 0 <= k < |ix| ==> ix[k] < |s| && f(s[ix[k]]).Some?
    ensures forall k, l :: 0 <= k < l < |ix| ==> ix[k] < ix[l]
    ensures forall i :: 0 <= i < |s| && f(s[i]).Some? ==> i in ix
  {
    if s == [] then []
    else
      var n := |s| - 1;
      var rest := Positions(s[..n], f);
      assert forall i :: 0 <= i < n ==> s[..n][i] == s[i];
      rest + (if f(s[n]).Some? then [n] else [])
  }

  /** The k-th value kept is `f` of the element at the k-th kept position:
      nothing is dropped, nothing is added, and the order of `s` is kept. */
  lemma {:induction false} FilterMapAt<T, U>(s: seq<T>, f: T -> Option<U>)
    ensures |FilterMap(s, f)| == |Positions(s, f)|
    ensures forall k :: 0 <= k < |Positions(s, f)| ==>
              Some(FilterMap(s, f)[k]) == f(s[Positions(s, f)[k]])
  {
    if s != [] {
      var n := |s| - 1;
      FilterMapAt(s[..n], f);
      assert s == s[..n] + [s[n]];
      FilterMapSnoc(s[..n], s[n], f);
      forall k | 0 <= k < |Positions(s[..n], f)|
        ensures s[..n][Positions(s[..n], f)[k]] == s[Positions(s[..n], f)[k]]
      {
      }
    }
  }

  /** Appending one element appends at most its own image: what the loops that
      `push` into a vector keep as their invariant. */
  lemma {:induction false} FilterMapSnoc<T, U>(s: seq<T>, x: T, f: T -> Option<U>)
    ensures FilterMap(s + [x], f) ==
            FilterMap(s, f) + (match f(x) case Some(u) => [u] case None => [])
  {
    if s == [] {
      assert [x][1..] == [];
    } else {
      assert (s + [x])[1..] == s[1..] + [x];
      FilterMapSnoc(s[1..], x, f);
    }
  }
}
