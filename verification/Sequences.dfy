/** Lists searched from the front, with one element taken out, and put together. */
module Sequences {
  import opened Wrappers

  /** The first element with the property. */
  function First<T>(s: seq<T>, p: T -> bool): (r: Option<nat>)
    ensures r.Some? ==> r.value < |s| && p(s[r.value])
    ensures r.Some? ==> forall i :: 0 <= i < r.value ==> !p(s[i])
    ensures r.None? ==> forall i :: 0 <= i < |s| ==> !p(s[i])
  {
    if s == [] then None
    else
      var n := |s| - 1;
      var r := First(s[..n], p);
      if r.Some? then r else if p(s[n]) then Some(n) else None
  }

  function RemoveAt<T>(s: seq<T>, i: nat): seq<T>
    requires i < |s|
  {
    s[..i] + s[i + 1..]
  }

  lemma SplitLast<T>(s: seq<T>)
    requires s != []
    ensures s[..|s| - 1] + [s[|s| - 1]] == s
  {
  }

  lemma NothingBehind<T>(a: seq<T>)
    ensures a + [] == a
  {
  }

  lemma Assoc<T>(a: seq<T>, b: seq<T>, c: seq<T>)
    ensures (a + b) + c == a + (b + c)
  {
  }

  lemma DropThenAppend<T>(s: seq<T>, b: seq<T>, k: nat)
    requires k <= |s|
    ensures s[k..] + b == (s + b)[k..]
  {
  }

  lemma DropTwice<T>(s: seq<T>, k: nat, n: nat)
    requires k + n <= |s|
    ensures s[k..][n..] == s[k + n..]
  {
  }

  /** A slice that is two pieces put together. */
  lemma SliceOfTwo<T>(b: seq<T>, off: nat, end: nat, x: seq<T>, y: seq<T>)
    requires off <= end <= |b| && b[off..end] == x + y
    ensures off + |x| + |y| == end && b[off..off + |x|] == x && b[off + |x|..end] == y
  {
    var all := b[off..end];
    assert all[..|x|] == x && all[|x|..] == y;
  }

  /** The parts of three pieces put together. */
  lemma ThreeParts<T>(a: seq<T>, b: seq<T>, c: seq<T>, n: nat)
    requires n <= |b|
    ensures (a + b + c)[..|a|] == a && (a + b + c)[|a|..|a| + n] == b[..n] && (a + b + c)[|a| + |b|..] == c
  {
  }

  lemma RemoveBefore<T>(s: seq<T>, b: seq<T>, k: nat)
    requires k < |s|
    ensures RemoveAt(s + b, k) == RemoveAt(s, k) + b
  {
  }

  lemma SliceOfFront<T>(a: seq<T>, b: seq<T>, i: nat, j: nat)
    requires i <= j <= |a|
    ensures (a + b)[i..j] == a[i..j]
  {
  }
}
