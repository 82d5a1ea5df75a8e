/** The sequence operations a table query is built from: keep the rows that
    match (`where`), reverse the creation order (`orderBy: desc`), keep a
    prefix (`take`), and pick the first match (`findFirst`). */
module Seqs {
  import opened Common

  /** The elements of `s` that satisfy `keep`, in their original order. */
  function Filter<T>(s: seq<T>, keep: T -> bool): (r: seq<T>)
    ensures |r| <= |s|
    ensures forall i :: 0 <= i < |r| ==> r[i] in s && keep(r[i])
    ensures forall j :: 0 <= j < |s| && keep(s[j]) ==> s[j] in r
  {
    if s == [] then []
    else if keep(s[0]) then [s[0]] + Filter(s[1..], keep)
    else Filter(s[1..], keep)
  }

  /** Appending to the table appends to every filtered view that keeps the
      new element, and leaves the others as they were. */
  lemma {:induction false} FilterAppend<T>(s: seq<T>, x: T, keep: T -> bool)
    ensures Filter(s + [x], keep) == Filter(s, keep) + (if keep(x) then [x] else [])
  {
    if s == [] {
      assert [] + [x] == [x];
    } else {
      assert (s + [x])[1..] == s[1..] + [x];
      FilterAppend(s[1..], x, keep);
    }
  }

  /** Nothing is kept when no element qualifies. */
  lemma FilterNone<T>(s: seq<T>, keep: T -> bool)
    requires forall i :: 0 <= i < |s| ==> !keep(s[i])
    ensures Filter(s, keep) == []
  {
  }

  /** `s` in the opposite order: element `i` of the result is element
      `n-1-i` of `s`. */
  function Reverse<T>(s: seq<T>): (r: seq<T>)
    ensures |r| == |s|
    ensures forall i {:trigger r[i]} :: 0 <= i < |s| ==> r[i] == s[|s| - 1 - i]
  {
    seq(|s|, i requires 0 <= i < |s| => s[|s| - 1 - i])
  }

  /** Reversing twice gives the sequence back. */
  lemma ReverseInvolution<T>(s: seq<T>)
    ensures Reverse(Reverse(s)) == s
  {
    var r := Reverse(Reverse(s));
    assert forall i :: 0 <= i < |s| ==> r[i] == Reverse(s)[|s| - 1 - i];
  }

  /** The first `n` elements of `s`, or all of them if there are fewer. */
  function Take<T>(s: seq<T>, n: nat): (r: seq<T>)
    ensures |r| == if |s| < n then |s| else n
    ensures r == s[..|r|]
  {
    if |s| <= n then s else s[..n]
  }

  /** The first element of `s` that satisfies `keep`, if any. */
  function First<T(==)>(s: seq<T>, keep: T -> bool): (r: Option<T>)
    ensures r.None? <==> forall i :: 0 <= i < |s| ==> !keep(s[i])
    ensures r.Some? ==> exists i :: 0 <= i < |s| && r.value == s[i] && keep(s[i])
                                   && forall j :: 0 <= j < i ==> !keep(s[j])
  {
    if s == [] then None
    else if keep(s[0]) then Some(s[0])
    else
      var r := First(s[1..], keep);
      assert forall i :: 0 < i < |s| ==> s[i] == s[1..][i - 1];
      if r.Some? then
        var i :| 0 <= i < |s[1..]| && r.value == s[1..][i] && keep(s[1..][i])
                 && forall j :: 0 <= j < i ==> !keep(s[1..][j]);
        assert r.value == s[i + 1] && forall j :: 0 <= j < i + 1 ==> !keep(s[j]);
        r
      else
        r
  }

  /** The newest `n` elements of `s` (`orderBy: desc, take: n`), put back in
      their original order, are exactly the last `min(n, |s|)` elements. */
  lemma NewestInOrder<T>(s: seq<T>, n: nat)
    ensures Reverse(Take(Reverse(s), n)) == s[|s| - (if |s| < n then |s| else n)..]
  {
    var k := if |s| < n then |s| else n;
    var w := Reverse(Take(Reverse(s), n));
    forall i | 0 <= i < k ensures |w| == k && w[i] == s[|s| - k + i] {
      NewestAt(s, n, k, i);
    }
  }

  lemma NewestAt<T>(s: seq<T>, n: nat, k: nat, i: nat)
    requires k == if |s| < n then |s| else n
    requires i < k
    ensures |Reverse(Take(Reverse(s), n))| == k
    ensures Reverse(Take(Reverse(s), n))[i] == s[|s| - k + i]
  {
    var t := Take(Reverse(s), n);
    assert t[k - 1 - i] == Reverse(s)[k - 1 - i];
  }
}
