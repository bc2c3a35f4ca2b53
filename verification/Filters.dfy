/**
 Selecting the elements of a sequence by a verdict passed on each of them. The timer pass over the
 server's channels and the watchdog pass over the client's requests are specified with it.
 */
module Filters {
  import opened Lists

  /** The elements among the first `n` of `s` with verdict `k`, in their order. */
  function SelectFirst<X, K(==)>(s: seq<X>, verdicts: seq<K>, k: K, n: nat): (r: seq<X>)
    requires n <= |s| == |verdicts|
  {
    if n == 0 then []
    else if verdicts[n - 1] == k then SelectFirst(s, verdicts, k, n - 1) + [s[n - 1]]
    else SelectFirst(s, verdicts, k, n - 1)
  }

  /** The elements of `s` with verdict `k`, in their order. */
  function Select<X, K(==)>(s: seq<X>, verdicts: seq<K>, k: K): (r: seq<X>)
    requires |s| == |verdicts|
  {
    SelectFirst(s, verdicts, k, |s|)
  }

  /** The positions below `n` at which the verdict is `k`, in ascending order. */
  function Positions<K(==)>(verdicts: seq<K>, k: K, n: nat): (ps: seq<nat>)
    requires n <= |verdicts|
  {
    if n == 0 then []
    else if verdicts[n - 1] == k then Positions(verdicts, k, n - 1) + [n - 1]
    else Positions(verdicts, k, n - 1)
  }

  /** Exactly the positions with that verdict occur, each once and in order. */
  lemma {:induction false} PositionsExact<K>(verdicts: seq<K>, k: K, n: nat)
    requires n <= |verdicts|
    ensures forall i :: i in Positions(verdicts, k, n) <==> 0 <= i < n && verdicts[i] == k
    ensures forall i, j :: 0 <= i < j < |Positions(verdicts, k, n)| ==> Positions(verdicts, k, n)[i] < Positions(verdicts, k, n)[j]
  {
    if n == 0 {
    } else {
      PositionsExact(verdicts, k, n - 1);
      var ps := Positions(verdicts, k, n - 1);
      forall i | 0 <= i < |ps|
        ensures ps[i] < n - 1
      {
        assert ps[i] in ps;
      }
    }
  }

  /** The selection holds, in order, the elements at exactly those positions. */
  lemma {:induction false} SelectExact<X, K>(s: seq<X>, verdicts: seq<K>, k: K, n: nat)
    requires n <= |s| == |verdicts|
    ensures |SelectFirst(s, verdicts, k, n)| == |Positions(verdicts, k, n)|
    ensures forall i :: 0 <= i < |Positions(verdicts, k, n)| ==>
      Positions(verdicts, k, n)[i] < |s| && SelectFirst(s, verdicts, k, n)[i] == s[Positions(verdicts, k, n)[i]]
  {
    if n == 0 {
    } else {
      SelectExact(s, verdicts, k, n - 1);
    }
  }

  /** An element is selected exactly when some position holds it with that verdict. */
  lemma SelectMembers<X, K>(s: seq<X>, verdicts: seq<K>, k: K, x: X)
    requires |s| == |verdicts|
    ensures x in Select(s, verdicts, k) <==> exists i :: 0 <= i < |s| && s[i] == x && verdicts[i] == k
  {
    PositionsExact(verdicts, k, |s|);
    SelectExact(s, verdicts, k, |s|);
    var ps, r := Positions(verdicts, k, |s|), Select(s, verdicts, k);
    if x in r {
      var i :| 0 <= i < |r| && r[i] == x;
      assert ps[i] in ps && s[ps[i]] == x;
    }
    if i :| 0 <= i < |s| && s[i] == x && verdicts[i] == k {
      assert i in ps;
      var j :| 0 <= j < |ps| && ps[j] == i;
      assert r[j] == x;
    }
  }

  /** Selecting from a sequence without repetition gives one without repetition. */
  lemma SelectDistinct<X, K>(s: seq<X>, verdicts: seq<K>, k: K)
    requires |s| == |verdicts|
    requires forall i, j :: 0 <= i < j < |s| ==> s[i] != s[j]
    ensures forall i, j :: 0 <= i < j < |Select(s, verdicts, k)| ==> Select(s, verdicts, k)[i] != Select(s, verdicts, k)[j]
  {
    PositionsExact(verdicts, k, |s|);
    SelectExact(s, verdicts, k, |s|);
  }

  /** A list from which a pass over its first `p` elements has taken out those without verdict `k`. */
  function Remaining<X, K(==)>(s: seq<X>, verdicts: seq<K>, k: K, p: nat): seq<X>
    requires p <= |s| == |verdicts|
  {
    SelectFirst(s, verdicts, k, p) + s[p..]
  }

  /** The next element stands right after the kept ones; the pass keeps it or takes it out there. */
  lemma RemainingStep<X, K>(s: seq<X>, verdicts: seq<K>, k: K, p: nat)
    requires p < |s| == |verdicts|
    ensures var r, n := Remaining(s, verdicts, k, p), |SelectFirst(s, verdicts, k, p)|;
      && n < |r| && r[n] == s[p]
      && Remaining(s, verdicts, k, p + 1) == (if verdicts[p] == k then r else RemoveAt(r, n))
      && |SelectFirst(s, verdicts, k, p + 1)| == (if verdicts[p] == k then n + 1 else n)
  {
    var kept := SelectFirst(s, verdicts, k, p);
    if verdicts[p] == k {
      assert (kept + [s[p]]) + s[p + 1..] == kept + s[p..];
    } else {
      assert RemoveAt(kept + s[p..], |kept|) == kept + s[p + 1..];
    }
  }

  lemma RemainingAll<X, K>(s: seq<X>, verdicts: seq<K>, k: K)
    requires |s| == |verdicts|
    ensures Remaining(s, verdicts, k, 0) == s
    ensures Remaining(s, verdicts, k, |s|) == Select(s, verdicts, k)
  {
    assert SelectFirst(s, verdicts, k, |s|) + s[|s|..] == SelectFirst(s, verdicts, k, |s|);
  }
}
