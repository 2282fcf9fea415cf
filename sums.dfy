/**
  The total of all balances held in a ledger, used to state which
  operations conserve money and which destroy it.
 */
module Sums {

  /** Sum of m's values over the keys ks. */
  ghost function SumOver(m: map<string, int>, ks: set<string>): int
    requires ks <= m.Keys
    decreases ks
  {
    if ks == {} then 0
    else
      var k :| k in ks;
      m[k] + SumOver(m, ks - {k})
  }

  /** Sum of all balances in m. */
  ghost function Total(m: map<string, int>): int
  {
    SumOver(m, m.Keys)
  }

  /** Any key of ks can be split off the sum, whichever key SumOver happened to pick. */
  lemma {:induction false} SumOverRemove(m: map<string, int>, ks: set<string>, k: string)
    requires ks <= m.Keys && k in ks
    ensures SumOver(m, ks) == m[k] + SumOver(m, ks - {k})
    decreases ks
  {
    var j :| j in ks && SumOver(m, ks) == m[j] + SumOver(m, ks - {j});
    if j != k {
      SumOverRemove(m, ks - {j}, k);
      SumOverRemove(m, ks - {k}, j);
      assert ks - {j} - {k} == ks - {k} - {j};
    }
  }

  /** Two maps that agree on ks have the same sum over ks. */
  lemma {:induction false} SumOverAgree(m1: map<string, int>, m2: map<string, int>, ks: set<string>)
    requires ks <= m1.Keys && ks <= m2.Keys
    requires forall k :: k in ks ==> m1[k] == m2[k]
    ensures SumOver(m1, ks) == SumOver(m2, ks)
    decreases ks
  {
    if ks != {} {
      var k :| k in ks && SumOver(m1, ks) == m1[k] + SumOver(m1, ks - {k});
      SumOverRemove(m2, ks, k);
      SumOverAgree(m1, m2, ks - {k});
    }
  }

  /** Replacing one existing balance changes the total by exactly the difference. */
  lemma TotalUpdate(m: map<string, int>, k: string, v: int)
    requires k in m
    ensures Total(m[k := v]) == Total(m) - m[k] + v
  {
    var m' := m[k := v];
    assert m'.Keys == m.Keys;
    SumOverRemove(m, m.Keys, k);
    SumOverRemove(m', m.Keys, k);
    SumOverAgree(m, m', m.Keys - {k});
  }

  /** Sum of a sequence of amounts. */
  function SumSeq(s: seq<int>): int
    decreases |s|
  {
    if |s| == 0 then 0 else SumSeq(s[..|s| - 1]) + s[|s| - 1]
  }

  /** Any element can be taken out of the sum. */
  lemma {:induction false} SumSeqRemove(s: seq<int>, i: nat)
    requires i < |s|
    ensures SumSeq(s) == s[i] + SumSeq(s[..i] + s[i + 1..])
    decreases |s|
  {
    var n := |s|;
    if i == n - 1 {
      assert s[..i] + s[i + 1..] == s[..n - 1];
    } else {
      var t := s[..n - 1];
      SumSeqRemove(t, i);
      var u := s[..i] + s[i + 1..];
      assert u[..n - 2] == t[..i] + t[i + 1..];
      assert u[n - 2] == s[n - 1];
    }
  }

  /** A sum does not depend on the order of its terms. */
  lemma {:induction false} SumSeqPermutation(a: seq<int>, c: seq<int>)
    requires multiset(a) == multiset(c)
    ensures SumSeq(a) == SumSeq(c)
    decreases |a|
  {
    if |a| == 0 {
      assert |multiset(c)| == 0;
    } else {
      var n := |a|;
      var x := a[n - 1];
      assert a == a[..n - 1] + [x];
      assert x in multiset(c);
      var i :| 0 <= i < |c| && c[i] == x;
      assert c == c[..i] + [c[i]] + c[i + 1..];
      var rest := c[..i] + c[i + 1..];
      assert multiset(rest) == multiset(c) - multiset{x};
      assert multiset(a[..n - 1]) == multiset(a) - multiset{x};
      SumSeqPermutation(a[..n - 1], rest);
      SumSeqRemove(c, i);
    }
  }
}
