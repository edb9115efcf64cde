/** Sums of multisets, reversed sequences, sizes of sets. */
module Collections {

  function Sum(ms: seq<multiset<int>>): multiset<int> {
    if ms == [] then multiset{} else ms[0] + Sum(ms[1..])
  }

  lemma {:induction false} SumUpdate(ms: seq<multiset<int>>, i: nat, m: multiset<int>)
    requires i < |ms|
    ensures Sum(ms[i := m]) + ms[i] == Sum(ms) + m
  {
    if i == 0 {
      assert ms[0 := m][1..] == ms[1..];
    } else {
      assert ms[i := m][1..] == ms[1..][i - 1 := m];
      SumUpdate(ms[1..], i - 1, m);
      AddBoth(ms[0], Sum(ms[1..][i - 1 := m]), ms[i], Sum(ms[1..]), m);
    }
  }

  lemma AddBoth(h: multiset<int>, a: multiset<int>, b: multiset<int>, c: multiset<int>, d: multiset<int>)
    requires a + b == c + d
    ensures h + a + b == h + c + d
  {
    assert h + a + b == h + (a + b);
    assert h + c + d == h + (c + d);
  }

  lemma {:induction false} SumHas(ms: seq<multiset<int>>, p: int) returns (i: nat)
    requires Sum(ms)[p] > 0
    ensures i < |ms| && ms[i][p] > 0
  {
    if ms[0][p] > 0 {
      i := 0;
    } else {
      var k := SumHas(ms[1..], p);
      i := k + 1;
    }
  }

  lemma {:induction false} SumBound(ms: seq<multiset<int>>, i: nat, p: int)
    requires i < |ms|
    ensures ms[i][p] <= Sum(ms)[p]
  {
    if i > 0 {
      SumBound(ms[1..], i - 1, p);
    }
  }

  lemma {:induction false} SumPair(ms: seq<multiset<int>>, i: nat, j: nat, p: int)
    requires i < j < |ms|
    ensures ms[i][p] + ms[j][p] <= Sum(ms)[p]
  {
    if i == 0 {
      SumBound(ms[1..], j - 1, p);
    } else {
      SumPair(ms[1..], i - 1, j - 1, p);
    }
  }

  lemma {:induction false} SumSnoc(ms: seq<multiset<int>>, m: multiset<int>)
    ensures Sum(ms + [m]) == Sum(ms) + m
  {
    if ms != [] {
      assert (ms + [m])[1..] == ms[1..] + [m];
      SumSnoc(ms[1..], m);
      assert ms[0] + (Sum(ms[1..]) + m) == (ms[0] + Sum(ms[1..])) + m;
    } else {
      assert [m][1..] == [];
    }
  }

  /** What one part of a whole loses to another does not change their sum. */
  lemma Balance(p: multiset<int>, p': multiset<int>, a: multiset<int>, a': multiset<int>, m: multiset<int>,
                m': multiset<int>)
    requires a' + p' == a + p && m' + a == m + a'
    ensures p' + m' == p + m
  {
    forall x
      ensures (p' + m')[x] == (p + m)[x]
    {
      assert (a' + p')[x] == (a + p)[x] && (m' + a)[x] == (m + a')[x];
    }
  }

  ghost predicate NoDup(ms: multiset<int>) {
    forall p :: ms[p] <= 1
  }

  function Reversed<T>(s: seq<T>): seq<T> {
    if s == [] then [] else [s[|s| - 1]] + Reversed(s[..|s| - 1])
  }

  lemma ReversedStep<T>(s: seq<T>, k: nat, tail: seq<T>)
    requires k < |s|
    ensures Reversed(s[..k + 1]) + tail == [s[k]] + (Reversed(s[..k]) + tail)
  {
    assert s[..k + 1][..k] == s[..k];
  }

  lemma {:induction false} ReversedConserves(s: seq<int>)
    ensures multiset(Reversed(s)) == multiset(s)
  {
    if s != [] {
      ReversedConserves(s[..|s| - 1]);
      assert s == s[..|s| - 1] + [s[|s| - 1]];
    }
  }

  lemma SubsetSize(a: set<int>, b: set<int>)
    requires a <= b
    ensures |a| <= |b|
  {
    assert b == a + (b - a);
  }
}
