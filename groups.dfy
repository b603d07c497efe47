/** Counting rows per key, the `groupby(...).size()` the reports use, with the keys
    in first-appearance order. */
module Groups {

  /** Adds one occurrence of `k`: bumps its entry or appends a new one. */
  function Bump<K(==)>(g: seq<(K, nat)>, k: K): (r: seq<(K, nat)>)
    ensures |r| == |g| || |r| == |g| + 1
    decreases |g|
  {
    if g == [] then [(k, 1)]
    else if g[0].0 == k then [(k, g[0].1 + 1)] + g[1..]
    else [g[0]] + Bump(g[1..], k)
  }

  /** One entry per distinct key with its number of occurrences. */
  function Tally<K(==)>(s: seq<K>): seq<(K, nat)>
    decreases |s|
  {
    if s == [] then [] else Bump(Tally(s[..|s| - 1]), s[|s| - 1])
  }

  predicate DistinctKeys<K(==)>(g: seq<(K, nat)>) {
    forall i, j :: 0 <= i < j < |g| ==> g[i].0 != g[j].0
  }

  function SumCounts<K(==)>(g: seq<(K, nat)>): nat
    decreases |g|
  {
    if g == [] then 0 else g[0].1 + SumCounts(g[1..])
  }

  function Keys<K(==)>(g: seq<(K, nat)>): set<K> {
    set i | 0 <= i < |g| :: g[i].0
  }

  lemma DistinctTail<K>(g: seq<(K, nat)>)
    requires g != [] && DistinctKeys(g)
    ensures DistinctKeys(g[1..]) && g[0].0 !in Keys(g[1..])
  {
    var tail := g[1..];
    forall i, j | 0 <= i < j < |tail| ensures tail[i].0 != tail[j].0 {
      assert tail[i] == g[i + 1] && tail[j] == g[j + 1];
    }
    forall i | 0 <= i < |tail| ensures tail[i].0 != g[0].0 {
      assert tail[i] == g[i + 1];
    }
  }

  lemma {:induction false} BumpKeys<K>(g: seq<(K, nat)>, k: K)
    ensures Keys(Bump(g, k)) == Keys(g) + {k}
    decreases |g|
  {
    var r := Bump(g, k);
    if g == [] {
      assert r[0].0 == k;
    } else if g[0].0 == k {
      KeysCons(g[0], g[1..]);
      KeysCons(r[0], g[1..]);
      assert g == [g[0]] + g[1..];
    } else {
      BumpKeys(g[1..], k);
      KeysCons(g[0], g[1..]);
      KeysCons(g[0], Bump(g[1..], k));
      assert g == [g[0]] + g[1..];
    }
  }

  lemma {:induction false} BumpDistinct<K>(g: seq<(K, nat)>, k: K)
    requires DistinctKeys(g)
    ensures DistinctKeys(Bump(g, k))
    decreases |g|
  {
    if g != [] {
      DistinctTail(g);
      var r := Bump(g, k);
      if g[0].0 == k {
        forall i, j | 0 <= i < j < |r| ensures r[i].0 != r[j].0 {
          assert r[j] == g[j];
          if i > 0 {
            assert r[i] == g[i];
          }
        }
      } else {
        BumpDistinct(g[1..], k);
        BumpKeys(g[1..], k);
        var rt := Bump(g[1..], k);
        forall i, j | 0 <= i < j < |r| ensures r[i].0 != r[j].0 {
          assert r[j] == rt[j - 1];
          if i > 0 {
            assert r[i] == rt[i - 1];
          } else {
            assert rt[j - 1].0 in Keys(rt);
          }
        }
      }
    }
  }

  lemma {:induction false} BumpSum<K>(g: seq<(K, nat)>, k: K)
    ensures SumCounts(Bump(g, k)) == SumCounts(g) + 1
    decreases |g|
  {
    if g != [] {
      if g[0].0 == k {
        assert Bump(g, k)[1..] == g[1..];
      } else {
        BumpSum(g[1..], k);
        assert Bump(g, k)[1..] == Bump(g[1..], k);
      }
    }
  }

  lemma {:induction false} BumpCount<K>(g: seq<(K, nat)>, k: K, x: K)
    ensures CountOf(Bump(g, k), x) == CountOf(g, x) + (if x == k then 1 else 0)
    decreases |g|
  {
    if g != [] {
      if g[0].0 == k {
        CountOfCons((k, g[0].1 + 1), g[1..], x);
        CountOfCons(g[0], g[1..], x);
        assert g == [g[0]] + g[1..];
      } else {
        BumpCount(g[1..], k, x);
        CountOfCons(g[0], Bump(g[1..], k), x);
        CountOfCons(g[0], g[1..], x);
        assert g == [g[0]] + g[1..];
      }
    }
  }

  /** The count a key has in a tally; 0 when it is absent. */
  function CountOf<K(==)>(g: seq<(K, nat)>, k: K): nat
    decreases |g|
  {
    if g == [] then 0 else if g[0].0 == k then g[0].1 else CountOf(g[1..], k)
  }

  lemma CountOfCons<K>(e: (K, nat), g: seq<(K, nat)>, k: K)
    ensures CountOf([e] + g, k) == if e.0 == k then e.1 else CountOf(g, k)
  {
    assert ([e] + g)[1..] == g;
  }

  lemma {:induction false} CountOfAt<K>(g: seq<(K, nat)>, i: nat)
    requires DistinctKeys(g) && i < |g|
    ensures CountOf(g, g[i].0) == g[i].1
    decreases i
  {
    if i > 0 {
      DistinctTail(g);
      assert g[1..][i - 1] == g[i];
      assert g[0].0 != g[i].0;
      CountOfAt(g[1..], i - 1);
    }
  }

  lemma KeysCons<K>(e: (K, nat), g: seq<(K, nat)>)
    ensures Keys([e] + g) == {e.0} + Keys(g)
  {
    var r := [e] + g;
    forall x | x in Keys(r) ensures x in {e.0} + Keys(g) {
      var i :| 0 <= i < |r| && r[i].0 == x;
      if i > 0 {
        assert r[i] == g[i - 1];
      }
    }
    forall x | x in Keys(g) ensures x in Keys(r) {
      var i :| 0 <= i < |g| && g[i].0 == x;
      assert r[i + 1] == g[i];
    }
    assert r[0] == e;
  }

  /** The tally lists each key of `s` once, with its true number of occurrences, and
      the counts add up to the length of `s`. */
  lemma TallyFacts<K>(s: seq<K>)
    ensures DistinctKeys(Tally(s))
    ensures Keys(Tally(s)) == set x | x in s
    ensures forall i :: 0 <= i < |Tally(s)| ==> Tally(s)[i].1 == multiset(s)[Tally(s)[i].0]
    ensures forall i :: 0 <= i < |Tally(s)| ==> Tally(s)[i].1 >= 1
    ensures SumCounts(Tally(s)) == |s|
  {
    TallyShape(s);
    var g := Tally(s);
    forall i | 0 <= i < |g| ensures g[i].1 == multiset(s)[g[i].0] && g[i].1 >= 1 {
      CountOfAt(g, i);
      TallyCount(s, g[i].0);
      assert g[i].0 in Keys(g);
    }
  }

  lemma {:induction false} TallyShape<K>(s: seq<K>)
    ensures DistinctKeys(Tally(s))
    ensures Keys(Tally(s)) == set x | x in s
    ensures SumCounts(Tally(s)) == |s|
    decreases |s|
  {
    if s != [] {
      var init, k := s[..|s| - 1], s[|s| - 1];
      assert s == init + [k];
      TallyShape(init);
      BumpDistinct(Tally(init), k);
      BumpKeys(Tally(init), k);
      BumpSum(Tally(init), k);
      assert (set x | x in s) == (set x | x in init) + {k};
    }
  }

  lemma {:induction false} TallyCount<K>(s: seq<K>, x: K)
    ensures CountOf(Tally(s), x) == multiset(s)[x]
    decreases |s|
  {
    if s != [] {
      var init, k := s[..|s| - 1], s[|s| - 1];
      assert s == init + [k];
      TallyCount(init, x);
      BumpCount(Tally(init), k, x);
      assert multiset(s) == multiset(init) + multiset{k};
    }
  }

  lemma {:induction false} CountOfAbsent<K>(g: seq<(K, nat)>, k: K)
    requires k !in Keys(g)
    ensures CountOf(g, k) == 0
    decreases |g|
  {
    if g != [] {
      KeysCons(g[0], g[1..]);
      assert g == [g[0]] + g[1..];
      CountOfAbsent(g[1..], k);
    }
  }

  lemma {:induction false} SumCountsAppend<K>(a: seq<(K, nat)>, b: seq<(K, nat)>)
    ensures SumCounts(a + b) == SumCounts(a) + SumCounts(b)
    decreases |a|
  {
    if a != [] {
      assert (a + b)[1..] == a[1..] + b;
      SumCountsAppend(a[1..], b);
    } else {
      assert a + b == b;
    }
  }

  lemma MultisetCancel<T>(x: multiset<T>, y: multiset<T>, e: T)
    requires x + multiset{e} == y + multiset{e}
    ensures x == y
  {
    assert forall z :: x[z] == (x + multiset{e})[z] - (if z == e then 1 else 0);
  }

  /** Reordering the entries keeps the total. */
  lemma {:induction false} SumCountsPermutation<K>(a: seq<(K, nat)>, b: seq<(K, nat)>)
    requires multiset(a) == multiset(b)
    ensures SumCounts(a) == SumCounts(b)
    decreases |a|
  {
    if a != [] {
      assert a[0] in multiset(b);
      var i :| 0 <= i < |b| && b[i] == a[0];
      var rest := b[..i] + b[i + 1..];
      assert b == b[..i] + [b[i]] + b[i + 1..];
      assert a == [a[0]] + a[1..];
      assert multiset(b) == multiset(b[..i]) + multiset{b[i]} + multiset(b[i + 1..]);
      assert multiset(rest) == multiset(b[..i]) + multiset(b[i + 1..]);
      assert multiset(a) == multiset(a[1..]) + multiset{a[0]};
      assert multiset(b) == multiset(rest) + multiset{a[0]};
      MultisetCancel(multiset(a[1..]), multiset(rest), a[0]);
      assert SumCounts([b[i]]) == b[i].1;
      SumCountsPermutation(a[1..], rest);
      SumCountsAppend(b[..i] + [b[i]], b[i + 1..]);
      SumCountsAppend(b[..i], [b[i]]);
      SumCountsAppend(b[..i], b[i + 1..]);
    }
  }

  /** Reordering the entries keeps the keys and each entry. */
  lemma PermutationKeys<K>(a: seq<(K, nat)>, b: seq<(K, nat)>)
    requires multiset(a) == multiset(b)
    ensures Keys(a) == Keys(b)
    ensures forall i :: 0 <= i < |b| ==> b[i] in a
  {
    forall i | 0 <= i < |b| ensures b[i] in a {
      assert b[i] in multiset(b);
    }
    forall x | x in Keys(a) ensures x in Keys(b) {
      var i :| 0 <= i < |a| && a[i].0 == x;
      assert a[i] in multiset(a);
      var j :| 0 <= j < |b| && b[j] == a[i];
    }
    forall x | x in Keys(b) ensures x in Keys(a) {
      var j :| 0 <= j < |b| && b[j].0 == x;
      assert b[j] in multiset(b);
      var i :| 0 <= i < |a| && a[i] == b[j];
    }
  }

  /** With distinct keys there are as many entries as keys. */
  lemma {:induction false} DistinctKeysCard<K>(g: seq<(K, nat)>)
    requires DistinctKeys(g)
    ensures |Keys(g)| == |g|
    decreases |g|
  {
    if g != [] {
      DistinctTail(g);
      DistinctKeysCard(g[1..]);
      KeysCons(g[0], g[1..]);
      assert g == [g[0]] + g[1..];
    }
  }
}
