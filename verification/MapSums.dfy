/** Sums over the values of a finite map. */
module MapSums {

  ghost function Sum<K>(m: map<K, int>): int {
    if m == map[] then 0
    else
      var k :| k in m;
      m[k] + Sum(m - {k})
  }

  /** The sum does not depend on which key is taken first. */
  lemma {:induction false} SumRemove<K>(m: map<K, int>, k: K)
    requires k in m
    ensures Sum(m) == m[k] + Sum(m - {k})
    decreases |m|
  {
    var j :| j in m && Sum(m) == m[j] + Sum(m - {j});
    if j != k {
      SumRemove(m - {j}, k);
      SumRemove(m - {k}, j);
      assert m - {j} - {k} == m - {k} - {j};
    }
  }

  lemma SumUpdate<K>(m: map<K, int>, k: K, v: int)
    ensures Sum(m[k := v]) == Sum(m) - (if k in m then m[k] else 0) + v
  {
    SumRemove(m[k := v], k);
    if k in m {
      SumRemove(m, k);
      assert m[k := v] - {k} == m - {k};
    } else {
      assert m[k := v] - {k} == m;
    }
  }

  lemma {:induction false} SumNonNegative<K>(m: map<K, int>)
    requires forall k <- m :: m[k] >= 0
    ensures Sum(m) >= 0
    decreases |m|
  {
    if m != map[] {
      var k :| k in m && Sum(m) == m[k] + Sum(m - {k});
      SumNonNegative(m - {k});
    }
  }

  /** The values at a list of keys, added up in order. */
  ghost function SumSeq<K>(keys: seq<K>, m: map<K, int>): int
    requires forall k <- keys :: k in m
  {
    if keys == [] then 0 else m[keys[0]] + SumSeq(keys[1..], m)
  }

  ghost predicate Distinct<K>(keys: seq<K>) {
    forall i, j :: 0 <= i < j < |keys| ==> keys[i] != keys[j]
  }

  lemma {:induction false} SumSeqWithout<K>(keys: seq<K>, m: map<K, int>, k: K)
    requires forall x <- keys :: x in m
    requires k !in keys
    ensures SumSeq(keys, m) == SumSeq(keys, m - {k})
  {
    if keys != [] {
      SumSeqWithout(keys[1..], m, k);
    }
  }

  /** A list of as many distinct keys as the map has adds up the whole map, and names every key. */
  lemma {:induction false} DistinctKeysCover<K>(keys: seq<K>, m: map<K, int>)
    requires Distinct(keys) && |keys| == |m|
    requires forall x <- keys :: x in m
    ensures SumSeq(keys, m) == Sum(m)
    ensures forall k <- m :: k in keys
    decreases |m|
  {
    if keys == [] {
      assert m == map[];
    } else {
      var k, rest := keys[0], keys[1..];
      var m' := m - {k};
      assert m'.Keys == m.Keys - {k};
      forall x <- rest ensures x in m' {
        var i :| 0 <= i < |rest| && rest[i] == x;
        assert keys[0] != keys[i + 1];
      }
      assert Distinct(rest) by {
        forall i, j | 0 <= i < j < |rest| ensures rest[i] != rest[j] {
          assert keys[i + 1] != keys[j + 1];
        }
      }
      assert k !in rest;
      DistinctKeysCover(rest, m');
      SumSeqWithout(rest, m, k);
      SumRemove(m, k);
      forall x <- m ensures x in keys {
        if x != k {
          assert x in m' && x in rest;
        }
      }
    }
  }

  /** Distinct keys of a map of non-negative values add up to at most the whole. */
  lemma {:induction false} DistinctKeysAtMost<K>(keys: seq<K>, m: map<K, int>)
    requires Distinct(keys) && forall x <- keys :: x in m
    requires forall x <- m :: m[x] >= 0
    ensures SumSeq(keys, m) <= Sum(m)
  {
    if keys == [] {
      SumNonNegative(m);
    } else {
      var k, rest := keys[0], keys[1..];
      assert k !in rest;
      assert Distinct(rest) by {
        forall i, j | 0 <= i < j < |rest| ensures rest[i] != rest[j] {
          assert keys[i + 1] != keys[j + 1];
        }
      }
      SumSeqWithout(rest, m, k);
      DistinctKeysAtMost(rest, m - {k});
      SumRemove(m, k);
    }
  }

  lemma {:induction false} DistinctCounted<K>(keys: seq<K>, wanted: set<K>)
    requires Distinct(keys) && forall k :: k in keys <==> k in wanted
    ensures |keys| == |wanted|
  {
    if keys == [] {
      assert wanted == {};
    } else {
      var k, rest := keys[0], keys[1..];
      assert k !in rest;
      assert Distinct(rest) by {
        forall i, j | 0 <= i < j < |rest| ensures rest[i] != rest[j] {
          assert keys[i + 1] != keys[j + 1];
        }
      }
      forall x ensures x in rest <==> x in wanted - {k} {
        assert x in keys <==> x == k || x in rest;
      }
      DistinctCounted(rest, wanted - {k});
    }
  }

  lemma {:induction false} SumSeqSame<K>(keys: seq<K>, m: map<K, int>, part: map<K, int>)
    requires forall k <- keys :: k in m && k in part && part[k] == m[k]
    ensures SumSeq(keys, m) == SumSeq(keys, part)
  {
    if keys != [] {
      SumSeqSame(keys[1..], m, part);
    }
  }

  /** The keys of a map that are not in a list of distinct ones hold the rest of the sum. */
  lemma SumBesides<K>(keys: seq<K>, m: map<K, int>, rest: map<K, int>)
    requires Distinct(keys) && forall k <- keys :: k in m
    requires rest == map k | k in m && k !in keys :: m[k]
    ensures Sum(m) == SumSeq(keys, m) + Sum(rest)
    ensures |rest| == |m| - |keys|
  {
    hide Sum, SumSeq, Distinct;
    var named := map k | k in m && k in keys :: m[k];
    DistinctCounted(keys, named.Keys);
    KeysApart(m, named, rest);
    SumSeqSame(keys, m, named);
    DistinctKeysCover(keys, named);
    SumPartition(m, named, rest);
  }

  lemma KeysApart<K>(m: map<K, int>, a: map<K, int>, b: map<K, int>)
    requires m.Keys == a.Keys + b.Keys && a.Keys !! b.Keys
    ensures |m| == |a| + |b| && |a| == |a.Keys|
  {
    assert |m| == |m.Keys| && |a| == |a.Keys| && |b| == |b.Keys|;
  }

  lemma {:induction false} SumZeroIff<K>(m: map<K, int>)
    requires forall k <- m :: m[k] >= 0
    ensures Sum(m) == 0 <==> forall k <- m :: m[k] == 0
    decreases |m|
  {
    if m == map[] {
      EmptySum<K>();
    } else {
      var k :| k in m;
      SumRemove(m, k);
      SumZeroIff(m - {k});
      SumNonNegative(m - {k});
      assert forall j <- m :: j == k || j in m - {k};
    }
  }

  lemma {:induction false} SumAtMostSum<K>(m: map<K, int>, a: map<K, int>, b: map<K, int>)
    requires a.Keys == m.Keys && b.Keys == m.Keys && forall k <- m :: m[k] <= a[k] + b[k]
    ensures Sum(m) <= Sum(a) + Sum(b)
    decreases |m|
  {
    hide Sum;
    EmptySum<K>();
    if m == map[] {
      assert a == map[] && b == map[];
    } else {
      var k :| k in m;
      SumRemove(m, k);
      SumRemove(a, k);
      SumRemove(b, k);
      SumAtMostSum(m - {k}, a - {k}, b - {k});
    }
  }

  /** Values that exceed others by what a third map says. */
  lemma {:induction false} SumAdds<K>(m: map<K, int>, a: map<K, int>, b: map<K, int>)
    requires a.Keys == m.Keys && b.Keys <= m.Keys
    requires forall k <- m :: m[k] == a[k] + if k in b then b[k] else 0
    ensures Sum(m) == Sum(a) + Sum(b)
    decreases |m|
  {
    hide Sum;
    EmptySum<K>();
    if m == map[] {
      assert a == map[] && b == map[];
    } else {
      var k :| k in m;
      SumRemove(m, k);
      SumRemove(a, k);
      if k in b {
        SumRemove(b, k);
      } else {
        assert b - {k} == b;
      }
      SumAdds(m - {k}, a - {k}, b - {k});
    }
  }

  /** A map that keeps every non-zero value of another and adds non-negative ones. */
  lemma {:induction false} SumDominates<K>(small: map<K, int>, large: map<K, int>)
    requires forall k <- large :: large[k] >= 0
    requires forall k <- small :: small[k] == 0 || (k in large && large[k] == small[k])
    ensures Sum(small) <= Sum(large)
    decreases |small|
  {
    if small == map[] {
      SumNonNegative(large);
    } else {
      var k :| k in small;
      SumRemove(small, k);
      if small[k] == 0 {
        SumDominates(small - {k}, large);
      } else {
        SumRemove(large, k);
        SumDominates(small - {k}, large - {k});
      }
    }
  }

  lemma {:induction false} SumPartition<K>(whole: map<K, int>, a: map<K, int>, b: map<K, int>)
    requires forall k <- a :: k in whole && k !in b && whole[k] == a[k]
    requires forall k <- b :: k in whole && whole[k] == b[k]
    requires forall k <- whole :: k in a || k in b
    ensures Sum(whole) == Sum(a) + Sum(b)
    decreases |a|
  {
    hide Sum;
    if a == map[] {
      EmptySum<K>();
      assert whole == b;
    } else {
      var k :| k in a;
      SumRemove(whole, k);
      SumRemove(a, k);
      SumPartition(whole - {k}, a - {k}, b);
    }
  }

  lemma EmptySum<K>()
    ensures Sum<K>(map[]) == 0
  {
  }
}
