/**
 * What `_prune_candidates` promises, proved about its functional model
 * `StationLocator.Prune`: at most three candidates survive per 35-mile bucket,
 * a small bucket survives whole, a dropped candidate is never better (by price,
 * then offset) than a kept one of the same bucket, nothing is invented, and the
 * result is ordered by distance along the route.
 */
module PruneProperties {
  import opened Domain
  import opened Sorting
  import opened StationLocator

  /** No value occurs twice. */
  ghost predicate Distinct(s: seq<int>) {
    forall x :: multiset(s)[x] <= 1
  }

  lemma PriceOffsetIsTotal()
    ensures TotalPreorder(PriceOffsetLe)
  {
  }

  lemma AlongIsTotal()
    ensures TotalPreorder(AlongLe)
  {
  }

  lemma {:induction false} BucketKeysDistinct(cs: seq<StationCandidate>)
    ensures Distinct(BucketKeys(cs))
  {
    if cs != [] {
      BucketKeysDistinct(cs[..|cs| - 1]);
      var keys := BucketKeys(cs[..|cs| - 1]);
      var b := Bucket(cs[|cs| - 1]);
      if b !in keys {
        assert multiset(keys + [b]) == multiset(keys) + multiset{b};
      }
    }
  }

  lemma {:induction false} InBucketAppend(s: seq<StationCandidate>, t: seq<StationCandidate>, b: int)
    ensures InBucket(s + t, b) == InBucket(s, b) + InBucket(t, b)
  {
    if t == [] {
      assert s + t == s;
    } else {
      var init := t[..|t| - 1];
      var last := t[|t| - 1];
      InBucketAppend(s, init, b);
      assert (s + t)[..|s + t| - 1] == s + init;
      assert (s + t)[|s + t| - 1] == last;
      var extra := if Bucket(last) == b then [last] else [];
      assert InBucket(s + t, b) == InBucket(s + init, b) + extra;
      assert InBucket(t, b) == InBucket(init, b) + extra;
    }
  }

  lemma {:induction false} InBucketAll(s: seq<StationCandidate>, b: int)
    requires forall c :: c in s ==> Bucket(c) == b
    ensures InBucket(s, b) == s
  {
    if s != [] {
      InBucketAll(s[..|s| - 1], b);
      assert s[|s| - 1] in s;
      assert s == s[..|s| - 1] + [s[|s| - 1]];
    }
  }

  lemma {:induction false} InBucketNone(s: seq<StationCandidate>, b: int)
    requires forall c :: c in s ==> Bucket(c) != b
    ensures InBucket(s, b) == []
  {
    if s != [] {
      InBucketNone(s[..|s| - 1], b);
      assert s[|s| - 1] in s;
    }
  }

  /** Every candidate of a bucket's contribution belongs to that bucket. */
  lemma ChunkInBucket(cs: seq<StationCandidate>, k: int)
    ensures forall c :: c in Chunk(cs, k) ==> Bucket(c) == k
  {
    var sorted := Sort(InBucket(cs, k), PriceOffsetLe);
    forall c | c in Chunk(cs, k) ensures Bucket(c) == k {
      assert c in sorted;
      assert c in multiset(sorted);
      assert c in InBucket(cs, k);
    }
  }

  /** Bucket `b` of the concatenated contributions is `b`'s own contribution, if `b` is listed. */
  lemma {:induction false} InBucketOfSelected(cs: seq<StationCandidate>, keys: seq<int>, b: int)
    requires Distinct(keys)
    ensures InBucket(Selected(cs, keys), b) == if b in keys then Chunk(cs, b) else []
  {
    if keys != [] {
      var init := keys[..|keys| - 1];
      var k := keys[|keys| - 1];
      assert keys == init + [k];
      assert multiset(keys) == multiset(init) + multiset{k};
      assert Distinct(init) by {
        forall x ensures multiset(init)[x] <= 1 {
          assert multiset(init)[x] <= multiset(keys)[x];
        }
      }
      InBucketOfSelected(cs, init, b);
      InBucketAppend(Selected(cs, init), Chunk(cs, k), b);
      ChunkInBucket(cs, k);
      if k == b {
        InBucketAll(Chunk(cs, k), b);
        assert multiset(keys)[b] <= 1;
        assert b !in init;
      } else {
        InBucketNone(Chunk(cs, k), b);
      }
    }
  }

  /** Counting in a bucket: an element counts as often as in the whole list, if it is in the bucket. */
  lemma {:induction false} InBucketCount(s: seq<StationCandidate>, b: int, x: StationCandidate)
    ensures multiset(InBucket(s, b))[x] == if Bucket(x) == b then multiset(s)[x] else 0
  {
    if s != [] {
      InBucketCount(s[..|s| - 1], b, x);
      assert s == s[..|s| - 1] + [s[|s| - 1]];
    }
  }

  lemma InBucketOfPermutation(s: seq<StationCandidate>, t: seq<StationCandidate>, b: int)
    requires multiset(s) == multiset(t)
    ensures multiset(InBucket(s, b)) == multiset(InBucket(t, b))
  {
    forall x ensures multiset(InBucket(s, b))[x] == multiset(InBucket(t, b))[x] {
      InBucketCount(s, b, x);
      InBucketCount(t, b, x);
    }
  }

  /** What survives of bucket `b` is that bucket's contribution (nothing if no candidate is in it). */
  lemma PruneBucket(cs: seq<StationCandidate>, b: int)
    ensures multiset(InBucket(Prune(cs), b))
         == if b in BucketKeys(cs) then multiset(Chunk(cs, b)) else multiset{}
  {
    var keys := Sort(BucketKeys(cs), IntLe);
    BucketKeysDistinct(cs);
    assert Distinct(keys);
    assert b in keys <==> b in BucketKeys(cs) by {
      assert b in keys <==> b in multiset(keys);
      assert b in BucketKeys(cs) <==> b in multiset(BucketKeys(cs));
    }
    InBucketOfSelected(cs, keys, b);
    InBucketOfPermutation(Prune(cs), Selected(cs, keys), b);
  }

  /** At most three candidates survive in every bucket. */
  lemma PruneKeepsAtMostThreePerBucket(cs: seq<StationCandidate>, b: int)
    ensures |InBucket(Prune(cs), b)| <= MAX_STATIONS_PER_BUCKET
  {
    PruneBucket(cs, b);
    assert |InBucket(Prune(cs), b)| == |multiset(InBucket(Prune(cs), b))|;
  }

  /** Exactly three candidates survive in a bucket of more than three; a smaller bucket keeps all of its own. */
  lemma PruneBucketSize(cs: seq<StationCandidate>, b: int)
    ensures |InBucket(Prune(cs), b)|
         == if |InBucket(cs, b)| <= MAX_STATIONS_PER_BUCKET then |InBucket(cs, b)| else MAX_STATIONS_PER_BUCKET
  {
    PruneBucket(cs, b);
    assert |InBucket(Prune(cs), b)| == |multiset(InBucket(Prune(cs), b))|;
    if b !in BucketKeys(cs) {
      InBucketOfAbsentKey(cs, b);
    }
  }

  /** A bucket holding at most three candidates survives whole. */
  lemma PruneKeepsSmallBuckets(cs: seq<StationCandidate>, b: int)
    requires |InBucket(cs, b)| <= MAX_STATIONS_PER_BUCKET
    ensures multiset(InBucket(Prune(cs), b)) == multiset(InBucket(cs, b))
  {
    PruneBucket(cs, b);
    if b !in BucketKeys(cs) {
      InBucketOfAbsentKey(cs, b);
    }
  }

  /** A bucket's contribution is a prefix of the bucket in price order; the rest is dropped. */
  lemma ChunkSplit(cs: seq<StationCandidate>, b: int)
    ensures var sorted := Sort(InBucket(cs, b), PriceOffsetLe);
      && sorted == Chunk(cs, b) + sorted[|Chunk(cs, b)|..]
      && multiset(InBucket(cs, b)) == multiset(Chunk(cs, b)) + multiset(sorted[|Chunk(cs, b)|..])
  {
    var sorted := Sort(InBucket(cs, b), PriceOffsetLe);
    var chunk := Chunk(cs, b);
    assert sorted == chunk + sorted[|chunk|..];
  }

  /** In a list sorted by price then offset, every element of a prefix is at most every later element. */
  lemma SortedPrefixFirst(sorted: seq<StationCandidate>, n: nat)
    requires SortedBy(sorted, PriceOffsetLe) && n <= |sorted|
    ensures forall x, y :: x in sorted[..n] && y in multiset(sorted[n..]) ==> PriceOffsetLe(x, y)
  {
    forall x, y | x in sorted[..n] && y in multiset(sorted[n..]) ensures PriceOffsetLe(x, y) {
      var i :| 0 <= i < n && sorted[..n][i] == x;
      assert y in sorted[n..];
      var j :| 0 <= j < |sorted| - n && sorted[n..][j] == y;
      assert sorted[i] == x && sorted[n + j] == y;
    }
  }

  /**
   * Within a bucket, every candidate that was dropped is at least as expensive
   * as every candidate that was kept, and at least as far off the route when
   * the prices are equal.
   */
  lemma PruneDropsOnlyWorse(cs: seq<StationCandidate>, b: int)
    ensures forall kept, dropped ::
      kept in InBucket(Prune(cs), b) && dropped in multiset(InBucket(cs, b)) - multiset(InBucket(Prune(cs), b))
      ==> PriceOffsetLe(kept, dropped)
  {
    var survivors := InBucket(Prune(cs), b);
    var bucket := InBucket(cs, b);
    PruneBucket(cs, b);
    if b in BucketKeys(cs) {
      var sorted := Sort(bucket, PriceOffsetLe);
      var chunk := Chunk(cs, b);
      ChunkSplit(cs, b);
      PriceOffsetIsTotal();
      SortIsSorted(bucket, PriceOffsetLe);
      SortedPrefixFirst(sorted, |chunk|);
      assert multiset(bucket) - multiset(survivors) == multiset(sorted[|chunk|..]);
      assert forall kept :: kept in survivors ==> kept in multiset(chunk);
      assert sorted[..|chunk|] == chunk;
    } else {
      assert forall kept :: kept in survivors ==> kept in multiset(survivors);
    }
  }

  /** Pruning only removes candidates: the result is a sub-multiset of the input. */
  lemma PruneIsSubMultiset(cs: seq<StationCandidate>)
    ensures multiset(Prune(cs)) <= multiset(cs)
  {
    forall x ensures multiset(Prune(cs))[x] <= multiset(cs)[x] {
      PruneCountAtMostInput(cs, x);
    }
  }

  lemma PruneCountAtMostInput(cs: seq<StationCandidate>, x: StationCandidate)
    ensures multiset(Prune(cs))[x] <= multiset(cs)[x]
  {
    var b := Bucket(x);
    InBucketCount(Prune(cs), b, x);
    InBucketCount(cs, b, x);
    PruneBucket(cs, b);
    if b in BucketKeys(cs) {
      ChunkSplit(cs, b);
    }
  }

  /** The result is in ascending order of distance along the route. */
  lemma PruneSortedByAlong(cs: seq<StationCandidate>)
    ensures SortedBy(Prune(cs), AlongLe)
  {
    AlongIsTotal();
    SortIsSorted(Selected(cs, Sort(BucketKeys(cs), IntLe)), AlongLe);
  }
}
