/** Which buckets a watcher instance is responsible for, and why every bucket has exactly one. */
module Sharding {
  import opened Arithmetic
  import opened Domain
  import opened Location

  // Buckets below `n` that fall to shard `index`, in order.
  function OwnedBelow(index: nat, count: nat, n: nat): seq<nat>
    requires count >= 1
  {
    if n == 0 then []
    else OwnedBelow(index, count, n - 1) + (if (n - 1) % count == index then [n - 1] else [])
  }

  function OwnedBuckets(index: nat, count: nat): seq<nat>
    requires count >= 1
  {
    OwnedBelow(index, count, LOCATION_BUCKETS)
  }

  /** `bucketsForShard`. */
  method BucketsForShard(index: nat, count: nat) returns (buckets: seq<nat>)
    requires count >= 1
    ensures buckets == OwnedBuckets(index, count)
  {
    buckets := [];
    var bucket := 0;
    while bucket < LOCATION_BUCKETS
      invariant 0 <= bucket <= LOCATION_BUCKETS
      invariant buckets == OwnedBelow(index, count, bucket)
    {
      if bucket % count == index {
        buckets := buckets + [bucket];
      }
      bucket := bucket + 1;
    }
  }

  // `shardBuckets`: a single instance queries without restriction.
  function ShardBuckets(index: nat, count: nat): Option<seq<nat>> {
    if count <= 1 then None else Some(OwnedBuckets(index, count))
  }

  predicate Selects(index: nat, count: nat, bucket: nat) {
    ShardBuckets(index, count).None? || bucket in ShardBuckets(index, count).value
  }

  lemma {:induction false} OwnedMembers(index: nat, count: nat, n: nat)
    requires count >= 1
    ensures forall b :: b in OwnedBelow(index, count, n) <==> 0 <= b < n && b % count == index
  {
    if n > 0 { OwnedMembers(index, count, n - 1); }
  }

  /** Shards partition the buckets: for every shard count, each bucket is selected by exactly one
      shard, namely bucket mod count. */
  lemma ExactlyOneShard(count: nat, bucket: nat)
    requires count >= 1 && bucket < LOCATION_BUCKETS
    ensures bucket % count < count && Selects(bucket % count, count, bucket)
    ensures forall index :: 0 <= index < count && Selects(index, count, bucket) ==> index == bucket % count
  {
    forall index | 0 <= index < count
      ensures Selects(index, count, bucket) ==> index == bucket % count
    {
      OwnedMembers(index, count, LOCATION_BUCKETS);
    }
    OwnedMembers(bucket % count, count, LOCATION_BUCKETS);
  }

  lemma NextMultiple(index: nat, count: nat, n: nat, size: nat)
    requires count >= 1 && index < count && n % count == index
    requires size * count + index >= n && (size > 0 ==> (size - 1) * count + index < n)
    ensures size == n / count
  {
    var q := n / count;
    assert n == q * count + index;
    if size < q {
      Gap(q, size, count);
      assert false;
    }
  }

  // The size is the least s with s * count + index >= n.
  lemma {:induction false} OwnedSize(index: nat, count: nat, n: nat)
    requires count >= 1 && index < count
    ensures var size := |OwnedBelow(index, count, n)|;
            size * count + index >= n && (size > 0 ==> (size - 1) * count + index < n)
  {
    if n > 0 {
      OwnedSize(index, count, n - 1);
      var size := |OwnedBelow(index, count, n - 1)|;
      if (n - 1) % count == index {
        NextMultiple(index, count, n - 1, size);
        assert n - 1 == size * count + index;
        assert (size + 1) * count == size * count + count;
      } else if size * count + index == n - 1 {
        Remainder(n - 1, count, size, index);
        assert false;
      }
    } else {
      assert |OwnedBelow(index, count, 0)| == 0;
    }
  }

  /** No shard carries more than one bucket more than another. */
  lemma ShardsAreEven(count: nat, i: nat, j: nat)
    requires i < count && j < count
    ensures |OwnedBuckets(i, count)| <= |OwnedBuckets(j, count)| + 1
  {
    OwnedSize(i, count, LOCATION_BUCKETS);
    OwnedSize(j, count, LOCATION_BUCKETS);
    var si, sj := |OwnedBuckets(i, count)|, |OwnedBuckets(j, count)|;
    if si > sj + 1 {
      Gap(si - 1, sj, count);
      assert false;
    }
  }
}
