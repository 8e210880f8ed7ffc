/**
  Stable sharding of curves by the 64-bit FNV-1a hash of their address, and the smallest shard count whose
  shards stay bounded.
*/
module Shards {
  import Sorting

  const ADDRESS_BYTES := 20
  const HASHES: nat := 0x1_0000_0000_0000_0000

  /** A registered curve; addresses are 20 bytes read as one big-endian number. */
  datatype Curve = Curve(address: nat, token: nat)

  datatype Shard = Shard(index: nat, curves: seq<Curve>)

  /** The last `n` bytes of an address. */
  function Bytes(address: nat, n: nat): seq<bv8> {
    if n == 0 then [] else Bytes(address / 256, n - 1) + [(address % 256) as bv8]
  }

  function Fnv(bytes: seq<bv8>): bv64 {
    if |bytes| == 0 then 0xcbf2_9ce4_8422_2325
    else (Fnv(bytes[..|bytes| - 1]) ^ (bytes[|bytes| - 1] as bv64)) * 0x0100_0000_01b3
  }

  /** The published FNV-1a values of two short texts. */
  lemma KnownHashes()
    ensures Fnv([]) == 0xcbf2_9ce4_8422_2325
    ensures Fnv([0x61]) == 0xaf63_dc4c_8601_ec8c
    ensures Fnv([0x66, 0x6f]) == 0x0898_5907_b541_d342
  {
    assert [0x61 as bv8][..0] == [] && [0x66 as bv8, 0x6f][..1] == [0x66] && [0x66 as bv8][..0] == [];
  }

  /** The `k`-th digit of a number in base 256, the lowest being the first. */
  function Digit(n: nat, k: nat): (d: nat)
    ensures d < 256
  {
    if k == 0 then n % 256 else Digit(n / 256, k - 1)
  }

  /** The bytes of an address are its digits, the highest first. */
  lemma {:induction false} BytesAreDigits(address: nat, n: nat, k: nat)
    requires k < n
    ensures |Bytes(address, n)| == n && Bytes(address, n)[n - 1 - k] == Digit(address, k) as bv8
  {
    if n > 1 {
      BytesAreDigits(address / 256, n - 1, if k > 0 then k - 1 else 0);
    }
  }

  function Hash(c: Curve): (h: nat)
    ensures h < HASHES
  {
    Fnv(Bytes(c.address, ADDRESS_BYTES)) as nat
  }

  function Place(c: Curve, count: nat): (j: nat)
    requires count > 0
    ensures j < count
  {
    Hash(c) % count
  }

  predicate NotAbove(a: Curve, b: Curve) {
    a.address <= b.address
  }

  /** The curves of one shard in input order. */
  function Bucket(curves: seq<Curve>, count: nat, j: nat): seq<Curve>
    requires count > 0
  {
    if |curves| == 0 then []
    else
      var init, c := Bucket(curves[..|curves| - 1], count, j), curves[|curves| - 1];
      if Place(c, count) == j then init + [c] else init
  }

  function SortedBucket(curves: seq<Curve>, count: nat, j: nat): seq<Curve>
    requires count > 0
  {
    Sorting.Sort(Bucket(curves, count, j), NotAbove)
  }

  /** The non-empty shards below `n`, each sorted by address. */
  function ShardsBelow(curves: seq<Curve>, count: nat, n: nat): seq<Shard>
    requires count > 0
  {
    if n == 0 then []
    else
      var init := ShardsBelow(curves, count, n - 1);
      if Bucket(curves, count, n - 1) == [] then init else init + [Shard(n - 1, SortedBucket(curves, count, n - 1))]
  }

  function StableShards(curves: seq<Curve>, count: nat): seq<Shard> {
    if count == 0 then [] else ShardsBelow(curves, count, count)
  }

  /** `stable_curve_shards`: buckets are filled in place, then the non-empty ones sorted. */
  method StableCurveShards(curves: seq<Curve>, count: nat) returns (shards: seq<Shard>)
    ensures shards == StableShards(curves, count)
  {
    hide Place;
    if count == 0 {
      return [];
    }
    var buckets := new seq<Curve>[count](_ => []);
    for i := 0 to |curves|
      invariant forall j :: 0 <= j < count ==> buckets[j] == Bucket(curves[..i], count, j)
    {
      var j := Place(curves[i], count);
      assert curves[..i + 1][..i] == curves[..i];
      buckets[j] := buckets[j] + [curves[i]];
    }
    assert curves[..|curves|] == curves;
    shards := [];
    for n := 0 to count
      invariant shards == ShardsBelow(curves, count, n)
    {
      if buckets[n] != [] {
        shards := shards + [Shard(n, Sorting.Sort(buckets[n], NotAbove))];
      }
    }
  }

  // ---------------------------------------------------------------- partition

  ghost predicate DistinctAddresses(curves: seq<Curve>) {
    forall a, b :: a in curves && b in curves && a.address == b.address ==> a == b
  }

  ghost function Union(shards: seq<Shard>): multiset<Curve> {
    if |shards| == 0 then multiset{} else Union(shards[..|shards| - 1]) + multiset(shards[|shards| - 1].curves)
  }

  lemma {:induction false} BucketCounts(curves: seq<Curve>, count: nat, j: nat, c: Curve)
    requires count > 0
    ensures multiset(Bucket(curves, count, j))[c] == if Place(c, count) == j then multiset(curves)[c] else 0
  {
    hide Place;
    if |curves| > 0 {
      var init, last := curves[..|curves| - 1], curves[|curves| - 1];
      BucketCounts(init, count, j, c);
      assert curves == init + [last];
    }
  }

  lemma {:induction false} UnionCounts(curves: seq<Curve>, count: nat, n: nat, c: Curve)
    requires count > 0
    ensures Union(ShardsBelow(curves, count, n))[c] == if Place(c, count) < n then multiset(curves)[c] else 0
  {
    hide Place, Bucket, SortedBucket, Union, Sorting.Sorted;
    if n == 0 {
      UnionNothing();
    } else {
      UnionCounts(curves, count, n - 1, c);
      BucketCounts(curves, count, n - 1, c);
      BucketIsSorted(curves, count, n - 1);
      var init, bucket := ShardsBelow(curves, count, n - 1), Bucket(curves, count, n - 1);
      if bucket != [] {
        UnionNext(init, Shard(n - 1, SortedBucket(curves, count, n - 1)));
      } else {
        assert multiset(bucket)[c] == 0;
      }
    }
  }

  lemma UnionNothing()
    ensures Union([]) == multiset{}
  {
  }

  lemma UnionNext(shards: seq<Shard>, last: Shard)
    ensures Union(shards + [last]) == Union(shards) + multiset(last.curves)
  {
    assert (shards + [last])[..|shards|] == shards;
  }

  lemma BucketIsSorted(curves: seq<Curve>, count: nat, j: nat)
    requires count > 0
    ensures Sorting.Sorted(SortedBucket(curves, count, j), NotAbove)
    ensures multiset(SortedBucket(curves, count, j)) == multiset(Bucket(curves, count, j))
    ensures |SortedBucket(curves, count, j)| == |Bucket(curves, count, j)|
  {
    hide Bucket;
    AddressOrder();
    var bucket := Bucket(curves, count, j);
    Sorting.SortSorts(bucket, NotAbove);
    assert |multiset(bucket)| == |bucket| && |multiset(Sorting.Sort(bucket, NotAbove))| == |Sorting.Sort(bucket, NotAbove)|;
  }

  lemma AddressOrder()
    ensures Sorting.Preorder(NotAbove)
  {
  }

  /** The shards are a partition: together they hold every curve exactly as often as the input. */
  lemma ShardsPartition(curves: seq<Curve>, count: nat)
    requires count > 0
    ensures Union(StableShards(curves, count)) == multiset(curves)
  {
    hide Place;
    forall c ensures Union(StableShards(curves, count))[c] == multiset(curves)[c] {
      UnionCounts(curves, count, count, c);
    }
  }

  /** Each shard is the sorted, non-empty set of curves its index stands for; indices ascend. */
  lemma {:induction false} ShardsAreSorted(curves: seq<Curve>, count: nat, n: nat, k: nat)
    requires count > 0 && k < |ShardsBelow(curves, count, n)|
    ensures var shards := ShardsBelow(curves, count, n);
      && shards[k].index < n && shards[k].curves != []
      && Sorting.Sorted(shards[k].curves, NotAbove)
      && multiset(shards[k].curves) == multiset(Bucket(curves, count, shards[k].index))
      && (k > 0 ==> shards[k - 1].index < shards[k].index)
  {
    hide Place, Bucket, SortedBucket, Sorting.Sorted;
    BucketIsSorted(curves, count, n - 1);
    if k < |ShardsBelow(curves, count, n - 1)| {
      ShardsAreSorted(curves, count, n - 1, k);
    } else if k > 0 {
      ShardsAreSorted(curves, count, n - 1, k - 1);
    }
  }

  /** A curve is in exactly the shard its hash names, and the curves of a shard ascend by address. */
  lemma ShardOfCurve(curves: seq<Curve>, count: nat, k: nat)
    requires count > 0 && k < |StableShards(curves, count)|
    ensures var shard := StableShards(curves, count)[k];
      && (forall c :: c in shard.curves <==> c in curves && Fnv(Bytes(c.address, 20)) as nat % count == shard.index)
      && (forall i, j :: 0 <= i < j < |shard.curves| ==> shard.curves[i].address <= shard.curves[j].address)
  {
    var shard := StableShards(curves, count)[k];
    ShardsAreSorted(curves, count, count, k);
    forall c ensures c in shard.curves <==> c in curves && Place(c, count) == shard.index {
      BucketCounts(curves, count, shard.index, c);
      assert c in shard.curves <==> c in multiset(shard.curves);
      assert c in curves <==> c in multiset(curves);
    }
    hide Bytes, Fnv, ShardsBelow;
  }

  lemma BucketsMatch(a: seq<Curve>, b: seq<Curve>, count: nat, j: nat)
    requires count > 0 && multiset(a) == multiset(b) && DistinctAddresses(a)
    ensures multiset(Bucket(a, count, j)) == multiset(Bucket(b, count, j))
    ensures SortedBucket(a, count, j) == SortedBucket(b, count, j)
    ensures Bucket(a, count, j) == [] <==> Bucket(b, count, j) == []
  {
    hide Place, Bucket;
    forall c ensures multiset(Bucket(a, count, j))[c] == multiset(Bucket(b, count, j))[c] {
      BucketCounts(a, count, j, c);
      BucketCounts(b, count, j, c);
    }
    assert multiset(Bucket(a, count, j)) == multiset(Bucket(b, count, j));
    assert |multiset(Bucket(a, count, j))| == |multiset(Bucket(b, count, j))|;
    forall c | c in Bucket(a, count, j) ensures c in a {
      BucketCounts(a, count, j, c);
      assert c in multiset(Bucket(a, count, j));
      assert c in multiset(a);
    }
    AddressOrder();
    Sorting.SortIgnoresOrder(Bucket(a, count, j), Bucket(b, count, j), NotAbove);
  }

  /** Where a curve goes, and the order inside a shard, do not depend on the order of the registry. */
  lemma {:induction false} ShardsIgnoreOrder(a: seq<Curve>, b: seq<Curve>, count: nat, n: nat)
    requires count > 0 && multiset(a) == multiset(b) && DistinctAddresses(a)
    ensures ShardsBelow(a, count, n) == ShardsBelow(b, count, n)
  {
    hide Place, Bucket, SortedBucket;
    if n > 0 {
      ShardsIgnoreOrder(a, b, count, n - 1);
      BucketsMatch(a, b, count, n - 1);
    }
  }

  // ---------------------------------------------------------------- bounded

  ghost predicate FitsBelow(curves: seq<Curve>, count: nat, bound: nat, n: nat)
    requires count > 0
  {
    forall j: nat :: j < n ==> |Bucket(curves, count, j)| <= bound
  }

  /** No shard exceeds the bound. */
  ghost predicate Fits(curves: seq<Curve>, count: nat, bound: nat)
    requires count > 0
  {
    FitsBelow(curves, count, bound, count)
  }

  function SizeBelow(curves: seq<Curve>, count: nat, n: nat): nat
    requires count > 0
  {
    if n == 0 then 0 else SizeBelow(curves, count, n - 1) + |Bucket(curves, count, n - 1)|
  }

  lemma {:induction false} SizeNext(curves: seq<Curve>, count: nat, n: nat)
    requires count > 0 && |curves| > 0
    ensures var last := |curves| - 1;
      SizeBelow(curves, count, n) == SizeBelow(curves[..last], count, n) + if Place(curves[last], count) < n then 1 else 0
  {
    hide Place;
    if n > 0 {
      SizeNext(curves, count, n - 1);
    }
  }

  lemma {:induction false} EmptySize(curves: seq<Curve>, count: nat, n: nat)
    requires count > 0 && |curves| == 0
    ensures SizeBelow(curves, count, n) == 0
  {
    if n > 0 {
      EmptySize(curves, count, n - 1);
    }
  }

  lemma {:induction false} SizeIsAll(curves: seq<Curve>, count: nat)
    requires count > 0
    ensures SizeBelow(curves, count, count) == |curves|
  {
    hide Place;
    if |curves| > 0 {
      SizeIsAll(curves[..|curves| - 1], count);
      SizeNext(curves, count, count);
    } else {
      EmptySize(curves, count, count);
    }
  }

  lemma {:induction false} SizeIsBounded(curves: seq<Curve>, count: nat, bound: nat, n: nat)
    requires count > 0 && n <= count && Fits(curves, count, bound)
    ensures SizeBelow(curves, count, n) <= n * bound
  {
    if n > 0 {
      SizeIsBounded(curves, count, bound, n - 1);
      assert n * bound == (n - 1) * bound + bound;
    }
  }

  /** Pigeonhole: too few shards cannot hold all curves. */
  lemma TooFewShards(curves: seq<Curve>, count: nat, bound: nat)
    requires count > 0 && Fits(curves, count, bound)
    ensures |curves| <= count * bound
  {
    SizeIsAll(curves, count);
    SizeIsBounded(curves, count, bound, count);
  }

  function Sharing(curves: seq<Curve>, hash: nat): nat {
    if |curves| == 0 then 0
    else Sharing(curves[..|curves| - 1], hash) + if Hash(curves[|curves| - 1]) == hash then 1 else 0
  }

  /** No hash is shared by more curves than a shard may hold. */
  ghost predicate NoCrowd(curves: seq<Curve>, bound: nat) {
    forall hash :: Sharing(curves, hash) <= bound
  }

  lemma {:induction false} SharingIsInBucket(curves: seq<Curve>, count: nat, hash: nat)
    requires count > 0
    ensures Sharing(curves, hash) <= |Bucket(curves, count, hash % count)|
    ensures count >= HASHES && hash < HASHES ==> Sharing(curves, hash) == |Bucket(curves, count, hash)|
  {
    hide Hash;
    if |curves| > 0 {
      SharingIsInBucket(curves[..|curves| - 1], count, hash);
      var c := curves[|curves| - 1];
      ModSmall(Hash(c), count);
      ModSmall(hash, count);
    }
  }

  lemma ModSmall(n: nat, count: nat)
    requires count > 0
    ensures n < count ==> n % count == n
  {
  }

  lemma {:induction false} BeyondHashes(curves: seq<Curve>, count: nat, j: nat)
    requires count > 0 && j >= HASHES && count >= HASHES
    ensures Bucket(curves, count, j) == []
  {
    hide Hash;
    if |curves| > 0 {
      BeyondHashes(curves[..|curves| - 1], count, j);
      ModSmall(Hash(curves[|curves| - 1]), count);
    }
  }

  /** With as many shards as hashes, only a crowd on one hash can overflow. */
  lemma EnoughShards(curves: seq<Curve>, count: nat, bound: nat)
    requires count >= HASHES && NoCrowd(curves, bound)
    ensures Fits(curves, count, bound)
  {
    hide Sharing, Bucket;
    forall j: nat | j < count ensures |Bucket(curves, count, j)| <= bound {
      if j < HASHES {
        SharingIsInBucket(curves, count, j);
      } else {
        BeyondHashes(curves, count, j);
      }
    }
  }

  /** Some shard count fits exactly when no hash is crowded: otherwise the search never ends. */
  lemma SearchEndsWithoutCrowd(curves: seq<Curve>, bound: nat)
    ensures (exists count: nat :: count > 0 && Fits(curves, count, bound)) <==> NoCrowd(curves, bound)
  {
    hide Fits, Sharing;
    if NoCrowd(curves, bound) {
      EnoughShards(curves, HASHES, bound);
    }
    forall count: nat, hash: nat | count > 0 && Fits(curves, count, bound) ensures Sharing(curves, hash) <= bound {
      SharingFits(curves, count, bound, hash);
    }
  }

  lemma SharingFits(curves: seq<Curve>, count: nat, bound: nat, hash: nat)
    requires count > 0 && Fits(curves, count, bound)
    ensures Sharing(curves, hash) <= bound
  {
    hide Sharing, Bucket;
    SharingIsInBucket(curves, count, hash);
    assert hash % count < count;
  }

  predicate AllBounded(shards: seq<Shard>, bound: nat) {
    forall k :: 0 <= k < |shards| ==> |shards[k].curves| <= bound
  }

  /** Checking the non-empty shards is checking all. */
  lemma {:induction false} BoundedIsFits(curves: seq<Curve>, count: nat, bound: nat, n: nat)
    requires count > 0
    ensures AllBounded(ShardsBelow(curves, count, n), bound) <==> FitsBelow(curves, count, bound, n)
  {
    hide Place, Bucket, SortedBucket;
    if n > 0 {
      BoundedIsFits(curves, count, bound, n - 1);
      FitsNext(curves, count, bound, n - 1);
      BucketIsSorted(curves, count, n - 1);
      BoundedNext(ShardsBelow(curves, count, n - 1), Shard(n - 1, SortedBucket(curves, count, n - 1)), bound);
    }
  }

  lemma FitsNext(curves: seq<Curve>, count: nat, bound: nat, n: nat)
    requires count > 0
    ensures FitsBelow(curves, count, bound, n + 1) <==> FitsBelow(curves, count, bound, n) && |Bucket(curves, count, n)| <= bound
  {
    hide Bucket;
  }

  lemma BoundedNext(shards: seq<Shard>, last: Shard, bound: nat)
    ensures AllBounded(shards + [last], bound) <==> AllBounded(shards, bound) && |last.curves| <= bound
  {
    var all := shards + [last];
    assert all[|shards|] == last && forall k :: 0 <= k < |shards| ==> all[k] == shards[k];
  }

  /** The smallest of all shard counts that fit. */
  ghost predicate Smallest(curves: seq<Curve>, bound: nat, count: nat) {
    && count > 0 && Fits(curves, count, bound)
    && forall m: nat :: 0 < m < count ==> !Fits(curves, m, bound)
  }

  /** `bounded_curve_shards`: the search starts at the pigeonhole bound and still finds the smallest count of all. */
  method BoundedCurveShards(curves: seq<Curve>, bound: nat) returns (shards: seq<Shard>, ghost count: nat)
    requires curves == [] || bound == 0 || NoCrowd(curves, bound)
    ensures curves == [] || bound == 0 ==> shards == []
    ensures curves != [] && bound > 0 ==> Smallest(curves, bound, count) && shards == StableShards(curves, count)
    ensures AllBounded(shards, bound)
  {
    hide FitsBelow, NoCrowd;
    if curves == [] || bound == 0 {
      count := 0;
      return [], 0;
    }
    var n := (|curves| + bound - 1) / bound;
    StartRulesOutFewer(curves, bound, n);
    if n < 1 {
      n := 1;
    }
    ghost var last := if n < HASHES then HASHES else n;
    while true
      invariant 1 <= n <= last
      invariant forall m: nat :: 0 < m < n ==> !Fits(curves, m, bound)
      decreases last - n
    {
      shards := StableCurveShards(curves, n);
      BoundedIsFits(curves, n, bound, n);
      if AllBounded(shards, bound) {
        count := n;
        return shards, n;
      }
      if n >= HASHES {
        EnoughShards(curves, n, bound);
      }
      n := n + 1;
    }
  }

  lemma StartRulesOutFewer(curves: seq<Curve>, bound: nat, start: nat)
    requires bound > 0 && start == (|curves| + bound - 1) / bound
    ensures forall m: nat :: 0 < m < start ==> !Fits(curves, m, bound)
  {
    hide Fits;
    forall m: nat | 0 < m < start ensures !Fits(curves, m, bound) {
      if Fits(curves, m, bound) {
        TooFewShards(curves, m, bound);
        CeilingIsLeast(|curves|, bound, m);
      }
    }
  }

  lemma CeilingIsLeast(size: nat, bound: nat, m: nat)
    requires bound > 0 && size <= m * bound
    ensures (size + bound - 1) / bound <= m
  {
    var q := (size + bound - 1) / bound;
    assert q * bound <= size + bound - 1;
    assert (m + 1) * bound == m * bound + bound;
    CancelFactor(q, m + 1, bound);
  }

  lemma CancelFactor(a: nat, b: nat, factor: nat)
    requires a * factor < b * factor
    ensures a < b
  {
    assert (a - b) * factor == a * factor - b * factor;
  }

  /** Two registries with the same curves get the same shards. */
  lemma BoundedShardsIgnoreOrder(a: seq<Curve>, b: seq<Curve>, bound: nat, m: nat, n: nat)
    requires multiset(a) == multiset(b) && DistinctAddresses(a)
    requires Smallest(a, bound, m) && Smallest(b, bound, n)
    ensures m == n && StableShards(a, m) == StableShards(b, n)
  {
    hide Fits, ShardsBelow;
    FitsIgnoresOrder(a, b, m, bound);
    FitsIgnoresOrder(a, b, n, bound);
    ShardsIgnoreOrder(a, b, m, m);
  }

  lemma FitsIgnoresOrder(a: seq<Curve>, b: seq<Curve>, count: nat, bound: nat)
    requires count > 0 && multiset(a) == multiset(b) && DistinctAddresses(a)
    ensures Fits(a, count, bound) <==> Fits(b, count, bound)
  {
    hide Bucket;
    forall j: nat | j < count ensures |Bucket(a, count, j)| == |Bucket(b, count, j)| {
      BucketsMatch(a, b, count, j);
      assert |multiset(Bucket(a, count, j))| == |multiset(Bucket(b, count, j))|;
    }
  }
}
