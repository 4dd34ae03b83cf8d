/** Aggregation of the seeds a quorum of oracles has delivered.

    The contract sorts the deliveries by oracle address in place and hashes the
    seeds in that order. The digest is a parameter. */
module QuorumSeeds {
  import opened Common

  type Delivery = (Address, u64)

  /** SHA-256 over the big-endian seeds, cut to 8 bytes: any function of the sequence. */
  type SeedDigest = seq<u64> -> u64

  ghost predicate Sorted(ds: seq<Delivery>)
  {
    forall i, j :: 0 <= i < j < |ds| ==> ds[i].0 <= ds[j].0
  }

  ghost predicate DistinctOracles(ds: seq<Delivery>)
  {
    forall i, j :: 0 <= i < j < |ds| ==> ds[i].0 != ds[j].0
  }

  function SeedsOf(ds: seq<Delivery>): (seeds: seq<u64>)
    ensures |seeds| == |ds|
  {
    seq(|ds|, i requires 0 <= i < |ds| => ds[i].1)
  }

  /** Put `d` behind the last delivery whose address is not greater. */
  function Insert(ds: seq<Delivery>, d: Delivery): (r: seq<Delivery>)
    ensures |r| == |ds| + 1
  {
    if ds == [] || ds[|ds| - 1].0 <= d.0 then ds + [d]
    else Insert(ds[..|ds| - 1], d) + [ds[|ds| - 1]]
  }

  function SortByOracle(ds: seq<Delivery>): (r: seq<Delivery>)
    ensures |r| == |ds|
  {
    if ds == [] then [] else Insert(SortByOracle(ds[..|ds| - 1]), ds[|ds| - 1])
  }

  function Aggregate(digest: SeedDigest, ds: seq<Delivery>): u64
  {
    if ds == [] then 0 else digest(SeedsOf(SortByOracle(ds)))
  }

  /** What holds of `d` and of every element of `ds` holds of every element of their mixture. */
  lemma BoundedMixture(ds: seq<Delivery>, d: Delivery, r: seq<Delivery>, bound: Address)
    requires multiset(r) == multiset(ds) + multiset{d}
    requires d.0 <= bound && forall i :: 0 <= i < |ds| ==> ds[i].0 <= bound
    ensures forall i :: 0 <= i < |r| ==> r[i].0 <= bound
  {
    forall i | 0 <= i < |r|
      ensures r[i].0 <= bound
    {
      assert r[i] in multiset(r);
      assert r[i] in multiset(ds) || r[i] == d;
    }
  }

  lemma AppendKeepsSorted(ds: seq<Delivery>, d: Delivery)
    requires Sorted(ds) && forall i :: 0 <= i < |ds| ==> ds[i].0 <= d.0
    ensures Sorted(ds + [d])
  {
  }

  lemma {:induction false} InsertIsSorted(ds: seq<Delivery>, d: Delivery)
    requires Sorted(ds)
    ensures Sorted(Insert(ds, d))
    ensures multiset(Insert(ds, d)) == multiset(ds) + multiset{d}
  {
    if ds == [] || ds[|ds| - 1].0 <= d.0 {
      AppendKeepsSorted(ds, d);
    } else {
      var init, last := ds[..|ds| - 1], ds[|ds| - 1];
      assert ds == init + [last];
      InsertIsSorted(init, d);
      BoundedMixture(init, d, Insert(init, d), last.0);
      AppendKeepsSorted(Insert(init, d), last);
    }
  }

  lemma {:induction false} SortIsSorted(ds: seq<Delivery>)
    ensures Sorted(SortByOracle(ds))
    ensures multiset(SortByOracle(ds)) == multiset(ds)
  {
    if ds == [] {
    } else {
      var init, last := ds[..|ds| - 1], ds[|ds| - 1];
      assert ds == init + [last];
      SortIsSorted(init);
      InsertIsSorted(SortByOracle(init), last);
    }
  }

  /** Two sorted sequences with distinct keys and the same elements are equal. */
  lemma {:induction false} SortedIsUnique(a: seq<Delivery>, b: seq<Delivery>)
    requires Sorted(a) && Sorted(b) && multiset(a) == multiset(b) && DistinctOracles(a)
    ensures a == b
    decreases |a|
  {
    SameLength(a, b);
    if a == [] {
    } else {
      SameHead(a, b);
      TailOf(a);
      TailOf(b);
      SortedIsUnique(a[1..], b[1..]);
    }
  }

  lemma SameLength(a: seq<Delivery>, b: seq<Delivery>)
    requires multiset(a) == multiset(b)
    ensures |a| == |b|
  {
    assert |multiset(a)| == |a| && |multiset(b)| == |b|;
  }

  lemma SameHead(a: seq<Delivery>, b: seq<Delivery>)
    requires Sorted(a) && Sorted(b) && multiset(a) == multiset(b) && DistinctOracles(a)
    requires a != [] && b != []
    ensures a[0] == b[0]
  {
    assert a[0] in multiset(b) && b[0] in multiset(a);
    var i :| 0 <= i < |b| && b[i] == a[0];
    var j :| 0 <= j < |a| && a[j] == b[0];
  }

  lemma TailOf(s: seq<Delivery>)
    requires s != []
    ensures multiset(s[1..]) == multiset(s) - multiset{s[0]}
  {
    assert s == [s[0]] + s[1..];
  }

  lemma DistinctUnderPermutation(a: seq<Delivery>, b: seq<Delivery>)
    requires multiset(a) == multiset(b) && DistinctOracles(a)
    ensures DistinctOracles(b)
  {
    forall i, j | 0 <= i < j < |b|
      ensures b[i].0 != b[j].0
    {
      assert b[i] in multiset(a) && b[j] in multiset(a);
      var k :| 0 <= k < |a| && a[k] == b[i];
      var l :| 0 <= l < |a| && a[l] == b[j];
      if k == l {
        TwiceIn(b, i, j);
        OnceIn(a, k);
      }
    }
  }

  lemma TwiceIn(s: seq<Delivery>, i: nat, j: nat)
    requires i < j < |s| && s[i] == s[j]
    ensures multiset(s)[s[i]] >= 2
  {
    assert s == s[..j] + [s[j]] + s[j + 1..];
    assert s[i] in s[..j];
    assert multiset(s[..j])[s[j]] >= 1;
  }

  lemma OnceIn(s: seq<Delivery>, k: nat)
    requires k < |s| && DistinctOracles(s)
    ensures multiset(s)[s[k]] == 1
  {
    assert s == s[..k] + [s[k]] + s[k + 1..];
    assert s[k] !in s[..k] && s[k] !in s[k + 1..];
  }

  /** The aggregate seed does not depend on the order in which distinct oracles delivered. */
  lemma AggregateIsOrderIndependent(digest: SeedDigest, a: seq<Delivery>, b: seq<Delivery>)
    requires multiset(a) == multiset(b) && DistinctOracles(a)
    ensures Aggregate(digest, a) == Aggregate(digest, b)
  {
    SortIsSorted(a);
    SortIsSorted(b);
    DistinctUnderPermutation(a, SortByOracle(a));
    SortedIsUnique(SortByOracle(a), SortByOracle(b));
    SameLength(a, b);
  }

  /** The inner loop of the insertion sort: swap entry `i` back to its place. */
  method SwapBack(unsorted: seq<Delivery>, i: nat) returns (sorted: seq<Delivery>)
    requires i < |unsorted|
    ensures |sorted| == |unsorted| && sorted[i + 1..] == unsorted[i + 1..]
    ensures sorted[..i + 1] == Insert(unsorted[..i], unsorted[i])
  {
    sorted := unsorted;
    var j := i;
    while j > 0
      invariant 0 <= j <= i && |sorted| == |unsorted|
      invariant sorted[i + 1..] == unsorted[i + 1..]
      invariant Insert(sorted[..j], sorted[j]) + sorted[j + 1..i + 1] == Insert(unsorted[..i], unsorted[i])
    {
      if sorted[j].0 < sorted[j - 1].0 {
        SwapInserts(sorted, j, i);
        sorted := sorted[j := sorted[j - 1]][j - 1 := sorted[j]];
        j := j - 1;
      } else {
        break;
      }
    }
    assert Insert(sorted[..j], sorted[j]) == sorted[..j] + [sorted[j]];
    assert sorted[..i + 1] == sorted[..j] + [sorted[j]] + sorted[j + 1..i + 1];
  }

  /** The contract's insertion sort, then the digest of the seeds in address order. */
  method AggregateQuorumSeeds(digest: SeedDigest, seeds: seq<Delivery>) returns (aggregate: u64)
    ensures aggregate == Aggregate(digest, seeds)
  {
    if seeds == [] {
      return 0;
    }
    var sorted := seeds;
    var i := 1;
    assert seeds[..1] == [seeds[0]] && SortByOracle(seeds[..1][..0]) == [];
    while i < |sorted|
      invariant 1 <= i <= |sorted| == |seeds|
      invariant sorted[..i] == SortByOracle(seeds[..i])
      invariant sorted[i..] == seeds[i..]
    {
      assert sorted[i] == sorted[i..][0] == seeds[i];
      assert seeds[..i + 1][..i] == seeds[..i];
      var next := SwapBack(sorted, i);
      assert sorted[i + 1..] == sorted[i..][1..] == seeds[i..][1..] == seeds[i + 1..];
      sorted := next;
      i := i + 1;
    }
    assert sorted[..i] == sorted && seeds[..i] == seeds;
    aggregate := digest(SeedsOf(sorted));
  }

  lemma SwapInserts(s: seq<Delivery>, j: nat, i: nat)
    requires 0 < j <= i < |s| && s[j].0 < s[j - 1].0
    ensures var t := s[j := s[j - 1]][j - 1 := s[j]];
            Insert(s[..j], s[j]) + s[j + 1..i + 1] == Insert(t[..j - 1], t[j - 1]) + t[j..i + 1]
  {
    var t := s[j := s[j - 1]][j - 1 := s[j]];
    assert s[..j][..j - 1] == t[..j - 1];
    assert t[j..i + 1] == [s[j - 1]] + s[j + 1..i + 1];
    var inner := Insert(s[..j - 1], s[j]);
    assert Insert(s[..j], s[j]) == inner + [s[j - 1]];
    assert (inner + [s[j - 1]]) + s[j + 1..i + 1] == inner + ([s[j - 1]] + s[j + 1..i + 1]);
  }

  // ---------------------------------------------------------------------------
  // What is hashed

  /** How many deliveries come from an oracle below `a`. */
  function Below(ds: seq<Delivery>, a: Address): (n: nat)
    ensures n <= |ds|
  {
    if ds == [] then 0
    else Below(ds[..|ds| - 1], a) + if ds[|ds| - 1].0 < a then 1 else 0
  }

  lemma BelowAppend(ds: seq<Delivery>, d: Delivery, a: Address)
    ensures Below(ds + [d], a) == Below(ds, a) + if d.0 < a then 1 else 0
  {
    assert (ds + [d])[..|ds|] == ds;
  }

  lemma {:induction false} BelowInsert(ds: seq<Delivery>, d: Delivery, a: Address)
    ensures Below(Insert(ds, d), a) == Below(ds, a) + if d.0 < a then 1 else 0
  {
    if ds == [] || ds[|ds| - 1].0 <= d.0 {
      BelowAppend(ds, d, a);
    } else {
      var n := |ds| - 1;
      BelowInsert(ds[..n], d, a);
      BelowAppend(Insert(ds[..n], d), ds[n], a);
    }
  }

  lemma {:induction false} BelowSort(ds: seq<Delivery>, a: Address)
    ensures Below(SortByOracle(ds), a) == Below(ds, a)
  {
    if ds != [] {
      var n := |ds| - 1;
      BelowSort(ds[..n], a);
      BelowInsert(SortByOracle(ds[..n]), ds[n], a);
    }
  }

  lemma {:induction false} AllBelow(ds: seq<Delivery>, a: Address)
    requires forall i :: 0 <= i < |ds| ==> ds[i].0 < a
    ensures Below(ds, a) == |ds|
  {
    if ds != [] {
      AllBelow(ds[..|ds| - 1], a);
    }
  }

  lemma {:induction false} BelowSorted(ds: seq<Delivery>, k: nat)
    requires Sorted(ds) && DistinctOracles(ds) && k < |ds|
    ensures Below(ds, ds[k].0) == k
    decreases |ds|
  {
    var n := |ds| - 1;
    if k == n {
      AllBelow(ds[..n], ds[n].0);
    } else {
      BelowSorted(ds[..n], k);
    }
  }

  /** Where a delivery stands after sorting: behind those from smaller addresses. */
  lemma SortedPlace(ds: seq<Delivery>, j: nat)
    requires DistinctOracles(ds) && j < |ds|
    ensures Below(ds, ds[j].0) < |ds| && SortByOracle(ds)[Below(ds, ds[j].0)] == ds[j]
  {
    var sorted := SortByOracle(ds);
    SortIsSorted(ds);
    DistinctUnderPermutation(ds, sorted);
    assert ds[j] in multiset(sorted);
    var k :| 0 <= k < |sorted| && sorted[k] == ds[j];
    BelowSorted(sorted, k);
    BelowSort(ds, ds[j].0);
  }

  /** The aggregate hashes every delivered seed once, in the order of the oracles' addresses. */
  lemma SeedsAreHashedInOrder(digest: SeedDigest, ds: seq<Delivery>) returns (hashed: seq<u64>)
    requires DistinctOracles(ds) && ds != []
    ensures Aggregate(digest, ds) == digest(hashed) && |hashed| == |ds|
    ensures forall j :: 0 <= j < |ds| ==> Below(ds, ds[j].0) < |ds| && hashed[Below(ds, ds[j].0)] == ds[j].1
  {
    hashed := SeedsOf(SortByOracle(ds));
    forall j | 0 <= j < |ds|
      ensures Below(ds, ds[j].0) < |ds| && hashed[Below(ds, ds[j].0)] == ds[j].1
    {
      SortedPlace(ds, j);
    }
  }

  /** So a digest that picks out one place shows the seed of the oracle of that rank, and one that
      measures shows as many seeds as deliveries. */
  lemma EachSeedIsHashed(ds: seq<Delivery>, j: nat)
    requires DistinctOracles(ds) && j < |ds|
    ensures var i := Below(ds, ds[j].0);
            Aggregate((xs: seq<u64>) => if i < |xs| then xs[i] else 0, ds) == ds[j].1
    ensures Aggregate((xs: seq<u64>) => if |xs| == |ds| then 1 else 0, ds) == 1
  {
    var i := Below(ds, ds[j].0);
    var hashed := SeedsAreHashedInOrder((xs: seq<u64>) => if i < |xs| then xs[i] else 0, ds);
    var measured := SeedsAreHashedInOrder((xs: seq<u64>) => if |xs| == |ds| then 1 else 0, ds);
  }
}
